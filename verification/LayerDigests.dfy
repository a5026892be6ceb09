/** Digest strings, and the directory a layer is cached under. */
module LayerDigests {
  import opened Paths

  /** sanitiseDigest. */
  function Sanitise(d: string): string {
    if d == "" then "" else [if d[0] == ':' then '-' else d[0]] + Sanitise(d[1..])
  }

  /** The cache directory: there is one. */
  type Root = s: string | s != "" witness "/"

  function Directory(root: Root, d: string): string { JoinPath(root, Sanitise(d)) }

  lemma {:induction false} SanitiseAt(d: string)
    ensures |Sanitise(d)| == |d|
    ensures forall i :: 0 <= i < |d| ==> Sanitise(d)[i] == if d[i] == ':' then '-' else d[i]
  {
    if d != "" { SanitiseAt(d[1..]); }
  }

  function LowerChar(c: char): char {
    if 'A' <= c <= 'Z' then (c as int + 32) as char else c
  }

  /** strings.ToLower on ASCII. */
  function Lower(s: string): (t: string)
    ensures |t| == |s| && forall i :: 0 <= i < |s| ==> t[i] == LowerChar(s[i])
  {
    if s == "" then "" else [LowerChar(s[0])] + Lower(s[1..])
  }

  const PREFIX := "sha256:"
  const HEX_LENGTH := 64

  function Skip(d: string): (n: nat)
    ensures n <= |d|
  {
    if PREFIX <= d then |PREFIX| else 0
  }

  function Normal(d: string): string { Lower(d[Skip(d)..]) }

  /** digestMatches: bare or prefixed hex, in either case, on either side. */
  predicate Matches(declared: string, got: string) { Normal(declared) == Normal(got) }

  predicate IsLowerHex(c: char): (r: bool)
    ensures r <==> c in "0123456789abcdef"
  {
    '0' <= c <= '9' || 'a' <= c <= 'f'
  }

  predicate IsHex(c: char): (r: bool)
    ensures r <==> c in "0123456789abcdefABCDEF"
  {
    IsLowerHex(c) || 'A' <= c <= 'F'
  }

  /** What hex.EncodeToString gives, with the prefix extractTarGz puts before it. */
  predicate IsHash(h: string) {
    PREFIX <= h && |h| == |PREFIX| + HEX_LENGTH && forall i :: |PREFIX| <= i < |h| ==> IsLowerHex(h[i])
  }

  /** A well-formed digest: hex of the right length, with or without the prefix. */
  predicate IsDigest(d: string) {
    |d| == Skip(d) + HEX_LENGTH && forall i :: Skip(d) <= i < |d| ==> IsHex(d[i])
  }

  // --- What can match ---

  lemma NormalAt(d: string, i: nat)
    requires Skip(d) <= i < |d|
    ensures |Normal(d)| == |d| - Skip(d) && Normal(d)[i - Skip(d)] == LowerChar(d[i])
  {
    hide LowerChar, Skip;
    assert d[Skip(d)..][i - Skip(d)] == d[i];
  }

  lemma NormalLength(d: string)
    ensures |Normal(d)| == |d| - Skip(d)
  {
  }

  lemma HexIff(c: char)
    ensures IsLowerHex(LowerChar(c)) <==> IsHex(c)
  {
  }

  /** Normalised, a digest is lower-case hex of the right length, and nothing else is. */
  lemma NormalIff(d: string)
    ensures IsDigest(d) <==> |Normal(d)| == HEX_LENGTH && forall i :: 0 <= i < HEX_LENGTH ==> IsLowerHex(Normal(d)[i])
  {
    NormalLength(d);
    var k := Skip(d);
    hide Normal, LowerChar, IsHex, IsLowerHex, Skip;
    if |d| == k + HEX_LENGTH {
      forall i | k <= i < |d| ensures IsHex(d[i]) <==> IsLowerHex(Normal(d)[i - k]) {
        NormalAt(d, i);
        HexIff(d[i]);
      }
      assert forall j :: 0 <= j < HEX_LENGTH ==> (IsLowerHex(Normal(d)[j]) <==> IsHex(d[j + k]));
    }
  }

  lemma HashIsDigest(h: string)
    requires IsHash(h)
    ensures IsDigest(h)
  {
  }

  lemma PrefixedIsHash(hex: string)
    requires |hex| == HEX_LENGTH && forall i :: 0 <= i < HEX_LENGTH ==> IsLowerHex(hex[i])
    ensures IsHash(PREFIX + hex) && Normal(PREFIX + hex) == hex
  {
    var h := PREFIX + hex;
    assert h[|PREFIX|..] == hex;
    forall i | 0 <= i < HEX_LENGTH ensures LowerChar(hex[i]) == hex[i] { assert IsLowerHex(hex[i]); }
    assert Lower(hex) == hex;
  }

  /** A digest can match some hash if and only if it is well-formed. */
  lemma CanMatchIff(d: string)
    ensures (exists h :: IsHash(h) && Matches(d, h)) <==> IsDigest(d)
  {
    NormalIff(d);
    hide Normal, IsDigest, IsHash, IsLowerHex;
    if IsDigest(d) {
      PrefixedIsHash(Normal(d));
      assert Matches(d, PREFIX + Normal(d));
    } else {
      forall h | IsHash(h) ensures !Matches(d, h) {
        HashIsDigest(h);
        NormalIff(h);
      }
    }
  }

  /** The same hex digit, in either case. */
  predicate SameDigit(c: char, x: char) { c == x || ('A' <= c <= 'F' && x as int == c as int + 32) }

  /** Digit by digit: a digest, with or without the prefix, matches a hash if and only if
      it has the same sixty-four digits. */
  lemma MatchesIff(d: string, h: string)
    requires IsHash(h)
    ensures var k := if "sha256:" <= d then 7 else 0;
      Matches(d, h) <==> |d[k..]| == 64 && forall i :: 0 <= i < 64 ==> SameDigit(d[k..][i], h[7..][i])
  {
    var k := Skip(d);
    NormalLength(d);
    NormalLength(h);
    assert Skip(h) == 7 && |Normal(h)| == 64;
    hide Normal, Lower, LowerChar, SameDigit, IsLowerHex;
    forall i | 0 <= i < 64 && |d| == k + 64
      ensures Normal(d)[i] == Normal(h)[i] <==> SameDigit(d[k..][i], h[7..][i])
    {
      NormalAt(d, k + i);
      NormalAt(h, 7 + i);
      SameDigitIff(d[k + i], h[7 + i]);
    }
    if |d| == k + 64 && (forall i :: 0 <= i < 64 ==> SameDigit(d[k..][i], h[7..][i])) {
      assert forall i :: 0 <= i < 64 ==> Normal(d)[i] == Normal(h)[i];
    }
  }

  lemma SameDigitIff(c: char, x: char)
    requires IsLowerHex(x)
    ensures LowerChar(c) == LowerChar(x) <==> SameDigit(c, x)
  {
  }

  // --- Directories ---

  lemma NoDash(d: string)
    requires IsDigest(d)
    ensures d != "" && '-' !in d && '/' !in Sanitise(d) && Sanitise(d) != "" && '.' !in Sanitise(d)
  {
    SanitiseAt(d);
    var k, x := Skip(d), Sanitise(d);
    forall i | 0 <= i < |d| ensures d[i] != '-' && d[i] != '/' && d[i] != '.' {
      if i < k { assert d[i] == PREFIX[i]; } else { assert IsHex(d[i]); }
    }
    assert forall i :: 0 <= i < |x| ==> x[i] != '/' && x[i] != '.';
  }

  /** A name in the cache directory. */
  lemma DirectoryNames(root: Root, x: string)
    requires Plain(x) && '.' !in x
    ensures JoinPath(root, x) == Render(IsAbs(root), Names(root) + [x])
    ensures Tidy(Names(root))
  {
    NamesAreTidy(root);
    var s := root + "/" + x;
    SplitConcat(root, x);
    SplitPlain(x);
    FoldConcat(IsAbs(root), [], Split(root), [x]);
    assert x != "." && x != "..";
    Fold1(IsAbs(root), Names(root), x);
  }

  lemma Fold1(rooted: bool, kept: seq<string>, x: string)
    requires Plain(x) && x != "." && x != ".."
    ensures Fold(rooted, kept, [x]) == kept + [x]
  {
    assert [x][1..] == [];
  }

  lemma RenderIsInjective(rooted: bool, kept: seq<string>, x: string, y: string)
    requires Tidy(kept) && Plain(x) && Plain(y) && Render(rooted, kept + [x]) == Render(rooted, kept + [y])
    ensures x == y
  {
    var xs, ys := kept + [x], kept + [y];
    if rooted { assert ("/" + Join(xs))[1..] == Join(xs) && ("/" + Join(ys))[1..] == Join(ys); }
    SplitJoin(xs);
    SplitJoin(ys);
    assert xs[|kept|] == x && ys[|kept|] == y;
  }

  lemma {:induction false} SameName(d: string, e: string)
    requires Sanitise(d) == Sanitise(e) && '-' !in d && '-' !in e
    ensures d == e
  {
    SanitiseAt(d);
    SanitiseAt(e);
    forall i | 0 <= i < |d| ensures d[i] == e[i] {
      assert Sanitise(d)[i] == Sanitise(e)[i];
      assert d[i] in d && e[i] in e;
    }
  }

  /** Well-formed digests do not share a directory. */
  lemma SameDirectory(root: Root, d: string, e: string)
    requires IsDigest(d) && IsDigest(e) && Directory(root, d) == Directory(root, e)
    ensures d == e
  {
    NoDash(d);
    NoDash(e);
    hide IsDigest, Sanitise;
    DirectoryNames(root, Sanitise(d));
    DirectoryNames(root, Sanitise(e));
    RenderIsInjective(IsAbs(root), Names(root), Sanitise(d), Sanitise(e));
    SameName(d, e);
  }

  /** Different digests can share a directory, but only one of them can ever pass
      the check: exactly the well-formed one. */
  lemma OneDigestPerDirectory(root: Root, d: string, e: string, h: string)
    requires IsHash(h) && Matches(d, h) && Directory(root, e) == Directory(root, d)
    ensures Matches(e, h) <==> IsDigest(e)
    ensures Matches(e, h) <==> e == d
  {
    CanMatchIff(d);
    CanMatchIff(e);
    hide IsDigest, IsHash, Normal, Directory;
    if IsDigest(e) { SameDirectory(root, d, e); }
  }

  /** A digest and its alias: the path is cleaned, so "./" before a digest leads to the
      same directory; and it never matches. */
  lemma AliasSharesDirectory(root: Root, d: string)
    requires IsDigest(d)
    ensures Directory(root, "./" + d) == Directory(root, d)
    ensures !IsDigest("./" + d)
  {
    NoDash(d);
    AliasIsNoDigest(d);
    AliasSanitised(d);
    hide IsDigest, Sanitise;
    DirectoryNames(root, Sanitise(d));
    AliasNames(root, Sanitise(d));
  }

  lemma AliasIsNoDigest(d: string)
    ensures !IsDigest("./" + d)
  {
    var alias := "./" + d;
    assert alias[0] == '.' && !(PREFIX <= alias);
  }

  lemma AliasSanitised(d: string)
    ensures Sanitise("./" + d) == "./" + Sanitise(d)
  {
    var alias := "./" + d;
    assert alias[1..] == "/" + d && alias[1..][1..] == d;
  }

  lemma AliasNames(root: Root, x: string)
    requires Plain(x) && '.' !in x
    ensures JoinPath(root, "./" + x) == Render(IsAbs(root), Names(root) + [x])
  {
    var s := root + "/" + ("./" + x);
    SplitConcat(root, "./" + x);
    SplitConcat(".", x);
    SplitPlain(".");
    SplitPlain(x);
    hide Split;
    assert "./" + x == "." + "/" + x;
    assert Split("./" + x) == [".", x];
    assert IsAbs(s) == IsAbs(root);
    FoldConcat(IsAbs(root), [], Split(root), [".", x]);
    FoldDot(IsAbs(root), Names(root), x);
  }

  lemma FoldDot(rooted: bool, kept: seq<string>, x: string)
    requires Plain(x) && x != "." && x != ".."
    ensures Fold(rooted, kept, [".", x]) == kept + [x]
  {
    assert [".", x][1..] == [x];
    Fold1(rooted, kept, x);
  }
}
