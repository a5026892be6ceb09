/** Splitting a text into paragraphs at blank lines, and joining them again. */
module Paragraphs {
  predicate IsSpace(c: char) { c in {' ', '\t', '\n', '\r', '\U{000B}', '\U{000C}'} }

  function StripLeft(s: string): (r: string)
    ensures |r| <= |s| && s[|s| - |r|..] == r
    ensures r != "" ==> !IsSpace(r[0])
  {
    if s != "" && IsSpace(s[0]) then StripLeft(s[1..]) else s
  }

  function StripRight(s: string): (r: string)
    ensures r <= s
    ensures r != "" ==> !IsSpace(r[|r| - 1])
  {
    if s != "" && IsSpace(s[|s| - 1]) then StripRight(s[..|s| - 1]) else s
  }

  function Strip(s: string): string { StripRight(StripLeft(s)) }

  /** text.split("\n\n"). */
  function SplitBlank(t: string): (parts: seq<string>)
    ensures |parts| > 0
  {
    if |t| < 2 then [t]
    else if t[..2] == "\n\n" then [""] + SplitBlank(t[2..])
    else var rest := SplitBlank(t[1..]); [[t[0]] + rest[0]] + rest[1..]
  }

  /** The stripped parts that are not empty. */
  function Keep(parts: seq<string>): seq<string> {
    if parts == [] then []
    else (if Strip(parts[0]) != "" then [Strip(parts[0])] else []) + Keep(parts[1..])
  }

  function ParagraphsOf(t: string): seq<string> { Keep(SplitBlank(t)) }

  function JoinBlank(ps: seq<string>): string {
    if ps == [] then "" else if |ps| == 1 then ps[0] else ps[0] + "\n\n" + JoinBlank(ps[1..])
  }

  lemma {:induction false} JoinConcat(xs: seq<string>, ys: seq<string>)
    requires xs != [] && ys != []
    ensures JoinBlank(xs + ys) == JoinBlank(xs) + "\n\n" + JoinBlank(ys)
  {
    assert (xs + ys)[0] == xs[0];
    if |xs| == 1 {
      assert (xs + ys)[1..] == ys;
    } else {
      assert (xs + ys)[1..] == xs[1..] + ys;
      JoinConcat(xs[1..], ys);
      assert xs[0] + "\n\n" + (JoinBlank(xs[1..]) + "\n\n" + JoinBlank(ys)) == JoinBlank(xs) + "\n\n" + JoinBlank(ys);
    }
  }

  // --- What a paragraph looks like ---

  predicate NoBlank(p: string) {
    forall i :: 0 <= i < |p| - 1 ==> p[i] != '\n' || p[i + 1] != '\n'
  }

  /** Not empty, no white space at either end, no blank line inside. */
  predicate IsParagraph(p: string) {
    p != "" && !IsSpace(p[0]) && !IsSpace(p[|p| - 1]) && NoBlank(p)
  }

  predicate AllParagraphs(ps: seq<string>) { forall i :: 0 <= i < |ps| ==> IsParagraph(ps[i]) }

  lemma {:induction false} PartsHaveNoBlank(t: string)
    ensures forall i :: 0 <= i < |SplitBlank(t)| ==> NoBlank(SplitBlank(t)[i])
    ensures SplitBlank(t)[0] <= t
  {
    if |t| >= 2 {
      if t[..2] == "\n\n" {
        PartsHaveNoBlank(t[2..]);
      } else {
        PartsHaveNoBlank(t[1..]);
        var rest := SplitBlank(t[1..]);
        var first := [t[0]] + rest[0];
        assert rest[0] != "" ==> rest[0][0] == t[1];
        assert first <= t by { assert t == [t[0]] + t[1..]; }
        forall i | 0 <= i < |first| - 1 ensures first[i] != '\n' || first[i + 1] != '\n' {
          if i > 0 { assert first[i] == rest[0][i - 1] && first[i + 1] == rest[0][i]; }
        }
      }
    }
  }

  lemma PartHasNoBlank(p: string, i: nat, j: nat)
    requires NoBlank(p) && i <= j <= |p|
    ensures NoBlank(p[i..j])
  {
    var q := p[i..j];
    forall k | 0 <= k < |q| - 1 ensures q[k] != '\n' || q[k + 1] != '\n' {
      assert q[k] == p[i + k] && q[k + 1] == p[i + k + 1];
    }
  }

  lemma StripIsParagraph(p: string)
    requires NoBlank(p) && Strip(p) != ""
    ensures IsParagraph(Strip(p))
  {
    var l, r := StripLeft(p), Strip(p);
    var i := |p| - |l|;
    assert p[i..] == l && !IsSpace(l[0]);
    assert r <= l && !IsSpace(r[|r| - 1]);
    hide IsSpace, NoBlank, StripLeft, StripRight, Strip;
    assert l[0] == r[0] && r == l[..|r|];
    Sub(p, i, |r|);
    PartHasNoBlank(p, i, i + |r|);
  }

  lemma Sub(p: string, i: nat, n: nat)
    requires i + n <= |p|
    ensures p[i..][..n] == p[i..i + n]
  {
  }

  lemma {:induction false} KeepsParagraphs(parts: seq<string>)
    requires forall i :: 0 <= i < |parts| ==> NoBlank(parts[i])
    ensures AllParagraphs(Keep(parts))
  {
    if parts != [] {
      KeepsParagraphs(parts[1..]);
      if Strip(parts[0]) != "" { StripIsParagraph(parts[0]); }
    }
  }

  lemma {:induction false} ParagraphsAreParagraphs(t: string)
    ensures AllParagraphs(ParagraphsOf(t))
  {
    PartsHaveNoBlank(t);
    KeepsParagraphs(SplitBlank(t));
  }

  // --- Joining and splitting again ---

  lemma {:induction false} SplitOne(p: string)
    requires NoBlank(p)
    ensures SplitBlank(p) == [p]
  {
    if |p| >= 2 {
      assert p[0] != '\n' || p[1] != '\n';
      SplitOne(p[1..]);
      assert p == [p[0]] + p[1..];
    }
  }

  lemma {:induction false} SplitFirst(p: string, t: string)
    requires NoBlank(p) && (p != "" ==> p[|p| - 1] != '\n')
    ensures SplitBlank(p + "\n\n" + t) == [p] + SplitBlank(t)
  {
    var s := p + "\n\n" + t;
    if p == "" {
      assert s[..2] == "\n\n" && s[2..] == t;
    } else {
      assert s[1..] == p[1..] + "\n\n" + t;
      SplitFirst(p[1..], t);
      assert s[0] == p[0] && s[1] == if |p| > 1 then p[1] else '\n';
      assert s[..2][0] == s[0] && s[..2][1] == s[1];
      assert p == [p[0]] + p[1..];
    }
  }

  lemma {:induction false} SplitJoined(ps: seq<string>)
    requires AllParagraphs(ps) && ps != []
    ensures SplitBlank(JoinBlank(ps)) == ps
  {
    assert IsParagraph(ps[0]);
    if |ps| == 1 {
      SplitOne(ps[0]);
    } else {
      SplitJoined(ps[1..]);
      SplitFirst(ps[0], JoinBlank(ps[1..]));
    }
  }

  lemma {:induction false} KeepsAll(ps: seq<string>)
    requires AllParagraphs(ps)
    ensures Keep(ps) == ps
  {
    if ps != [] {
      assert IsParagraph(ps[0]);
      KeepsAll(ps[1..]);
    }
  }

  /** Joining paragraphs and splitting the result gives them back. */
  lemma {:induction false} JoinThenSplit(ps: seq<string>)
    requires AllParagraphs(ps)
    ensures ParagraphsOf(JoinBlank(ps)) == ps
  {
    if ps == [] {
      assert SplitBlank("") == [""] && Strip("") == "";
      assert Keep([""]) == [];
    } else {
      SplitJoined(ps);
      KeepsAll(ps);
    }
  }

  /** The parts are what stands between the blank lines. */
  lemma {:induction false} SplitThenJoin(t: string)
    ensures JoinBlank(SplitBlank(t)) == t
  {
    if |t| >= 2 {
      if t[..2] == "\n\n" {
        var rest := SplitBlank(t[2..]);
        SplitThenJoin(t[2..]);
        assert ([""] + rest)[1..] == rest;
        assert t == "\n\n" + t[2..];
      } else {
        var rest := SplitBlank(t[1..]);
        SplitThenJoin(t[1..]);
        var parts := [[t[0]] + rest[0]] + rest[1..];
        assert parts[1..] == rest[1..] && t == [t[0]] + t[1..];
        if |rest| == 1 { assert parts == [[t[0]] + rest[0]]; }
      }
    }
  }

  // --- No visible character is lost ---

  function Solid(s: string): string {
    if s == "" then "" else (if IsSpace(s[0]) then "" else [s[0]]) + Solid(s[1..])
  }

  /** Exactly the white space is dropped. */
  lemma {:induction false} SolidMeans(s: string)
    ensures forall c :: !IsSpace(c) ==> multiset(Solid(s))[c] == multiset(s)[c]
    ensures forall c :: c in Solid(s) ==> !IsSpace(c)
    ensures (forall c :: c in s ==> !IsSpace(c)) ==> Solid(s) == s
  {
    if s != "" {
      SolidMeans(s[1..]);
      assert s == [s[0]] + s[1..];
    }
  }

  lemma {:induction false} SolidConcat(s: string, t: string)
    ensures Solid(s + t) == Solid(s) + Solid(t)
  {
    if s == "" {
      assert s + t == t;
    } else {
      assert (s + t)[1..] == s[1..] + t;
      SolidConcat(s[1..], t);
    }
  }

  lemma {:induction false} SolidStripLeft(s: string)
    ensures Solid(StripLeft(s)) == Solid(s)
  {
    if s != "" && IsSpace(s[0]) { SolidStripLeft(s[1..]); }
  }

  lemma {:induction false} SolidStripRight(s: string)
    ensures Solid(StripRight(s)) == Solid(s)
  {
    if s != "" && IsSpace(s[|s| - 1]) {
      SolidStripRight(s[..|s| - 1]);
      assert s == s[..|s| - 1] + [s[|s| - 1]];
      SolidConcat(s[..|s| - 1], [s[|s| - 1]]);
    }
  }

  lemma {:induction false} SolidSplit(t: string)
    ensures SolidAll(SplitBlank(t)) == Solid(t)
  {
    if |t| >= 2 {
      if t[..2] == "\n\n" {
        SolidSplit(t[2..]);
        assert t == "\n\n" + t[2..];
        SolidConcat("\n\n", t[2..]);
        assert Solid("\n\n") == Solid("\n") == "";
      } else {
        SolidSplit(t[1..]);
        var rest := SplitBlank(t[1..]);
        SolidConcat([t[0]], rest[0]);
        assert t == [t[0]] + t[1..];
        SolidConcat([t[0]], t[1..]);
        assert SplitBlank(t) == [[t[0]] + rest[0]] + rest[1..];
      }
    } else {
      assert SolidAll([t]) == Solid(t) + SolidAll([]);
    }
  }

  function SolidAll(ps: seq<string>): string {
    if ps == [] then "" else Solid(ps[0]) + SolidAll(ps[1..])
  }

  lemma {:induction false} SolidKeep(parts: seq<string>)
    ensures SolidAll(Keep(parts)) == SolidAll(parts)
  {
    if parts != [] {
      SolidKeep(parts[1..]);
      SolidStripLeft(parts[0]);
      SolidStripRight(StripLeft(parts[0]));
      var x, rest := Strip(parts[0]), Keep(parts[1..]);
      assert Solid(x) == Solid(parts[0]) && Solid("") == "";
      hide Solid, Strip;
      if x != "" {
        assert Keep(parts) == [x] + rest && ([x] + rest)[1..] == rest;
      } else {
        assert Keep(parts) == rest && "" + SolidAll(rest) == SolidAll(rest);
      }
    }
  }

  lemma {:induction false} SolidJoin(ps: seq<string>)
    ensures Solid(JoinBlank(ps)) == SolidAll(ps)
  {
    if |ps| == 1 {
      assert SolidAll(ps) == Solid(ps[0]) + SolidAll(ps[1..]) && ps[1..] == [];
    } else if |ps| > 1 {
      SolidJoin(ps[1..]);
      SolidConcat(ps[0] + "\n\n", JoinBlank(ps[1..]));
      SolidConcat(ps[0], "\n\n");
      assert Solid("\n\n") == Solid("\n") == "";
    }
  }

  /** Only white space is lost on the way from the text to its paragraphs. */
  lemma {:induction false} OnlySpaceIsLost(t: string)
    ensures Solid(JoinBlank(ParagraphsOf(t))) == Solid(t)
  {
    SolidJoin(ParagraphsOf(t));
    SolidKeep(SplitBlank(t));
    SolidSplit(t);
  }
}
