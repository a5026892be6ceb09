/** Unix paths as Go's filepath package treats them: lexically, component by
    component. */
module Paths {
  /** strings.Split(s, "/"). */
  function Split(s: string): (parts: seq<string>)
    ensures |parts| > 0
  {
    if s == "" then [""]
    else
      var rest := Split(s[1..]);
      if s[0] == '/' then [""] + rest else [[s[0]] + rest[0]] + rest[1..]
  }

  function Join(parts: seq<string>): string {
    if parts == [] then ""
    else if |parts| == 1 then parts[0]
    else parts[0] + "/" + Join(parts[1..])
  }

  predicate IsAbs(s: string) { s != "" && s[0] == '/' }

  /** One component against the components kept so far: empty ones and dots
      vanish, ".." takes back one name, and at the root it vanishes too. */
  function Push(rooted: bool, kept: seq<string>, part: string): seq<string> {
    if part == "" || part == "." then kept
    else if part != ".." then kept + [part]
    else if kept != [] && kept[|kept| - 1] != ".." then kept[..|kept| - 1]
    else if rooted then kept
    else kept + [part]
  }

  function Fold(rooted: bool, kept: seq<string>, parts: seq<string>): seq<string>
    decreases |parts|
  {
    if parts == [] then kept else Fold(rooted, Push(rooted, kept, parts[0]), parts[1..])
  }

  function Render(rooted: bool, kept: seq<string>): string {
    if rooted then "/" + Join(kept) else if kept == [] then "." else Join(kept)
  }

  function Names(s: string): seq<string> { Fold(IsAbs(s), [], Split(s)) }

  /** filepath.Clean. */
  function Clean(s: string): string { Render(IsAbs(s), Names(s)) }

  /** filepath.Join for a first element that is not empty. */
  function JoinPath(dst: string, s: string): string
    requires dst != ""
  {
    if s == "" then Clean(dst) else Clean(dst + "/" + s)
  }

  // --- Splitting and joining ---

  predicate Plain(part: string) { part != "" && '/' !in part }

  lemma {:induction false} SplitNames(s: string)
    ensures forall i :: 0 <= i < |Split(s)| ==> '/' !in Split(s)[i]
  {
    if s != "" { SplitNames(s[1..]); }
  }

  /** The first component ends where the first slash is. */
  lemma {:induction false} SplitFirst(s: string)
    ensures Split(s)[0] <= s && '/' !in Split(s)[0]
    ensures s == Split(s)[0] || Split(s)[0] + "/" <= s
  {
    if s != "" && s[0] != '/' {
      SplitFirst(s[1..]);
      assert s == [s[0]] + s[1..];
    }
  }

  lemma {:induction false} SplitConcat(s: string, t: string)
    ensures Split(s + "/" + t) == Split(s) + Split(t)
  {
    if s == "" {
      assert s + "/" + t == "/" + t && ("/" + t)[1..] == t;
    } else {
      assert (s + "/" + t)[1..] == s[1..] + "/" + t;
      SplitConcat(s[1..], t);
    }
  }

  lemma {:induction false} SplitPlain(part: string)
    requires '/' !in part
    ensures Split(part) == [part]
  {
    if part != "" {
      SplitPlain(part[1..]);
      assert part == [part[0]] + part[1..];
    }
  }

  lemma {:induction false} SplitJoin(parts: seq<string>)
    requires parts != [] && forall i :: 0 <= i < |parts| ==> '/' !in parts[i]
    ensures Split(Join(parts)) == parts
  {
    SplitPlain(parts[0]);
    if |parts| > 1 {
      SplitJoin(parts[1..]);
      SplitConcat(parts[0], Join(parts[1..]));
      assert parts == [parts[0]] + parts[1..];
    } else {
      assert parts == [parts[0]];
    }
  }

  lemma {:induction false} JoinConcat(xs: seq<string>, ys: seq<string>)
    requires xs != [] && ys != []
    ensures Join(xs + ys) == Join(xs) + "/" + Join(ys)
  {
    if |xs| == 1 {
      assert (xs + ys)[1..] == ys && (xs + ys)[0] == xs[0];
    } else {
      assert (xs + ys)[1..] == xs[1..] + ys && (xs + ys)[0] == xs[0];
      JoinConcat(xs[1..], ys);
      assert Join(xs + ys) == xs[0] + "/" + (Join(xs[1..]) + "/" + Join(ys));
    }
  }

  // --- Folding ---

  lemma {:induction false} FoldConcat(rooted: bool, kept: seq<string>, xs: seq<string>, ys: seq<string>)
    ensures Fold(rooted, kept, xs + ys) == Fold(rooted, Fold(rooted, kept, xs), ys)
    decreases |xs|
  {
    if xs == [] {
      assert xs + ys == ys;
    } else {
      assert (xs + ys)[1..] == xs[1..] + ys && (xs + ys)[0] == xs[0];
      FoldConcat(rooted, Push(rooted, kept, xs[0]), xs[1..], ys);
    }
  }

  /** What is kept is plain, and every ".." stands at the front. */
  predicate Tidy(kept: seq<string>) {
    && (forall i :: 0 <= i < |kept| ==> Plain(kept[i]) && kept[i] != ".")
    && (forall i, j :: 0 <= i < j < |kept| && kept[j] == ".." ==> kept[i] == "..")
  }

  lemma {:induction false} FoldIsTidy(rooted: bool, kept: seq<string>, parts: seq<string>)
    requires Tidy(kept) && (rooted ==> ".." !in kept)
    requires forall i :: 0 <= i < |parts| ==> '/' !in parts[i]
    ensures Tidy(Fold(rooted, kept, parts)) && (rooted ==> ".." !in Fold(rooted, kept, parts))
    decreases |parts|
  {
    if parts != [] {
      var next := Push(rooted, kept, parts[0]);
      if kept != [] && kept[|kept| - 1] == ".." {
        assert forall i :: 0 <= i < |kept| - 1 ==> kept[i] == "..";
      }
      FoldIsTidy(rooted, next, parts[1..]);
    }
  }

  /** The components that are names. */
  function Proper(parts: seq<string>): seq<string> {
    if parts == [] then []
    else (if parts[0] == "" || parts[0] == "." then [] else [parts[0]]) + Proper(parts[1..])
  }

  /** Without "..", folding only drops what is not a name. */
  lemma {:induction false} FoldKeeps(rooted: bool, kept: seq<string>, parts: seq<string>)
    requires ".." !in parts
    ensures Fold(rooted, kept, parts) == kept + Proper(parts)
    decreases |parts|
  {
    if parts != [] {
      FoldKeeps(rooted, Push(rooted, kept, parts[0]), parts[1..]);
    }
  }

  lemma {:induction false} ProperIsPlain(parts: seq<string>)
    requires ".." !in parts
    ensures ".." !in Proper(parts)
    ensures (forall i :: 0 <= i < |parts| ==> Plain(parts[i]) && parts[i] != ".") ==> Proper(parts) == parts
  {
    if parts != [] { ProperIsPlain(parts[1..]); }
  }

  lemma NamesAreTidy(s: string)
    ensures Tidy(Names(s)) && (IsAbs(s) ==> ".." !in Names(s))
  {
    SplitNames(s);
    FoldIsTidy(IsAbs(s), [], Split(s));
  }

  /** The names of a cleaned relative path, split again. */
  lemma CleanSplits(s: string)
    requires !IsAbs(s)
    ensures Split(Clean(s)) == if Names(s) == [] then ["."] else Names(s)
    ensures Clean(s) != ""
  {
    NamesAreTidy(s);
    if Names(s) == [] {
      assert Split(".") == ["."] by { SplitPlain("."); }
    } else {
      SplitJoin(Names(s));
      assert Plain(Names(s)[0]);
    }
  }

  lemma CleanAbsTwice(s: string)
    requires IsAbs(s)
    ensures IsAbs(Clean(s)) && Names(Clean(s)) == Names(s)
  {
    NamesAreTidy(s);
    var n := Names(s);
    assert Clean(s) == "" + "/" + Join(n);
    SplitConcat("", Join(n));
    assert Split("") == [""];
    if n != [] {
      SplitJoin(n);
      assert Split(Clean(s)) == [""] + n && ([""] + n)[1..] == n;
      assert ".." !in [""] + n;
      FoldKeeps(true, [], [""] + n);
      assert Proper([""] + n) == Proper(n) by { assert [] + Proper(n) == Proper(n); }
      ProperIsPlain(n);
      assert [] + n == n;
    } else {
      assert Split(Clean(s)) == [""] + [""] == ["", ""];
      FoldKeeps(true, [], ["", ""]);
      assert Proper(["", ""]) == Proper([""]) == [];
    }
  }

  lemma CleanRelTwice(s: string)
    requires !IsAbs(s)
    ensures !IsAbs(Clean(s)) && Names(Clean(s)) == Names(s)
  {
    NamesAreTidy(s);
    CleanSplits(s);
    FoldTidy(Names(s));
    assert Split(Clean(s))[0] != "";
  }

  /** Cleaning twice is cleaning once. */
  lemma CleanIsIdempotent(s: string)
    ensures Clean(Clean(s)) == Clean(s)
  {
    if IsAbs(s) { CleanAbsTwice(s); } else { CleanRelTwice(s); }
  }

  lemma FoldTidy(n: seq<string>)
    requires Tidy(n)
    ensures Fold(false, [], n) == n
  {
    FoldTidyFrom(n, 0);
  }

  lemma {:induction false} FoldTidyFrom(n: seq<string>, i: nat)
    requires Tidy(n) && i <= |n|
    ensures Fold(false, n[..i], n[i..]) == n
    decreases |n| - i
  {
    if i < |n| {
      assert n[..i + 1] == n[..i] + [n[i]] && n[i..][1..] == n[i + 1..];
      FoldTidyFrom(n, i + 1);
    } else {
      assert n[..i] == n;
    }
  }

  // --- The rules of Clean ---

  /** Components that change nothing can be left out. */
  lemma CleanSkips(s: string, mid: seq<string>, t: string)
    requires mid != [] && forall i :: 0 <= i < |mid| ==> '/' !in mid[i]
    requires var kept := Fold(s == "" || IsAbs(s), [], Split(s)); Fold(s == "" || IsAbs(s), kept, mid) == kept
    ensures Clean(s + "/" + Join(mid) + "/" + t) == Clean(s + "/" + t)
  {
    var rooted, full := s == "" || IsAbs(s), s + "/" + Join(mid) + "/" + t;
    SplitConcat(s, t);
    SplitConcat(s + "/" + Join(mid), t);
    SplitConcat(s, Join(mid));
    SplitJoin(mid);
    hide Split, Fold, Join;
    assert IsAbs(full) == rooted && IsAbs(s + "/" + t) == rooted;
    FoldConcat(rooted, [], Split(s) + mid, Split(t));
    FoldConcat(rooted, [], Split(s), mid);
    FoldConcat(rooted, [], Split(s), Split(t));
  }

  lemma JoinOne(x: string)
    ensures Join([x]) == x
  {
  }

  lemma JoinTwo(x: string, y: string)
    ensures Join([x, y]) == x + "/" + y
  {
    assert [x, y][1..] == [y];
  }

  /** Empty components and dots are dropped. */
  lemma CleanDropsDots(s: string, t: string)
    ensures Clean(s + "//" + t) == Clean(s + "/" + t)
    ensures Clean(s + "/./" + t) == Clean(s + "/" + t)
  {
    CleanSkips(s, [""], t);
    CleanSkips(s, ["."], t);
    JoinOne("");
    JoinOne(".");
    assert s + "//" + t == s + "/" + "" + "/" + t;
    assert s + "/./" + t == s + "/" + "." + "/" + t;
  }

  lemma CleanDropsFirstDot(t: string)
    requires !IsAbs(t)
    ensures Clean("./" + t) == Clean(t)
  {
    SplitConcat(".", t);
    SplitPlain(".");
    assert "./" + t == "." + "/" + t;
    assert (["."] + Split(t))[1..] == Split(t);
    hide Split;
  }

  /** A name and the ".." behind it are dropped, whatever comes before them. */
  lemma CleanUndoes(s: string, x: string, t: string)
    requires Plain(x) && x != "." && x != ".."
    ensures Clean(s + "/" + x + "/../" + t) == Clean(s + "/" + t)
  {
    var rooted := s == "" || IsAbs(s);
    UndoOne(rooted, Fold(rooted, [], Split(s)), x);
    CleanSkips(s, [x, ".."], t);
    JoinTwo(x, "..");
    assert s + "/" + x + "/../" + t == s + "/" + (x + "/" + "..") + "/" + t;
  }

  lemma UndoOne(rooted: bool, kept: seq<string>, x: string)
    requires Plain(x) && x != "." && x != ".."
    ensures Fold(rooted, kept, [x, ".."]) == kept
  {
    assert [x, ".."][1..] == [".."] && [".."][1..] == [];
    assert (kept + [x])[..|kept|] == kept;
  }

  /** The root has no parent. */
  lemma CleanStaysAtRoot(t: string)
    ensures Clean("/../" + t) == Clean("/" + t)
  {
    assert Fold(true, [], [""]) == [] by { assert [""][1..] == []; }
    assert Fold(true, [], [".."]) == [] by { assert [".."][1..] == []; }
    CleanSkips("", [".."], t);
    JoinOne("..");
    assert "/../" + t == "" + "/" + ".." + "/" + t;
  }

  /** What has none of these is left as it is: names behind any number of "..", which
      an absolute path does not have.  Nothing at all becomes a dot. */
  lemma CleanKeeps(n: seq<string>)
    requires n != [] && Tidy(n)
    ensures Clean(Join(n)) == Join(n)
    ensures ".." !in n ==> Clean("/" + Join(n)) == "/" + Join(n)
    ensures Clean("") == "."
  {
    SplitJoin(n);
    FoldTidy(n);
    assert !IsAbs(Join(n)) by { SplitFirst(Join(n)); assert Plain(n[0]); }
    if ".." !in n {
      SplitConcat("", Join(n));
      assert "" + "/" + Join(n) == "/" + Join(n) && Split("") == [""];
      assert ([""] + n)[1..] == n;
      FoldKeeps(true, [], [""] + n);
      ProperIsPlain(n);
      assert [] + n == n;
    }
  }
}
