/** Layer references, name@version, and the order in which versions are picked. */
module LayerRefs {
  import opened Options

  datatype Ref = Ref(name: string, version: string)

  function Key(r: Ref): string { r.name + "@" + r.version }

  /** strings.LastIndex for one character; None stands for -1. */
  function LastAt(s: string): (at: Option<nat>)
    ensures at.Some? ==> at.value < |s| && s[at.value] == '@' && forall i :: at.value < i < |s| ==> s[i] != '@'
    ensures at.None? ==> '@' !in s
  {
    if s == "" then None
    else if s[|s| - 1] == '@' then Some(|s| - 1)
    else assert s == s[..|s| - 1] + [s[|s| - 1]]; LastAt(s[..|s| - 1])
  }

  /** Only "" is refused; without '@' all of it is the name; otherwise the version
      starts behind the last one. */
  function ParseRef(s: string): (r: Option<Ref>)
    ensures r.None? <==> s == ""
    ensures s != "" && '@' !in s ==> r == Some(Ref(s, ""))
    ensures '@' in s ==> Key(r.value) == s && '@' !in r.value.version
  {
    if s == "" then None
    else match LastAt(s)
      case None => Some(Ref(s, ""))
      case Some(at) => Some(Ref(s[..at], s[at + 1..]))
  }

  /** A reference survives being written and parsed exactly if its version holds
      no '@'; its name may. */
  lemma RefRoundTripIff(r: Ref)
    ensures ParseRef(Key(r)) == Some(r) <==> '@' !in r.version
  {
    var s, n := Key(r), |r.name|;
    assert s[n] == '@' && s[..n] == r.name && s[n + 1..] == r.version;
    var at := LastAt(s).value;
    assert forall i :: n < i < |s| ==> s[i] == r.version[i - n - 1];
    assert '@' in r.version <==> at > n;
    assert |s[..at]| == at;
  }

  /** So references whose versions hold no '@' do not share an index entry. */
  lemma KeyIsInjective(a: Ref, b: Ref)
    requires Key(a) == Key(b) && '@' !in a.version && '@' !in b.version
    ensures a == b
  {
    RefRoundTripIff(a);
    RefRoundTripIff(b);
  }

  lemma KeysCanCollide()
    ensures Key(Ref("a@b", "c")) == Key(Ref("a", "b@c"))
  {
    assert Key(Ref("a@b", "c")) == "a@b@c" == Key(Ref("a", "b@c"));
  }

  // --- The order of sort.Strings ---

  predicate AtMost(s: string, t: string) {
    s == "" || (t != "" && (s[0] < t[0] || (s[0] == t[0] && AtMost(s[1..], t[1..]))))
  }

  lemma {:induction false} Total(s: string, t: string)
    ensures AtMost(s, t) || AtMost(t, s)
  {
    if s != "" && t != "" { Total(s[1..], t[1..]); }
  }

  lemma {:induction false} Antisymmetric(s: string, t: string)
    requires AtMost(s, t) && AtMost(t, s)
    ensures s == t
  {
    if s != "" {
      Antisymmetric(s[1..], t[1..]);
      assert s == [s[0]] + s[1..] && t == [t[0]] + t[1..];
    }
  }

  lemma {:induction false} Transitive(s: string, t: string, u: string)
    requires AtMost(s, t) && AtMost(t, u)
    ensures AtMost(s, u)
  {
    if s != "" && s[0] == t[0] == u[0] { Transitive(s[1..], t[1..], u[1..]); }
  }

  predicate Last(k: string, keys: set<string>) {
    k in keys && forall x :: x in keys ==> AtMost(x, k)
  }

  /** Sorting and taking the end. */
  method PickLast(keys: set<string>) returns (k: string)
    requires keys != {}
    ensures Last(k, keys)
  {
    k :| k in keys;
    var left := keys - {k};
    AtMostSelf(k);
    while left != {}
      invariant left <= keys && k in keys
      invariant forall x :: x in keys - left ==> AtMost(x, k)
      decreases |left|
    {
      var y :| y in left;
      Total(k, y);
      AtMostSelf(y);
      if !AtMost(y, k) {
        forall x | x in keys - left ensures AtMost(x, y) { Transitive(x, k, y); }
        k := y;
      }
      left := left - {y};
    }
  }

  lemma {:induction false} AtMostSelf(s: string)
    ensures AtMost(s, s)
  {
    if s != "" { AtMostSelf(s[1..]); }
  }
}
