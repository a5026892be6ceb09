/** Order-preserving filters over sequences: what the reaper's in-place pass
    over the instance slice computes. */
module Filtering {
  function Elements<T>(s: seq<T>): set<T> { set x | x in s }

  ghost predicate Distinct<T>(s: seq<T>) {
    forall i, j :: 0 <= i < j < |s| ==> s[i] != s[j]
  }

  /** The elements of s outside dead, in their order. */
  function Without<T(==)>(s: seq<T>, dead: set<T>): seq<T> {
    if s == [] then []
    else Without(s[..|s| - 1], dead) + if s[|s| - 1] in dead then [] else [s[|s| - 1]]
  }

  /** The elements of s inside dead, in their order. */
  function Only<T(==)>(s: seq<T>, dead: set<T>): seq<T> {
    if s == [] then []
    else Only(s[..|s| - 1], dead) + if s[|s| - 1] in dead then [s[|s| - 1]] else []
  }

  /** The two filters split s: membership by dead, nothing lost, nothing doubled. */
  lemma {:induction false} Membership<T>(s: seq<T>, dead: set<T>)
    ensures forall x :: x in Without(s, dead) <==> x in s && x !in dead
    ensures forall x :: x in Only(s, dead) <==> x in s && x in dead
  {
    if s != [] {
      var n := |s| - 1;
      Membership(s[..n], dead);
      assert s == s[..n] + [s[n]];
    }
  }

  lemma {:induction false} Partition<T>(s: seq<T>, dead: set<T>)
    ensures multiset(s) == multiset(Without(s, dead)) + multiset(Only(s, dead))
    ensures |s| == |Without(s, dead)| + |Only(s, dead)|
  {
    if s != [] {
      var n, x := |s| - 1, s[|s| - 1];
      var front := s[..n];
      Partition(front, dead);
      assert multiset(s) == multiset(front) + multiset{x} by { assert s == front + [x]; }
      if x in dead {
        assert Without(s, dead) == Without(front, dead);
        assert multiset(Only(s, dead)) == multiset(Only(front, dead)) + multiset{x};
      } else {
        assert Only(s, dead) == Only(front, dead);
        assert multiset(Without(s, dead)) == multiset(Without(front, dead)) + multiset{x};
      }
    }
  }

  lemma {:induction false} DistinctFilters<T>(s: seq<T>, dead: set<T>)
    requires Distinct(s)
    ensures Distinct(Without(s, dead)) && Distinct(Only(s, dead))
  {
    if s != [] {
      var n := |s| - 1;
      DistinctFilters(s[..n], dead);
      Membership(s[..n], dead);
    }
  }

  /** Only membership in s matters, so growing dead by strangers changes nothing. */
  lemma {:induction false} SameFilters<T>(s: seq<T>, dead: set<T>, dead': set<T>)
    requires forall x :: x in s ==> (x in dead <==> x in dead')
    ensures Without(s, dead) == Without(s, dead') && Only(s, dead) == Only(s, dead')
  {
    if s != [] {
      SameFilters(s[..|s| - 1], dead, dead');
    }
  }

  lemma {:induction false} Shorter<T>(s: seq<T>, dead: set<T>)
    ensures |Without(s, dead)| <= |s|
  {
    if s != [] { Shorter(s[..|s| - 1], dead); }
  }

  /** Nothing to remove: the pass leaves the slice as it was. */
  lemma {:induction false} NothingRemoved<T>(s: seq<T>, dead: set<T>)
    requires |Without(s, dead)| == |s|
    ensures Without(s, dead) == s && Only(s, dead) == []
  {
    if s != [] {
      var n := |s| - 1;
      Shorter(s[..n], dead);
      NothingRemoved(s[..n], dead);
      assert s == s[..n] + [s[n]];
    }
  }

  /** Survivors keep their relative order: an index map into s is increasing. */
  ghost predicate Embeds<T(!new)>(part: seq<T>, whole: seq<T>, at: seq<nat>) {
    && |at| == |part|
    && (forall i :: 0 <= i < |at| ==> at[i] < |whole| && whole[at[i]] == part[i])
    && (forall i, j :: 0 <= i < j < |at| ==> at[i] < at[j])
  }

  lemma EmbedsLonger<T(!new)>(part: seq<T>, whole: seq<T>, at: seq<nat>, x: T)
    requires Embeds(part, whole, at)
    ensures Embeds(part, whole + [x], at)
  {
  }

  lemma EmbedsSnoc<T(!new)>(part: seq<T>, whole: seq<T>, at: seq<nat>, x: T)
    requires Embeds(part, whole, at)
    ensures Embeds(part + [x], whole + [x], at + [|whole|])
  {
  }

  lemma {:induction false} KeepsOrder<T(!new)>(s: seq<T>, dead: set<T>) returns (at: seq<nat>)
    ensures Embeds(Without(s, dead), s, at)
  {
    at := [];
    if s != [] {
      var front, x := s[..|s| - 1], s[|s| - 1];
      at := KeepsOrder(front, dead);
      hide Embeds;
      assert s == front + [x];
      if x in dead {
        EmbedsLonger(Without(front, dead), front, at, x);
      } else {
        EmbedsSnoc(Without(front, dead), front, at, x);
        at := at + [|front|];
      }
    }
  }
}
