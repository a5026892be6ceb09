/** Admission between two flushes: any number of Allow calls race on one
    counter with a load / compare-and-swap loop. */
module QuotaAdmission {
  datatype Caller = Start | Loaded(cur: int) | Admitted | Denied

  /** limit and remote were read under the mutex and do not change here. */
  datatype Race = Race(limit: int, remote: int, count: int, callers: seq<Caller>)

  predicate Running(c: Caller) { c.Start? || c.Loaded? }

  /** Call k does its next atomic operation. */
  function Move(s: Race, k: nat): Race
    requires k < |s.callers|
  {
    match s.callers[k]
    case Start => s.(callers := s.callers[k := Loaded(s.count)])
    case Loaded(cur) =>
      if s.remote + cur + 1 > s.limit then s.(callers := s.callers[k := Denied])
      else if s.count == cur then s.(count := cur + 1, callers := s.callers[k := Admitted])
      else s.(callers := s.callers[k := Start])
    case _ => s
  }

  /** Any interleaving: at each moment one call that is still running moves. */
  ghost predicate Schedule(s: Race, picks: seq<nat>)
    decreases picks
  {
    picks != [] ==>
      picks[0] < |s.callers| && Running(s.callers[picks[0]]) && Schedule(Move(s, picks[0]), picks[1..])
  }

  ghost function Outcome(s: Race, picks: seq<nat>): Race
    requires Schedule(s, picks)
    decreases picks
  {
    if picks == [] then s else Outcome(Move(s, picks[0]), picks[1..])
  }

  function Fresh(limit: int, remote: int, count: int, n: nat): Race {
    Race(limit, remote, count, seq(n, _ => Start))
  }

  function Tickets(cs: seq<Caller>): nat {
    if cs == [] then 0 else Tickets(cs[1..]) + if cs[0].Admitted? then 1 else 0
  }

  function Room(s: Race): nat {
    if s.limit - s.remote - s.count > 0 then s.limit - s.remote - s.count else 0
  }

  // --- Sums over the callers ---

  lemma {:induction false} TicketsUpdate(cs: seq<Caller>, k: nat, c: Caller)
    requires k < |cs|
    ensures Tickets(cs[k := c]) == Tickets(cs) - (if cs[k].Admitted? then 1 else 0) + if c.Admitted? then 1 else 0
  {
    if k == 0 {
      assert cs[0 := c][1..] == cs[1..];
    } else {
      assert cs[k := c][1..] == cs[1..][k - 1 := c];
      TicketsUpdate(cs[1..], k - 1, c);
    }
  }

  lemma {:induction false} TicketsAll(cs: seq<Caller>)
    ensures Tickets(cs) <= |cs|
    ensures (forall c :: c in cs ==> c.Admitted?) ==> Tickets(cs) == |cs|
    ensures (forall c :: c in cs ==> !c.Admitted?) ==> Tickets(cs) == 0
  {
    if cs != [] {
      TicketsAll(cs[1..]);
      assert cs[0] in cs;
    }
  }

  // --- Safety: what the interleaving can do to the counter ---

  ghost predicate Fair(s: Race, start: int) {
    && s.count == start + Tickets(s.callers)
    && (Tickets(s.callers) > 0 ==> s.remote + s.count <= s.limit)
    && (forall c :: c in s.callers && c.Loaded? ==> c.cur <= s.count)
    && (Denied in s.callers ==> s.remote + s.count + 1 > s.limit)
  }

  lemma MoveIsFair(s: Race, k: nat, start: int)
    requires Fair(s, start) && k < |s.callers| && Running(s.callers[k])
    ensures Fair(Move(s, k), start)
    ensures s.callers[k].Loaded? && s.callers[k].cur != s.count ==> s.callers[k].cur < s.count
  {
    var s' := Move(s, k);
    TicketsUpdate(s.callers, k, s'.callers[k]);
    forall c | c in s'.callers ensures c == s'.callers[k] || c in s.callers {}
  }

  lemma {:induction false} OutcomeIsFair(s: Race, picks: seq<nat>, start: int)
    requires Fair(s, start) && Schedule(s, picks)
    ensures Fair(Outcome(s, picks), start)
    ensures var t := Outcome(s, picks); t.limit == s.limit && t.remote == s.remote && |t.callers| == |s.callers|
    decreases picks
  {
    if picks != [] {
      MoveIsFair(s, picks[0], start);
      OutcomeIsFair(Move(s, picks[0]), picks[1..], start);
    }
  }

  // --- Termination: failed swaps are paid for by the counter ---

  function Weight(c: Caller, count: int): nat {
    match c
    case Start => 2
    case Loaded(cur) => if cur == count then 1 else 3
    case _ => 0
  }

  function Work(cs: seq<Caller>, count: int): nat {
    if cs == [] then 0 else Weight(cs[0], count) + Work(cs[1..], count)
  }

  lemma {:induction false} WorkUpdate(cs: seq<Caller>, k: nat, c: Caller, count: int)
    requires k < |cs|
    ensures Work(cs[k := c], count) == Work(cs, count) - Weight(cs[k], count) + Weight(c, count)
  {
    if k == 0 {
      assert cs[0 := c][1..] == cs[1..];
    } else {
      assert cs[k := c][1..] == cs[1..][k - 1 := c];
      WorkUpdate(cs[1..], k - 1, c, count);
    }
  }

  lemma {:induction false} WorkBound(cs: seq<Caller>, count: int)
    ensures Work(cs, count) <= 3 * |cs|
  {
    if cs != [] { WorkBound(cs[1..], count); }
  }

  function Fuel(s: Race): nat { Room(s) * (3 * |s.callers| + 1) + Work(s.callers, s.count) }

  lemma MoveBurnsFuel(s: Race, k: nat)
    requires k < |s.callers| && Running(s.callers[k])
    ensures Fuel(Move(s, k)) < Fuel(s)
  {
    var s', n := Move(s, k), 3 * |s.callers| + 1;
    WorkUpdate(s.callers, k, s'.callers[k], s.count);
    if s'.count != s.count {
      WorkBound(s'.callers, s'.count);
      assert Room(s) == Room(s') + 1;
      assert Room(s) * n == Room(s') * n + n;
    }
  }

  // --- Main results ---

  /** The loop terminates under every interleaving: no schedule is longer than
      this bound, whatever the scheduler does. */
  lemma {:induction false} EveryScheduleEnds(s: Race, picks: seq<nat>)
    requires Schedule(s, picks)
    ensures |picks| <= Room(s) * (3 * |s.callers| + 1) + 3 * |s.callers|
  {
    FuelBoundsSchedule(s, picks);
    WorkBound(s.callers, s.count);
  }

  lemma {:induction false} FuelBoundsSchedule(s: Race, picks: seq<nat>)
    requires Schedule(s, picks)
    ensures |picks| <= Fuel(s)
    decreases picks
  {
    if picks != [] {
      MoveBurnsFuel(s, picks[0]);
      FuelBoundsSchedule(Move(s, picks[0]), picks[1..]);
    }
  }

  /** From wherever they are, the calls can all get through. */
  lemma {:induction false} EveryoneGetsThrough(s: Race) returns (picks: seq<nat>)
    ensures Schedule(s, picks) && forall c :: c in Outcome(s, picks).callers ==> !Running(c)
    decreases Fuel(s)
  {
    picks := [];
    if k: nat :| k < |s.callers| && Running(s.callers[k]) {
      MoveBurnsFuel(s, k);
      var more := EveryoneGetsThrough(Move(s, k));
      picks := [k] + more;
      assert picks[1..] == more;
    }
  }

  /** Exact admission: once all n calls are through, exactly
      min(n, max(0, limit - remote - count)) of them were admitted. */
  lemma ExactAdmission(limit: int, remote: int, count: int, n: nat, picks: seq<nat>)
    requires limit > 0
    requires Schedule(Fresh(limit, remote, count, n), picks)
    requires forall c :: c in Outcome(Fresh(limit, remote, count, n), picks).callers ==> !Running(c)
    ensures var s := Fresh(limit, remote, count, n);
            var t := Outcome(s, picks);
            && Tickets(t.callers) == (if n < Room(s) then n else Room(s))
            && t.count == count + Tickets(t.callers)
  {
    var s := Fresh(limit, remote, count, n);
    TicketsAll(s.callers);
    assert Fair(s, count);
    OutcomeIsFair(s, picks, count);
    var t := Outcome(s, picks);
    TicketsAll(t.callers);
    if Denied !in t.callers {
      assert forall c :: c in t.callers ==> c.Admitted?;
    }
  }
}
