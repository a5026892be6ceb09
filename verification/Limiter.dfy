/** The quota limiter of one gateway and the tenancy part of the store it
    flushes to, written with the loops and the shared counters of the source. */
module Limiter {
  import opened BucketSums

  datatype Key = Key(project: string, kind: string)

  /** A counter cell; every goroutine that counts holds the same cell. */
  class Counter {
    var value: int

    constructor ()
      ensures value == 0
    {
      value := 0;
    }

    /** The compare-and-swap loop, for this much room. */
    method Admit(room: int, rival: nat -> nat) returns (admitted: bool, rounds: nat)
      modifies this
      ensures value == old(value) + Rivals(rival, rounds) + if admitted then 1 else 0
      ensures admitted ==> value <= room && rival(rounds) == 0
      ensures !admitted ==> value + 1 > room
    {
      rounds := 0;
      while true
        invariant value == old(value) + Rivals(rival, rounds)
        decreases room - value
      {
        var cur := value;
        if cur + 1 > room {
          return false, rounds;
        }
        value := value + rival(rounds);        // other goroutines run here
        if value == cur {
          value := cur + 1;
          return true, rounds;
        }
        rounds := rounds + 1;
      }
    }
  }

  type Usage = map<Key, map<nat, int>>

  function UsageOf(u: Usage, k: Key): map<nat, int> { if k in u then u[k] else map[] }

  const MINUTE := 60

  function Truncate(now: nat): (b: nat)
    ensures b <= now < b + 60 && b % 60 == 0
  {
    now - now % MINUTE
  }

  /** Projects, quotas and usage of the in-memory store. */
  class TenancyStore {
    var projects: set<string>
    var quotas: map<Key, int>
    var usage: Usage

    constructor ()
      ensures projects == {} && quotas == map[] && usage == map[]
    {
      projects, quotas, usage := {}, map[], map[];
    }

    method SetQuota(k: Key, value: int)
      modifies this`quotas
      ensures quotas == old(quotas)[k := value]
    {
      quotas := quotas[k := value];
    }

    /** Rejects a negative delta and changes nothing then. */
    method AddQuotaUsage(k: Key, at: nat, delta: int) returns (ok: bool)
      modifies this`usage
      ensures ok == (delta >= 0)
      ensures usage == if ok then old(usage)[k := Add(UsageOf(old(usage), k), Truncate(at), delta)] else old(usage)
      ensures forall j, since: nat ::
        Since(UsageOf(usage, j), since) ==
        Since(UsageOf(old(usage), j), since) + if ok && j == k && since <= Truncate(at) then delta else 0
    {
      if delta < 0 { return false; }
      forall since: nat { SinceAdd(UsageOf(usage, k), Truncate(at), delta, since); }
      usage := usage[k := Add(UsageOf(usage, k), Truncate(at), delta)];
      return true;
    }

    /** Sums the buckets at or after the minute of `at`, in map order. */
    method GetQuotaUsage(k: Key, at: nat) returns (total: int)
      ensures total == Since(UsageOf(usage, k), Truncate(at))
      ensures (forall b :: b in UsageOf(usage, k) ==> b + MINUTE <= at) ==> total == 0
    {
      if forall b :: b in UsageOf(usage, k) ==> b + MINUTE <= at { SinceNone(UsageOf(usage, k), Truncate(at)); }
      var start, buckets := Truncate(at), UsageOf(usage, k);
      total := 0;
      var rest := buckets.Keys;
      ghost var seen: set<nat> := {};
      while rest != {}
        invariant rest + seen == buckets.Keys && rest !! seen
        invariant total == Sum(buckets, set b: nat | b in seen && b >= start)
      {
        var ts :| ts in rest;
        ghost var before := set b: nat | b in seen && b >= start;
        ghost var after := set b: nat | b in seen + {ts} && b >= start;
        if ts >= start {
          total := total + buckets[ts];
          SumPick(buckets, after, ts);
          assert after - {ts} == before;
        } else {
          assert after == before;
        }
        rest, seen := rest - {ts}, seen + {ts};
      }
      assert seen == buckets.Keys;
      assert (set b: nat | b in seen && b >= start) == (set b: nat | b in buckets && b >= start);
    }
  }

  /** What other goroutines add to the counter in the first n rounds of a CAS loop. */
  function Rivals(rival: nat -> nat, n: nat): nat { if n == 0 then 0 else Rivals(rival, n - 1) + rival(n - 1) }

  /** Which of its calls the store answers during a flush. */
  datatype Answering =
    Answering(push: Key -> bool, listing: bool, quotas: string -> bool, usage: Key -> bool)
  {
    /** The quota of k is read. */
    predicate Quota(store: TenancyStore, k: Key)
      reads store`quotas, store`projects
    {
      listing && k in store.quotas && k.project in store.projects && quotas(k.project)
    }
  }

  class Limiter {
    var local: map<Key, Counter>
    var remote: map<Key, int>
    var limits: map<Key, int>

    /** No two keys share a cell. */
    ghost predicate Valid()
      reads this
    {
      forall j, k :: j in local && k in local && local[j] == local[k] ==> j == k
    }

    constructor ()
      ensures Valid() && local == map[] && remote == map[] && limits == map[]
    {
      local, remote, limits := map[], map[], map[];
    }

    /** Counters are created once and never replaced. */
    method GetOrCreateCounter(k: Key) returns (c: Counter)
      requires Valid()
      modifies this`local
      ensures Valid() && k in local && local[k] == c
      ensures k in old(local) ==> local == old(local)
      ensures k !in old(local) ==> local == old(local)[k := c] && fresh(c) && c.value == 0
    {
      if k in local { return local[k]; }
      c := new Counter();
      assert forall j :: j in local ==> local[j] != c;
      local := local[k := c];
    }

    /** One admission decision.  rival(n) is what other goroutines add between
        the load and the compare-and-swap of round n.  The result is decided on
        the counter's value at the deciding atomic operation. */
    method Allow(k: Key, rival: nat -> nat) returns (admitted: bool, rounds: nat)
      requires Valid()
      modifies this`local, local.Values
      ensures Valid() && local.Keys == old(local.Keys) + {k}
      ensures forall j :: j in old(local) ==>
          local[j] == old(local)[j] && (j != k ==> local[j].value == old(local[j].value))
      ensures var before := if k in old(local) then old(local[k].value) else 0;
              local[k].value == before + Rivals(rival, rounds) + if admitted then 1 else 0
      ensures At(limits, k) <= 0 ==> admitted && rounds == 0
      ensures At(limits, k) > 0 && admitted ==> rival(rounds) == 0
      ensures At(limits, k) > 0 ==>
        if admitted then At(remote, k) + local[k].value <= At(limits, k)
        else At(remote, k) + local[k].value + 1 > At(limits, k)
    {
      var limit, seen := At(limits, k), At(remote, k);
      var c := GetOrCreateCounter(k);
      if limit <= 0 {
        c.value := c.value + 1;
        return true, 0;
      }
      admitted, rounds := c.Admit(limit - seen, rival);
    }

    method Observe(k: Key, delta: int)
      requires Valid()
      modifies this`local, local.Values
      ensures Valid() && local.Keys == old(local.Keys) + {k}
      ensures forall j :: j in old(local) ==>
          local[j] == old(local)[j] && (j != k ==> local[j].value == old(local[j].value))
      ensures local[k].value == (if k in old(local) then old(local[k].value) else 0) + delta
    {
      var c := GetOrCreateCounter(k);
      c.value := c.value + delta;
    }

    /** flush, first half: every counter is swapped to zero, positive values
        become samples. */
    method SwapAll() returns (samples: map<Key, int>)
      requires Valid()
      modifies local.Values
      ensures forall k :: k in local ==> local[k].value == 0
      ensures forall k :: k in samples <==> k in local && old(local[k].value) > 0
      ensures forall k :: k in samples ==> samples[k] == old(local[k].value)
    {
      samples := map[];
      var rest := local.Keys;
      while rest != {}
        invariant rest <= local.Keys
        invariant forall k :: k in local ==> local[k].value == if k in rest then old(local[k].value) else 0
        invariant forall k :: k in samples <==> k in local && k !in rest && old(local[k].value) > 0
        invariant forall k :: k in samples ==> samples[k] == old(local[k].value)
      {
        var k :| k in rest;
        var d := local[k].value;
        local[k].value := 0;
        if d > 0 { samples := samples[k := d]; }
        rest := rest - {k};
      }
    }

    /** flush: swap, push the samples, then read back limits and usage.  Only a listing
        of projects that fails is an error; other failures are passed over. */
    method Flush(store: TenancyStore, now: nat, up: Answering) returns (ok: bool)
      requires Valid()
      modifies this`remote, this`limits, local.Values, store`usage
      ensures Valid() && local == old(local) && ok == up.listing
      ensures forall k :: k in local ==> local[k].value == 0
      ensures forall k ::
        var value := if k in local then old(local[k].value) else 0;
        UsageOf(store.usage, k) == FlushKey(value, up.push(k), UsageOf(old(store.usage), k), Truncate(now))
      ensures forall k, x: nat | x != Truncate(now) ::
        At(UsageOf(store.usage, k), x) == At(UsageOf(old(store.usage), k), x)
      ensures forall k ::
        var read := up.listing && k in store.quotas && k.project in store.projects && up.quotas(k.project);
        && At(limits, k) == (if read then store.quotas[k] else old(At(limits, k)))
        && At(remote, k) ==
           if read && up.usage(k) then Since(UsageOf(store.usage, k), Truncate(now)) else old(At(remote, k))
    {
      var samples := SwapAll();
      PushAll(store, samples, now, up);
      ok := up.listing;
      if ok { RefreshAll(store, now, up); }
    }

    method PushAll(store: TenancyStore, samples: map<Key, int>, now: nat, up: Answering)
      requires forall k :: k in samples ==> samples[k] > 0
      modifies store`usage
      ensures forall k ::
        var delta := if k in samples then samples[k] else 0;
        UsageOf(store.usage, k) == FlushKey(delta, up.push(k), UsageOf(old(store.usage), k), Truncate(now))
    {
      var rest := samples.Keys;
      while rest != {}
        invariant rest <= samples.Keys
        invariant forall k ::
          var delta := if k in samples && k !in rest then samples[k] else 0;
          UsageOf(store.usage, k) == FlushKey(delta, up.push(k), UsageOf(old(store.usage), k), Truncate(now))
      {
        var k :| k in rest;
        if up.push(k) { var _ := store.AddQuotaUsage(k, now, samples[k]); }
        rest := rest - {k};
      }
    }

    method RefreshAll(store: TenancyStore, now: nat, up: Answering)
      requires up.listing
      modifies this`remote, this`limits
      ensures forall k :: At(limits, k) == if up.Quota(store, k) then store.quotas[k] else old(At(limits, k))
      ensures forall k ::
        At(remote, k) == if up.Quota(store, k) && up.usage(k) then Since(UsageOf(store.usage, k), Truncate(now))
                         else old(At(remote, k))
    {
      var rest := set k | k in store.quotas && up.Quota(store, k);
      while rest != {}
        invariant forall k :: k in rest ==> up.Quota(store, k)
        invariant forall k ::
          At(limits, k) == if up.Quota(store, k) && k !in rest then store.quotas[k] else old(At(limits, k))
        invariant forall k ::
          At(remote, k) == if up.Quota(store, k) && k !in rest && up.usage(k)
                           then Since(UsageOf(store.usage, k), Truncate(now)) else old(At(remote, k))
      {
        var k :| k in rest;
        limits := limits[k := store.quotas[k]];
        if up.usage(k) {
          var used := store.GetQuotaUsage(k, now);
          remote := remote[k := used];
        }
        rest := rest - {k};
      }
    }
  }

  /** What one flush does to one key, as values: the counter goes to zero and a
      positive value goes to the table, if the store takes it. */
  function FlushKey(value: int, taken: bool, buckets: map<nat, int>, b: nat): (after: map<nat, int>)
    ensures forall x: nat | x != b :: At(after, x) == At(buckets, x)
    ensures At(after, b) - At(buckets, b) == if taken && value > 0 then value else 0
  {
    if value > 0 && taken then Add(buckets, b, value) else buckets
  }

  /** A flush loses no usage exactly when the counter is zero, or positive and the
      store takes it: a negative sum of observed deltas is swapped away and never
      written, and so is a sample that the store refuses. */
  lemma FlushConservesIff(value: int, taken: bool, buckets: map<nat, int>, b: nat)
    ensures var after := FlushKey(value, taken, buckets, b);
            value + Sum(buckets, buckets.Keys) == Sum(after, after.Keys) <==> value == 0 || (value > 0 && taken)
  {
    if value > 0 { SumAdd(buckets, b, value); }
  }
}
