/** The gateway's maps of functions and pools. */
module FunctionRegistry {
  import opened Options
  import opened WatchEvents
  import opened FunctionCache
  import opened InMemStore
  import P = InstancePool

  class Registry {
    var functions: map<string, FunctionDef>
    var pools: map<string, P.Pool>

    /** A pool belongs to the current definition of its function: it has that
        definition's size, which is at least one. */
    ghost predicate Valid()
      reads this, pools.Values, (set p | p in pools.Values :: p.slots)
    {
      && (forall n :: n in functions ==> functions[n].name == n && functions[n].maxConcurrency >= 1)
      && (forall n :: n in pools ==>
            n in functions && pools[n].Valid() && pools[n].maxSize == functions[n].maxConcurrency)
      && (forall m, n :: m in pools && n in pools && pools[m] == pools[n] ==> m == n)
    }

    constructor ()
      ensures Valid() && functions == map[] && pools == map[]
    {
      functions, pools := map[], map[];
    }

    /** The pool of a function, if it has one. */
    function Pooled(name: string): set<P.Pool>
      reads this`pools
    {
      if name in pools then {pools[name]} else {}
    }

    /** The instances in that pool. */
    ghost function Warm(name: string): seq<P.ManagedInstance>
      requires Valid()
      reads this, pools.Values, (set p | p in pools.Values :: p.slots)
    {
      if name in pools then pools[name].Live() else []
    }

    /** Each of these instances has been closed once since the call began. */
    twostate predicate ClosedOnce(ms: seq<P.ManagedInstance>)
      reads ms`closes
    {
      forall mi :: mi in ms ==> mi.closes == old(mi.closes) + 1
    }

    /** Closes a pool that has been taken out of the map. */
    method ShutDown(p: P.Pool)
      requires Valid() && p.Valid() && p !in pools.Values
      modifies p`len, p.Live()`closes
      ensures Valid() && p.len == 0 && ClosedOnce(old(p.Live()))
    {
      hide P.Pool.Valid, P.Pool.Live;
      p.CloseAll();
    }

    /** Replaces the definition and shuts the pool of the previous one down. */
    method ApplyPut(def: FunctionDef)
      requires Valid()
      modifies this, Pooled(def.name)`len, Warm(def.name)`closes
      ensures Valid()
      ensures functions == old(functions)[def.name := Normalise(def)]
      ensures pools == old(pools) - {def.name}
      ensures def.name in old(pools) ==> old(pools[def.name]).len == 0
      ensures ClosedOnce(old(Warm(def.name)))
    {
      hide P.Pool.Valid, P.Pool.Live;
      functions := functions[def.name := Normalise(def)];
      if def.name in pools {
        var p := pools[def.name];
        pools := pools - {def.name};
        ShutDown(p);
      }
    }

    method ApplyDelete(name: string)
      requires Valid()
      modifies this, Pooled(name)`len, Warm(name)`closes
      ensures Valid()
      ensures functions == old(functions) - {name}
      ensures pools == old(pools) - {name}
      ensures name in old(pools) ==> old(pools[name]).len == 0
      ensures ClosedOnce(old(Warm(name)))
    {
      hide P.Pool.Valid, P.Pool.Live;
      functions := functions - {name};
      if name in pools {
        var p := pools[name];
        pools := pools - {name};
        ShutDown(p);
      }
    }

    twostate predicate Untouched(ms: seq<P.ManagedInstance>)
      reads ms`closes
    {
      forall mi :: mi in ms ==> mi.closes == old(mi.closes)
    }

    /** The event changes something: a delete, or a put of a name still stored. */
    predicate Applies(store: InMemStore, ev: Event)
      reads store`functions
    {
      ev.kind.FunctionDelete? || (ev.kind.FunctionPut? && ev.name in store.functions)
    }

    /** The watch loop at one event: a put is looked up in the store again and
        ignored if the function is gone by now; a delete is applied unchecked. */
    method ApplyEvent(store: InMemStore, ev: Event)
      requires Valid() && forall n :: n in store.functions ==> store.functions[n].name == n
      modifies this, Pooled(ev.name)`len, Warm(ev.name)`closes
      ensures Valid()
      ensures functions == match ev.kind
        case FunctionPut =>
          if ev.name in store.functions then old(functions)[ev.name := Normalise(store.functions[ev.name])]
          else old(functions)
        case FunctionDelete => old(functions) - {ev.name}
        case _ => old(functions)
      ensures pools == if Applies(store, ev) then old(pools) - {ev.name} else old(pools)
      ensures if Applies(store, ev) then ClosedOnce(old(Warm(ev.name))) else Untouched(old(Warm(ev.name)))
    {
      if ev.kind.FunctionPut? {
        if ev.name in store.functions { ApplyPut(store.functions[ev.name]); }
      } else if ev.kind.FunctionDelete? {
        ApplyDelete(ev.name);
      }
    }

    /** The pool a request acquires from; created on first use. */
    method PoolFor(name: string) returns (r: Option<P.Pool>)
      requires Valid()
      modifies this`pools
      ensures Valid() && (r.Some? <==> name in functions)
      ensures r.Some? ==> name in pools && r.value == pools[name] && r.value.maxSize == functions[name].maxConcurrency
      ensures name in old(pools) || r.None? ==> pools == old(pools)
      ensures name !in old(pools) && r.Some? ==>
          pools == old(pools)[name := r.value] && fresh(r.value) && r.value.len == 0
    {
      if name !in functions { return None; }
      if name !in pools {
        var p := new P.Pool(functions[name].maxConcurrency);
        assert forall n :: n in pools ==> pools[n] != p;
        pools := pools[name := p];
      }
      return Some(pools[name]);
    }
  }
}
