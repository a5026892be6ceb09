/** The in-process store: two tables and a set of bounded subscriber buffers. */
module InMemStore {
  import opened WatchEvents
  import F = FunctionCache
  import C = CronTable

  class Subscriber {
    var buffer: seq<Event>

    constructor ()
      ensures buffer == []
    {
      buffer := [];
    }
  }

  class InMemStore {
    var functions: map<string, F.FunctionDef>
    var crons: map<C.Id, C.CronJob>
    var subs: set<Subscriber>

    constructor ()
      ensures functions == map[] && crons == map[] && subs == {}
    {
      functions, crons, subs := map[], map[], {};
    }

    method Watch() returns (ch: Subscriber)
      modifies this`subs
      ensures fresh(ch) && ch.buffer == [] && subs == old(subs) + {ch}
    {
      ch := new Subscriber();
      subs := subs + {ch};
    }

    /** Each subscriber gets the event once, or drops it if its buffer is full. */
    method Broadcast(ev: Event)
      modifies subs
      ensures forall ch :: ch in subs ==> ch.buffer == Send(old(ch.buffer), ev)
    {
      var rest := subs;
      while rest != {}
        invariant rest <= subs
        invariant forall ch :: ch in subs ==>
          ch.buffer == if ch in rest then old(ch.buffer) else Send(old(ch.buffer), ev)
      {
        var ch :| ch in rest;
        if |ch.buffer| < CAPACITY { ch.buffer := ch.buffer + [ev]; }
        rest := rest - {ch};
      }
    }

    method PutFunction(def: F.FunctionDef)
      modifies this`functions, subs
      ensures functions == old(functions)[def.name := F.WithProject(def)]
      ensures forall ch :: ch in subs ==> ch.buffer == Send(old(ch.buffer), Event(FunctionPut, def.name))
    {
      var d := def;
      if d.project == "" { d := d.(project := "default"); }
      functions := functions[d.name := d];
      Broadcast(Event(FunctionPut, def.name));
    }

    /** A missing name is no error and is broadcast all the same. */
    method DeleteFunction(name: string)
      modifies this`functions, subs
      ensures functions == old(functions) - {name}
      ensures forall ch :: ch in subs ==> ch.buffer == Send(old(ch.buffer), Event(FunctionDelete, name))
    {
      functions := functions - {name};
      Broadcast(Event(FunctionDelete, name));
    }

    method PutCronJob(job: C.CronJob)
      modifies this`crons, subs
      ensures crons == old(crons)[job.id := C.WithProject(job)]
      ensures forall ch :: ch in subs ==> ch.buffer == Send(old(ch.buffer), Event(CronPut, job.id))
    {
      var j := job;
      if j.project == "" { j := j.(project := "default"); }
      crons := crons[j.id := j];
      Broadcast(Event(CronPut, job.id));
    }

    method DeleteCronJob(id: C.Id)
      modifies this`crons, subs
      ensures crons == old(crons) - {id}
      ensures forall ch :: ch in subs ==> ch.buffer == Send(old(ch.buffer), Event(CronDelete, id))
    {
      crons := crons - {id};
      Broadcast(Event(CronDelete, id));
    }
  }
}
