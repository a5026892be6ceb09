/** The scheduler follows the store through a bounded channel that drops events
    when it is full.  It re-lists everything on any cron event, so most dropped
    events do no harm. */
module CronWatch {
  import opened CronTable
  import opened WatchEvents

  /** What the scheduler goroutine is doing.  Down: the first reconciliation failed,
      Start has returned its error, and nobody watches. */
  datatype Phase = Waiting | Woken | Listed(jobs: map<Id, CronJob>) | Down

  /** `parses` says which schedules the cron parser accepts; `pending` holds events
      whose write is committed but not yet broadcast. */
  datatype System = System(
    parses: string -> bool,
    crons: map<Id, CronJob>,
    pending: seq<Event>,
    chan: seq<Event>,
    started: bool,
    phase: Phase,
    table: Table)

  datatype Step =
    | PutCron(job: CronJob)
    | DeleteCron(id: Id)
    | WriteFunction(name: string)
    | Broadcast(k: nat)
    | Receive
    | List
    | Reconcile(after: Table)

  predicate AllParse(parses: string -> bool, jobs: map<Id, CronJob>) {
    forall i :: i in jobs ==> parses(jobs[i].schedule)
  }

  predicate SpecsParse(parses: string -> bool, t: Table) { forall i :: i in t.specs ==> parses(t.specs[i]) }

  /** What reconcile may leave: the wanted table, or, when it stops at a schedule
      that does not parse, the entries it keeps and some of the others. */
  ghost predicate Outcome(parses: string -> bool, t: Table, jobs: map<Id, CronJob>, after: Table) {
    if AllParse(parses, jobs) then Reconciled(t, jobs, after) else Partly(parses, t, jobs, after)
  }

  ghost predicate Partly(parses: string -> bool, t: Table, jobs: map<Id, CronJob>, after: Table) {
    && Consistent(after) && SpecsParse(parses, after)
    && (forall i :: i in after.specs ==> i in jobs && after.specs[i] == jobs[i].schedule)
    && (forall i :: i in jobs && Keeps(t, jobs, i) ==> i in after.specs)
  }

  function Parsable(parses: string -> bool, jobs: map<Id, CronJob>): map<Id, CronJob> {
    map i | i in jobs && parses(jobs[i].schedule) :: jobs[i]
  }

  ghost predicate Enabled(s: System, a: Step) {
    match a
    case Broadcast(k) => k < |s.pending|
    case Receive => s.phase.Waiting? && s.chan != []
    case List => s.phase.Woken?
    case Reconcile(after) => s.phase.Listed? && Outcome(s.parses, s.table, s.phase.jobs, after)
    case _ => true
  }

  function RemoveAt(evs: seq<Event>, k: nat): seq<Event>
    requires k < |evs|
  {
    evs[..k] + evs[k + 1..]
  }

  ghost function Apply(s: System, a: Step): System
    requires Enabled(s, a)
  {
    match a
    case PutCron(job) => s.(crons := s.crons[job.id := WithProject(job)],
        pending := s.pending + [Event(CronPut, job.id)])
    case DeleteCron(id) => s.(crons := s.crons - {id}, pending := s.pending + [Event(CronDelete, id)])
    case WriteFunction(name) => s.(pending := s.pending + [Event(FunctionPut, name)])
    case Broadcast(k) => s.(pending := RemoveAt(s.pending, k), chan := Send(s.chan, s.pending[k]))
    case Receive => s.(chan := s.chan[1..], phase := if IsCron(s.chan[0]) then Woken else Waiting)
    case List => s.(phase := Listed(s.crons))
    case Reconcile(after) =>
      var fails := !s.started && !AllParse(s.parses, s.phase.jobs);
      s.(table := after, started := true, phase := if fails then Down else Waiting)
  }

  /** Start subscribes first and then lists for the first time. */
  ghost predicate Init(s: System) {
    && s.pending == [] && s.chan == [] && !s.started && s.phase.Woken?
    && s.table == Table(map[], map[], map[])
    && Keyed(s.crons)
  }

  predicate Keyed(jobs: map<Id, CronJob>) { forall i :: i in jobs ==> jobs[i].id == i }

  ghost predicate HasCron(evs: seq<Event>) { exists i :: 0 <= i < |evs| && IsCron(evs[i]) }

  /** The table is what the store asks for, as far as the store can be obeyed. */
  ghost predicate UpToDate(s: System) {
    AllParse(s.parses, s.crons) ==> s.table.specs == Schedules(s.crons)
  }

  /** Whatever reconcile makes of a listing with schedules that do not parse, it has
      no choice, and the result is what the store asks for. */
  ghost predicate Certain(s: System, jobs: map<Id, CronJob>) {
    && (forall i :: i in jobs && s.parses(jobs[i].schedule) ==> Keeps(s.table, jobs, i))
    && Schedules(Parsable(s.parses, jobs)) == Schedules(s.crons)
  }

  /** Whatever is under way now will leave the table up to date, or fail Start. */
  ghost predicate Recovers(s: System) {
    match s.phase
    case Waiting => UpToDate(s)
    case Woken => true
    case Listed(jobs) => AllParse(s.parses, s.crons) ==> ListingServes(s, jobs)
    case Down => true
  }

  ghost predicate ListingServes(s: System, jobs: map<Id, CronJob>) {
    if AllParse(s.parses, jobs) then Schedules(jobs) == Schedules(s.crons) else !s.started || Certain(s, jobs)
  }

  /** The broadcast drops no cron event, or some other cron event is still to come,
      or the scheduler is about to look anyway, or there is nothing to see. */
  ghost predicate SafeDrop(s: System, a: Step) {
    a.Broadcast? && a.k < |s.pending| && IsCron(s.pending[a.k]) && |s.chan| >= CAPACITY ==>
      HasCron(s.chan) || HasCron(RemoveAt(s.pending, a.k)) || Recovers(s)
  }

  ghost predicate Next(s: System, s': System) {
    exists a :: Enabled(s, a) && SafeDrop(s, a) && s' == Apply(s, a)
  }

  ghost predicate IsRun(run: seq<System>) {
    && |run| > 0 && Init(run[0])
    && forall i :: 0 <= i < |run| - 1 ==> Next(run[i], run[i + 1])
  }

  // --- Invariant ---

  /** Another reconciliation is coming. */
  ghost predicate Alarmed(s: System) { HasCron(s.pending) || HasCron(s.chan) }

  ghost predicate Sound(s: System) {
    && Consistent(s.table) && SpecsParse(s.parses, s.table) && Keyed(s.crons)
    && (s.phase.Listed? ==> Keyed(s.phase.jobs))
  }

  ghost predicate Inv(s: System) { Sound(s) && (Alarmed(s) || Recovers(s)) }

  lemma HasCronSnoc(evs: seq<Event>, ev: Event)
    ensures HasCron(evs + [ev]) <==> HasCron(evs) || IsCron(ev)
  {
    if HasCron(evs) {
      var i :| 0 <= i < |evs| && IsCron(evs[i]);
      assert IsCron((evs + [ev])[i]);
    }
    if IsCron(ev) { assert IsCron((evs + [ev])[|evs|]); }
  }

  lemma HasCronRemove(evs: seq<Event>, k: nat)
    requires k < |evs|
    ensures HasCron(evs) ==> HasCron(RemoveAt(evs, k)) || IsCron(evs[k])
  {
    if HasCron(evs) {
      var i :| 0 <= i < |evs| && IsCron(evs[i]);
      var rest := RemoveAt(evs, k);
      if i < k { assert IsCron(rest[i]); }
      if i > k { assert IsCron(rest[i - 1]); }
    }
  }

  lemma HasCronRemoved(evs: seq<Event>, k: nat)
    requires k < |evs| && HasCron(RemoveAt(evs, k))
    ensures HasCron(evs)
  {
    var rest := RemoveAt(evs, k);
    var i :| 0 <= i < |rest| && IsCron(rest[i]);
    if i < k { assert IsCron(evs[i]); } else { assert IsCron(evs[i + 1]); }
  }

  /** Exactly the safe drops keep the invariant. */
  lemma DropIsSafeIff(s: System, k: nat)
    requires Inv(s) && k < |s.pending|
    ensures Inv(Apply(s, Broadcast(k))) <==> SafeDrop(s, Broadcast(k))
  {
    HasCronRemove(s.pending, k);
    HasCronSnoc(s.chan, s.pending[k]);
    if HasCron(RemoveAt(s.pending, k)) { HasCronRemoved(s.pending, k); }
    hide Consistent, HasCron, Schedules;
  }

  lemma StepKeepsSound(s: System, a: Step)
    requires Sound(s) && Enabled(s, a)
    ensures Sound(Apply(s, a))
  {
    if a.Reconcile? && AllParse(s.parses, s.phase.jobs) {
      assert a.after.specs == Schedules(s.phase.jobs);
    }
    hide Consistent, Keeps;
  }

  lemma StepKeepsInv(s: System, a: Step)
    requires Inv(s) && Enabled(s, a) && SafeDrop(s, a)
    ensures Inv(Apply(s, a))
  {
    StepKeepsSound(s, a);
    match a
    case PutCron(job) => HasCronSnoc(s.pending, Event(CronPut, job.id));
    case DeleteCron(id) => HasCronSnoc(s.pending, Event(CronDelete, id));
    case WriteFunction(name) => HasCronSnoc(s.pending, Event(FunctionPut, name)); hide Sound;
    case Broadcast(k) => DropIsSafeIff(s, k);
    case Receive => ReceiveKeepsInv(s);
    case List =>
    case Reconcile(after) => ReconcileKeepsInv(s, after);
  }

  lemma ReceiveKeepsInv(s: System)
    requires Inv(s) && Enabled(s, Receive)
    ensures Inv(Apply(s, Receive))
  {
    var s' := Apply(s, Receive);
    hide Consistent, Schedules;
    if HasCron(s.chan) && !IsCron(s.chan[0]) {
      var i :| 0 <= i < |s.chan| && IsCron(s.chan[i]);
      assert IsCron(s'.chan[i - 1]);
    }
  }

  lemma ReconcileKeepsInv(s: System, after: Table)
    requires Inv(s) && Enabled(s, Reconcile(after))
    ensures Inv(Apply(s, Reconcile(after)))
  {
    StepKeepsSound(s, Reconcile(after));
    hide Sound, HasCron;
    if AllParse(s.parses, s.crons) && Recovers(s) && (s.started || AllParse(s.parses, s.phase.jobs)) {
      ListingIsRight(s, after);
    }
  }

  lemma ListingIsRight(s: System, after: Table)
    requires Enabled(s, Reconcile(after)) && ListingServes(s, s.phase.jobs)
    requires s.started || AllParse(s.parses, s.phase.jobs)
    ensures after.specs == Schedules(s.crons)
  {
    var jobs := s.phase.jobs;
    if !AllParse(s.parses, jobs) {
      var wanted := Schedules(Parsable(s.parses, jobs));
      hide Consistent, Keeps;
      assert after.specs.Keys == wanted.Keys;
      assert after.specs == wanted;
    }
  }

  lemma {:induction false} RunKeepsInv(run: seq<System>, n: nat)
    requires IsRun(run) && n < |run|
    ensures Inv(run[n])
  {
    hide Inv;
    if n == 0 {
      InitHolds(run[0]);
    } else {
      RunKeepsInv(run, n - 1);
      assert Next(run[n - 1], run[n - 1 + 1]);
      var a :| Enabled(run[n - 1], a) && SafeDrop(run[n - 1], a) && run[n] == Apply(run[n - 1], a);
      StepKeepsInv(run[n - 1], a);
    }
  }

  lemma InitHolds(s: System)
    requires Init(s)
    ensures Inv(s)
  {
  }

  // --- Main results ---

  /** Convergence despite dropped events: whenever the channel is empty, no
      writer is between commit and broadcast and no reconciliation is running, and
      Start has succeeded, the cron engine runs exactly one entry for each known schedule, and the
      known schedules are the stored ones if and only if all of those parse. */
  lemma SchedulerConverges(run: seq<System>, n: nat)
    requires IsRun(run) && n < |run|
    requires run[n].chan == [] && run[n].pending == [] && run[n].phase.Waiting?
    ensures Consistent(run[n].table)
    ensures run[n].table.specs == Schedules(run[n].crons) <==> AllParse(run[n].parses, run[n].crons)
  {
    RunKeepsInv(run, n);
    var s := run[n];
    if s.table.specs == Schedules(s.crons) {
      forall i | i in s.crons ensures s.parses(s.crons[i].schedule) {
        assert i in s.table.specs && s.table.specs[i] == s.crons[i].schedule;
      }
    }
  }

  // --- From the writes to the table ---

  /** acts[t] is the step from run[t] to run[t + 1]. */
  ghost predicate IsTrace(run: seq<System>, acts: seq<Step>) {
    && |run| == |acts| + 1 && Init(run[0])
    && forall t :: 0 <= t < |acts| ==>
        Enabled(run[t], acts[t]) && SafeDrop(run[t], acts[t]) && run[t + 1] == Apply(run[t], acts[t])
  }

  /** The last write to id among the first n steps. */
  datatype Write = Untouched | Wrote(job: CronJob) | Removed

  function LastWrite(acts: seq<Step>, n: nat, id: Id): Write
    requires n <= |acts|
  {
    if n == 0 then Untouched
    else if acts[n - 1].PutCron? && acts[n - 1].job.id == id then Wrote(acts[n - 1].job)
    else if acts[n - 1].DeleteCron? && acts[n - 1].id == id then Removed
    else LastWrite(acts, n - 1, id)
  }

  /** The store holds what was written last. */
  ghost predicate Stores(first: System, s: System, id: Id, w: Write) {
    match w
    case Untouched => (id in s.crons <==> id in first.crons) && (id in s.crons ==> s.crons[id] == first.crons[id])
    case Wrote(job) => id in s.crons && s.crons[id].schedule == job.schedule && s.crons[id].payload == job.payload
    case Removed => id !in s.crons
  }

  lemma OneWrite(s: System, a: Step, id: Id)
    requires Enabled(s, a)
    ensures var s' := Apply(s, a);
      if a.PutCron? && a.job.id == id then
        id in s'.crons && s'.crons[id].schedule == a.job.schedule && s'.crons[id].payload == a.job.payload
      else if a.DeleteCron? && a.id == id then id !in s'.crons
      else (id in s'.crons <==> id in s.crons) && (id in s.crons ==> s'.crons[id] == s.crons[id])
  {
    hide Outcome;
  }

  lemma {:induction false} StoresLastWrite(run: seq<System>, acts: seq<Step>, n: nat, id: Id)
    requires IsTrace(run, acts) && n <= |acts|
    ensures Stores(run[0], run[n], id, LastWrite(acts, n, id))
  {
    if n > 0 {
      StoresLastWrite(run, acts, n - 1, id);
      assert Enabled(run[n - 1], acts[n - 1]) && run[n - 1 + 1] == Apply(run[n - 1], acts[n - 1]);
      OneWrite(run[n - 1], acts[n - 1], id);
      hide SafeDrop, Init, Enabled, Apply;
    }
  }

  lemma TraceIsRun(run: seq<System>, acts: seq<Step>)
    requires IsTrace(run, acts)
    ensures IsRun(run)
  {
    hide Enabled, Apply, SafeDrop, Init;
    forall t | 0 <= t < |run| - 1 ensures Next(run[t], run[t + 1]) {
      assert Enabled(run[t], acts[t]) && SafeDrop(run[t], acts[t]) && run[t + 1] == Apply(run[t], acts[t]);
    }
  }

  /** From the writers to the cron engine: at rest, if all stored schedules parse, a job
      that was written last has an entry with its schedule, and one that was deleted
      last has none. */
  lemma RunsLastWrite(run: seq<System>, acts: seq<Step>, id: Id)
    requires IsTrace(run, acts)
    requires var s := run[|acts|];
      s.chan == [] && s.pending == [] && s.phase.Waiting? && AllParse(s.parses, s.crons)
    ensures var t := run[|acts|].table;
      match LastWrite(acts, |acts|, id)
      case Wrote(job) =>
        && id in t.specs && t.specs[id] == job.schedule
        && id in t.entries && t.entries[id] in t.live && t.live[t.entries[id]].schedule == job.schedule
      case Removed => id !in t.specs && id !in t.entries
      case Untouched => id in t.specs <==> id in run[0].crons
  {
    TraceIsRun(run, acts);
    SchedulerConverges(run, |acts|);
    StoresLastWrite(run, acts, |acts|, id);
    hide Apply, Enabled, SafeDrop;
  }

  ghost predicate CronOnly(s: System) {
    && (forall i :: 0 <= i < |s.pending| ==> IsCron(s.pending[i]))
    && (forall i :: 0 <= i < |s.chan| ==> IsCron(s.chan[i]))
  }

  /** With cron traffic only, no drop can do harm: a full buffer holds cron events. */
  lemma CronTrafficIsHarmless(s: System, a: Step)
    requires CronOnly(s) && Enabled(s, a) && !a.WriteFunction?
    ensures SafeDrop(s, a) && CronOnly(Apply(s, a))
  {
    if |s.chan| >= CAPACITY { assert IsCron(s.chan[0]); }
  }

  ghost predicate CronMoves(s: System, s': System) {
    exists a :: Enabled(s, a) && !a.WriteFunction? && s' == Apply(s, a)
  }

  /** So with cron-only traffic every interleaving of writers, drops and watch
      steps is a run to which the convergence theorem applies. */
  lemma {:induction false} CronTrafficConverges(run: seq<System>, n: nat)
    requires |run| > 0 && Init(run[0]) && n < |run|
    requires forall i :: 0 <= i < |run| - 1 ==> CronMoves(run[i], run[i + 1])
    ensures IsRun(run[..n + 1]) && CronOnly(run[n])
    ensures run[n].chan == [] && run[n].pending == [] && run[n].phase.Waiting? ==>
      Consistent(run[n].table) && (run[n].table.specs == Schedules(run[n].crons) <==>
          AllParse(run[n].parses, run[n].crons))
  {
    var upto := run[..n + 1];
    if n > 0 {
      CronTrafficConverges(run, n - 1);
      assert run[..n] == run[..n - 1 + 1];
      assert CronMoves(run[n - 1], run[n - 1 + 1]);
      var a :| Enabled(run[n - 1], a) && !a.WriteFunction? && run[n] == Apply(run[n - 1], a);
      CronTrafficIsHarmless(run[n - 1], a);
      hide Apply, Enabled, SafeDrop, CronOnly;
      NextBy(upto[n - 1], upto[n], a);
      RunGrows(run, n);
    }
    if run[n].chan == [] && run[n].pending == [] && run[n].phase.Waiting? { SchedulerConverges(upto, n); }
  }

  lemma RunGrows(run: seq<System>, n: nat)
    requires 0 < n < |run| && IsRun(run[..n]) && Next(run[n - 1], run[n])
    ensures IsRun(run[..n + 1])
  {
    hide Next, Init;
    var before, upto := run[..n], run[..n + 1];
    assert upto[0] == before[0];
    forall i | 0 <= i < |upto| - 1 ensures Next(upto[i], upto[i + 1]) {
      if i < n - 1 { assert Next(before[i], before[i + 1]); }
    }
  }

  lemma NextBy(s: System, s': System, a: Step)
    requires Enabled(s, a) && SafeDrop(s, a) && s' == Apply(s, a)
    ensures Next(s, s')
  {
  }

  // --- The condition is needed ---

  ghost predicate Path(path: seq<System>) {
    |path| > 0 && forall i :: 0 <= i < |path| - 1 ==> Moves(path[i], path[i + 1])
  }

  /** Any step, harmful drops included. */
  ghost predicate Moves(s: System, s': System) { exists a :: Enabled(s, a) && s' == Apply(s, a) }

  lemma Extend(path: seq<System>, a: Step) returns (longer: seq<System>)
    requires Path(path) && Enabled(path[|path| - 1], a)
    ensures Path(longer) && longer == path + [Apply(path[|path| - 1], a)] && path <= longer
  {
    hide Apply, Enabled;
    var s := path[|path| - 1];
    longer := path + [Apply(s, a)];
    assert Moves(s, Apply(s, a));
    forall i | 0 <= i < |longer| - 1 ensures Moves(longer[i], longer[i + 1]) {
      if i < |path| - 1 { assert Moves(path[i], path[i + 1]); }
    }
  }

  /** With no cron event about, the system comes to rest without another look. */
  lemma {:induction false} ComesToRest(path: seq<System>) returns (longer: seq<System>)
    requires Path(path)
    requires var s := path[|path| - 1]; s.phase.Waiting? && !HasCron(s.chan) && !HasCron(s.pending)
    ensures Path(longer) && path <= longer
    ensures longer[|longer| - 1] == path[|path| - 1].(chan := [], pending := [])
    decreases |path[|path| - 1].chan| + 2 * |path[|path| - 1].pending|
  {
    var s := path[|path| - 1];
    longer := path;
    if s.chan != [] {
      assert !IsCron(s.chan[0]);
      longer := Extend(path, Receive);
      NoCronAfter(s.chan);
      longer := ComesToRest(longer);
    } else if s.pending != [] {
      assert !IsCron(s.pending[0]);
      longer := Extend(path, Broadcast(0));
      NoCronAfter(s.pending);
      assert RemoveAt(s.pending, 0) == s.pending[1..];
      longer := ComesToRest(longer);
    }
  }

  lemma NoCronAfter(evs: seq<Event>)
    requires evs != [] && !HasCron(evs)
    ensures !HasCron(evs[1..]) && !HasCron([evs[0]])
  {
    forall i | 0 <= i < |evs[1..]| ensures !IsCron(evs[1..][i]) { assert evs[1..][i] == evs[i + 1]; }
    assert !IsCron(evs[0]);
  }

  /** And the invariant is not too strict: after any drop that is not safe, though
      nobody writes again, the system can come to rest with a table that is not the
      stored one, although every stored schedule parses. */
  lemma UnsafeDropDiverges(path: seq<System>, k: nat) returns (longer: seq<System>)
    requires Path(path)
    requires var s := path[|path| - 1]; Inv(s) && k < |s.pending| && !SafeDrop(s, Broadcast(k))
    ensures Path(longer) && path <= longer
    ensures var s, t := path[|path| - 1], longer[|longer| - 1];
      && t.crons == s.crons && t.chan == [] && t.pending == [] && t.phase.Waiting?
      && AllParse(t.parses, t.crons) && t.table.specs != Schedules(t.crons)
  {
    var s := path[|path| - 1];
    DropIsSilent(s, k);
    hide Inv, SafeDrop, Apply, HasCron, ListingServes;
    longer := Extend(path, Broadcast(k));
    if s.phase.Listed? { longer := ListingIsApplied(longer); }
    longer := ComesToRest(longer);
  }

  /** An unsafe drop leaves no cron event behind, and nobody who will look. */
  lemma DropIsSilent(s: System, k: nat)
    requires Inv(s) && k < |s.pending| && !SafeDrop(s, Broadcast(k))
    ensures var s' := Apply(s, Broadcast(k));
      && !HasCron(s'.chan) && !HasCron(s'.pending) && s' == s.(pending := s'.pending, chan := s'.chan)
      && Sound(s') && AllParse(s.parses, s.crons)
      && match s.phase
         case Waiting => s.table.specs != Schedules(s.crons)
         case Listed(jobs) => !ListingServes(s', jobs)
         case _ => false
  {
    hide HasCron, Consistent, Schedules;
  }

  lemma ListingIsApplied(path: seq<System>) returns (longer: seq<System>)
    requires Path(path)
    requires var s := path[|path| - 1]; s.phase.Listed? && Sound(s) && !ListingServes(s, s.phase.jobs)
    ensures Path(longer) && path <= longer
    ensures var s, t := path[|path| - 1], longer[|longer| - 1];
      t == s.(phase := Waiting, started := true, table := t.table) && t.table.specs != Schedules(s.crons)
  {
    var s := path[|path| - 1];
    var after := WrongOutcome(s, s.phase.jobs);
    hide Reconciled, Consistent, Schedules, Partly, Certain;
    longer := Extend(path, Reconcile(after));
  }

  /** A listing that does not serve can be applied wrongly. */
  lemma WrongOutcome(s: System, jobs: map<Id, CronJob>) returns (after: Table)
    requires Consistent(s.table) && SpecsParse(s.parses, s.table) && Keyed(jobs) && !ListingServes(s, jobs)
    ensures Outcome(s.parses, s.table, jobs, after) && after.specs != Schedules(s.crons)
    ensures s.started || AllParse(s.parses, jobs)
  {
    var some := Parsable(s.parses, jobs);
    if AllParse(s.parses, jobs) {
      after := CanReconcile(s.table, jobs);
    } else if Schedules(some) != Schedules(s.crons) {
      after := CanReconcile(s.table, some);
      MostIsPartly(s, jobs, after);
    } else {
      after := CanPrune(s.table, jobs, s.table.entries.Keys, s.table);
      LeastIsPartly(s, jobs, after);
      var i :| i in jobs && s.parses(jobs[i].schedule) && !Keeps(s.table, jobs, i);
      assert i in Schedules(some);
    }
  }

  /** Reconcile may come to the bad schedules last. */
  lemma MostIsPartly(s: System, jobs: map<Id, CronJob>, after: Table)
    requires SpecsParse(s.parses, s.table) && Reconciled(s.table, Parsable(s.parses, jobs), after)
    ensures Partly(s.parses, s.table, jobs, after) && after.specs == Schedules(Parsable(s.parses, jobs))
  {
    hide Consistent;
    assert forall i :: i in jobs && Keeps(s.table, jobs, i) ==> s.parses(jobs[i].schedule);
  }

  /** Or first. */
  lemma LeastIsPartly(s: System, jobs: map<Id, CronJob>, after: Table)
    requires Consistent(s.table) && SpecsParse(s.parses, s.table) && Consistent(after) &&
        Pruned(s.table, jobs, {}, after)
    ensures Partly(s.parses, s.table, jobs, after)
    ensures forall i :: i in after.specs <==> i in jobs && Keeps(s.table, jobs, i)
  {
    assert after.specs.Keys == after.entries.Keys && s.table.specs.Keys == s.table.entries.Keys;
    hide Consistent;
    forall i | i in after.specs ensures i in jobs && after.specs[i] == jobs[i].schedule && s.parses(after.specs[i]) {
      assert SameEntry(s.table, after, i) && Keeps(s.table, jobs, i);
    }
  }

  function Noise(k: nat): seq<Event> { seq(k, _ => Event(FunctionPut, "f")) }

  lemma {:induction false} Flood(path: seq<System>, k: nat) returns (longer: seq<System>)
    requires Path(path) && k <= CAPACITY
    requires var s := path[|path| - 1]; s.pending == [] && s.chan == Noise(CAPACITY - k)
    ensures Path(longer) && longer[0] == path[0]
    ensures longer[|longer| - 1] == path[|path| - 1].(chan := Noise(CAPACITY))
    decreases k
  {
    longer := path;
    if k > 0 {
      longer := Extend(longer, WriteFunction("f"));
      longer := Extend(longer, Broadcast(0));
      assert Noise(CAPACITY - k) + [Event(FunctionPut, "f")] == Noise(CAPACITY - (k - 1));
      longer := Flood(longer, k - 1);
    }
  }

  lemma {:induction false} Drain(path: seq<System>, k: nat) returns (longer: seq<System>)
    requires Path(path)
    requires var s := path[|path| - 1]; s.phase.Waiting? && s.chan == Noise(k)
    ensures Path(longer) && longer[0] == path[0]
    ensures longer[|longer| - 1] == path[|path| - 1].(chan := [])
    decreases k
  {
    longer := path;
    if k > 0 {
      longer := Extend(longer, Receive);
      assert Noise(k)[1..] == Noise(k - 1);
      longer := Drain(longer, k - 1);
    }
  }

  /** Function events share the buffer but trigger no reconciliation: sixteen of
      them can push a cron event out for good, and the scheduler then rests with
      a job missing. */
  lemma FunctionTrafficLosesAJob(parses: string -> bool, job: CronJob) returns (path: seq<System>)
    ensures Path(path) && Init(path[0]) && path[0].parses == parses
    ensures var s := path[|path| - 1];
      && s.chan == [] && s.pending == [] && s.phase.Waiting?
      && job.id in s.crons && job.id !in s.table.specs
  {
    var empty := Table(map[], map[], map[]);
    path := [System(parses, map[], [], [], false, Woken, empty)];
    path := Extend(path, List);
    assert Reconciled(empty, map[], empty);
    path := Extend(path, Reconcile(empty));
    path := Flood(path, CAPACITY);
    path := Extend(path, PutCron(job));
    path := Extend(path, Broadcast(0));
    path := Drain(path, CAPACITY);
  }
}
