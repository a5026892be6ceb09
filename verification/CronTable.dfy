/** The scheduler's view of the cron jobs, as a value. */
module CronTable {
  type Id = string
  type EntryId = nat

  /** `payload` stands for function, method, body and headers. */
  datatype CronJob = CronJob(id: Id, schedule: string, project: string, payload: string)

  /** What PutCronJob stores. */
  function WithProject(job: CronJob): (r: CronJob)
    ensures r.id == job.id && r.schedule == job.schedule && r.payload == job.payload
    ensures r.project == (if job.project == "" then "default" else job.project) && r.project != ""
  {
    if job.project == "" then job.(project := "default") else job
  }

  /** entries and specs as the scheduler keeps them; live is the cron engine:
      every registered entry with the job its closure captured. */
  datatype Table = Table(entries: map<Id, EntryId>, specs: map<Id, string>, live: map<EntryId, CronJob>)

  ghost predicate OneIdEach(t: Table) {
    forall i, j :: i in t.entries && j in t.entries && t.entries[i] == t.entries[j] ==> i == j
  }

  ghost predicate Registered(t: Table, e: EntryId) { exists i :: i in t.entries && t.entries[i] == e }

  ghost predicate LiveIsRegistered(t: Table) {
    && (forall e :: e in t.live ==> Registered(t, e))
    && (forall i :: i in t.entries ==> t.entries[i] in t.live)
  }

  ghost predicate SpecsAreLive(t: Table) {
    && t.entries.Keys == t.specs.Keys
    && (forall i :: i in t.entries && t.entries[i] in t.live ==>
          t.live[t.entries[i]].id == i && t.live[t.entries[i]].schedule == t.specs[i])
  }

  /** The live cron entries are exactly the values of entries, one per id, and
      specs records the schedule each was registered with. */
  ghost predicate Consistent(t: Table) { OneIdEach(t) && LiveIsRegistered(t) && SpecsAreLive(t) }

  function Schedules(jobs: map<Id, CronJob>): map<Id, string> { map i | i in jobs :: jobs[i].schedule }

  /** The entry of i survives a reconciliation with the wanted jobs. */
  predicate Keeps(t: Table, jobs: map<Id, CronJob>, i: Id) {
    i in t.specs && i in jobs && t.specs[i] == jobs[i].schedule
  }

  /** Entry, schedule and captured job of i are the same in both tables. */
  ghost predicate SameEntry(t: Table, t': Table, i: Id) {
    && i in t.entries && i in t'.entries && t'.entries[i] == t.entries[i]
    && i in t.specs && i in t'.specs && t'.specs[i] == t.specs[i]
    && t.entries[i] in t.live && t.entries[i] in t'.live && t'.live[t.entries[i]] == t.live[t.entries[i]]
  }

  ghost predicate Runs(t: Table, i: Id, job: CronJob) {
    i in t.entries && t.entries[i] in t.live && t.live[t.entries[i]] == job
  }

  function Dropped(t: Table, i: Id): Table
    requires i in t.entries
  {
    Table(t.entries - {i}, t.specs - {i}, t.live - {t.entries[i]})
  }

  function Added(t: Table, i: Id, job: CronJob, e: EntryId): Table {
    Table(t.entries[i := e], t.specs[i := job.schedule], t.live[e := job])
  }

  lemma DropKeeps(t: Table, i: Id)
    requires Consistent(t) && i in t.entries
    ensures Consistent(Dropped(t, i))
    ensures forall j :: j in t.entries && j != i ==> SameEntry(t, Dropped(t, i), j)
  {
    var t' := Dropped(t, i);
    assert OneIdEach(t') && SpecsAreLive(t');
    DropLive(t, i);
    hide Registered;
  }

  lemma DropLive(t: Table, i: Id)
    requires OneIdEach(t) && LiveIsRegistered(t) && i in t.entries
    ensures LiveIsRegistered(Dropped(t, i))
  {
    var t' := Dropped(t, i);
    forall e | e in t'.live ensures Registered(t', e) {
      var j :| j in t.entries && t.entries[j] == e;
      assert j in t'.entries;
    }
  }

  lemma AddKeeps(t: Table, i: Id, job: CronJob, e: EntryId)
    requires Consistent(t) && i !in t.entries && e !in t.live && job.id == i
    ensures Consistent(Added(t, i, job, e)) && Runs(Added(t, i, job, e), i, job)
    ensures forall j :: j in t.entries ==> SameEntry(t, Added(t, i, job, e), j)
  {
    AddOneId(t, i, job, e);
    AddLive(t, i, job, e);
    AddSpecs(t, i, job, e);
    hide OneIdEach, Registered;
  }

  lemma AddOneId(t: Table, i: Id, job: CronJob, e: EntryId)
    requires OneIdEach(t) && LiveIsRegistered(t) && i !in t.entries && e !in t.live
    ensures OneIdEach(Added(t, i, job, e))
  {
    hide Registered;
    assert forall j :: j in t.entries ==> t.entries[j] != e;
  }

  lemma AddLive(t: Table, i: Id, job: CronJob, e: EntryId)
    requires LiveIsRegistered(t) && i !in t.entries
    ensures LiveIsRegistered(Added(t, i, job, e))
  {
    var t' := Added(t, i, job, e);
    forall f | f in t'.live ensures Registered(t', f) {
      if f == e {
        assert t'.entries[i] == f;
      } else {
        assert Registered(t, f);
        var j :| j in t.entries && t.entries[j] == f;
        assert t'.entries[j] == f;
      }
    }
  }

  lemma AddSpecs(t: Table, i: Id, job: CronJob, e: EntryId)
    requires SpecsAreLive(t) && LiveIsRegistered(t) && i !in t.entries && e !in t.live && job.id == i
    ensures SpecsAreLive(Added(t, i, job, e))
  {
    hide Registered;
    assert forall j :: j in t.entries ==> t.entries[j] != e;
  }

  /** How far the first loop of reconcile has come: ids outside rest are done. */
  ghost predicate Pruned(start: Table, jobs: map<Id, CronJob>, rest: set<Id>, t: Table) {
    && (forall i :: i in t.entries <==> i in start.entries && (i in rest || Keeps(start, jobs, i)))
    && (forall i :: i in t.entries ==> SameEntry(start, t, i))
  }

  lemma PrunedByDrop(start: Table, jobs: map<Id, CronJob>, rest: set<Id>, t: Table, i: Id)
    requires Consistent(t) && Pruned(start, jobs, rest, t) && i in t.entries && !Keeps(start, jobs, i)
    ensures Consistent(Dropped(t, i)) && Pruned(start, jobs, rest - {i}, Dropped(t, i))
  {
    var t' := Dropped(t, i);
    DropKeeps(t, i);
    assert t'.entries.Keys == t.entries.Keys - {i};
    hide Consistent, Dropped, Keeps;
    forall j | j in t'.entries ensures SameEntry(start, t', j) {
      StaysSettled(start, t, t', j, start.live[start.entries[j]]);
    }
  }

  /** Kept as it was, or running the wanted job. */
  ghost predicate EntryDone(start: Table, jobs: map<Id, CronJob>, t: Table, i: Id)
    requires i in jobs
  {
    if Keeps(start, jobs, i) then SameEntry(start, t, i) else Runs(t, i, jobs[i])
  }

  ghost predicate SpecsWanted(jobs: map<Id, CronJob>, t: Table) {
    forall i :: i in t.entries ==> i in t.specs && i in jobs && t.specs[i] == jobs[i].schedule
  }

  ghost predicate KeysSettled(start: Table, jobs: map<Id, CronJob>, rest: set<Id>, t: Table) {
    forall i :: i in t.entries <==> i in jobs && (i !in rest || Keeps(start, jobs, i))
  }

  /** How far the second loop of reconcile has come: ids outside rest are done. */
  ghost predicate Settled(start: Table, jobs: map<Id, CronJob>, rest: set<Id>, t: Table) {
    KeysSettled(start, jobs, rest, t) && SpecsWanted(jobs, t) && forall i :: i in t.entries ==>
        EntryDone(start, jobs, t, i)
  }

  lemma SettledByAdd(start: Table, jobs: map<Id, CronJob>, rest: set<Id>, t: Table, i: Id, e: EntryId)
    requires Consistent(t) && Settled(start, jobs, rest, t)
    requires i in jobs && i in rest && jobs[i].id == i && i !in t.entries && e !in t.live
    ensures Consistent(Added(t, i, jobs[i], e)) && Settled(start, jobs, rest - {i}, Added(t, i, jobs[i], e))
  {
    AddKeeps(t, i, jobs[i], e);
    KeysByAdd(start, jobs, rest, t, i, e);
    EntriesByAdd(start, jobs, rest, t, i, e);
    hide Consistent, KeysSettled, EntryDone;
  }

  lemma KeysByAdd(start: Table, jobs: map<Id, CronJob>, rest: set<Id>, t: Table, i: Id, e: EntryId)
    requires KeysSettled(start, jobs, rest, t) && i in jobs && i in rest && i !in t.entries
    ensures KeysSettled(start, jobs, rest - {i}, Added(t, i, jobs[i], e)) && !Keeps(start, jobs, i)
  {
    hide Keeps;
    assert Added(t, i, jobs[i], e).entries.Keys == t.entries.Keys + {i};
  }

  lemma EntriesByAdd(start: Table, jobs: map<Id, CronJob>, rest: set<Id>, t: Table, i: Id, e: EntryId)
    requires Consistent(t) && Settled(start, jobs, rest, t)
    requires i in jobs && i in rest && jobs[i].id == i && i !in t.entries && e !in t.live
    ensures var t' := Added(t, i, jobs[i], e);
            forall j :: j in t'.entries ==> j in jobs && EntryDone(start, jobs, t', j)
  {
    var t' := Added(t, i, jobs[i], e);
    AddKeeps(t, i, jobs[i], e);
    KeysByAdd(start, jobs, rest, t, i, e);
    assert t'.entries.Keys == t.entries.Keys + {i};
    hide Consistent, Added, Keeps, SameEntry, Runs, SpecsWanted;
    forall j | j in t'.entries ensures j in jobs && EntryDone(start, jobs, t', j) {
      if j != i {
        assert EntryDone(start, jobs, t, j);
        StaysSettled(start, t, t', j, jobs[j]);
      }
    }
  }

  lemma SettledAtFirst(start: Table, jobs: map<Id, CronJob>, t: Table)
    requires Consistent(start) && Pruned(start, jobs, {}, t)
    ensures Settled(start, jobs, jobs.Keys, t)
  {
  }

  lemma SettledSchedules(start: Table, jobs: map<Id, CronJob>, rest: set<Id>, t: Table)
    requires Consistent(t) && Settled(start, jobs, rest, t)
    ensures forall i :: i in t.specs ==> i in jobs && t.specs[i] == jobs[i].schedule
    ensures forall i :: i in jobs && Keeps(start, jobs, i) ==> SameEntry(start, t, i)
  {
    hide Keeps;
    assert forall i :: i in jobs && Keeps(start, jobs, i) ==> i in t.entries && EntryDone(start, jobs, t, i);
  }

  lemma StaysSettled(start: Table, t: Table, t': Table, j: Id, job: CronJob)
    requires SameEntry(t, t', j)
    ensures SameEntry(start, t, j) ==> SameEntry(start, t', j)
    ensures Runs(t, j, job) ==> Runs(t', j, job)
  {
  }

  /** A successful reconciliation: the schedules are the wanted ones, kept
      entries are untouched, and the others run the wanted job. */
  ghost predicate Reconciled(t: Table, jobs: map<Id, CronJob>, t': Table) {
    && Consistent(t')
    && t'.specs == Schedules(jobs)
    && forall i :: i in jobs ==> if Keeps(t, jobs, i) then SameEntry(t, t', i) else Runs(t', i, jobs[i])
  }

  lemma SettledAtLast(start: Table, jobs: map<Id, CronJob>, t: Table)
    requires Consistent(t) && Settled(start, jobs, {}, t)
    ensures Reconciled(start, jobs, t)
  {
    hide Keeps, SameEntry, Runs, OneIdEach, LiveIsRegistered;
    assert forall i :: i in jobs ==> i in t.entries && EntryDone(start, jobs, t, i);
    assert t.specs == Schedules(jobs);
  }

  /** A wanted job that is edited without changing its schedule is not reseated:
      the old one goes on running, and reconciling again does not help. */
  lemma EditedBodyIsNotRun(old': CronJob, new': CronJob)
    requires old'.id == new'.id && old'.schedule == new'.schedule && old' != new'
    ensures var i, jobs := new'.id, map[new'.id := new'];
            var t := Table(map[i := 0], map[i := old'.schedule], map[0 := old']);
            Consistent(t) && Reconciled(t, jobs, t) && Runs(t, i, old') && !Runs(t, i, jobs[i])
  {
    var i, jobs := new'.id, map[new'.id := new'];
    var t := Table(map[i := 0], map[i := old'.schedule], map[0 := old']);
    assert t.entries[i] == 0;
    assert Registered(t, 0);
    assert Consistent(t);
    assert Schedules(jobs) == t.specs;
  }

  /** Only Schedule is compared: after a reconciliation the running job is the
      stored one exactly when it was reseated or its body had not changed. */
  lemma RunsStoredJobIff(t: Table, jobs: map<Id, CronJob>, t': Table, i: Id)
    requires Consistent(t) && Reconciled(t, jobs, t') && i in jobs
    ensures Runs(t', i, jobs[i]) <==> (Keeps(t, jobs, i) ==> Runs(t, i, jobs[i]))
  {
  }

  /** Reconciling twice with the same jobs changes nothing the second time. */
  lemma ReconcileIsIdempotent(t: Table, jobs: map<Id, CronJob>, t': Table, t'': Table)
    requires Reconciled(t, jobs, t') && Reconciled(t', jobs, t'')
    ensures t'' == t'
  {
    SettledIsIdentity(t', jobs, t'');
  }

  lemma SettledIsIdentity(t: Table, jobs: map<Id, CronJob>, t': Table)
    requires Consistent(t) && t.specs == Schedules(jobs) && Reconciled(t, jobs, t')
    ensures t' == t
  {
    forall i | i in jobs ensures SameEntry(t, t', i) { assert Keeps(t, jobs, i); }
    assert t.entries.Keys == jobs.Keys == t'.entries.Keys && t'.specs == t.specs;
    assert LiveIsRegistered(t) && LiveIsRegistered(t');
    hide Reconciled, Keeps, Consistent;
    SameLive(t, t');
  }

  lemma SameLive(t: Table, t': Table)
    requires t.entries.Keys == t'.entries.Keys && LiveIsRegistered(t) && LiveIsRegistered(t')
    requires forall i :: i in t.entries ==> SameEntry(t, t', i)
    ensures t.entries == t'.entries && t.live == t'.live
  {
    assert t'.entries == t.entries;
    forall e | Registered(t, e) ensures e in t.live && e in t'.live && t'.live[e] == t.live[e] {
      var i :| i in t.entries && t.entries[i] == e;
      assert SameEntry(t, t', i);
    }
    assert forall e :: Registered(t', e) ==> Registered(t, e);
  }

  // --- A reconciliation always exists ---

  lemma {:induction false} FreshEntry(used: set<EntryId>) returns (e: EntryId)
    ensures forall f: EntryId :: f in used ==> f < e
  {
    e := 0;
    if used != {} {
      var f :| f in used;
      var d := FreshEntry(used - {f});
      e := if f < d then d else f + 1;
      forall g: EntryId | g in used ensures g < e {
        if g != f { assert g in used - {f}; }
      }
    }
  }

  lemma {:induction false} CanPrune(start: Table, jobs: map<Id, CronJob>, rest: set<Id>, t: Table) returns (t': Table)
    requires Consistent(t) && Pruned(start, jobs, rest, t) && rest <= start.entries.Keys
    ensures Consistent(t') && Pruned(start, jobs, {}, t')
    decreases rest
  {
    t' := t;
    if rest != {} {
      var i :| i in rest;
      if Keeps(start, jobs, i) {
        t' := CanPrune(start, jobs, rest - {i}, t);
      } else {
        PrunedByDrop(start, jobs, rest, t, i);
        t' := CanPrune(start, jobs, rest - {i}, Dropped(t, i));
      }
    }
  }

  lemma {:induction false} CanSettle(start: Table, jobs: map<Id, CronJob>, rest: set<Id>, t: Table) returns (t': Table)
    requires Consistent(t) && Settled(start, jobs, rest, t) && rest <= jobs.Keys
    requires forall i :: i in jobs ==> jobs[i].id == i
    ensures Reconciled(start, jobs, t')
    decreases rest
  {
    if rest == {} {
      t' := t;
      SettledAtLast(start, jobs, t);
    } else {
      var i :| i in rest;
      if i in t.entries {
        SettledAlready(start, jobs, rest, t, i);
        t' := CanSettle(start, jobs, rest - {i}, t);
      } else {
        var e := FreshEntry(t.live.Keys);
        SettledByAdd(start, jobs, rest, t, i, e);
        t' := CanSettle(start, jobs, rest - {i}, Added(t, i, jobs[i], e));
      }
    }
  }

  lemma SettledAlready(start: Table, jobs: map<Id, CronJob>, rest: set<Id>, t: Table, i: Id)
    requires Settled(start, jobs, rest, t) && i in rest && i in t.entries
    ensures Settled(start, jobs, rest - {i}, t)
  {
  }

  lemma CanReconcile(t: Table, jobs: map<Id, CronJob>) returns (t': Table)
    requires Consistent(t) && forall i :: i in jobs ==> jobs[i].id == i
    ensures Reconciled(t, jobs, t')
  {
    var pruned := CanPrune(t, jobs, t.entries.Keys, t);
    SettledAtFirst(t, jobs, pruned);
    t' := CanSettle(t, jobs, jobs.Keys, pruned);
  }
}
