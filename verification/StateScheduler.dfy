/** reconcile: brings the cron engine in line with a listing of the store. */
module StateScheduler {
  import opened CronTable

  /** The cron engine; `parses` says which schedules its parser accepts. */
  class Cron {
    const parses: string -> bool
    var live: map<EntryId, CronJob>
    var next: EntryId

    ghost predicate Valid()
      reads this
    {
      forall e :: e in live ==> e < next
    }

    constructor (parses: string -> bool)
      ensures Valid() && live == map[] && this.parses == parses
    {
      this.parses := parses;
      live, next := map[], 0;
    }

    method AddFunc(job: CronJob) returns (ok: bool, eid: EntryId)
      requires Valid()
      modifies this
      ensures Valid() && ok == parses(job.schedule)
      ensures if ok then eid !in old(live) && live == old(live)[eid := job] else live == old(live)
    {
      eid := next;
      ok := parses(job.schedule);
      if ok { live, next := live[eid := job], next + 1; }
    }

    method Remove(eid: EntryId)
      requires Valid()
      modifies this`live
      ensures Valid() && live == old(live) - {eid}
    {
      live := live - {eid};
    }
  }

  class StateScheduler {
    const cron: Cron
    var entries: map<Id, EntryId>
    var specs: map<Id, string>

    ghost function View(): Table
      reads this, cron
    {
      Table(entries, specs, cron.live)
    }

    ghost predicate Valid()
      reads this, cron
    {
      && cron.Valid()
      && Consistent(View())
      && forall i :: i in specs ==> cron.parses(specs[i])
    }

    constructor (cron: Cron)
      requires cron.Valid() && cron.live == map[]
      ensures Valid() && this.cron == cron && View() == Table(map[], map[], map[])
    {
      this.cron := cron;
      entries, specs := map[], map[];
    }

    method Drop(i: Id)
      requires Valid() && i in entries
      modifies this, cron
      ensures Valid() && View() == Dropped(old(View()), i)
    {
      DropKeeps(View(), i);
      cron.Remove(entries[i]);
      entries, specs := entries - {i}, specs - {i};
    }

    /** Registers i unless its schedule does not parse. */
    method Register(i: Id, job: CronJob) returns (ok: bool)
      requires Valid() && i !in entries && job.id == i
      modifies this, cron
      ensures Valid() && ok == cron.parses(job.schedule)
      ensures !ok ==> View() == old(View())
      ensures ok ==> exists e :: e !in old(cron.live) && View() == Added(old(View()), i, job, e)
    {
      ghost var t := View();
      var eid;
      ok, eid := cron.AddFunc(job);
      if ok {
        AddKeeps(t, i, job, eid);
        entries, specs := entries[i := eid], specs[i := job.schedule];
        assert View() == Added(t, i, job, eid);
      }
    }

    /** The first loop: removes jobs that disappeared or were rescheduled. */
    method RemoveStale(jobs: map<Id, CronJob>)
      requires Valid()
      modifies this, cron
      ensures Valid()
      ensures Pruned(old(View()), jobs, {}, View())
    {
      ghost var start := View();
      var rest := entries.Keys;
      while rest != {}
        invariant Valid() && rest <= entries.Keys && Pruned(start, jobs, rest, View())
      {
        var i :| i in rest;
        if i !in jobs || jobs[i].schedule != specs[i] {
          PrunedByDrop(start, jobs, rest, View(), i);
          Drop(i);
        }
        rest := rest - {i};
      }
    }

    /** The second loop at one id: register it unless its entry is still there. */
    method Settle(i: Id, jobs: map<Id, CronJob>, ghost start: Table, ghost rest: set<Id>) returns (ok: bool)
      requires Valid() && i in jobs && jobs[i].id == i && i in rest && Settled(start, jobs, rest, View())
      modifies this, cron
      ensures Valid()
      ensures if ok then cron.parses(jobs[i].schedule) && Settled(start, jobs, rest - {i}, View())
              else !cron.parses(jobs[i].schedule) && View() == old(View())
    {
      ok := true;
      if i !in entries {
        ghost var before := View();
        ok := Register(i, jobs[i]);
        if ok {
          ghost var e :| e !in old(cron.live) && View() == Added(before, i, jobs[i], e);
          SettledByAdd(start, jobs, rest, before, i, e);
        }
      }
    }

    /** One reconciliation with a listing of the store.  It succeeds exactly when
        every wanted schedule parses; when it stops early, every entry left is a
        wanted one, those that needed no change are as they were, and the
        bookkeeping is still consistent. */
    method Reconcile(jobs: map<Id, CronJob>) returns (ok: bool)
      requires Valid() && forall i :: i in jobs ==> jobs[i].id == i
      modifies this, cron
      ensures Valid()
      ensures ok <==> forall i :: i in jobs ==> cron.parses(jobs[i].schedule)
      ensures ok ==> Reconciled(old(View()), jobs, View())
      ensures !ok ==> forall i :: i in specs ==> i in jobs && specs[i] == jobs[i].schedule
      ensures !ok ==> forall i :: i in jobs && Keeps(old(View()), jobs, i) ==> SameEntry(old(View()), View(), i)
    {
      ghost var start := View();
      RemoveStale(jobs);
      SettledAtFirst(start, jobs, View());
      hide Settled, Consistent, Reconciled;
      var rest := jobs.Keys;
      while rest != {}
        invariant Valid() && rest <= jobs.Keys && Settled(start, jobs, rest, View())
        invariant forall i :: i in jobs && i !in rest ==> cron.parses(jobs[i].schedule)
      {
        var i :| i in rest;
        var added := Settle(i, jobs, start, rest);
        if !added {
          SettledSchedules(start, jobs, rest, View());
          return false;
        }
        rest := rest - {i};
      }
      SettledAtLast(start, jobs, View());
      ok := true;
    }
  }
}
