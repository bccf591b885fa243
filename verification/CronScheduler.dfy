/** One scheduling cycle, and what holds over any history of cycles, additions, removals
    and reloads. */
module CronScheduler {
  import opened Wrappers
  import opened Calendar
  import opened NextFire
  import opened FirePromises
  import P = CronParser
  import opened CronStorage

  const EXPIRY_DAYS := 30

  function Reference(t: CronTask): DateTime {
    if t.lastFiredAt.Some? then t.lastFiredAt.value else t.createdAt
  }

  /** Far enough from the end of year 9999 for the search window to be a datetime. */
  ghost predicate InHorizon(t: DateTime) {
    Valid(t) && Stamp(t) + SEARCH_WINDOW <= LastStamp()
  }

  ghost predicate TimesInHorizon(tasks: seq<CronTask>) {
    forall t :: t in tasks ==> InHorizon(t.createdAt) && InHorizon(Reference(t))
  }

  /** `(now - created_at).days > 30`, with the floor of Python's timedelta. */
  predicate Expired(t: CronTask, now: DateTime)
    requires Valid(t.createdAt) && Valid(now)
  {
    !t.permanent && t.recurring && (Stamp(now) - Stamp(t.createdAt)) / MICROS_PER_DAY > EXPIRY_DAYS
  }

  /** A scheduled minute has passed since the reference time. */
  ghost predicate Due(t: CronTask, now: DateTime, toInt: P.IntReader)
    requires Valid(Reference(t)) && Valid(now)
  {
    var e := P.ParseCron(t.cron, toInt);
    e.Ok? && FireTime(e.value, Reference(t)).Some? && Stamp(FireTime(e.value, Reference(t)).value) <= Stamp(now)
  }

  // ---- what a tick makes of one task, and of the list ----

  ghost function TickTask(t: CronTask, now: DateTime, toInt: P.IntReader): Option<CronTask>
    requires Valid(t.createdAt) && Valid(Reference(t)) && Valid(now)
  {
    if Expired(t, now) then None
    else if Due(t, now, toInt) then
      if t.recurring then Some(t.(lastFiredAt := Some(now))) else None
    else Some(t)
  }

  ghost predicate FiresAt(t: CronTask, now: DateTime, toInt: P.IntReader)
    requires Valid(t.createdAt) && Valid(Reference(t)) && Valid(now)
  {
    !Expired(t, now) && Due(t, now, toInt)
  }

  ghost function TickAll(tasks: seq<CronTask>, now: DateTime, toInt: P.IntReader): seq<CronTask>
    requires TimesInHorizon(tasks) && Valid(now)
  {
    if tasks == [] then []
    else
      var k := |tasks| - 1;
      TickAll(tasks[..k], now, toInt) +
      (match TickTask(tasks[k], now, toInt) case None => [] case Some(t) => [t])
  }

  /** Prompts handed to the callback, in list order. */
  ghost function FiredPrompts(tasks: seq<CronTask>, now: DateTime, toInt: P.IntReader): seq<string>
    requires TimesInHorizon(tasks) && Valid(now)
  {
    if tasks == [] then []
    else
      var k := |tasks| - 1;
      FiredPrompts(tasks[..k], now, toInt) + (if FiresAt(tasks[k], now, toInt) then [tasks[k].prompt] else [])
  }

  ghost function DueTasks(tasks: seq<CronTask>, now: DateTime, toInt: P.IntReader): seq<CronTask>
    requires TimesInHorizon(tasks) && Valid(now)
  {
    if tasks == [] then []
    else
      var k := |tasks| - 1;
      DueTasks(tasks[..k], now, toInt) + (if Due(tasks[k], now, toInt) then [tasks[k]] else [])
  }

  class CronScheduler {
    const storage: CronStorage
    const toInt: P.IntReader

    constructor (storage: CronStorage, toInt: P.IntReader)
      ensures this.storage == storage && this.toInt == toInt
    {
      this.storage := storage;
      this.toInt := toInt;
    }

    /** Tasks that are due but have not been fired, in list order. */
    method CheckMissed(now: DateTime) returns (missed: seq<CronTask>)
      requires TimesInHorizon(storage.tasks) && Valid(now)
      ensures missed == DueTasks(storage.tasks, now, toInt)
    {
      hide Due, Stamp;
      var tasks := storage.tasks;
      missed := [];
      var k := 0;
      while k < |tasks|
        invariant 0 <= k <= |tasks|
        invariant missed == DueTasks(tasks[..k], now, toInt)
      {
        assert tasks[k] in tasks;
        assert tasks[..k + 1][..k] == tasks[..k];
        var due := IsDue(tasks[k], now);
        if due { missed := missed + [tasks[k]]; }
        k := k + 1;
      }
      assert tasks[..k] == tasks;
    }

    method IsDue(t: CronTask, now: DateTime) returns (due: bool)
      requires InHorizon(Reference(t)) && Valid(now)
      ensures due <==> Due(t, now, toInt)
    {
      var e := P.ParseCron(t.cron, toInt);
      if e.ValueError? { return false; }
      var next := NextFireTime(e.value, Reference(t));
      if next.Fires? {
        FirstIsUnique(e.value, Reference(t), next.at, FireTime(e.value, Reference(t)).value);
        due := Stamp(next.at) <= Stamp(now);
      } else {
        due := false;
      }
    }

    /** One cycle over a snapshot of the list. */
    method ProcessTasks(now: DateTime) returns (fired: seq<string>)
      requires storage.Valid() && DistinctIds(storage.tasks)
      requires TimesInHorizon(storage.tasks) && Valid(now)
      modifies storage
      ensures storage.Valid()
      ensures storage.tasks == TickAll(old(storage.tasks), now, toInt)
      ensures fired == FiredPrompts(old(storage.tasks), now, toInt)
    {
      hide Due, Stamp, Expired, DistinctIds;
      var tasks := storage.tasks;
      var toRemove: seq<string> := [];
      fired := [];
      var k := 0;
      while k < |tasks|
        invariant 0 <= k <= |tasks|
        invariant storage.Valid()
        invariant storage.tasks == MarkedPrefix(tasks, k, now, toInt)
        invariant toRemove == RemovedIds(tasks[..k], now, toInt)
        invariant fired == FiredPrompts(tasks[..k], now, toInt)
      {
        assert tasks[k] in tasks;
        assert tasks[..k + 1][..k] == tasks[..k];
        MarkOne(tasks, k, now, toInt);
        var leaves, fires := ProcessOne(tasks[k], now);
        if leaves { toRemove := toRemove + [tasks[k].id]; }
        if fires { fired := fired + [tasks[k].prompt]; }
        k := k + 1;
      }
      assert tasks[..k] == tasks;
      RemoveAll(toRemove);
      RemovalFinishesTick(tasks, now, toInt);
    }

    /** The body of the cycle for one task: fire it and stamp it, or leave it alone; say
        whether its id goes on the removal list. */
    method ProcessOne(task: CronTask, now: DateTime) returns (leaves: bool, fires: bool)
      requires storage.Valid()
      requires InHorizon(task.createdAt) && InHorizon(Reference(task)) && Valid(now)
      modifies storage
      ensures storage.Valid()
      ensures fires <==> FiresAt(task, now, toInt)
      ensures leaves <==> Leaves(task, now, toInt)
      ensures storage.tasks == if fires then Refired(old(storage.tasks), task.id, now) else old(storage.tasks)
    {
      hide Stamp, P.ParseCron;
      fires := false;
      if Expired(task, now) { return true, false; }
      fires := IsDue(task, now);
      leaves := false;
      if fires {
        var _ := storage.UpdateLastFired(task.id, now);
        leaves := !task.recurring;
      }
    }

    method RemoveAll(ids: seq<string>)
      requires storage.Valid()
      modifies storage
      ensures storage.Valid()
      ensures storage.tasks == WithoutAll(old(storage.tasks), ids)
    {
      hide Without;
      var k := 0;
      while k < |ids|
        invariant 0 <= k <= |ids|
        invariant storage.Valid()
        invariant storage.tasks == WithoutAll(old(storage.tasks), ids[..k])
      {
        assert ids[..k + 1][..k] == ids[..k];
        var _ := storage.Remove(ids[k]);
        k := k + 1;
      }
      assert ids[..k] == ids;
    }
  }

  // ---- the two phases of a tick ----

  /** Phase one leaves every task in place and only stamps the fired ones. */
  ghost function Marked(t: CronTask, now: DateTime, toInt: P.IntReader): CronTask
    requires Valid(t.createdAt) && Valid(Reference(t)) && Valid(now)
  {
    if FiresAt(t, now, toInt) then t.(lastFiredAt := Some(now)) else t
  }

  ghost function MarkedPrefix(tasks: seq<CronTask>, k: nat, now: DateTime, toInt: P.IntReader): (r: seq<CronTask>)
    requires TimesInHorizon(tasks) && Valid(now) && k <= |tasks|
    ensures |r| == |tasks|
    ensures forall i :: 0 <= i < |r| ==> r[i] == if i < k then Marked(tasks[i], now, toInt) else tasks[i]
  {
    seq(|tasks|, i requires 0 <= i < |tasks| => if i < k then Marked(tasks[i], now, toInt) else tasks[i])
  }

  lemma MarkOne(tasks: seq<CronTask>, k: nat, now: DateTime, toInt: P.IntReader)
    requires TimesInHorizon(tasks) && Valid(now) && k < |tasks| && DistinctIds(tasks)
    ensures FiresAt(tasks[k], now, toInt) ==>
      Refired(MarkedPrefix(tasks, k, now, toInt), tasks[k].id, now) == MarkedPrefix(tasks, k + 1, now, toInt)
    ensures !FiresAt(tasks[k], now, toInt) ==>
      MarkedPrefix(tasks, k, now, toInt) == MarkedPrefix(tasks, k + 1, now, toInt)
  {
    hide Due, Expired, Stamp;
    var a, b := MarkedPrefix(tasks, k, now, toInt), MarkedPrefix(tasks, k + 1, now, toInt);
    forall i | 0 <= i < |tasks| ensures i == k || a[i].id != tasks[k].id {
      assert a[i].id == tasks[i].id;
    }
  }

  ghost predicate Leaves(t: CronTask, now: DateTime, toInt: P.IntReader)
    requires Valid(t.createdAt) && Valid(Reference(t)) && Valid(now)
  {
    TickTask(t, now, toInt).None?
  }

  ghost function RemovedIds(tasks: seq<CronTask>, now: DateTime, toInt: P.IntReader): seq<string>
    requires TimesInHorizon(tasks) && Valid(now)
  {
    if tasks == [] then []
    else
      var k := |tasks| - 1;
      RemovedIds(tasks[..k], now, toInt) + (if Leaves(tasks[k], now, toInt) then [tasks[k].id] else [])
  }

  function WithoutAll(tasks: seq<CronTask>, ids: seq<string>): seq<CronTask> {
    if ids == [] then tasks else Without(WithoutAll(tasks, ids[..|ids| - 1]), ids[|ids| - 1])
  }

  /** Keep the tasks whose id is not listed. */
  ghost function Unlisted(tasks: seq<CronTask>, ids: seq<string>): seq<CronTask> {
    if tasks == [] then []
    else
      var k := |tasks| - 1;
      Unlisted(tasks[..k], ids) + (if tasks[k].id in ids then [] else [tasks[k]])
  }

  lemma {:induction false} WithoutAppend(a: seq<CronTask>, b: seq<CronTask>, id: string)
    ensures Without(a + b, id) == Without(a, id) + Without(b, id)
  {
    if a == [] {
      assert a + b == b;
    } else {
      assert (a + b)[1..] == a[1..] + b;
      WithoutAppend(a[1..], b, id);
    }
  }

  lemma {:induction false} WithoutUnlisted(tasks: seq<CronTask>, ids: seq<string>, id: string)
    ensures Without(Unlisted(tasks, ids), id) == Unlisted(tasks, ids + [id])
  {
    if tasks != [] {
      var k := |tasks| - 1;
      WithoutUnlisted(tasks[..k], ids, id);
      var tail := if tasks[k].id in ids then [] else [tasks[k]];
      WithoutAppend(Unlisted(tasks[..k], ids), tail, id);
    }
  }

  lemma {:induction false} UnlistedNothing(tasks: seq<CronTask>)
    ensures Unlisted(tasks, []) == tasks
  {
    if tasks != [] {
      UnlistedNothing(tasks[..|tasks| - 1]);
    }
  }

  lemma {:induction false} WithoutAllIsUnlisted(tasks: seq<CronTask>, ids: seq<string>)
    ensures WithoutAll(tasks, ids) == Unlisted(tasks, ids)
  {
    if ids == [] {
      UnlistedNothing(tasks);
    } else {
      var k := |ids| - 1;
      WithoutAllIsUnlisted(tasks, ids[..k]);
      WithoutUnlisted(tasks, ids[..k], ids[k]);
      assert ids[..k] + [ids[k]] == ids;
    }
  }

  lemma {:induction false} RemovedIdsComeFrom(tasks: seq<CronTask>, now: DateTime, toInt: P.IntReader, id: string)
    requires TimesInHorizon(tasks) && Valid(now)
    requires forall i :: 0 <= i < |tasks| ==> tasks[i].id != id
    ensures id !in RemovedIds(tasks, now, toInt)
  {
    hide Leaves, Stamp;
    if tasks != [] {
      assert tasks[|tasks| - 1] in tasks;
      RemovedIdsComeFrom(tasks[..|tasks| - 1], now, toInt, id);
    }
  }

  lemma {:induction false} RemovedIdsAre(tasks: seq<CronTask>, now: DateTime, toInt: P.IntReader, i: nat)
    requires TimesInHorizon(tasks) && Valid(now) && DistinctIds(tasks) && i < |tasks|
    ensures tasks[i] in tasks
    ensures tasks[i].id in RemovedIds(tasks, now, toInt) <==> Leaves(tasks[i], now, toInt)
  {
    hide Leaves, Stamp;
    var k := |tasks| - 1;
    assert tasks[k] in tasks;
    if i < k {
      RemovedIdsAre(tasks[..k], now, toInt, i);
      assert tasks[i].id != tasks[k].id;
    } else {
      RemovedIdsComeFrom(tasks[..k], now, toInt, tasks[k].id);
    }
  }

  /** Stamping and then removing by id is the tick applied task by task. */
  lemma RemovalFinishesTick(tasks: seq<CronTask>, now: DateTime, toInt: P.IntReader)
    requires TimesInHorizon(tasks) && Valid(now) && DistinctIds(tasks)
    ensures WithoutAll(MarkedPrefix(tasks, |tasks|, now, toInt), RemovedIds(tasks, now, toInt))
         == TickAll(tasks, now, toInt)
  {
    hide Due, Expired, Stamp, WithoutAll, Unlisted, TickAll, RemovedIds, Leaves, DistinctIds;
    var ids := RemovedIds(tasks, now, toInt);
    WithoutAllIsUnlisted(MarkedPrefix(tasks, |tasks|, now, toInt), ids);
    forall i | 0 <= i < |tasks| ensures tasks[i] in tasks && (tasks[i].id in ids <==> Leaves(tasks[i], now, toInt)) {
      RemovedIdsAre(tasks, now, toInt, i);
    }
    UnlistedIsTick(tasks, |tasks|, ids, now, toInt);
    assert tasks[..|tasks|] == tasks;
    assert MarkedPrefix(tasks, |tasks|, now, toInt)[..|tasks|] == MarkedPrefix(tasks, |tasks|, now, toInt);
  }

  lemma {:induction false} UnlistedIsTick(tasks: seq<CronTask>, n: nat, ids: seq<string>, now: DateTime,
                                          toInt: P.IntReader)
    requires TimesInHorizon(tasks) && Valid(now) && n <= |tasks|
    requires forall i :: 0 <= i < |tasks| ==> tasks[i] in tasks && (tasks[i].id in ids <==> Leaves(tasks[i], now, toInt))
    ensures Unlisted(MarkedPrefix(tasks, |tasks|, now, toInt)[..n], ids) == TickAll(tasks[..n], now, toInt)
  {
    hide Due, Expired, Stamp;
    if n > 0 {
      UnlistedIsTick(tasks, n - 1, ids, now, toInt);
      var m := MarkedPrefix(tasks, |tasks|, now, toInt);
      assert m[..n][..n - 1] == m[..n - 1];
      assert tasks[..n][..n - 1] == tasks[..n - 1];
      assert m[n - 1] == Marked(tasks[n - 1], now, toInt);
    }
  }
}
