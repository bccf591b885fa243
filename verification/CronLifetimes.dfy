/** How long scheduled tasks live: what a cycle makes of each, what ends one over a history, and
    what is handed to the callback. */
module CronLifetimes {
  import opened Wrappers
  import opened SeqFacts
  import opened Calendar
  import opened NextFire
  import opened FirePromises
  import P = CronParser
  import opened CronStorage
  import opened CronScheduler
  import opened CronHistory

  const DAYS_31 := 31 * 24 * 60 * 60 * 1_000_000

  /** Too old: a recurring task that is not permanent, more than 30 whole days after its creation. */
  ghost predicate IsTooOld(t: CronTask, now: DateTime)
    requires Valid(t.createdAt) && Valid(now)
  {
    t.recurring && !t.permanent && Stamp(now) - Stamp(t.createdAt) >= DAYS_31
  }

  lemma MoreThanThirtyDays(age: int)
    ensures age / MICROS_PER_DAY > 30 <==> age >= DAYS_31
  {
  }

  lemma ExpiredMeans(t: CronTask, now: DateTime)
    requires Valid(t.createdAt) && Valid(now)
    ensures Expired(t, now) <==> IsTooOld(t, now)
  {
    hide Stamp;
    MoreThanThirtyDays(Stamp(now) - Stamp(t.createdAt));
  }

  /** A minute after `since`, by no more than 366 days, that matches and has come. */
  ghost predicate HasCome(e: CronExpression, since: DateTime, m: DateTime, now: DateTime)
    requires Valid(since) && Valid(now)
  {
    Valid(m) && Aligned(m) && Matches(e, m)
    && Stamp(since) < Stamp(m) <= Stamp(since) + 366 * MICROS_PER_DAY && Stamp(m) <= Stamp(now)
  }

  /** Such a minute of the task's expression, since its last firing or, without one, its creation. */
  ghost predicate HasPassed(t: CronTask, m: DateTime, now: DateTime, toInt: P.IntReader)
    requires Valid(t.createdAt) && Valid(Reference(t)) && Valid(now)
  {
    var parsed := P.ParseCron(t.cron, toInt);
    parsed.Ok? && HasCome(parsed.value, if t.lastFiredAt.Some? then t.lastFiredAt.value else t.createdAt, m, now)
  }

  lemma DueMeans(t: CronTask, now: DateTime, toInt: P.IntReader)
    requires Valid(t.createdAt) && Valid(Reference(t)) && Valid(now)
    ensures Due(t, now, toInt) <==> exists m :: HasPassed(t, m, now, toInt)
  {
    hide Stamp, P.ParseCron;
    var parsed := P.ParseCron(t.cron, toInt);
    if Due(t, now, toInt) {
      var at := FireTime(parsed.value, Reference(t)).value;
      assert Candidate(parsed.value, Reference(t), at);
      assert HasPassed(t, at, now, toInt);
    }
    if m :| HasPassed(t, m, now, toInt) {
      assert Candidate(parsed.value, Reference(t), m);
      var at := FireTime(parsed.value, Reference(t)).value;
      assert FirstCandidate(parsed.value, Reference(t), at);
    }
  }

  // ---- one cycle ----

  lemma {:induction false} TickAllHas(tasks: seq<CronTask>, now: DateTime, toInt: P.IntReader, t: CronTask)
    requires TimesInHorizon(tasks) && Valid(now) && t in tasks && TickTask(t, now, toInt).Some?
    ensures TickTask(t, now, toInt).value in TickAll(tasks, now, toInt)
  {
    hide TickTask, Stamp;
    var k := |tasks| - 1;
    assert tasks == tasks[..k] + [tasks[k]];
    if t in tasks[..k] {
      TickAllHas(tasks[..k], now, toInt, t);
    }
  }

  /** A cycle fires what is due and not too old; it drops what is too old and the one-shots that
      it fires, stamps the others that it fires, and leaves the rest alone. */
  lemma TickMeans(tasks: seq<CronTask>, now: DateTime, toInt: P.IntReader, t: CronTask)
    requires DistinctIds(tasks) && TimesInHorizon(tasks) && Valid(now) && t in tasks
    ensures FiresAt(t, now, toInt) <==> !IsTooOld(t, now) && exists m :: HasPassed(t, m, now, toInt)
    ensures (exists u :: u in TickAll(tasks, now, toInt) && u.id == t.id)
      <==> !IsTooOld(t, now) && (FiresAt(t, now, toInt) ==> t.recurring)
    ensures forall u :: u in TickAll(tasks, now, toInt) && u.id == t.id ==>
      u == if FiresAt(t, now, toInt) then t.(lastFiredAt := Some(now)) else t
  {
    ExpiredMeans(t, now);
    DueMeans(t, now, toInt);
    hide Due, Expired, Stamp, IsTooOld, HasPassed, TickAll;
    assert TickTask(t, now, toInt) ==
      if IsTooOld(t, now) || (FiresAt(t, now, toInt) && !t.recurring) then None
      else Some(if FiresAt(t, now, toInt) then t.(lastFiredAt := Some(now)) else t);
    hide TickTask, FiresAt;
    forall u | u in TickAll(tasks, now, toInt) && u.id == t.id ensures TickTask(t, now, toInt) == Some(u) {
      TickComesFrom(tasks, now, toInt, t, u);
    }
    if TickTask(t, now, toInt).Some? {
      TickAllHas(tasks, now, toInt, t);
    }
  }

  lemma TickComesFrom(tasks: seq<CronTask>, now: DateTime, toInt: P.IntReader, t: CronTask, u: CronTask)
    requires DistinctIds(tasks) && TimesInHorizon(tasks) && Valid(now) && t in tasks
    requires u in TickAll(tasks, now, toInt) && u.id == t.id
    ensures TickTask(t, now, toInt) == Some(u)
  {
    hide Due, Expired, Stamp, TickAll;
    TickAllComesFrom(tasks, now, toInt, u);
    var v :| v in tasks && TickTask(v, now, toInt) == Some(u);
    SameIdSameTask(tasks, t, v);
  }

  function Prompts(tasks: seq<CronTask>): seq<string> {
    seq(|tasks|, i requires 0 <= i < |tasks| => tasks[i].prompt)
  }

  /** The callback gets the prompts of the tasks that fire, in list order: each task's once. */
  lemma {:induction false} PromptsOfFiring(tasks: seq<CronTask>, now: DateTime, toInt: P.IntReader)
    returns (which: seq<nat>, firing: seq<bool>)
    requires TimesInHorizon(tasks) && Valid(now)
    ensures AreListed(which, FiredPrompts(tasks, now, toInt), Prompts(tasks), firing) && |firing| == |tasks|
    ensures forall k :: 0 <= k < |tasks| ==> tasks[k] in tasks && firing[k] == FiresAt(tasks[k], now, toInt)
    decreases |tasks|
  {
    hide FiresAt, Stamp, AreListed;
    which, firing := [], [];
    if tasks == [] {
      NothingListed<string>();
      assert Prompts(tasks) == [];
    } else {
      var n := |tasks| - 1;
      which, firing := PromptsOfFiring(tasks[..n], now, toInt);
      assert tasks[n] in tasks;
      var fires, last := FiresAt(tasks[n], now, toInt), tasks[n].prompt;
      ListOneMore(which, FiredPrompts(tasks[..n], now, toInt), Prompts(tasks[..n]), firing, last, fires);
      assert Prompts(tasks) == Prompts(tasks[..n]) + [last];
      forall k | 0 <= k < n ensures tasks[k] in tasks && firing[k] == FiresAt(tasks[k], now, toInt) {
        assert tasks[..n][k] == tasks[k];
      }
      which, firing := which + (if fires then [n] else []), firing + [fires];
    }
  }

  /** The missed tasks are those with a scheduled minute that has passed, in list order. */
  lemma {:induction false} MissedHavePassed(tasks: seq<CronTask>, now: DateTime, toInt: P.IntReader)
    returns (which: seq<nat>, due: seq<bool>)
    requires TimesInHorizon(tasks) && Valid(now)
    ensures AreListed(which, DueTasks(tasks, now, toInt), tasks, due) && |due| == |tasks|
    ensures forall k :: 0 <= k < |tasks| ==>
      tasks[k] in tasks && (due[k] <==> exists m :: HasPassed(tasks[k], m, now, toInt))
    decreases |tasks|
  {
    hide Due, HasPassed, Stamp, AreListed;
    which, due := [], [];
    if tasks == [] {
      NothingListed<CronTask>();
    } else {
      var n := |tasks| - 1;
      which, due := MissedHavePassed(tasks[..n], now, toInt);
      assert tasks[n] in tasks;
      DueMeans(tasks[n], now, toInt);
      var isDue := Due(tasks[n], now, toInt);
      ListOneMore(which, DueTasks(tasks[..n], now, toInt), tasks[..n], due, tasks[n], isDue);
      assert tasks == tasks[..n] + [tasks[n]];
      forall k | 0 <= k < n ensures tasks[k] in tasks && (due[k] <==> exists m :: HasPassed(tasks[k], m, now, toInt)) {
        assert tasks[..n][k] == tasks[k];
      }
      which, due := which + (if isDue then [n] else []), due + [isDue];
    }
  }

  // ---- a history ----

  /** The same task, whatever has been stamped or rounded since. */
  ghost predicate SameTask(t: CronTask, u: CronTask) {
    && t.id == u.id && t.cron == u.cron && t.prompt == u.prompt
    && t.recurring == u.recurring && t.permanent == u.permanent
    && WholeSecond(t.createdAt) == WholeSecond(u.createdAt)
  }

  /** Saving and loading keeps a task, and its last firing up to a fraction of a second. */
  lemma SavedTaskIsSame(t: CronTask)
    ensures SameTask(t, SavedTask(t))
    ensures SavedTask(t).lastFiredAt.Some? <==> t.lastFiredAt.Some?
    ensures t.lastFiredAt.Some? ==> WholeSecond(SavedTask(t).lastFiredAt.value) == WholeSecond(t.lastFiredAt.value)
  {
  }

  /** The event takes the task off the list. */
  ghost predicate Ends(s: Store, e: Event, t: CronTask, toInt: P.IntReader)
    requires GoodStore(s) && Allowed(s, e) && t in s.tasks
  {
    match e
    case Tick(now) => IsTooOld(t, now) || (!t.recurring && exists m :: HasPassed(t, m, now, toInt))
    case AddTask(_) => false
    case RemoveTask(id) => id == t.id
    case Reload => false
  }

  ghost predicate IsListed(t: CronTask, tasks: seq<CronTask>) {
    exists u :: u in tasks && SameTask(t, u)
  }

  /** A task leaves the list exactly when it is removed by id, is too old at a cycle, or is a
      one-shot that fires. */
  lemma EventKeepsTask(s: Store, e: Event, t: CronTask, toInt: P.IntReader)
    requires GoodStore(s) && Allowed(s, e) && t in s.tasks
    ensures IsListed(t, After(s, e, toInt).tasks) <==> !Ends(s, e, t, toInt)
  {
    match e
    case Tick(now) => TickKeepsTask(s.tasks, now, t, toInt);
    case AddTask(u) =>
      assert t in s.tasks + [u] && SameTask(t, t);
    case RemoveTask(id) =>
      if id != t.id {
        assert t in Without(s.tasks, id) && SameTask(t, t);
      }
    case Reload =>
      var i :| 0 <= i < |s.tasks| && s.tasks[i] == t;
      assert SavedForm(s.tasks)[i] in SavedForm(s.tasks);
      SavedTaskIsSame(t);
  }

  lemma TickKeepsTask(tasks: seq<CronTask>, now: DateTime, t: CronTask, toInt: P.IntReader)
    requires DistinctIds(tasks) && TimesInHorizon(tasks) && Valid(now) && t in tasks
    ensures IsListed(t, TickAll(tasks, now, toInt)) <==>
      !IsTooOld(t, now) && (t.recurring || !exists m :: HasPassed(t, m, now, toInt))
  {
    TickMeans(tasks, now, toInt, t);
    hide TickAll, FiresAt, IsTooOld, HasPassed, Stamp, DistinctIds, TimesInHorizon;
    if u :| u in TickAll(tasks, now, toInt) && u.id == t.id {
      assert SameTask(t, u);
    }
  }

  lemma SameTaskIsTransitive(t: CronTask, u: CronTask, tasks: seq<CronTask>)
    requires SameTask(t, u) && IsListed(u, tasks)
    ensures IsListed(t, tasks)
  {
    var v :| v in tasks && SameTask(u, v);
    assert SameTask(t, v);
  }

  ghost predicate EndedAt(states: seq<Store>, events: seq<Event>, toInt: P.IntReader, t: CronTask, j: nat)
    requires j < |events| && j < |states|
  {
    && GoodStore(states[j]) && Allowed(states[j], events[j])
    && exists u :: u in states[j].tasks && SameTask(t, u) && Ends(states[j], events[j], u, toInt)
  }

  /** Over any history a task stays listed unless an event in between ends it. */
  lemma {:induction false} TaskStaysUnlessEnded(states: seq<Store>, events: seq<Event>, toInt: P.IntReader,
                                                i: nat, k: nat, t: CronTask)
    requires IsHistory(states, events, toInt) && i <= k <= |events| && t in states[i].tasks
    ensures IsListed(t, states[k].tasks) || exists j: nat :: i <= j < k && EndedAt(states, events, toInt, t, j)
    decreases k
  {
    hide Ends, GoodStore, Allowed, After, SameTask;
    if k == i {
      assert SameTask(t, t) by { Reflexive(t); }
    } else {
      TaskStaysUnlessEnded(states, events, toInt, i, k - 1, t);
      if IsListed(t, states[k - 1].tasks) {
        var u :| u in states[k - 1].tasks && SameTask(t, u);
        assert events[k - 1] == events[k - 1];
        EventKeepsTask(states[k - 1], events[k - 1], u, toInt);
        if Ends(states[k - 1], events[k - 1], u, toInt) {
          assert EndedAt(states, events, toInt, t, k - 1);
        } else {
          SameTaskIsTransitive(t, u, states[k].tasks);
        }
      }
    }
  }

  lemma Reflexive(t: CronTask)
    ensures SameTask(t, t)
  {
  }

  /** So a permanent recurring task leaves only by removal. */
  lemma PermanentTaskStays(states: seq<Store>, events: seq<Event>, toInt: P.IntReader, i: nat, k: nat, t: CronTask)
    requires IsHistory(states, events, toInt) && i <= k <= |events| && t in states[i].tasks
    requires t.permanent && t.recurring && forall j :: i <= j < k ==> events[j] != RemoveTask(t.id)
    ensures IsListed(t, states[k].tasks)
  {
    hide GoodStore, Allowed, HasPassed, Stamp;
    TaskStaysUnlessEnded(states, events, toInt, i, k, t);
  }
}
