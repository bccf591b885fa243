/** Histories of a scheduler: cycles under a clock that never runs backwards, tasks added
    with ids never used before, removals, and restarts that reload the saved file. */
module CronHistory {
  import opened Wrappers
  import opened Calendar
  import opened NextFire
  import opened FirePromises
  import P = CronParser
  import opened CronStorage
  import opened CronScheduler

  datatype Event = Tick(now: DateTime) | AddTask(task: CronTask) | RemoveTask(id: string) | Reload

  datatype Store = Store(tasks: seq<CronTask>, used: set<string>, clock: DateTime)

  ghost predicate GoodStore(s: Store) {
    DistinctIds(s.tasks) && TimesInHorizon(s.tasks) && Valid(s.clock) &&
    forall t :: t in s.tasks ==> t.id in s.used
  }

  ghost predicate Allowed(s: Store, e: Event)
    requires Valid(s.clock)
  {
    match e
    case Tick(now) => InHorizon(now) && Stamp(s.clock) <= Stamp(now)
    case AddTask(t) => t.id !in s.used && InHorizon(t.createdAt) && t.lastFiredAt == None && |s.tasks| < MAX_TASKS
    case RemoveTask(_) => true
    case Reload => true
  }

  ghost function After(s: Store, e: Event, toInt: P.IntReader): Store
    requires GoodStore(s) && Allowed(s, e)
  {
    match e
    case Tick(now) => s.(tasks := TickAll(s.tasks, now, toInt), clock := now)
    case AddTask(t) => s.(tasks := s.tasks + [t], used := s.used + {t.id})
    case RemoveTask(id) => s.(tasks := Without(s.tasks, id))
    case Reload => s.(tasks := SavedForm(s.tasks))
  }

  ghost predicate IsHistory(states: seq<Store>, events: seq<Event>, toInt: P.IntReader) {
    |states| == |events| + 1 && GoodStore(states[0]) &&
    forall i {:trigger events[i]} :: 0 <= i < |events| ==>
      GoodStore(states[i]) && Allowed(states[i], events[i]) && states[i + 1] == After(states[i], events[i], toInt)
  }

  // ---- where the tasks after an event come from ----

  lemma {:induction false} TickAllComesFrom(tasks: seq<CronTask>, now: DateTime, toInt: P.IntReader, t: CronTask)
    requires TimesInHorizon(tasks) && Valid(now) && t in TickAll(tasks, now, toInt)
    ensures exists u :: u in tasks && TickTask(u, now, toInt) == Some(t)
  {
    hide TickTask, Stamp;
    var k := |tasks| - 1;
    assert tasks[k] in tasks;
    if TickTask(tasks[k], now, toInt) != Some(t) {
      TickAllComesFrom(tasks[..k], now, toInt, t);
      var u :| u in tasks[..k] && TickTask(u, now, toInt) == Some(t);
      assert u in tasks;
    }
  }

  lemma TickAllKeepsTimes(tasks: seq<CronTask>, now: DateTime, toInt: P.IntReader)
    requires TimesInHorizon(tasks) && InHorizon(now)
    ensures TimesInHorizon(TickAll(tasks, now, toInt))
  {
    hide Due, Expired, Stamp;
    forall t | t in TickAll(tasks, now, toInt) ensures InHorizon(t.createdAt) && InHorizon(Reference(t)) {
      TickAllComesFrom(tasks, now, toInt, t);
      var u :| u in tasks && TickTask(u, now, toInt) == Some(t);
    }
  }

  lemma EarlierIdsDiffer(tasks: seq<CronTask>, now: DateTime, toInt: P.IntReader, t: CronTask)
    requires tasks != [] && DistinctIds(tasks) && TimesInHorizon(tasks) && Valid(now)
    requires t in TickAll(tasks[..|tasks| - 1], now, toInt)
    ensures t.id != tasks[|tasks| - 1].id
  {
    hide Due, Expired, Stamp, TickAll;
    var k := |tasks| - 1;
    TickAllComesFrom(tasks[..k], now, toInt, t);
    var u :| u in tasks[..k] && TickTask(u, now, toInt) == Some(t);
    var i :| 0 <= i < k && tasks[..k][i] == u;
    assert tasks[i].id != tasks[k].id;
  }

  lemma {:induction false} TickAllKeepsDistinct(tasks: seq<CronTask>, now: DateTime, toInt: P.IntReader)
    requires DistinctIds(tasks) && TimesInHorizon(tasks) && Valid(now)
    ensures DistinctIds(TickAll(tasks, now, toInt))
  {
    hide Due, Expired, Stamp;
    if tasks != [] {
      var k := |tasks| - 1;
      assert tasks[k] in tasks;
      TickAllKeepsDistinct(tasks[..k], now, toInt);
      forall t | t in TickAll(tasks[..k], now, toInt) ensures t.id != tasks[k].id {
        EarlierIdsDiffer(tasks, now, toInt, t);
      }
      if TickTask(tasks[k], now, toInt).Some? {
        DistinctAppend(TickAll(tasks[..k], now, toInt), TickTask(tasks[k], now, toInt).value);
      }
    }
  }

  lemma DistinctAppend(tasks: seq<CronTask>, t: CronTask)
    requires DistinctIds(tasks) && forall u :: u in tasks ==> u.id != t.id
    ensures DistinctIds(tasks + [t])
  {
  }

  lemma {:induction false} WithoutKeepsDistinct(tasks: seq<CronTask>, id: string)
    requires DistinctIds(tasks)
    ensures DistinctIds(Without(tasks, id))
  {
    if tasks != [] {
      WithoutKeepsDistinct(tasks[1..], id);
      forall t | t in Without(tasks[1..], id) ensures t.id != tasks[0].id {
        var i :| 0 <= i < |tasks[1..]| && tasks[1..][i] == t;
        assert tasks[i + 1].id != tasks[0].id;
      }
    }
  }

  lemma WholeSecondInHorizon(t: DateTime)
    requires InHorizon(t)
    ensures InHorizon(WholeSecond(t))
  {
  }

  lemma SavedFormKeepsGood(tasks: seq<CronTask>)
    requires DistinctIds(tasks) && TimesInHorizon(tasks)
    ensures DistinctIds(SavedForm(tasks)) && TimesInHorizon(SavedForm(tasks))
  {
    hide InHorizon;
    forall t | t in SavedForm(tasks) ensures InHorizon(t.createdAt) && InHorizon(Reference(t)) {
      var i :| 0 <= i < |tasks| && SavedForm(tasks)[i] == t;
      assert tasks[i] in tasks;
      WholeSecondInHorizon(tasks[i].createdAt);
      WholeSecondInHorizon(Reference(tasks[i]));
    }
  }

  /** Ids stay distinct and known, times stay representable. */
  lemma EventKeepsGood(s: Store, e: Event, toInt: P.IntReader)
    requires GoodStore(s) && Allowed(s, e)
    ensures GoodStore(After(s, e, toInt))
  {
    hide Due, Expired, Stamp;
    match e
    case Tick(now) =>
      TickAllKeepsTimes(s.tasks, now, toInt);
      TickAllKeepsDistinct(s.tasks, now, toInt);
      forall t | t in TickAll(s.tasks, now, toInt) ensures t.id in s.used {
        TickAllComesFrom(s.tasks, now, toInt, t);
      }
    case AddTask(t) =>
      forall i | 0 <= i < |s.tasks| ensures s.tasks[i].id != t.id {
        assert s.tasks[i] in s.tasks;
      }
    case RemoveTask(id) =>
      WithoutKeepsDistinct(s.tasks, id);
    case Reload =>
      SavedFormKeepsGood(s.tasks);
      forall t | t in SavedForm(s.tasks) ensures t.id in s.used {
        var i :| 0 <= i < |s.tasks| && SavedForm(s.tasks)[i] == t;
        assert s.tasks[i] in s.tasks;
      }
  }

  // ---- right after a cycle nothing is missed ----

  lemma TickLeavesNothingDue(t: CronTask, now: DateTime, toInt: P.IntReader)
    requires Valid(t.createdAt) && Valid(Reference(t)) && Valid(now)
    requires TickTask(t, now, toInt).Some?
    ensures !Due(TickTask(t, now, toInt).value, now, toInt)
  {
  }

  lemma {:induction false} NothingDueAfterTick(tasks: seq<CronTask>, now: DateTime, toInt: P.IntReader)
    requires TimesInHorizon(tasks) && InHorizon(now) && TimesInHorizon(TickAll(tasks, now, toInt))
    ensures DueTasks(TickAll(tasks, now, toInt), now, toInt) == []
  {
    forall t | t in TickAll(tasks, now, toInt) ensures InHorizon(Reference(t)) && !Due(t, now, toInt) {
      TickAllComesFrom(tasks, now, toInt, t);
      var u :| u in tasks && TickTask(u, now, toInt) == Some(t);
      TickLeavesNothingDue(u, now, toInt);
    }
    NoneDue(TickAll(tasks, now, toInt), now, toInt);
  }

  lemma {:induction false} NoneDue(tasks: seq<CronTask>, now: DateTime, toInt: P.IntReader)
    requires TimesInHorizon(tasks) && Valid(now)
    requires forall t :: t in tasks ==> InHorizon(Reference(t)) && !Due(t, now, toInt)
    ensures DueTasks(tasks, now, toInt) == []
  {
    hide Due, InHorizon;
    if tasks != [] {
      assert tasks[|tasks| - 1] in tasks;
      NoneDue(tasks[..|tasks| - 1], now, toInt);
    }
  }

  // ---- reloading never changes what is due ----

  lemma ReloadKeepsDue(t: CronTask, now: DateTime, toInt: P.IntReader)
    requires Valid(Reference(t)) && Valid(now)
    ensures Due(SavedTask(t), now, toInt) <==> Due(t, now, toInt)
  {
    hide Stamp, FireTime;
    assert Reference(SavedTask(t)) == WholeSecond(Reference(t));
    var e := P.ParseCron(t.cron, toInt);
    if e.Ok? {
      FractionDoesNotMatter(e.value, Reference(t));
    }
  }

  // ---- successive firings ----

  /** The task with this id fires in a cycle at `now`. */
  ghost predicate Fires(s: Store, id: string, now: DateTime, toInt: P.IntReader)
    requires GoodStore(s) && Valid(now)
  {
    exists t :: t in s.tasks && t.id == id && FiresAt(t, now, toInt)
  }

  /** Since a firing at `n`: the id is used up, and if its task is still listed then it is
      recurring, has the same expression, and its last firing is no earlier than `n`. */
  ghost predicate FiredSince(s: Store, id: string, cron: string, n: DateTime)
    requires Valid(n)
  {
    id in s.used && Valid(s.clock) && Stamp(n) <= Stamp(s.clock) &&
    forall t :: t in s.tasks && t.id == id ==> StillListed(t, cron, n)
  }

  ghost predicate StillListed(t: CronTask, cron: string, n: DateTime)
    requires Valid(n)
  {
    t.recurring && t.cron == cron && t.lastFiredAt.Some? && Valid(t.lastFiredAt.value) &&
    Stamp(WholeSecond(n)) <= Stamp(t.lastFiredAt.value)
  }

  lemma WholeSecondBounds(n: DateTime, l: DateTime)
    requires Valid(n) && Valid(l)
    ensures Stamp(WholeSecond(n)) <= Stamp(n)
    ensures Stamp(WholeSecond(n)) <= Stamp(l) ==> Stamp(WholeSecond(n)) <= Stamp(WholeSecond(l))
  {
    hide Ordinal;
    var a, b := Minutes(n) * 60 + n.second, Minutes(l) * 60 + l.second;
    assert Minutes(WholeSecond(n)) == Minutes(n) && Minutes(WholeSecond(l)) == Minutes(l);
    assert Stamp(WholeSecond(n)) == a * 1_000_000 && Stamp(WholeSecond(l)) == b * 1_000_000;
    CompareWholeSeconds(a, b, l.micro);
  }

  lemma CompareWholeSeconds(a: int, b: int, r: int)
    requires 0 <= r < 1_000_000
    ensures a * 1_000_000 <= b * 1_000_000 + r ==> a * 1_000_000 <= b * 1_000_000
  {
    if a > b { assert a * 1_000_000 >= (b + 1) * 1_000_000; }
  }

  lemma AlignedPastWholeSecond(n: DateTime, at: DateTime)
    requires Valid(n) && Valid(at) && Aligned(at) && Stamp(WholeSecond(n)) < Stamp(at)
    ensures Stamp(n) < Stamp(at)
  {
    hide Ordinal;
    assert Minutes(WholeSecond(n)) == Minutes(n);
    LaterMinute(Minutes(n), Minutes(at), n.second * 1_000_000, n.second * 1_000_000 + n.micro);
  }

  lemma SameIdSameTask(tasks: seq<CronTask>, t: CronTask, u: CronTask)
    requires DistinctIds(tasks) && t in tasks && u in tasks && t.id == u.id
    ensures t == u
  {
    var i :| 0 <= i < |tasks| && tasks[i] == t;
    var j :| 0 <= j < |tasks| && tasks[j] == u;
  }

  lemma FiringStarts(s: Store, n: DateTime, toInt: P.IntReader, t: CronTask)
    requires GoodStore(s) && Allowed(s, Tick(n)) && t in s.tasks && FiresAt(t, n, toInt)
    ensures FiredSince(After(s, Tick(n), toInt), t.id, t.cron, n)
  {
    hide Due, Expired, Stamp;
    WholeSecondBounds(n, n);
    forall v | v in TickAll(s.tasks, n, toInt) && v.id == t.id ensures StillListed(v, t.cron, n) {
      TickAllComesFrom(s.tasks, n, toInt, v);
      var u :| u in s.tasks && TickTask(u, n, toInt) == Some(v);
      SameIdSameTask(s.tasks, t, u);
    }
  }

  lemma TickKeepsListed(s: Store, now: DateTime, toInt: P.IntReader, cron: string, n: DateTime, v: CronTask)
    requires GoodStore(s) && Allowed(s, Tick(now)) && Valid(n) && FiredSince(s, v.id, cron, n)
    requires v in TickAll(s.tasks, now, toInt)
    ensures StillListed(v, cron, n)
  {
    hide Due, Expired, Stamp, TickAll;
    WholeSecondBounds(n, n);
    TickAllComesFrom(s.tasks, now, toInt, v);
    var u :| u in s.tasks && TickTask(u, now, toInt) == Some(v);
    assert StillListed(u, cron, n);
  }

  lemma FiringPersists(s: Store, e: Event, toInt: P.IntReader, id: string, cron: string, n: DateTime)
    requires GoodStore(s) && Allowed(s, e) && Valid(n) && FiredSince(s, id, cron, n)
    ensures FiredSince(After(s, e, toInt), id, cron, n)
  {
    hide Due, Expired, Stamp, TickAll, SavedForm;
    WholeSecondBounds(n, n);
    forall v | v in After(s, e, toInt).tasks && v.id == id ensures StillListed(v, cron, n) {
      match e
      case Tick(now) => TickKeepsListed(s, now, toInt, cron, n, v);
      case AddTask(_) =>
      case RemoveTask(_) =>
      case Reload =>
        var i :| 0 <= i < |s.tasks| && SavedForm(s.tasks)[i] == v;
        assert StillListed(s.tasks[i], cron, n);
        WholeSecondBounds(n, s.tasks[i].lastFiredAt.value);
    }
  }

  lemma {:induction false} FiredEverSince(states: seq<Store>, events: seq<Event>, toInt: P.IntReader,
                                          i: nat, k: nat, t: CronTask)
    requires IsHistory(states, events, toInt) && i < k <= |events|
    requires events[i].Tick? && GoodStore(states[i]) && InHorizon(events[i].now)
    requires t in states[i].tasks && FiresAt(t, events[i].now, toInt)
    ensures GoodStore(states[k]) && FiredSince(states[k], t.id, t.cron, events[i].now)
  {
    hide FiredSince, FiresAt, Allowed, After, Stamp, DistinctIds;
    if k == i + 1 {
      FiringStarts(states[i], events[i].now, toInt, t);
      EventKeepsGood(states[i], events[i], toInt);
    } else {
      FiredEverSince(states, events, toInt, i, k - 1, t);
      FiringPersists(states[k - 1], events[k - 1], toInt, t.id, t.cron, events[i].now);
      EventKeepsGood(states[k - 1], events[k - 1], toInt);
    }
  }

  ghost predicate MatchesBetween(e: CronExpression, m: DateTime, a: DateTime, b: DateTime)
    requires Valid(a) && Valid(b)
  {
    Valid(m) && Aligned(m) && Matches(e, m) && Stamp(a) < Stamp(m) <= Stamp(b)
  }

  /** Two firings of one task: it is recurring (so a one-shot fires at most once), and a
      minute matching its expression lies after the first and no later than the second. */
  lemma FiringsAreSeparated(states: seq<Store>, events: seq<Event>, toInt: P.IntReader,
                            i: nat, j: nat, t: CronTask, u: CronTask)
    requires IsHistory(states, events, toInt) && i < j < |events|
    requires events[i].Tick? && events[j].Tick?
    requires t in states[i].tasks && GoodStore(states[i]) && InHorizon(events[i].now) && FiresAt(t, events[i].now, toInt)
    requires u in states[j].tasks && GoodStore(states[j]) && InHorizon(events[j].now) && FiresAt(u, events[j].now, toInt)
    requires t.id == u.id
    ensures u.recurring && u.cron == t.cron && P.ParseCron(u.cron, toInt).Ok?
    ensures exists m :: MatchesBetween(P.ParseCron(u.cron, toInt).value, m, events[i].now, events[j].now)
  {
    FiredEverSince(states, events, toInt, i, j, t);
    assert StillListed(u, t.cron, events[i].now);
    var at := FireTime(P.ParseCron(u.cron, toInt).value, Reference(u)).value;
    assert Candidate(P.ParseCron(u.cron, toInt).value, Reference(u), at);
    AlignedPastWholeSecond(events[i].now, at);
    assert MatchesBetween(P.ParseCron(u.cron, toInt).value, at, events[i].now, events[j].now);
  }
}
