/** The task list and its file. Mutations rebuild the list and rewrite the file; the file
    keeps times to whole seconds only. */
module CronStorage {
  import opened Wrappers
  import opened Calendar
  import opened FirePromises

  const MAX_TASKS := 50

  datatype CronTask = CronTask(
    id: string, cron: string, prompt: string, recurring: bool, permanent: bool,
    createdAt: DateTime, lastFiredAt: Option<DateTime>)

  function SavedTask(t: CronTask): CronTask {
    t.(createdAt := WholeSecond(t.createdAt),
       lastFiredAt := match t.lastFiredAt case None => None case Some(at) => Some(WholeSecond(at)))
  }

  function SavedForm(tasks: seq<CronTask>): (r: seq<CronTask>)
    ensures |r| == |tasks|
    ensures forall i :: 0 <= i < |r| ==> r[i] == SavedTask(tasks[i])
  {
    seq(|tasks|, i requires 0 <= i < |tasks| => SavedTask(tasks[i]))
  }

  /** Reading the file back and writing it again changes nothing. */
  lemma SavedFormIsStable(tasks: seq<CronTask>)
    ensures SavedForm(SavedForm(tasks)) == SavedForm(tasks)
  {
  }

  ghost predicate DistinctIds(tasks: seq<CronTask>) {
    forall i, j :: 0 <= i < j < |tasks| ==> tasks[i].id != tasks[j].id
  }

  function Without(tasks: seq<CronTask>, id: string): (r: seq<CronTask>)
    ensures |r| <= |tasks|
    ensures forall t :: t in r <==> t in tasks && t.id != id
  {
    if tasks == [] then []
    else
      assert tasks == [tasks[0]] + tasks[1..];
      (if tasks[0].id == id then [] else [tasks[0]]) + Without(tasks[1..], id)
  }

  function Refired(tasks: seq<CronTask>, id: string, at: DateTime): (r: seq<CronTask>)
    ensures |r| == |tasks|
    ensures forall i :: 0 <= i < |r| ==>
      r[i] == if tasks[i].id == id then tasks[i].(lastFiredAt := Some(at)) else tasks[i]
  {
    seq(|tasks|, i requires 0 <= i < |tasks| =>
      if tasks[i].id == id then tasks[i].(lastFiredAt := Some(at)) else tasks[i])
  }

  class CronStorage {
    var tasks: seq<CronTask>
    var file: seq<CronTask>

    /** The file is in step with the list, up to fractions of a second. */
    ghost predicate Valid()
      reads this
    {
      file == SavedForm(tasks)
    }

    /** Load from an existing file. */
    constructor (file: seq<CronTask>)
      requires SavedForm(file) == file
      ensures Valid() && tasks == file && this.file == file
    {
      tasks := file;
      this.file := file;
    }

    method Save()
      modifies this`file
      ensures Valid()
    {
      file := SavedForm(tasks);
    }

    /** The id is drawn by the caller's `uuid4`, the time by its clock. */
    method Add(id: string, cron: string, prompt: string, recurring: bool, permanent: bool, now: DateTime)
      returns (r: Option<CronTask>)
      requires Valid()
      modifies this
      ensures Valid()
      ensures r.None? <==> |old(tasks)| >= MAX_TASKS
      ensures r.None? ==> tasks == old(tasks)
      ensures r.Some? ==> r.value == CronTask(id, cron, prompt, recurring, permanent, now, None)
      ensures r.Some? ==> tasks == old(tasks) + [r.value]
    {
      if |tasks| >= MAX_TASKS { return None; }
      var task := CronTask(id, cron, prompt, recurring, permanent, now, None);
      tasks := tasks + [task];
      Save();
      r := Some(task);
    }

    method Remove(id: string) returns (found: bool)
      requires Valid()
      modifies this
      ensures Valid()
      ensures tasks == Without(old(tasks), id)
      ensures found <==> exists t :: t in old(tasks) && t.id == id
    {
      var kept := Without(tasks, id);
      WithoutShrinks(tasks, id);
      if |kept| == |tasks| { return false; }
      tasks := kept;
      Save();
      found := true;
    }

    method UpdateLastFired(id: string, at: DateTime) returns (updated: Option<CronTask>)
      requires Valid()
      modifies this
      ensures Valid()
      ensures tasks == Refired(old(tasks), id, at)
      ensures updated.Some? <==> exists t :: t in old(tasks) && t.id == id
      ensures updated.Some? ==> updated.value in tasks && updated.value.id == id
    {
      var rebuilt: seq<CronTask> := [];
      updated := None;
      var k := 0;
      while k < |tasks|
        invariant 0 <= k <= |tasks| && |rebuilt| == k
        invariant forall i :: 0 <= i < k ==>
          rebuilt[i] == if tasks[i].id == id then tasks[i].(lastFiredAt := Some(at)) else tasks[i]
        invariant updated.Some? <==> exists i :: 0 <= i < k && tasks[i].id == id
        invariant updated.Some? ==> updated.value in rebuilt && updated.value.id == id
      {
        if tasks[k].id == id {
          updated := Some(tasks[k].(lastFiredAt := Some(at)));
          rebuilt := rebuilt + [updated.value];
        } else {
          rebuilt := rebuilt + [tasks[k]];
        }
        k := k + 1;
      }
      assert rebuilt == Refired(tasks, id, at);
      if updated.None? {
        assert rebuilt == tasks;
        return;
      }
      tasks := rebuilt;
      Save();
    }
  }

  lemma {:induction false} WithoutShrinks(tasks: seq<CronTask>, id: string)
    ensures |Without(tasks, id)| == |tasks| ==> Without(tasks, id) == tasks
    ensures |Without(tasks, id)| < |tasks| <==> exists t :: t in tasks && t.id == id
  {
    if tasks != [] {
      assert tasks == [tasks[0]] + tasks[1..];
      WithoutShrinks(tasks[1..], id);
    }
  }
}
