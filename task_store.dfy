/** The persisted task ledger of `src/store/taskStore.ts`: a newest-first list
    of video tasks, lifetime counters of API calls and generated videos, and
    for each counter a log of recent timestamps pruned to the last 30 days.
    The clock is a parameter. */
module TaskStore {
  import opened Wrappers
  import opened Types

  /** 30 days in milliseconds. */
  const ThirtyDaysMs: int := 30 * 24 * 60 * 60 * 1000

  // ---------------------------------------------------------------------
  // The values the store's actions compute.

  /** `tasks.map(t => t.id === id ? { ...t, ...updates } : t)`. */
  function UpdateTasks(tasks: seq<VideoTask>, id: string, updates: TaskPatch): (r: seq<VideoTask>)
    ensures |r| == |tasks|
  {
    if tasks == [] then []
    else [if tasks[0].id == id then ApplyPatch(tasks[0], updates) else tasks[0]]
         + UpdateTasks(tasks[1..], id, updates)
  }

  /** Position by position, `updateTask` merges the update into the tasks
      with that id and leaves every other task as it was. */
  lemma {:induction false} UpdateTasksPointwise(tasks: seq<VideoTask>, id: string, updates: TaskPatch)
    ensures forall k :: 0 <= k < |tasks| ==>
      UpdateTasks(tasks, id, updates)[k] == if tasks[k].id == id then ApplyPatch(tasks[k], updates) else tasks[k]
  {
    if tasks != [] {
      UpdateTasksPointwise(tasks[1..], id, updates);
      forall k | 1 <= k < |tasks|
        ensures UpdateTasks(tasks, id, updates)[k] == UpdateTasks(tasks[1..], id, updates)[k - 1]
      {
      }
    }
  }

  /** An update for an id no task carries changes nothing. */
  lemma UpdateMissingId(tasks: seq<VideoTask>, id: string, updates: TaskPatch)
    requires forall k :: 0 <= k < |tasks| ==> tasks[k].id != id
    ensures UpdateTasks(tasks, id, updates) == tasks
  {
    UpdateTasksPointwise(tasks, id, updates);
  }

  /** Two updates of the same id in a row are one update with the merged
      patch, as long as the first does not rename the task. */
  lemma {:induction false} UpdateTasksTwice(tasks: seq<VideoTask>, id: string, p: TaskPatch, q: TaskPatch)
    requires p.id.None?
    ensures UpdateTasks(UpdateTasks(tasks, id, p), id, q) == UpdateTasks(tasks, id, ThenPatch(p, q))
  {
    if tasks != [] {
      UpdateTasksTwice(tasks[1..], id, p, q);
      PatchAlgebra(tasks[0], p, q);
      PatchKeepsId(tasks[0], p);
      var first := UpdateTasks(tasks, id, p);
      assert first[1..] == UpdateTasks(tasks[1..], id, p);
    }
  }

  /** `tasks.filter(t => t.id !== id)`. */
  function RemoveId(tasks: seq<VideoTask>, id: string): (r: seq<VideoTask>)
    ensures |r| <= |tasks|
    ensures forall k :: 0 <= k < |r| ==> r[k].id != id
    ensures forall t :: t in r <==> t in tasks && t.id != id
  {
    if tasks == [] then []
    else if tasks[0].id == id then RemoveId(tasks[1..], id)
    else [tasks[0]] + RemoveId(tasks[1..], id)
  }

  /** Filtering keeps the surviving tasks in their order: it distributes
      over concatenation. */
  lemma {:induction false} RemoveIdAppend(a: seq<VideoTask>, b: seq<VideoTask>, id: string)
    ensures RemoveId(a + b, id) == RemoveId(a, id) + RemoveId(b, id)
  {
    if a == [] {
      assert a + b == b;
    } else {
      assert (a + b)[0] == a[0] && (a + b)[1..] == a[1..] + b;
      RemoveIdAppend(a[1..], b, id);
    }
  }

  /** A list without that id is left alone. */
  lemma {:induction false} RemoveAbsentId(tasks: seq<VideoTask>, id: string)
    requires forall k :: 0 <= k < |tasks| ==> tasks[k].id != id
    ensures RemoveId(tasks, id) == tasks
  {
    if tasks != [] {
      RemoveAbsentId(tasks[1..], id);
    }
  }

  /** Deleting twice is deleting once. */
  lemma DeleteIdempotent(tasks: seq<VideoTask>, id: string)
    ensures RemoveId(RemoveId(tasks, id), id) == RemoveId(tasks, id)
  {
    RemoveAbsentId(RemoveId(tasks, id), id);
  }

  /** A callback that arrives after its task was deleted is a no-op. */
  lemma UpdateAfterDelete(tasks: seq<VideoTask>, id: string, updates: TaskPatch)
    ensures UpdateTasks(RemoveId(tasks, id), id, updates) == RemoveId(tasks, id)
  {
    UpdateMissingId(RemoveId(tasks, id), id, updates);
  }

  /** `log.filter(t => t > cutoff)`. */
  function KeepAfter(log: seq<int>, cutoff: int): (r: seq<int>)
    ensures |r| <= |log|
    ensures forall k :: 0 <= k < |r| ==> r[k] > cutoff
    ensures forall x :: x in r <==> x in log && x > cutoff
  {
    if log == [] then []
    else if log[0] > cutoff then [log[0]] + KeepAfter(log[1..], cutoff)
    else KeepAfter(log[1..], cutoff)
  }

  /** Entries the filter keeps are kept in their order. */
  lemma {:induction false} KeepAfterAppend(a: seq<int>, b: seq<int>, cutoff: int)
    ensures KeepAfter(a + b, cutoff) == KeepAfter(a, cutoff) + KeepAfter(b, cutoff)
  {
    if a == [] {
      assert a + b == b;
    } else {
      assert (a + b)[0] == a[0] && (a + b)[1..] == a[1..] + b;
      KeepAfterAppend(a[1..], b, cutoff);
    }
  }

  /** Filtering with a later cutoff after an earlier one is filtering with
      the later one. */
  lemma {:induction false} KeepAfterTwice(log: seq<int>, c1: int, c2: int)
    requires c1 <= c2
    ensures KeepAfter(KeepAfter(log, c1), c2) == KeepAfter(log, c2)
  {
    if log != [] {
      KeepAfterTwice(log[1..], c1, c2);
    }
  }

  /** The timestamp log after one increment at `now`: entries of the last 30
      days, then `now`. */
  function RecordAt(log: seq<int>, now: int): (r: seq<int>)
    ensures 1 <= |r| <= |log| + 1
    ensures r[|r| - 1] == now
  {
    KeepAfter(log, now - ThirtyDaysMs) + [now]
  }

  /** After an increment at `now`, every entry lies in the 30 days up to
      `now` and the last one is `now`, provided the clock did not run
      backwards. */
  lemma RecordWindow(log: seq<int>, now: int)
    requires forall k :: 0 <= k < |log| ==> log[k] <= now
    ensures var r := RecordAt(log, now);
      (forall k :: 0 <= k < |r| ==> now - ThirtyDaysMs < r[k] <= now) && r[|r| - 1] == now
  {
    var kept := KeepAfter(log, now - ThirtyDaysMs);
    forall k | 0 <= k < |kept| ensures kept[k] <= now {
      assert kept[k] in log;
    }
  }

  // ---------------------------------------------------------------------
  // The store.

  class TaskLedger {
    var tasks: seq<VideoTask>
    var totalApiCalls: nat
    var totalVideosGenerated: nat
    var apiCallTimestamps: seq<int>
    var videoGeneratedTimestamps: seq<int>

    /** Pruning only ever drops entries, so no log outgrows its lifetime
        total. */
    ghost predicate Valid()
      reads this
    {
      |apiCallTimestamps| <= totalApiCalls && |videoGeneratedTimestamps| <= totalVideosGenerated
    }

    /** The initial state: no tasks, zero counters, empty logs. */
    constructor()
      ensures Valid()
      ensures tasks == [] && totalApiCalls == 0 && totalVideosGenerated == 0
      ensures apiCallTimestamps == [] && videoGeneratedTimestamps == []
    {
      tasks := [];
      totalApiCalls := 0;
      totalVideosGenerated := 0;
      apiCallTimestamps := [];
      videoGeneratedTimestamps := [];
    }

    /** `addTask`: the new task goes first, the old ones follow in order; ids
        are not checked for duplicates. */
    method AddTask(task: VideoTask)
      requires Valid()
      modifies this
      ensures Valid()
      ensures tasks == [task] + old(tasks)
      ensures totalApiCalls == old(totalApiCalls) && totalVideosGenerated == old(totalVideosGenerated)
      ensures apiCallTimestamps == old(apiCallTimestamps) && videoGeneratedTimestamps == old(videoGeneratedTimestamps)
    {
      tasks := [task] + tasks;
    }

    /** `updateTask`: the update is merged into every task with that id. */
    method UpdateTask(id: string, updates: TaskPatch)
      requires Valid()
      modifies this
      ensures Valid()
      ensures tasks == UpdateTasks(old(tasks), id, updates)
      ensures totalApiCalls == old(totalApiCalls) && totalVideosGenerated == old(totalVideosGenerated)
      ensures apiCallTimestamps == old(apiCallTimestamps) && videoGeneratedTimestamps == old(videoGeneratedTimestamps)
    {
      tasks := UpdateTasks(tasks, id, updates);
    }

    /** `deleteTask`: every task with that id goes, the rest stay in order. */
    method DeleteTask(id: string)
      requires Valid()
      modifies this
      ensures Valid()
      ensures tasks == RemoveId(old(tasks), id)
      ensures totalApiCalls == old(totalApiCalls) && totalVideosGenerated == old(totalVideosGenerated)
      ensures apiCallTimestamps == old(apiCallTimestamps) && videoGeneratedTimestamps == old(videoGeneratedTimestamps)
    {
      tasks := RemoveId(tasks, id);
    }

    /** `incrementApiCalls` at time `now`. */
    method IncrementApiCalls(now: int)
      requires Valid()
      modifies this
      ensures Valid()
      ensures totalApiCalls == old(totalApiCalls) + 1
      ensures apiCallTimestamps == RecordAt(old(apiCallTimestamps), now)
      ensures tasks == old(tasks) && totalVideosGenerated == old(totalVideosGenerated)
      ensures videoGeneratedTimestamps == old(videoGeneratedTimestamps)
    {
      apiCallTimestamps := RecordAt(apiCallTimestamps, now);
      totalApiCalls := totalApiCalls + 1;
    }

    /** `incrementVideosGenerated` at time `now`. */
    method IncrementVideosGenerated(now: int)
      requires Valid()
      modifies this
      ensures Valid()
      ensures totalVideosGenerated == old(totalVideosGenerated) + 1
      ensures videoGeneratedTimestamps == RecordAt(old(videoGeneratedTimestamps), now)
      ensures tasks == old(tasks) && totalApiCalls == old(totalApiCalls)
      ensures apiCallTimestamps == old(apiCallTimestamps)
    {
      videoGeneratedTimestamps := RecordAt(videoGeneratedTimestamps, now);
      totalVideosGenerated := totalVideosGenerated + 1;
    }
  }
}
