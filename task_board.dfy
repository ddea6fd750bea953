/**
 * The Kanban board's data logic: bucketing the project's tasks into one
 * column per status, the decision a finished drag makes, and the list
 * updates after a task is changed or deleted.
 */
module TaskBoard {
  import opened Common
  import opened Model

  /** The column a task is shown in: its own status when that is a column, the first column otherwise. */
  function Place(statuses: seq<string>, t: Task): (st: string)
    requires statuses != []
    ensures st in statuses
    ensures st == t.status || (st == statuses[0] && t.status !in statuses)
  {
    if t.status in statuses then t.status else statuses[0]
  }

  /** The task as its column holds it: a task moved to the first column shows that column's status. */
  function Placed(statuses: seq<string>, t: Task): (r: Task)
    requires statuses != []
    ensures r == t.(status := Place(statuses, t))
  {
    if t.status in statuses then t else t.(status := statuses[0])
  }

  /** The bucket for `st` once every task has been pushed, in input order. */
  function Column(statuses: seq<string>, ts: seq<Task>, st: string): (r: seq<Task>)
    requires statuses != []
    ensures |r| <= |ts|
    ensures forall x :: x in r ==> x.status == st
    decreases |ts|
  {
    if ts == [] then []
    else
      var t := ts[|ts| - 1];
      Column(statuses, ts[..|ts| - 1], st) + (if Place(statuses, t) == st then [Placed(statuses, t)] else [])
  }

  /** Every status has a bucket in `board`, holding that status's column of `ts`. */
  ghost predicate ColumnsHold(board: map<string, seq<Task>>, statuses: seq<string>, ts: seq<Task>)
  {
    forall st :: st in statuses ==> st in board && board[st] == Column(statuses, ts, st)
  }

  /** The board `organizeTasksByStatus` builds: one bucket per status, holding its column. */
  ghost predicate IsBoard(board: map<string, seq<Task>>, statuses: seq<string>, ts: seq<Task>)
  {
    && (forall st :: st in board <==> st in statuses)
    && ColumnsHold(board, statuses, ts)
  }

  /** The first loop of `organizeTasksByStatus`: an empty bucket for every status. */
  method EmptyBuckets(statuses: seq<string>) returns (organized: map<string, seq<Task>>)
    ensures forall st :: st in organized <==> st in statuses
    ensures forall st :: st in organized ==> organized[st] == []
  {
    organized := map[];
    var i := 0;
    while i < |statuses|
      invariant 0 <= i <= |statuses|
      invariant forall st :: st in organized <==> st in statuses[..i]
      invariant forall st :: st in organized ==> organized[st] == []
    {
      assert statuses[..i + 1] == statuses[..i] + [statuses[i]];
      organized := organized[statuses[i] := []];
      i := i + 1;
    }
    assert statuses[..i] == statuses;
  }

  /**
   * The `forEach` callback of `organizeTasksByStatus`: the task is pushed onto
   * the bucket of its status when there is one, and otherwise onto the first
   * column's bucket with its status rewritten to that column.
   */
  function PushTask(organized: map<string, seq<Task>>, statuses: seq<string>, t: Task): (r: map<string, seq<Task>>)
    requires t.status in organized || (statuses != [] && statuses[0] in organized)
    ensures r.Keys == organized.Keys
  {
    if t.status in organized then organized[t.status := organized[t.status] + [t]]
    else organized[statuses[0] := organized[statuses[0]] + [t.(status := statuses[0])]]
  }

  /**
   * `organizeTasksByStatus`: an empty bucket for every status, then each task
   * pushed onto its bucket.  With no statuses at all, the first task has no
   * bucket to go to and the call throws: the result is `None`.
   */
  method OrganizeTasksByStatus(statuses: seq<string>, ts: seq<Task>) returns (r: Option<map<string, seq<Task>>>)
    ensures r.None? <==> statuses == [] && ts != []
    ensures r.Some? ==> IsBoard(r.value, statuses, ts)
  {
    var organized := EmptyBuckets(statuses);
    var j := 0;
    while j < |ts|
      invariant 0 <= j <= |ts|
      invariant IsBoard(organized, statuses, ts[..j])
      invariant statuses == [] ==> j == 0
    {
      var t := ts[j];
      if t.status !in organized && statuses == [] {
        return None;
      }
      assert statuses != [];
      PushOne(statuses, ts[..j], t, organized);
      organized := PushTask(organized, statuses, t);
      TakeNext(ts, j);
      j := j + 1;
    }
    assert ts[..j] == ts;
    r := Some(organized);
  }

  /** One push in the second loop of `OrganizeTasksByStatus` extends exactly the task's column. */
  lemma PushOne(statuses: seq<string>, done: seq<Task>, t: Task, before: map<string, seq<Task>>)
    requires statuses != []
    requires IsBoard(before, statuses, done)
    ensures t.status in before || statuses[0] in before
    ensures IsBoard(PushTask(before, statuses, t), statuses, done + [t])
  {
    var after := PushTask(before, statuses, t);
    assert after == before[Place(statuses, t) := before[Place(statuses, t)] + [Placed(statuses, t)]];
    forall st | st in statuses
      ensures st in after && after[st] == Column(statuses, done + [t], st)
    {
      ColumnStep(statuses, done, t, st);
    }
  }

  /** The column of `done + [t]` is the column of `done`, plus `t` if it lands there. */
  lemma ColumnStep(statuses: seq<string>, done: seq<Task>, t: Task, st: string)
    requires statuses != []
    ensures Column(statuses, done + [t], st)
         == Column(statuses, done, st) + (if Place(statuses, t) == st then [Placed(statuses, t)] else [])
  {
    assert (done + [t])[..|done|] == done;
  }

  // ---------------------------------------------------------------------
  // What the columns hold

  /** The tasks whose status is `st`, in input order. */
  function WithStatus(ts: seq<Task>, st: string): (r: seq<Task>)
    ensures forall x :: x in r <==> x in ts && x.status == st
    ensures Filtered(r, ts, (x: Task) => x.status == st)
    decreases |ts|
  {
    if ts == [] then []
    else
      assert ts == ts[..|ts| - 1] + [ts[|ts| - 1]];
      WithStatus(ts[..|ts| - 1], st) + (if ts[|ts| - 1].status == st then [ts[|ts| - 1]] else [])
  }

  /** A column over a non-empty list: the column over all but the last task, then the last task when it matches. */
  lemma WithStatusLast(ts: seq<Task>, st: string)
    requires ts != []
    ensures WithStatus(ts, st) == WithStatus(ts[..|ts| - 1], st) + (if ts[|ts| - 1].status == st then [ts[|ts| - 1]] else [])
  {
  }

  /** A column splits over a concatenation, so it keeps the tasks in input order. */
  lemma {:induction false} WithStatusAppend(a: seq<Task>, b: seq<Task>, st: string)
    ensures WithStatus(a + b, st) == WithStatus(a, st) + WithStatus(b, st)
    decreases |b|
  {
    if b != [] {
      var init, x := b[..|b| - 1], b[|b| - 1];
      var tail := if x.status == st then [x] else [];
      DropLastAppend(a, b);
      calc {
        WithStatus(a + b, st);
        { WithStatusLast(a + b, st); }
        WithStatus(a + init, st) + tail;
        { WithStatusAppend(a, init, st); }
        (WithStatus(a, st) + WithStatus(init, st)) + tail;
        WithStatus(a, st) + (WithStatus(init, st) + tail);
        { WithStatusLast(b, st); }
        WithStatus(a, st) + WithStatus(b, st);
      }
    } else {
      assert a + b == a;
    }
  }

  /** Every column but the first holds exactly the tasks with that status, in the order they came. */
  lemma {:induction false} KnownColumn(statuses: seq<string>, ts: seq<Task>, st: string)
    requires statuses != [] && st in statuses && st != statuses[0]
    ensures Column(statuses, ts, st) == WithStatus(ts, st)
    decreases |ts|
  {
    if ts != [] {
      KnownColumn(statuses, ts[..|ts| - 1], st);
    }
  }

  /** A task with an unknown status ends up in the first column, its status rewritten. */
  lemma {:induction false} StrayGoesFirst(statuses: seq<string>, ts: seq<Task>, k: nat)
    requires statuses != [] && k < |ts| && ts[k].status !in statuses
    ensures ts[k].(status := statuses[0]) in Column(statuses, ts, statuses[0])
    decreases |ts|
  {
    if k < |ts| - 1 {
      StrayGoesFirst(statuses, ts[..|ts| - 1], k);
    }
  }

  // ---------------------------------------------------------------------
  // Every task in exactly one bucket

  /** The number of tasks shown under the keys `keys`. */
  function Total(statuses: seq<string>, ts: seq<Task>, keys: seq<string>): (n: nat)
    requires statuses != []
  {
    if keys == [] then 0 else |Column(statuses, ts, keys[0])| + Total(statuses, ts, keys[1..])
  }

  /** How many of the keys are `x`. */
  function Hits(keys: seq<string>, x: string): (n: nat)
    ensures x !in keys ==> n == 0
  {
    if keys == [] then 0 else (if keys[0] == x then 1 else 0) + Hits(keys[1..], x)
  }

  lemma {:induction false} HitsOnce(keys: seq<string>, x: string)
    requires NoDuplicates(keys) && x in keys
    ensures Hits(keys, x) == 1
  {
    if keys[0] != x {
      assert NoDuplicates(keys[1..]) by {
        forall i, j | 0 <= i < j < |keys[1..]| ensures keys[1..][i] != keys[1..][j] {
          assert keys[1..][i] == keys[i + 1] && keys[1..][j] == keys[j + 1];
        }
      }
      HitsOnce(keys[1..], x);
    } else {
      assert x !in keys[1..] by {
        forall i | 0 <= i < |keys[1..]| ensures keys[1..][i] != x {
          assert keys[1..][i] == keys[i + 1];
        }
      }
    }
  }

  /** One more task adds one entry to the column of every key equal to its place. */
  lemma {:induction false} TotalStep(statuses: seq<string>, ts: seq<Task>, t: Task, keys: seq<string>)
    requires statuses != []
    ensures Total(statuses, ts + [t], keys) == Total(statuses, ts, keys) + Hits(keys, Place(statuses, t))
  {
    if keys != [] {
      assert (ts + [t])[..|ts|] == ts;
      TotalStep(statuses, ts, t, keys[1..]);
    }
  }

  /** Over the distinct statuses, the buckets hold as many tasks as there are: none lost, none shown twice. */
  lemma {:induction false} TotalIsCount(statuses: seq<string>, ts: seq<Task>, keys: seq<string>)
    requires statuses != []
    requires NoDuplicates(keys) && forall st :: st in keys <==> st in statuses
    ensures Total(statuses, ts, keys) == |ts|
    decreases |ts|
  {
    if ts == [] {
      TotalEmpty(statuses, keys);
    } else {
      var front := ts[..|ts| - 1];
      var t := ts[|ts| - 1];
      assert front + [t] == ts;
      TotalIsCount(statuses, front, keys);
      TotalStep(statuses, front, t, keys);
      HitsOnce(keys, Place(statuses, t));
    }
  }

  lemma {:induction false} TotalEmpty(statuses: seq<string>, keys: seq<string>)
    requires statuses != []
    ensures Total(statuses, [], keys) == 0
  {
    if keys != [] {
      TotalEmpty(statuses, keys[1..]);
    }
  }

  // ---------------------------------------------------------------------
  // handleDragEnd and the list updates

  /** Where a drag starts or ends: a column, by its status, and a position in it. */
  datatype Location = Location(droppableId: string, index: int)

  /** The status update a drag asks for, if any. */
  datatype StatusUpdate = StatusUpdate(taskId: Id, newStatus: string)

  /** `handleDragEnd`: nothing without a destination or for a drop where it started; otherwise the destination column's status. */
  function DragDecision(source: Location, destination: Option<Location>, draggableId: Id): (r: Option<StatusUpdate>)
    ensures r.None? <==> destination.None? || destination.value == source
    ensures r.Some? ==> r.value == StatusUpdate(draggableId, destination.value.droppableId)
  {
    match destination
    case None => None
    case Some(d) =>
      if source.droppableId == d.droppableId && source.index == d.index then None
      else Some(StatusUpdate(draggableId, d.droppableId))
  }

  /** Reordering within one column still asks for an update, to the status the task already shows. */
  lemma ReorderRequestsSameStatus(source: Location, destination: Location, draggableId: Id)
    requires destination.droppableId == source.droppableId && destination.index != source.index
    ensures DragDecision(source, Some(destination), draggableId) == Some(StatusUpdate(draggableId, source.droppableId))
  {
  }

  /** `tasks.map(task => task._id === taskId ? updated : task)`. */
  function ReplaceTask(ts: seq<Task>, taskId: Id, updated: Task): (r: seq<Task>)
    ensures |r| == |ts|
    ensures forall i :: 0 <= i < |ts| ==> r[i] == if ts[i].id == taskId then updated else ts[i]
  {
    seq(|ts|, i requires 0 <= i < |ts| => if ts[i].id == taskId then updated else ts[i])
  }

  /** `tasks.filter(task => task._id !== taskId)`. */
  function RemoveTask(ts: seq<Task>, taskId: Id): (r: seq<Task>)
    ensures forall x :: x in r <==> x in ts && x.id != taskId
    ensures |r| <= |ts|
    ensures Filtered(r, ts, (x: Task) => x.id != taskId)
    decreases |ts|
  {
    if ts == [] then []
    else
      assert ts == ts[..|ts| - 1] + [ts[|ts| - 1]];
      RemoveTask(ts[..|ts| - 1], taskId) + (if ts[|ts| - 1].id != taskId then [ts[|ts| - 1]] else [])
  }

  /** The filter over a non-empty list: the filter over all but the last task, then the last task when it is kept. */
  lemma RemoveTaskLast(ts: seq<Task>, taskId: Id)
    requires ts != []
    ensures RemoveTask(ts, taskId) == RemoveTask(ts[..|ts| - 1], taskId) + (if ts[|ts| - 1].id != taskId then [ts[|ts| - 1]] else [])
  {
  }

  /** The filter splits over a concatenation, so the kept tasks stay in input order. */
  lemma {:induction false} RemoveTaskAppend(a: seq<Task>, b: seq<Task>, taskId: Id)
    ensures RemoveTask(a + b, taskId) == RemoveTask(a, taskId) + RemoveTask(b, taskId)
    decreases |b|
  {
    if b != [] {
      var init, x := b[..|b| - 1], b[|b| - 1];
      var tail := if x.id != taskId then [x] else [];
      DropLastAppend(a, b);
      calc {
        RemoveTask(a + b, taskId);
        { RemoveTaskLast(a + b, taskId); }
        RemoveTask(a + init, taskId) + tail;
        { RemoveTaskAppend(a, init, taskId); }
        (RemoveTask(a, taskId) + RemoveTask(init, taskId)) + tail;
        RemoveTask(a, taskId) + (RemoveTask(init, taskId) + tail);
        { RemoveTaskLast(b, taskId); }
        RemoveTask(a, taskId) + RemoveTask(b, taskId);
      }
    } else {
      assert a + b == a;
    }
  }

  /** Replacing a task and then deleting it is the same as deleting it; the other tasks keep their order. */
  lemma {:induction false} RemoveAfterReplace(ts: seq<Task>, taskId: Id, updated: Task)
    requires updated.id == taskId
    ensures RemoveTask(ReplaceTask(ts, taskId, updated), taskId) == RemoveTask(ts, taskId)
    decreases |ts|
  {
    if ts != [] {
      var front := ts[..|ts| - 1];
      assert ReplaceTask(ts, taskId, updated)[..|ts| - 1] == ReplaceTask(front, taskId, updated);
      RemoveAfterReplace(front, taskId, updated);
    }
  }

  /** After an update the board shows the updated task in the column of its new status. */
  lemma UpdatedTaskShown(statuses: seq<string>, ts: seq<Task>, k: nat, updated: Task)
    requires statuses != [] && k < |ts| && updated.id == ts[k].id && updated.status in statuses
    ensures updated in Column(statuses, ReplaceTask(ts, ts[k].id, updated), updated.status)
  {
    var ts' := ReplaceTask(ts, ts[k].id, updated);
    ShownInColumn(statuses, ts', k);
  }

  /** The task at `k` is shown, as placed, in the column it belongs to. */
  lemma {:induction false} ShownInColumn(statuses: seq<string>, ts: seq<Task>, k: nat)
    requires statuses != [] && k < |ts|
    ensures Placed(statuses, ts[k]) in Column(statuses, ts, Place(statuses, ts[k]))
    decreases |ts|
  {
    if k < |ts| - 1 {
      ShownInColumn(statuses, ts[..|ts| - 1], k);
    }
  }
}
