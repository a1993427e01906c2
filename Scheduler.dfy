/** The study-session scheduler: the list of sessions, the new-task form, adding, removing and
    the display order. */
module Scheduler {

  /** A scheduled session, `{ ...newTask, id }`. Dates are the `YYYY-MM-DD` text of a date
      input and times the `HH:MM` text of a time input. */
  datatype Task = Task(id: int, title: string, date: string, time: string, duration: int)

  /** `newTask`: the form the next session is entered in. */
  datatype TaskForm = TaskForm(title: string, date: string, time: string, duration: int)

  /** The form as it starts and as `addTask` leaves it after a successful add. */
  const BlankForm: TaskForm := TaskForm("", "", "", 60)

  /** `newTask.title && newTask.date && newTask.time`: none of the three is empty. */
  predicate Complete(form: TaskForm) {
    form.title != "" && form.date != "" && form.time != ""
  }

  function TaskFrom(form: TaskForm, id: int): Task {
    Task(id, form.title, form.date, form.time, form.duration)
  }

  /** `addTask()` with `Date.now()` passed in as `id`: the new task list and the new form. */
  function AddTask(tasks: seq<Task>, form: TaskForm, id: int): (r: (seq<Task>, TaskForm))
    ensures |r.0| == |tasks| + 1 <==> Complete(form)
    ensures Complete(form) ==>
              && r.0[..|tasks|] == tasks
              && r.0[|tasks|] == Task(id, form.title, form.date, form.time, form.duration)
              && r.1 == BlankForm
    ensures !Complete(form) ==> r.0 == tasks && r.1 == form
  {
    if Complete(form) then (tasks + [TaskFrom(form, id)], BlankForm) else (tasks, form)
  }

  /** `removeTask(id)`: `tasks.filter(task => task.id !== id)`. */
  function RemoveTask(tasks: seq<Task>, id: int): (r: seq<Task>)
    ensures |r| <= |tasks|
  {
    if tasks == [] then []
    else (if tasks[0].id != id then [tasks[0]] else []) + RemoveTask(tasks[1..], id)
  }

  /** Removal keeps exactly those tasks whose id differs. */
  lemma {:induction false} RemoveTaskKeeps(tasks: seq<Task>, id: int)
    ensures forall t :: t in RemoveTask(tasks, id) <==> t in tasks && t.id != id
  {
    if tasks != [] {
      RemoveTaskKeeps(tasks[1..], id);
      assert tasks == [tasks[0]] + tasks[1..];
    }
  }

  /** Removal keeps the surviving tasks in their original order: it works piece by piece. */
  lemma {:induction false} RemoveTaskPiecewise(a: seq<Task>, b: seq<Task>, id: int)
    ensures RemoveTask(a + b, id) == RemoveTask(a, id) + RemoveTask(b, id)
  {
    if a != [] {
      assert (a + b)[1..] == a[1..] + b;
      RemoveTaskPiecewise(a[1..], b, id);
    } else {
      assert a + b == b;
    }
  }

  /** Removing twice is removing once. */
  lemma RemoveTaskIdempotent(tasks: seq<Task>, id: int)
    ensures RemoveTask(RemoveTask(tasks, id), id) == RemoveTask(tasks, id)
  {
    var once := RemoveTask(tasks, id);
    RemoveTaskKeeps(tasks, id);
    assert forall i :: 0 <= i < |once| ==> once[i] in once;
    RemoveAbsentId(once, id);
  }

  /** No two tasks share an id. */
  predicate UniqueIds(tasks: seq<Task>) {
    forall i, j :: 0 <= i < j < |tasks| ==> tasks[i].id != tasks[j].id
  }

  /** Adding with an id no task has keeps ids unique, and removing that id afterwards
      gives the list back. */
  lemma RemoveUndoesAdd(tasks: seq<Task>, form: TaskForm, id: int)
    requires forall t :: t in tasks ==> t.id != id
    ensures UniqueIds(tasks) ==> UniqueIds(AddTask(tasks, form, id).0)
    ensures RemoveTask(AddTask(tasks, form, id).0, id) == tasks
  {
    assert forall i :: 0 <= i < |tasks| ==> tasks[i] in tasks;
    RemoveAbsentId(tasks, id);
    if Complete(form) {
      RemoveTaskPiecewise(tasks, [TaskFrom(form, id)], id);
      assert RemoveTask([TaskFrom(form, id)], id) == [];
    }
  }

  /** Removing an id no task has changes nothing. */
  lemma {:induction false} RemoveAbsentId(tasks: seq<Task>, id: int)
    requires forall i :: 0 <= i < |tasks| ==> tasks[i].id != id
    ensures RemoveTask(tasks, id) == tasks
  {
    if tasks != [] {
      RemoveAbsentId(tasks[1..], id);
      assert [tasks[0]] + tasks[1..] == tasks;
    }
  }

  /** With unique ids, removing the id of a listed task drops exactly that one task. */
  lemma {:induction false} RemoveListedTask(tasks: seq<Task>, k: nat)
    requires UniqueIds(tasks) && k < |tasks|
    ensures RemoveTask(tasks, tasks[k].id) == tasks[..k] + tasks[k + 1..]
  {
    var id := tasks[k].id;
    var tail := tasks[1..];
    if k == 0 {
      assert forall i :: 0 <= i < |tail| ==> tail[i].id != id by {
        assert forall i :: 0 <= i < |tail| ==> tail[i] == tasks[i + 1];
      }
      RemoveAbsentId(tail, id);
    } else {
      assert UniqueIds(tail) by {
        assert forall i :: 0 <= i < |tail| ==> tail[i] == tasks[i + 1];
      }
      assert tail[k - 1] == tasks[k];
      RemoveListedTask(tail, k - 1);
      assert tasks[..k] == [tasks[0]] + tail[..k - 1];
      assert tasks[k + 1..] == tail[k..];
    }
  }

  /** Removing a task keeps ids unique. */
  lemma RemoveKeepsIdsUnique(tasks: seq<Task>, id: int)
    requires UniqueIds(tasks)
    ensures UniqueIds(RemoveTask(tasks, id))
  {
    if tasks != [] {
      RemoveKeepsIdsUnique(tasks[1..], id);
      var rest := RemoveTask(tasks[1..], id);
      RemoveTaskKeeps(tasks[1..], id);
      assert forall t :: t in tasks[1..] ==> t.id != tasks[0].id;
    }
  }

  /** Text order, character by character with a prefix first, standing in for the comparison
      of the `Date` values the display comparator subtracts. */
  predicate TextLe(a: string, b: string) {
    if a == [] then true
    else if b == [] then false
    else if a[0] != b[0] then a[0] < b[0]
    else TextLe(a[1..], b[1..])
  }

  lemma {:induction false} TextLeReflexive(a: string)
    ensures TextLe(a, a)
  {
    if a != [] {
      TextLeReflexive(a[1..]);
    }
  }

  lemma {:induction false} TextLeTotal(a: string, b: string)
    ensures TextLe(a, b) || TextLe(b, a)
  {
    if a != [] && b != [] && a[0] == b[0] {
      TextLeTotal(a[1..], b[1..]);
    }
  }

  lemma {:induction false} TextLeTransitive(a: string, b: string, c: string)
    requires TextLe(a, b) && TextLe(b, c)
    ensures TextLe(a, c)
  {
    if a != [] && b != [] && c != [] && a[0] == b[0] && b[0] == c[0] {
      TextLeTransitive(a[1..], b[1..], c[1..]);
    }
  }

  lemma {:induction false} TextLeAntisymmetric(a: string, b: string)
    requires TextLe(a, b) && TextLe(b, a)
    ensures a == b
  {
    if a != [] && b != [] {
      TextLeAntisymmetric(a[1..], b[1..]);
      assert a == [a[0]] + a[1..] && b == [b[0]] + b[1..];
    }
  }

  /** The display comparator's "not after": `x` is due no later than `y`, comparing dates
      first and then times. For `YYYY-MM-DD` dates and `HH:MM` times this text order is the
      order of the local instants `new Date(date + "T" + time)` stands for, except for times
      that fall in a daylight-saving gap. */
  predicate DueNoLater(x: Task, y: Task): (r: bool)
    ensures x.date == y.date && x.time == y.time ==> r
  {
    TextLeReflexive(x.time);
    if x.date == y.date then TextLe(x.time, y.time) else TextLe(x.date, y.date)
  }

  lemma DueNoLaterTotal(x: Task, y: Task)
    ensures DueNoLater(x, y) || DueNoLater(y, x)
  {
    TextLeTotal(x.date, y.date);
    TextLeTotal(x.time, y.time);
  }

  lemma DueNoLaterTransitive(x: Task, y: Task, z: Task)
    requires DueNoLater(x, y) && DueNoLater(y, z)
    ensures DueNoLater(x, z)
  {
    if x.date == y.date || y.date == z.date {
      if x.date == y.date && y.date == z.date {
        TextLeTransitive(x.time, y.time, z.time);
      }
    } else {
      TextLeTransitive(x.date, y.date, z.date);
      if x.date == z.date {
        TextLeAntisymmetric(x.date, y.date);
      }
    }
  }

  /** In display order: no task is due later than one listed after it. */
  predicate InDisplayOrder(s: seq<Task>) {
    forall i, j :: 0 <= i < j < |s| ==> DueNoLater(s[i], s[j])
  }

  /** In display order up to position `n`: among the first `n` tasks, none is due later
      than one after it. */
  predicate OrderedBelow(s: seq<Task>, n: int) {
    forall i, j :: 0 <= i < j < n && j < |s| ==> DueNoLater(s[i], s[j])
  }

  /** One pass of the sort: the task at position `i` moves down past those tasks of the
      ordered prefix that are due strictly after it, leaving the first `i + 1` in order. */
  method InsertNext(a: array<Task>, i: nat)
    requires i < a.Length && OrderedBelow(a[..], i)
    modifies a
    ensures OrderedBelow(a[..], i + 1)
    ensures multiset(a[..]) == old(multiset(a[..]))
  {
    var j := i;
    while j > 0 && !DueNoLater(a[j - 1], a[j])
      invariant 0 <= j <= i
      invariant forall k, l :: 0 <= k < l <= i && k != j && l != j ==> DueNoLater(a[k], a[l])
      invariant forall l :: j < l <= i ==> DueNoLater(a[j], a[l])
      invariant multiset(a[..]) == old(multiset(a[..]))
    {
      DueNoLaterTotal(a[j - 1], a[j]);
      a[j - 1], a[j] := a[j], a[j - 1];
      j := j - 1;
    }
    forall k, l | 0 <= k < l <= i
      ensures DueNoLater(a[k], a[l])
    {
      if l == j && k < j - 1 {
        DueNoLaterTransitive(a[k], a[j - 1], a[j]);
      }
    }
  }

  /** `scheduledTasks.sort(...)` by (date, time), in place: the array ends in display order
      and holds the same tasks. */
  method SortForDisplay(a: array<Task>)
    modifies a
    ensures InDisplayOrder(a[..])
    ensures multiset(a[..]) == old(multiset(a[..]))
  {
    var i := 0;
    while i < a.Length
      invariant 0 <= i <= a.Length
      invariant OrderedBelow(a[..], i)
      invariant multiset(a[..]) == old(multiset(a[..]))
    {
      InsertNext(a, i);
      i := i + 1;
    }
  }
}
