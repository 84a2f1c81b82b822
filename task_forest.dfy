/** The task forest of the task-list page: tasks with an ordered list of
    subtasks, the list transforms its handlers apply (`map`/`filter` over the
    forest), the aggregates shown in the summary cards, and the parsing of the
    effort inputs. Everything here is a pure function of its arguments; the
    page state that holds the forest is `TaskListPage.TaskList`. */
module TaskForest {
  import opened Js
  import Seqs

  /** `TaskType.General`, the value of the "NA" task-type item. */
  const General: int := 0

  /** A team member chosen as assignee (id and display name). */
  datatype Member = Member(id: int, name: string)

  /** A `ProjectTask`. Subtasks use the same shape with no children of their own. */
  datatype Task = Task(
    id: real,
    title: string,
    description: string,
    estimates: Option<string>,
    assignee: Option<Member>,
    priority: int,
    taskType: int,
    children: seq<Task>)

  /** One property of a `Partial<ProjectTask>`: absent, or present with a value
      (which may itself be `undefined`, as in `{ estimates: undefined }`). */
  datatype Partial<T> = Keep | Put(value: T)

  /** `Partial<ProjectTask>`: the update objects the handlers pass and the
      drafts of the add dialogs. */
  datatype PartialTask = PartialTask(
    title: Partial<string>,
    description: Partial<string>,
    estimates: Partial<Option<string>>,
    assignee: Partial<Option<Member>>,
    priority: Partial<int>,
    taskType: Partial<int>)

  /** The empty object `{}`. */
  const NoChanges: PartialTask := PartialTask(Keep, Keep, Keep, Keep, Keep, Keep)

  function Pick<T>(p: Partial<T>, current: T): T {
    if p.Put? then p.value else current
  }

  /** `{ ...task, ...updates }`. */
  function Merge(t: Task, updates: PartialTask): (r: Task)
    ensures r.id == t.id && r.children == t.children
    ensures updates == NoChanges ==> r == t
    ensures updates.priority.Put? ==> r.priority == updates.priority.value
    ensures updates.priority.Keep? ==> r.priority == t.priority
  {
    t.(title := Pick(updates.title, t.title),
       description := Pick(updates.description, t.description),
       estimates := Pick(updates.estimates, t.estimates),
       assignee := Pick(updates.assignee, t.assignee),
       priority := Pick(updates.priority, t.priority),
       taskType := Pick(updates.taskType, t.taskType))
  }

  /** `{ ...p, ...q }` on two partial tasks: `q` wins where it has the key. */
  function Combine(p: PartialTask, q: PartialTask): PartialTask {
    PartialTask(
      if q.title.Put? then q.title else p.title,
      if q.description.Put? then q.description else p.description,
      if q.estimates.Put? then q.estimates else p.estimates,
      if q.assignee.Put? then q.assignee else p.assignee,
      if q.priority.Put? then q.priority else p.priority,
      if q.taskType.Put? then q.taskType else p.taskType)
  }

  /** A merge keeps the id and the children, takes every supplied property and
      keeps every other one; merging `{}` changes nothing. */
  lemma MergeFields(t: Task, updates: PartialTask)
    ensures Merge(t, updates).id == t.id && Merge(t, updates).children == t.children
    ensures updates.title.Put? ==> Merge(t, updates).title == updates.title.value
    ensures updates.title.Keep? ==> Merge(t, updates).title == t.title
    ensures updates.estimates.Put? ==> Merge(t, updates).estimates == updates.estimates.value
    ensures updates.estimates.Keep? ==> Merge(t, updates).estimates == t.estimates
    ensures updates.description.Put? ==> Merge(t, updates).description == updates.description.value
    ensures updates.description.Keep? ==> Merge(t, updates).description == t.description
    ensures updates.assignee.Put? ==> Merge(t, updates).assignee == updates.assignee.value
    ensures updates.assignee.Keep? ==> Merge(t, updates).assignee == t.assignee
    ensures updates.priority.Put? ==> Merge(t, updates).priority == updates.priority.value
    ensures updates.priority.Keep? ==> Merge(t, updates).priority == t.priority
    ensures updates.taskType.Put? ==> Merge(t, updates).taskType == updates.taskType.value
    ensures updates.taskType.Keep? ==> Merge(t, updates).taskType == t.taskType
    ensures Merge(t, NoChanges) == t
  {
  }

  /** Spreading twice is spreading the combined object once; in particular a
      merge is idempotent. */
  lemma MergeCombine(t: Task, p: PartialTask, q: PartialTask)
    ensures Merge(Merge(t, p), q) == Merge(t, Combine(p, q))
    ensures Merge(Merge(t, p), p) == Merge(t, p)
  {
  }

  // ---------------------------------------------------------------------
  // Forest transforms

  /** `tasks.map(task => task.id === id ? f(task) : task)`. */
  function MapMatching(tasks: seq<Task>, id: real, f: Task -> Task): (r: seq<Task>)
    ensures |r| == |tasks|
    ensures forall i :: 0 <= i < |tasks| ==>
      r[i] == if tasks[i].id == id then f(tasks[i]) else tasks[i]
  {
    if tasks == [] then []
    else [if tasks[0].id == id then f(tasks[0]) else tasks[0]] + MapMatching(tasks[1..], id, f)
  }

  /** `updateTask`: every task with `taskId` takes the supplied properties. */
  function UpdateTask(tasks: seq<Task>, taskId: real, updates: PartialTask): (r: seq<Task>)
    ensures |r| == |tasks|
    ensures forall i :: 0 <= i < |tasks| && tasks[i].id != taskId ==> r[i] == tasks[i]
    ensures forall i :: 0 <= i < |tasks| && tasks[i].id == taskId ==> r[i] == Merge(tasks[i], updates)
  {
    MapMatching(tasks, taskId, t => Merge(t, updates))
  }

  /** `updateSubtask`: under every task with `taskId`, every child with
      `subtaskId` takes the supplied properties. */
  function UpdateSubtask(tasks: seq<Task>, taskId: real, subtaskId: real, updates: PartialTask): (r: seq<Task>)
    ensures |r| == |tasks|
    ensures forall i :: 0 <= i < |tasks| ==>
      r[i].(children := tasks[i].children) == tasks[i] && |r[i].children| == |tasks[i].children|
    ensures forall i :: 0 <= i < |tasks| && tasks[i].id != taskId ==> r[i] == tasks[i]
    ensures forall i :: 0 <= i < |tasks| && tasks[i].id == taskId ==>
      r[i].children == UpdateTask(tasks[i].children, subtaskId, updates)
  {
    MapMatching(tasks, taskId, (t: Task) => t.(children := UpdateTask(t.children, subtaskId, updates)))
  }

  /** The append in `addSubtask`: `subtask` goes at the end of the children of
      every task with `parentId`. */
  function AppendSubtask(tasks: seq<Task>, parentId: real, subtask: Task): (r: seq<Task>)
    ensures |r| == |tasks|
    ensures forall i :: 0 <= i < |tasks| ==> r[i].(children := tasks[i].children) == tasks[i]
    ensures forall i :: 0 <= i < |tasks| && tasks[i].id != parentId ==> r[i] == tasks[i]
    ensures forall i :: 0 <= i < |tasks| && tasks[i].id == parentId ==>
      r[i].children == tasks[i].children + [subtask]
  {
    MapMatching(tasks, parentId, (t: Task) => t.(children := t.children + [subtask]))
  }

  /** `deleteTask`: the tasks whose id differs from `taskId`, in order. */
  function DeleteTask(tasks: seq<Task>, taskId: real): (r: seq<Task>)
    ensures forall i :: 0 <= i < |r| ==> r[i].id != taskId && r[i] in tasks
    ensures forall i :: 0 <= i < |tasks| && tasks[i].id != taskId ==> tasks[i] in r
    ensures |r| == |tasks| - Seqs.Count(tasks, (t: Task) => t.id == taskId)
  {
    var keep := (t: Task) => t.id != taskId;
    Seqs.FilterLength(tasks, keep);
    Seqs.CountSplit(tasks, (t: Task) => t.id == taskId, keep);
    Seqs.Filter(tasks, keep)
  }

  /** Deleting from a concatenation deletes from each part: the kept tasks stay
      in their original order. */
  lemma DeleteTaskKeepsOrder(a: seq<Task>, b: seq<Task>, taskId: real)
    ensures DeleteTask(a + b, taskId) == DeleteTask(a, taskId) + DeleteTask(b, taskId)
  {
    Seqs.FilterAppend(a, b, (t: Task) => t.id != taskId);
  }

  /** Deleting an id that no task carries changes nothing. */
  lemma DeleteAbsentId(tasks: seq<Task>, taskId: real)
    requires taskId !in Ids(tasks)
    ensures DeleteTask(tasks, taskId) == tasks
  {
    forall i | 0 <= i < |tasks| ensures tasks[i].id != taskId {
      assert tasks[i] in tasks;
    }
    Seqs.FilterIdentity(tasks, (t: Task) => t.id != taskId);
  }

  /** `deleteSubtask`: under every task with `taskId`, the children whose id
      differs from `subtaskId`, in order. */
  function DeleteSubtask(tasks: seq<Task>, taskId: real, subtaskId: real): (r: seq<Task>)
    ensures |r| == |tasks|
    ensures forall i :: 0 <= i < |tasks| ==> r[i].(children := tasks[i].children) == tasks[i]
    ensures forall i :: 0 <= i < |tasks| && tasks[i].id != taskId ==> r[i] == tasks[i]
    ensures forall i :: 0 <= i < |tasks| && tasks[i].id == taskId ==>
      r[i].children == DeleteTask(tasks[i].children, subtaskId)
  {
    MapMatching(tasks, taskId, (t: Task) => t.(children := DeleteTask(t.children, subtaskId)))
  }

  /** The ids of the top-level tasks. */
  function Ids(tasks: seq<Task>): set<real> {
    set t | t in tasks :: t.id
  }

  /** `toggleTaskExpansion` on the set of expanded ids. */
  function Toggle(expanded: set<real>, id: real): (r: set<real>)
    ensures id in r <==> id !in expanded
    ensures forall x :: x != id ==> (x in r <==> x in expanded)
  {
    if id in expanded then expanded - {id} else expanded + {id}
  }

  lemma ToggleTwice(expanded: set<real>, id: real)
    ensures Toggle(Toggle(expanded, id), id) == expanded
  {
  }

  /** Nesting stops at two levels: no subtask has subtasks. */
  ghost predicate TwoLevel(tasks: seq<Task>) {
    forall i, j :: 0 <= i < |tasks| && 0 <= j < |tasks[i].children| ==> tasks[i].children[j].children == []
  }

  // ---------------------------------------------------------------------
  // Adding tasks and subtasks

  /** `!value` is false for a present, non-empty string. */
  predicate HasText(p: Partial<string>) {
    p.Put? && p.value != ""
  }

  /** `p || d` on a numeric property: absent and 0 are falsy. */
  function OrNumber(p: Partial<int>, d: int): (r: int)
    ensures p.Put? && p.value != 0 ==> r == p.value
    ensures p.Keep? || p.value == 0 ==> r == d
  {
    if p.Put? && p.value != 0 then p.value else d
  }

  /** A property that may be absent or `undefined`. */
  function Present<T>(p: Partial<Option<T>>): Option<T> {
    if p.Put? then p.value else None
  }

  /** The `||` defaults of both add handlers: a truthy drafted effort,
      priority or type is kept; a falsy one (`""`, `null`, 0) becomes "1", 1
      or `General`. */
  predicate Drafted(draft: PartialTask, t: Task) {
    && (draft.estimates.Put? && draft.estimates.value.Some? && draft.estimates.value.value != "" ==>
          t.estimates == draft.estimates.value)
    && (draft.estimates.Put? && (draft.estimates.value.None? || draft.estimates.value.value == "") ==>
          t.estimates == Some("1"))
    && (draft.priority.Put? && draft.priority.value != 0 ==> t.priority == draft.priority.value)
    && (draft.priority.Put? && draft.priority.value == 0 ==> t.priority == 1)
    && (draft.taskType.Put? && draft.taskType.value != General ==> t.taskType == draft.taskType.value)
    && (draft.taskType.Put? && draft.taskType.value == General ==> t.taskType == General)
  }

  /** The task `addTask` builds from the draft, or None when the guard returns
      early (title or description missing or empty). */
  function NewTask(draft: PartialTask, freshId: real): (r: Option<Task>)
    ensures r.Some? <==> HasText(draft.title) && HasText(draft.description)
    ensures r.Some? ==>
      && r.value.id == freshId
      && r.value.title == draft.title.value
      && r.value.description == draft.description.value
      && r.value.children == []
      && r.value.estimates.Some? && r.value.estimates.value != ""
      && (draft.estimates.Keep? ==> r.value.estimates == Some("1"))
      && r.value.assignee == Present(draft.assignee)
      && r.value.priority != 0
      && (draft.priority.Keep? ==> r.value.priority == 1)
      && (draft.taskType.Keep? ==> r.value.taskType == General)
      && Drafted(draft, r.value)
  {
    if !HasText(draft.title) || !HasText(draft.description) then None
    else Some(Task(
      freshId,
      draft.title.value,
      draft.description.value,
      Some(OrString(Present(draft.estimates), "1")),
      Present(draft.assignee),
      OrNumber(draft.priority, 1),
      OrNumber(draft.taskType, General),
      []))
  }

  /** `!selectedTaskForSubtask`: no parent, or the falsy id 0. */
  predicate ParentSelected(selected: Option<real>) {
    selected.Some? && selected.value != 0.0
  }

  /** The subtask `addSubtask` builds, or None when the guard returns early
      (title missing or empty, or no truthy parent id selected). */
  function NewSubtask(draft: PartialTask, selected: Option<real>, freshId: real): (r: Option<Task>)
    ensures r.Some? <==> HasText(draft.title) && ParentSelected(selected)
    ensures r.Some? ==>
      && r.value.id == freshId
      && r.value.title == draft.title.value
      && r.value.children == []
      && r.value.assignee == None
      && (draft.description.Keep? ==> r.value.description == "")
      && (draft.description.Put? ==> r.value.description == draft.description.value)
      && r.value.estimates.Some? && r.value.estimates.value != ""
      && (draft.estimates.Keep? ==> r.value.estimates == Some("1"))
      && r.value.priority != 0
      && (draft.priority.Keep? ==> r.value.priority == 1)
      && (draft.taskType.Keep? ==> r.value.taskType == General)
      && Drafted(draft, r.value)
  {
    if !HasText(draft.title) || !ParentSelected(selected) then None
    else Some(Task(
      freshId,
      draft.title.value,
      OrString(if draft.description.Put? then Some(draft.description.value) else None, ""),
      Some(OrString(Present(draft.estimates), "1")),
      None,
      OrNumber(draft.priority, 1),
      OrNumber(draft.taskType, General),
      []))
  }

  // ---------------------------------------------------------------------
  // Aggregates

  /** `parseInt(task.estimates || "0")`. */
  function EffortOf(t: Task): (r: Num)
    ensures t.estimates.None? || t.estimates.value == "" ==> r == Finite(0)
  {
    ParseIntAutoZero();
    ParseIntAuto(OrString(t.estimates, "0"))
  }

  /** `getTotalEffort`: the sum over the top-level tasks only (the subtask sum
      the reducer computes is discarded). */
  function TotalEffort(tasks: seq<Task>): (r: Num)
    ensures r == Sum(Efforts(tasks))
  {
    if tasks == [] then Finite(0)
    else
      assert Efforts(tasks)[1..] == Efforts(tasks[1..]);
      Add(EffortOf(tasks[0]), TotalEffort(tasks[1..]))
  }

  /** The sum of `children.length` over the top-level tasks. */
  function SubtaskCount(tasks: seq<Task>): (r: nat)
    ensures forall i :: 0 <= i < |tasks| ==> |tasks[i].children| <= r
    ensures r == 0 <==> forall i :: 0 <= i < |tasks| ==> tasks[i].children == []
  {
    if tasks == [] then 0
    else
      var r := |tasks[0].children| + SubtaskCount(tasks[1..]);
      assert forall i :: 1 <= i < |tasks| ==> tasks[i] == tasks[1..][i - 1];
      r
  }

  /** `getCompletedTasks`: the number of tasks with priority 1. */
  function CompletedTasks(tasks: seq<Task>): (n: nat)
    ensures n <= |tasks|
    ensures n == Seqs.Count(tasks, (t: Task) => t.priority == 1)
  {
    Seqs.FilterLength(tasks, (t: Task) => t.priority == 1);
    |Seqs.Filter(tasks, (t: Task) => t.priority == 1)|
  }

  /** The effort of each top-level task, in order. */
  function Efforts(tasks: seq<Task>): (es: seq<Num>)
    ensures |es| == |tasks|
    ensures forall i :: 0 <= i < |tasks| ==> es[i] == EffortOf(tasks[i])
  {
    seq(|tasks|, i requires 0 <= i < |tasks| => EffortOf(tasks[i]))
  }

  /** The total is NaN exactly when some top-level estimate is unparsable. */
  lemma TotalEffortNaN(tasks: seq<Task>)
    ensures TotalEffort(tasks).NaN? <==> exists i :: 0 <= i < |tasks| && EffortOf(tasks[i]).NaN?
  {
    SumNaN(Efforts(tasks));
  }

  /** Two forests whose top-level tasks agree, position by position, on `estimates`. */
  ghost predicate SameEstimates(a: seq<Task>, b: seq<Task>) {
    |a| == |b| && forall i :: 0 <= i < |a| ==> a[i].estimates == b[i].estimates
  }

  /** Only the top-level estimates enter the total: two forests whose tasks
      agree on `estimates` have the same total, whatever their children. */
  lemma {:induction false} TotalEffortIgnoresChildren(a: seq<Task>, b: seq<Task>)
    requires SameEstimates(a, b)
    ensures TotalEffort(a) == TotalEffort(b)
  {
    if a != [] {
      TotalEffortIgnoresChildren(a[1..], b[1..]);
    }
  }

  /** Two forests whose tasks have the same numbers of children have the same
      subtask count. */
  lemma {:induction false} SubtaskCountByLengths(a: seq<Task>, b: seq<Task>)
    requires |a| == |b|
    requires forall i :: 0 <= i < |a| ==> |a[i].children| == |b[i].children|
    ensures SubtaskCount(a) == SubtaskCount(b)
  {
    if a != [] {
      SubtaskCountByLengths(a[1..], b[1..]);
    }
  }

  /** Appending a subtask adds one to the count per task carrying the parent id. */
  lemma {:induction false} SubtaskCountAfterAppend(tasks: seq<Task>, parentId: real, subtask: Task)
    ensures SubtaskCount(AppendSubtask(tasks, parentId, subtask))
         == SubtaskCount(tasks) + Seqs.Count(tasks, (t: Task) => t.id == parentId)
  {
    if tasks != [] {
      SubtaskCountAfterAppend(tasks[1..], parentId, subtask);
      assert AppendSubtask(tasks, parentId, subtask)[1..] == AppendSubtask(tasks[1..], parentId, subtask);
    }
  }

  /** Deleting subtasks never raises the subtask count. */
  lemma {:induction false} SubtaskCountAfterDelete(tasks: seq<Task>, taskId: real, subtaskId: real)
    ensures SubtaskCount(DeleteSubtask(tasks, taskId, subtaskId)) <= SubtaskCount(tasks)
  {
    if tasks != [] {
      SubtaskCountAfterDelete(tasks[1..], taskId, subtaskId);
      assert DeleteSubtask(tasks, taskId, subtaskId)[1..] == DeleteSubtask(tasks[1..], taskId, subtaskId);
    }
  }

  /** Appending a task adds its effort to the total. */
  lemma {:induction false} TotalEffortAppend(tasks: seq<Task>, t: Task)
    ensures TotalEffort(tasks + [t]) == Add(TotalEffort(tasks), EffortOf(t))
  {
    if tasks == [] {
      assert [t][1..] == [];
    } else {
      assert (tasks + [t])[1..] == tasks[1..] + [t];
      TotalEffortAppend(tasks[1..], t);
    }
  }

  /** Appending a task counts it as completed exactly when its priority is 1. */
  lemma CompletedTasksAppend(tasks: seq<Task>, t: Task)
    ensures CompletedTasks(tasks + [t]) == CompletedTasks(tasks) + (if t.priority == 1 then 1 else 0)
  {
    Seqs.FilterAppend(tasks, [t], (x: Task) => x.priority == 1);
    assert [t][1..] == [];
  }

  /** A task added from a draft that left effort and priority alone adds one
      day to the total and counts as completed, since the defaults are
      estimates "1" and priority 1. */
  lemma AddedTaskDefaults(tasks: seq<Task>, draft: PartialTask, freshId: real)
    requires NewTask(draft, freshId).Some?
    requires draft.estimates.Keep? && draft.priority.Keep?
    ensures var t := NewTask(draft, freshId).value;
      && TotalEffort(tasks + [t]) == Add(TotalEffort(tasks), Finite(1))
      && CompletedTasks(tasks + [t]) == CompletedTasks(tasks) + 1
  {
    var t := NewTask(draft, freshId).value;
    assert t.estimates == Some([DigitChar(1)]);
    SingleDigitEffort(t, 1);
    TotalEffortAppend(tasks, t);
    CompletedTasksAppend(tasks, t);
  }

  /** Two tasks of 3 and 4 days total 7, whatever their subtasks estimate. */
  lemma TotalEffortExample(a: Task, b: Task)
    requires a.estimates == Some("3") && b.estimates == Some("4")
    ensures TotalEffort([a, b]) == Finite(7)
  {
    assert "3" == [DigitChar(3)] && "4" == [DigitChar(4)];
    SingleDigitEffort(a, 3);
    SingleDigitEffort(b, 4);
    TotalEffortPair(a, b);
  }

  lemma TotalEffortPair(a: Task, b: Task)
    ensures TotalEffort([a, b]) == Add(EffortOf(a), Add(EffortOf(b), Finite(0)))
  {
    assert [a, b][1..] == [b];
    assert [b][1..] == [];
    assert TotalEffort([b]) == Add(EffortOf(b), TotalEffort([]));
  }

  lemma SingleDigitEffort(t: Task, d: nat)
    requires d < 10 && t.estimates == Some([DigitChar(d)])
    ensures EffortOf(t) == Finite(d)
  {
    ParseIntAutoOfIntToString(d);
  }

  /** An update of a task id that is not in the forest changes nothing. */
  lemma UpdateAbsentId(tasks: seq<Task>, taskId: real, updates: PartialTask)
    requires taskId !in Ids(tasks)
    ensures UpdateTask(tasks, taskId, updates) == tasks
  {
    var r := UpdateTask(tasks, taskId, updates);
    forall i | 0 <= i < |tasks| ensures r[i] == tasks[i] {
      assert tasks[i] in tasks;
    }
  }

  /** Appending a task without grandchildren keeps nesting at two levels. */
  lemma TwoLevelAfterAppend(tasks: seq<Task>, task: Task)
    requires TwoLevel(tasks)
    requires forall j :: 0 <= j < |task.children| ==> task.children[j].children == []
    ensures TwoLevel(tasks + [task])
  {
  }



  // ---------------------------------------------------------------------
  // Effort inputs

  /** The update the effort input's change handler passes: `{ estimates:
      undefined }` for an empty input, `{ estimates: parseInt(val, 10).toString() }`
      for a parsable one, and None (no update at all) for an unparsable one. */
  function EffortInput(val: string): (r: Option<PartialTask>)
    ensures r.None? <==> val != "" && ParseIntDecimal(val).NaN?
    ensures r.Some? ==> r.value.(estimates := Keep) == NoChanges && r.value.estimates.Put?
    ensures r.Some? && val == "" ==> r.value.estimates.value == None
    ensures r.Some? && val != "" ==>
      && r.value.estimates.value.Some?
      && ParseIntDecimal(r.value.estimates.value.value) == ParseIntDecimal(val)
      && IntToString(ParseIntDecimal(r.value.estimates.value.value).value) == r.value.estimates.value.value
  {
    if val == "" then Some(NoChanges.(estimates := Put(None)))
    else
      var parsed := ParseIntDecimal(val);
      if parsed.NaN? then None
      else
        ParseIntDecimalOfIntToString(parsed.value);
        Some(NoChanges.(estimates := Put(Some(IntToString(parsed.value)))))
  }

  /** Re-entering a stored estimate stores the same string again. */
  lemma EffortInputStable(n: int)
    ensures EffortInput(IntToString(n)) == Some(NoChanges.(estimates := Put(Some(IntToString(n)))))
  {
    ParseIntDecimalOfIntToString(n);
  }

  /** After an effort edit the task's effort is a number: 0 for a cleared
      input, the parsed value otherwise. */
  lemma EffortAfterInput(t: Task, val: string)
    requires EffortInput(val).Some?
    ensures val == "" ==> EffortOf(Merge(t, EffortInput(val).value)) == Finite(0)
    ensures val != "" ==> EffortOf(Merge(t, EffortInput(val).value)) == ParseIntDecimal(val)
  {
    var m := Merge(t, EffortInput(val).value);
    if val == "" {
      assert m.estimates == None;
      ParseIntAutoOfIntToString(0);
      assert IntToString(0) == "0";
    } else {
      var n := ParseIntDecimal(val).value;
      var printed := IntToString(n);
      assert m.estimates == Some(printed);
      assert OrString(m.estimates, "0") == printed;
      ParseIntAutoOfIntToString(n);
    }
  }

  /** The add dialogs' effort handler: `(parseInt(val) || 1).toString()`. */
  function DraftEffort(val: string): (r: string)
    ensures ParseIntDecimal(r).Finite? && ParseIntDecimal(r).value != 0
    ensures IntToString(ParseIntDecimal(r).value) == r
    ensures ParseIntAuto(val).Finite? && ParseIntAuto(val).value != 0 ==>
      ParseIntDecimal(r) == ParseIntAuto(val)
    ensures ParseIntAuto(val).NaN? || ParseIntAuto(val).value == 0 ==> r == "1"
  {
    var parsed := ParseIntAuto(val);
    var n := if parsed.Finite? && parsed.value != 0 then parsed.value else 1;
    ParseIntDecimalOfIntToString(n);
    IntToString(n)
  }

  // ---------------------------------------------------------------------
  // What each forest edit keeps

  /** Editing a task's own properties keeps every children list: the subtask
      count and the nesting are unchanged. */
  lemma UpdateTaskKeeps(tasks: seq<Task>, taskId: real, updates: PartialTask)
    ensures SubtaskCount(UpdateTask(tasks, taskId, updates)) == SubtaskCount(tasks)
    ensures TwoLevel(tasks) ==> TwoLevel(UpdateTask(tasks, taskId, updates))
  {
    var u := UpdateTask(tasks, taskId, updates);
    SubtaskCountByLengths(u, tasks);
    forall i, j | 0 <= i < |u| && 0 <= j < |u[i].children| && TwoLevel(tasks)
      ensures u[i].children[j].children == []
    {
      assert u[i].children == tasks[i].children;
    }
  }

  /** Editing a subtask keeps every children length and every top-level
      estimate: the subtask count, the total effort and the nesting are
      unchanged. */
  lemma UpdateSubtaskKeeps(tasks: seq<Task>, taskId: real, subtaskId: real, updates: PartialTask)
    ensures SubtaskCount(UpdateSubtask(tasks, taskId, subtaskId, updates)) == SubtaskCount(tasks)
    ensures TotalEffort(UpdateSubtask(tasks, taskId, subtaskId, updates)) == TotalEffort(tasks)
    ensures TwoLevel(tasks) ==> TwoLevel(UpdateSubtask(tasks, taskId, subtaskId, updates))
  {
    var us := UpdateSubtask(tasks, taskId, subtaskId, updates);
    SubtaskCountByLengths(us, tasks);
    TotalEffortIgnoresChildren(us, tasks);
    forall i, j | 0 <= i < |us| && 0 <= j < |us[i].children| && TwoLevel(tasks)
      ensures us[i].children[j].children == []
    {
      if tasks[i].id == taskId {
        assert us[i].children[j].children == tasks[i].children[j].children;
      }
    }
  }

  /** Appending a subtask keeps every top-level estimate, hence the total
      effort. */
  lemma AppendSubtaskKeeps(tasks: seq<Task>, parentId: real, subtask: Task)
    ensures SameEstimates(tasks, AppendSubtask(tasks, parentId, subtask))
    ensures TotalEffort(AppendSubtask(tasks, parentId, subtask)) == TotalEffort(tasks)
  {
    var a := AppendSubtask(tasks, parentId, subtask);
    assert forall i :: 0 <= i < |a| ==> a[i].estimates == a[i].(children := tasks[i].children).estimates;
    TotalEffortIgnoresChildren(a, tasks);
  }

  /** Appending a subtask keeps nesting at two levels when the subtask has no
      children of its own. */
  lemma AppendSubtaskNesting(tasks: seq<Task>, parentId: real, subtask: Task)
    ensures TwoLevel(tasks) && subtask.children == [] ==> TwoLevel(AppendSubtask(tasks, parentId, subtask))
  {
    var a := AppendSubtask(tasks, parentId, subtask);
    forall i, j | 0 <= i < |a| && 0 <= j < |a[i].children| && TwoLevel(tasks) && subtask.children == []
      ensures a[i].children[j].children == []
    {
      if tasks[i].id == parentId && j < |tasks[i].children| {
        assert a[i].children[j] == tasks[i].children[j];
      }
    }
  }

  /** Deleting tasks keeps nesting at two levels. */
  lemma DeleteTaskKeeps(tasks: seq<Task>, taskId: real)
    ensures TwoLevel(tasks) ==> TwoLevel(DeleteTask(tasks, taskId))
  {
    var d := DeleteTask(tasks, taskId);
    forall i, j | 0 <= i < |d| && 0 <= j < |d[i].children| && TwoLevel(tasks)
      ensures d[i].children[j].children == []
    {
      var k :| 0 <= k < |tasks| && tasks[k] == d[i];
    }
  }

  /** Deleting a subtask keeps every top-level estimate, hence the total
      effort, never raises the subtask count, and keeps nesting at two
      levels. */
  lemma DeleteSubtaskKeeps(tasks: seq<Task>, taskId: real, subtaskId: real)
    ensures TotalEffort(DeleteSubtask(tasks, taskId, subtaskId)) == TotalEffort(tasks)
    ensures SubtaskCount(DeleteSubtask(tasks, taskId, subtaskId)) <= SubtaskCount(tasks)
    ensures TwoLevel(tasks) ==> TwoLevel(DeleteSubtask(tasks, taskId, subtaskId))
  {
    var ds := DeleteSubtask(tasks, taskId, subtaskId);
    TotalEffortIgnoresChildren(ds, tasks);
    SubtaskCountAfterDelete(tasks, taskId, subtaskId);
    forall i, j | 0 <= i < |ds| && 0 <= j < |ds[i].children| && TwoLevel(tasks)
      ensures ds[i].children[j].children == []
    {
      if tasks[i].id == taskId {
        var c := ds[i].children[j];
        var k :| 0 <= k < |tasks[i].children| && tasks[i].children[k] == c;
      }
    }
  }
}
