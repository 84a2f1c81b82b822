/** The state cells of the task-list page and the handlers that overwrite
    them. Each handler computes the new forest with a function of
    `TaskForest` and then hands it to `onTaskUpdate`; the callback and the
    create-task request are recorded as logs of what was passed to them. */
module TaskListPage {
  import opened Js
  import opened TaskForest

  class TaskList {
    var tasks: seq<Task>
    var expandedTasks: set<real>
    var newTask: PartialTask
    var newSubtask: PartialTask
    var selectedTaskForSubtask: Option<real>
    var isAddTaskDialogOpen: bool
    var isAddSubtaskDialogOpen: bool
    /** Every forest passed to `onTaskUpdate`, oldest first. */
    var published: seq<seq<Task>>
    /** Every task passed to the create-task request, oldest first. */
    var createRequests: seq<Task>

    /** The page as first rendered: every initial task starts expanded. */
    constructor (initialTasks: seq<Task>)
      ensures tasks == initialTasks
      ensures expandedTasks == Ids(initialTasks)
      ensures forall i :: 0 <= i < |initialTasks| ==> initialTasks[i].id in expandedTasks
      ensures newTask == NoChanges && newSubtask == NoChanges
      ensures selectedTaskForSubtask == None
      ensures !isAddTaskDialogOpen && !isAddSubtaskDialogOpen
      ensures published == [] && createRequests == []
    {
      tasks := initialTasks;
      expandedTasks := Ids(initialTasks);
      newTask := NoChanges;
      newSubtask := NoChanges;
      selectedTaskForSubtask := None;
      isAddTaskDialogOpen := false;
      isAddSubtaskDialogOpen := false;
      published := [];
      createRequests := [];
    }

    /** `toggleTaskExpansion`: copies the set and adds or deletes `taskId`. */
    method ToggleTaskExpansion(taskId: real)
      modifies this`expandedTasks
      ensures expandedTasks == Toggle(old(expandedTasks), taskId)
      ensures taskId in expandedTasks <==> taskId !in old(expandedTasks)
    {
      var newExpanded := expandedTasks;
      if taskId in newExpanded {
        newExpanded := newExpanded - {taskId};
      } else {
        newExpanded := newExpanded + {taskId};
      }
      expandedTasks := newExpanded;
    }

    /** `updateTask`. */
    method UpdateTask(taskId: real, updates: PartialTask)
      modifies this`tasks, this`published
      ensures tasks == TaskForest.UpdateTask(old(tasks), taskId, updates)
      ensures published == old(published) + [tasks]
      ensures SubtaskCount(tasks) == SubtaskCount(old(tasks))
      ensures TwoLevel(old(tasks)) ==> TwoLevel(tasks)
    {
      UpdateTaskKeeps(tasks, taskId, updates);
      var updatedTasks := TaskForest.UpdateTask(tasks, taskId, updates);
      tasks := updatedTasks;
      published := published + [updatedTasks];
    }

    /** `updateSubtask`. */
    method UpdateSubtask(taskId: real, subtaskId: real, updates: PartialTask)
      modifies this`tasks, this`published
      ensures tasks == TaskForest.UpdateSubtask(old(tasks), taskId, subtaskId, updates)
      ensures published == old(published) + [tasks]
      ensures |tasks| == |old(tasks)|
      ensures TotalEffort(tasks) == TotalEffort(old(tasks))
      ensures SubtaskCount(tasks) == SubtaskCount(old(tasks))
      ensures TwoLevel(old(tasks)) ==> TwoLevel(tasks)
    {
      UpdateSubtaskKeeps(tasks, taskId, subtaskId, updates);
      var updatedTasks := TaskForest.UpdateSubtask(tasks, taskId, subtaskId, updates);
      tasks := updatedTasks;
      published := published + [updatedTasks];
    }

    /** The add-task dialog's field handlers: `setNewTask({ ...newTask, ...change })`. */
    method EditNewTask(change: PartialTask)
      modifies this`newTask
      ensures newTask == Combine(old(newTask), change)
    {
      newTask := Combine(newTask, change);
    }

    /** The add-subtask dialog's field handlers. */
    method EditNewSubtask(change: PartialTask)
      modifies this`newSubtask
      ensures newSubtask == Combine(old(newSubtask), change)
    {
      newSubtask := Combine(newSubtask, change);
    }

    /** Opening or closing the add-task dialog. */
    method SetAddTaskDialogOpen(open: bool)
      modifies this`isAddTaskDialogOpen
      ensures isAddTaskDialogOpen == open
    {
      isAddTaskDialogOpen := open;
    }

    /** `addTask`: does nothing unless the draft has a title and a description;
        otherwise sends the new task to the create request, appends it whatever
        the request's outcome, publishes the forest and resets the dialog. */
    method AddTask(freshId: real)
      modifies this
      ensures NewTask(old(newTask), freshId).None? ==>
        && tasks == old(tasks) && published == old(published) && createRequests == old(createRequests)
        && newTask == old(newTask) && isAddTaskDialogOpen == old(isAddTaskDialogOpen)
      ensures NewTask(old(newTask), freshId).Some? ==>
        var t := NewTask(old(newTask), freshId).value;
        && createRequests == old(createRequests) + [t]
        && tasks == old(tasks) + [t]
        && published == old(published) + [tasks]
        && newTask == NoChanges && !isAddTaskDialogOpen
      ensures expandedTasks == old(expandedTasks) && newSubtask == old(newSubtask)
      ensures selectedTaskForSubtask == old(selectedTaskForSubtask)
      ensures isAddSubtaskDialogOpen == old(isAddSubtaskDialogOpen)
      ensures TwoLevel(old(tasks)) ==> TwoLevel(tasks)
    {
      var task := NewTask(newTask, freshId);
      if task.None? {
        return;
      }
      createRequests := createRequests + [task.value];
      if TwoLevel(tasks) {
        TwoLevelAfterAppend(tasks, task.value);
      }
      var updatedTasks := tasks + [task.value];
      tasks := updatedTasks;
      published := published + [updatedTasks];
      newTask := NoChanges;
      isAddTaskDialogOpen := false;
    }

    /** The "+" button of a task row: remembers the parent and opens the
        add-subtask dialog. */
    method SelectTaskForSubtask(taskId: real)
      modifies this`selectedTaskForSubtask, this`isAddSubtaskDialogOpen
      ensures selectedTaskForSubtask == Some(taskId) && isAddSubtaskDialogOpen
    {
      selectedTaskForSubtask := Some(taskId);
      isAddSubtaskDialogOpen := true;
    }

    /** `addSubtask`: does nothing unless the draft has a title and a truthy
        parent id is selected; otherwise appends the subtask to that parent's
        children, publishes the forest, resets the dialog and clears the
        selected parent. */
    method AddSubtask(freshId: real)
      modifies this`tasks, this`published, this`newSubtask, this`isAddSubtaskDialogOpen, this`selectedTaskForSubtask
      ensures NewSubtask(old(newSubtask), old(selectedTaskForSubtask), freshId).None? ==>
        && tasks == old(tasks) && published == old(published)
        && newSubtask == old(newSubtask)
        && selectedTaskForSubtask == old(selectedTaskForSubtask)
        && isAddSubtaskDialogOpen == old(isAddSubtaskDialogOpen)
      ensures NewSubtask(old(newSubtask), old(selectedTaskForSubtask), freshId).Some? ==>
        var s := NewSubtask(old(newSubtask), old(selectedTaskForSubtask), freshId).value;
        && tasks == AppendSubtask(old(tasks), old(selectedTaskForSubtask).value, s)
        && published == old(published) + [tasks]
        && newSubtask == NoChanges && !isAddSubtaskDialogOpen
        && selectedTaskForSubtask == None
      ensures |tasks| == |old(tasks)|
      ensures SameEstimates(old(tasks), tasks)
      ensures TwoLevel(old(tasks)) ==> TwoLevel(tasks)
    {
      var subtask := NewSubtask(newSubtask, selectedTaskForSubtask, freshId);
      if subtask.None? {
        return;
      }
      var parentId := selectedTaskForSubtask.value;
      AppendSubtaskNesting(tasks, parentId, subtask.value);
      var updatedTasks := AppendSubtask(tasks, parentId, subtask.value);
      tasks := updatedTasks;
      published := published + [updatedTasks];
      newSubtask := NoChanges;
      isAddSubtaskDialogOpen := false;
      selectedTaskForSubtask := None;
    }

    /** `deleteTask`. */
    method DeleteTask(taskId: real)
      modifies this`tasks, this`published
      ensures tasks == TaskForest.DeleteTask(old(tasks), taskId)
      ensures published == old(published) + [tasks]
      ensures TwoLevel(old(tasks)) ==> TwoLevel(tasks)
    {
      DeleteTaskKeeps(tasks, taskId);
      var updatedTasks := TaskForest.DeleteTask(tasks, taskId);
      tasks := updatedTasks;
      published := published + [updatedTasks];
    }

    /** `deleteSubtask`. */
    method DeleteSubtask(taskId: real, subtaskId: real)
      modifies this`tasks, this`published
      ensures tasks == TaskForest.DeleteSubtask(old(tasks), taskId, subtaskId)
      ensures published == old(published) + [tasks]
      ensures TotalEffort(tasks) == TotalEffort(old(tasks))
      ensures SubtaskCount(tasks) <= SubtaskCount(old(tasks))
      ensures TwoLevel(old(tasks)) ==> TwoLevel(tasks)
    {
      DeleteSubtaskKeeps(tasks, taskId, subtaskId);
      var updatedTasks := TaskForest.DeleteSubtask(tasks, taskId, subtaskId);
      tasks := updatedTasks;
      published := published + [updatedTasks];
    }

    /** The effort input of a task row: empty clears `estimates`, a parsable
        value stores its canonical decimal form, anything else changes nothing. */
    method EditTaskEffort(taskId: real, val: string)
      modifies this`tasks, this`published
      ensures EffortInput(val).None? ==> tasks == old(tasks) && published == old(published)
      ensures EffortInput(val).Some? ==>
        && tasks == TaskForest.UpdateTask(old(tasks), taskId, EffortInput(val).value)
        && published == old(published) + [tasks]
    {
      var change := EffortInput(val);
      if change.Some? {
        UpdateTask(taskId, change.value);
      }
    }

    /** The effort input of a subtask row. */
    method EditSubtaskEffort(taskId: real, subtaskId: real, val: string)
      modifies this`tasks, this`published
      ensures EffortInput(val).None? ==> tasks == old(tasks) && published == old(published)
      ensures EffortInput(val).Some? ==>
        && tasks == TaskForest.UpdateSubtask(old(tasks), taskId, subtaskId, EffortInput(val).value)
        && published == old(published) + [tasks]
    {
      var change := EffortInput(val);
      if change.Some? {
        UpdateSubtask(taskId, subtaskId, change.value);
      }
    }

    /** The effort input of the add-task dialog: 0 or unparsable becomes "1". */
    method EditNewTaskEffort(val: string)
      modifies this`newTask
      ensures newTask == old(newTask).(estimates := Put(Some(DraftEffort(val))))
    {
      newTask := Combine(newTask, NoChanges.(estimates := Put(Some(DraftEffort(val)))));
    }

    /** The effort input of the add-subtask dialog. */
    method EditNewSubtaskEffort(val: string)
      modifies this`newSubtask
      ensures newSubtask == old(newSubtask).(estimates := Put(Some(DraftEffort(val))))
    {
      newSubtask := Combine(newSubtask, NoChanges.(estimates := Put(Some(DraftEffort(val)))));
    }
  }
}
