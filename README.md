# bridge-fe core, modelled in Dafny

bridge-fe is the React front end of a project-planning tool. A product
requirements document (PRD) goes in, either fetched from Confluence or typed in
by hand. Tasks come out and are edited as a two-level forest of tasks and
subtasks. The plan is then shown as a Gantt chart, with notification and
scheduling-conflict panels beside it.

This project models the sequential logic inside those screens:

- **Task list** (`js.dfy`, `seqs.dfy`, `task_forest.dfy`, `task_list_page.dfy`)
  - The forest is a `Task` datatype with ordered `children`.
  - A `Partial<ProjectTask>` is a record whose every property is either absent (`Keep`) or present (`Put`). A present property may itself be `undefined`, as in `{ estimates: undefined }`.
  - The page's `useState` cells are the fields of the class `TaskListPage.TaskList`. Its handlers overwrite those fields using the pure transforms of `TaskForest`.
  - The `onTaskUpdate` callback and the create-task request are logs of the values passed to them.
  - `Math.random()` ids are a fresh id the caller supplies.
  - JavaScript truthiness, `parseInt` (with and without radix 10, including the `0x` prefix), NaN propagation through `+`, `trim` and `Number#toString` are written out in `Js`.
- **Query strings** (`url_params.dfy`): `joinParams` and `joinUrlParams`. `snakeCase` and `encodeURIComponent` are function parameters.
- **First-defined selection** (`fallback.dfy`): `fallback`, as a loop with early return.
- **Gantt user classes and weekend highlighting** (`gantt.dfy`).
  - The `reduce` that fills `usersDict` is a loop proved equal to the specification function `Fill`.
  - A plain object is its insertion-ordered keys plus a `map`.
- **PRD input** (`prd_input.dfy`): the feature-count heuristic over line-anchored regular-expression matches, the 200-character preview, the submit predicate, the Confluence fetch guard, and the record passed to both submit callbacks.
- **Panel filters** (`notifications.dfy`, `conflicts.dfy`): tab filtering, the unread count, and the select-then-resolve cell of the conflict panel.

Where the written description of the product and the code disagree, the model
follows the code:

- **Unparsable estimates.** `getTotalEffort` adds `parseInt(estimates || "0")`, so one unparsable estimate makes the whole total NaN. An unparsable estimate is not treated as 0. This is `TaskForest.TotalEffortNaN`.
- **Negative efforts.** The effort inputs carry `min="0"`, but their change handlers store whatever `parseInt(val, 10)` returns, so negative efforts are stored.
- **`TaskType.General`.** `src/enums.ts` does not define `TaskType`. `General` is taken to be 0, the value of the "NA" item of the task-type select.

## Model

| member | source | states |
|---|---|---|
| Js.ParseIntDecimalOfIntToString | src/components/TaskListPage.tsx:506-508 | reading back `n.toString()` with `parseInt(_, 10)` yields `n` for every integer |
| Js.ParseIntAutoOfIntToString | src/components/TaskListPage.tsx:239 | radix-less `parseInt` also reads back every printed integer |
| Js.IntToStringInjective | src/components/ReactGanttChart.tsx:98 | distinct integers print differently |
| Js.BlankIffAllWhiteSpace | src/components/PRDInputPage.tsx:47 | `!s.trim()` holds exactly when every character is whitespace |
| Js.ParseIntDecimal | src/components/TaskListPage.tsx:506 | `parseInt(val, 10)` is NaN for the empty string and for a string starting with neither whitespace, a sign nor a digit |
| Js.ParseIntAuto | src/components/TaskListPage.tsx:239 | radix-less `parseInt` agrees with radix 10 whenever that is NaN or a non-zero number |
| Js.ParseIntAutoZero | src/components/TaskListPage.tsx:239 | `parseInt("0")` is 0 |
| Js.DecimalZeroBeforeHex | src/components/TaskListPage.tsx:239 | read in radix 10, a `0x` prefix is the number 0 |
| Js.Trim | src/components/PRDInputPage.tsx:47 | never longer than the input; empty, or starting and ending with non-whitespace; non-empty when the input holds non-whitespace |
| Js.Add | src/components/TaskListPage.tsx:244 | number addition: finite exactly when both operands are, and then the sum; NaN otherwise |
| Js.SumNaN | src/components/TaskListPage.tsx:238-245 | a sum of numbers is NaN exactly when one of its terms is |
| Js.OrString | src/components/TaskListPage.tsx:239 | `s \|\| d`: a non-empty string is kept; absent or empty gives the default |
| Js.TrimStart | src/components/TaskListPage.tsx:239 | a suffix of the input that starts with a non-whitespace character, with only whitespace removed before it |
| Js.TrimEnd | src/components/PRDInputPage.tsx:47 | a prefix of the input that ends with a non-whitespace character, with only whitespace removed after it |
| Js.DigitRun | src/components/TaskListPage.tsx:506 | the longest prefix of digits valid in the radix |
| Js.SignedDigits | src/components/TaskListPage.tsx:506 | NaN exactly when no digit follows the sign |
| Js.NatToString | src/components/TaskListPage.tsx:508 | a non-empty decimal string without a leading zero |
| Js.IntToString | src/components/TaskListPage.tsx:508 | non-empty; begins with `-` exactly for negative numbers |
| Js.DigitsValueOfNatToString | src/components/TaskListPage.tsx:506-508 | the digits printed for `n` read back as `n` |
| Js.DigitRunOfNatToString | src/components/TaskListPage.tsx:506-508 | a printed number is one run of decimal digits |
| Js.SplitSignOfIntToString | src/components/TaskListPage.tsx:506-508 | a printed number has no leading whitespace, and its sign splits off to leave the printed magnitude |
| Seqs.Filter | src/components/TaskListPage.tsx:205 | the result keeps only passing elements of the input, and every passing element appears in it |
| Seqs.FilterAppend | src/components/TaskListPage.tsx:205 | filtering a concatenation is the concatenation of the filtered parts, so order is kept |
| Seqs.FilterLength | src/components/TaskListPage.tsx:249 | the filtered length is the number of passing elements |
| Seqs.FilterMultiplicity | src/components/ConflictDetectionPanel.tsx:101 | a passing element keeps its multiplicity, and a failing one disappears |
| Seqs.FilterIdentity | src/components/TaskListPage.tsx:205 | filtering returns its input exactly when every element passes |
| Seqs.FilterNone | src/components/NotificationPanel.tsx:46-49 | when nothing passes, the filter is empty |
| Seqs.CountSplit | src/components/TaskListPage.tsx:205 | elements passing a predicate and elements passing its negation add up to the length |
| Seqs.IndexOf | src/components/ReactGanttChart.tsx:96 | `indexOf` is -1 exactly for absent elements; otherwise it is the first position holding the element |
| Seqs.Dedup | src/components/ReactGanttChart.tsx:96 | `uniqueUsers` has no repeats, has exactly the users of the input, and lists them in order of first occurrence |
| Seqs.IndexOfPrefix | src/components/ReactGanttChart.tsx:96 | the first position of an element is unchanged by appending, and a new last element is found last |
| TaskForest.MergeFields | src/components/TaskListPage.tsx:123-126 | `{...task, ...updates}` keeps id and children, takes each supplied property and keeps every other; `{}` changes nothing |
| TaskForest.MergeCombine | src/components/TaskListPage.tsx:705-708 | spreading two partial objects in turn equals spreading their combination; spreading is idempotent |
| TaskForest.MapMatching | src/components/TaskListPage.tsx:124-126 | same length; each matching task is transformed and every other task is unchanged |
| TaskForest.UpdateTask | src/components/TaskListPage.tsx:123-126 | length and order kept; tasks with another id unchanged; a matching task is the merge with the updates |
| TaskForest.UpdateAbsentId | src/components/TaskListPage.tsx:123-126 | updating an id that no task carries changes nothing |
| TaskForest.UpdateSubtask | src/components/TaskListPage.tsx:131-144 | top-level properties and every children length kept; other tasks unchanged; the matching task's children are updated by id |
| TaskForest.AppendSubtask | src/components/TaskListPage.tsx:190-195 | the task count is kept, tasks with another id are unchanged, and the parent's children gain the subtask at the end |
| TaskForest.DeleteTask | src/components/TaskListPage.tsx:204-205 | no kept task has the id, every other task is kept, and the length drops by the number of matches |
| TaskForest.DeleteTaskKeepsOrder | src/components/TaskListPage.tsx:204-205 | deletion distributes over concatenation, so the kept tasks stay in order |
| TaskForest.DeleteAbsentId | src/components/TaskListPage.tsx:204-205 | deleting an id that no task carries changes nothing |
| TaskForest.DeleteSubtask | src/components/TaskListPage.tsx:210-219 | other tasks and all top-level properties unchanged; the parent's children lose exactly the subtask id |
| TaskForest.Toggle | src/components/TaskListPage.tsx:113-121 | membership of `taskId` flips, and every other id keeps its membership |
| TaskForest.ToggleTwice | src/components/TaskListPage.tsx:113-121 | toggling the same id twice restores the set |
| TaskForest.OrNumber | src/components/TaskListPage.tsx:159 | `priority \|\| 1`: a present non-zero value is kept; absent or 0 gives the default |
| TaskForest.NewTask | src/components/TaskListPage.tsx:150-161 | a task is built exactly when title and description are non-empty; no children; a drafted truthy estimate, priority or type is kept, and a drafted falsy one becomes "1", 1 or General, as do undrafted ones; assignee as drafted or null |
| TaskForest.NewSubtask | src/components/TaskListPage.tsx:178-188 | a subtask is built exactly when the title is non-empty and a truthy parent id is selected (0 is rejected); a drafted truthy estimate, priority or type is kept, and a drafted falsy one becomes "1", 1 or General, as do undrafted ones; assignee null, description "" by default |
| TaskForest.CompletedTasks | src/components/TaskListPage.tsx:248-250 | the number of tasks with priority 1, never more than the task count |
| TaskForest.Merge | src/components/TaskListPage.tsx:123-126 | `{...task, ...updates}` keeps id and children, takes each supplied priority and keeps it otherwise; `{}` returns the task itself |
| TaskForest.EffortOf | src/components/TaskListPage.tsx:239 | a task without an estimate, or with an empty one, counts 0 |
| TaskForest.TotalEffort | src/components/TaskListPage.tsx:237-246 | the total is the sum of the top-level efforts, in order |
| TaskForest.SubtaskCount | src/components/TaskListPage.tsx:308 | no task has more children than the count, and the count is 0 exactly when no task has children |
| TaskForest.TotalEffortNaN | src/components/TaskListPage.tsx:237-246 | the total is NaN exactly when some top-level estimate is unparsable |
| TaskForest.TotalEffortIgnoresChildren | src/components/TaskListPage.tsx:237-246 | forests that agree on top-level estimates have the same total, whatever their subtasks |
| TaskForest.TotalEffortAppend | src/components/TaskListPage.tsx:237-246 | appending a task adds its effort to the total |
| TaskForest.TotalEffortExample | src/components/TaskListPage.tsx:237-246 | estimates "3" and "4" total 7 |
| TaskForest.SingleDigitEffort | src/components/TaskListPage.tsx:239 | an estimate of one digit counts as that digit |
| TaskForest.SubtaskCountByLengths | src/components/TaskListPage.tsx:308 | the subtask count depends only on the children lengths |
| TaskForest.SubtaskCountAfterAppend | src/components/TaskListPage.tsx:308 | appending a subtask adds one per task carrying the parent id |
| TaskForest.SubtaskCountAfterDelete | src/components/TaskListPage.tsx:308 | deleting a subtask never raises the count |
| TaskForest.CompletedTasksAppend | src/components/TaskListPage.tsx:248-250 | an appended task adds one to the completed count exactly when its priority is 1 |
| TaskForest.AddedTaskDefaults | src/components/TaskListPage.tsx:150-161 | a task added with default effort and priority adds 1 to the total and 1 to the completed count |
| TaskForest.TwoLevelAfterAppend | src/components/TaskListPage.tsx:170 | appending a task without grandchildren keeps nesting at two levels |
| TaskForest.UpdateTaskKeeps | src/components/TaskListPage.tsx:123-126 | editing a task keeps the subtask count and two-level nesting |
| TaskForest.UpdateSubtaskKeeps | src/components/TaskListPage.tsx:131-144 | editing a subtask keeps the subtask count, the total effort and two-level nesting |
| TaskForest.AppendSubtaskKeeps | src/components/TaskListPage.tsx:190-195 | appending a subtask keeps every top-level estimate, hence the total effort |
| TaskForest.AppendSubtaskNesting | src/components/TaskListPage.tsx:190-195 | appending a subtask without children keeps two-level nesting |
| TaskForest.DeleteTaskKeeps | src/components/TaskListPage.tsx:204-205 | deleting tasks keeps two-level nesting |
| TaskForest.DeleteSubtaskKeeps | src/components/TaskListPage.tsx:210-219 | deleting a subtask keeps the total effort and two-level nesting, and never raises the subtask count |
| TaskForest.EffortInput | src/components/TaskListPage.tsx:496-510 | empty input clears `estimates`; unparsable input gives no update; otherwise only `estimates` changes, to the canonical printing of the parsed number, which reads back as that number |
| TaskForest.EffortInputStable | src/components/TaskListPage.tsx:506-508 | re-entering a stored estimate stores the same string |
| TaskForest.EffortAfterInput | src/components/TaskListPage.tsx:496-510 | after an accepted edit the effort is 0 for a cleared input and the parsed number otherwise |
| TaskForest.DraftEffort | src/components/TaskListPage.tsx:747-752 | the draft effort always parses to a non-zero number and is its canonical printing: the input's value if non-zero, else "1" |
| TaskListPage.TaskList.constructor | src/components/TaskListPage.tsx:96-111 | tasks are the initial tasks, and every initial id starts expanded; drafts empty, nothing selected, dialogs closed |
| TaskListPage.TaskList.ToggleTaskExpansion | src/components/TaskListPage.tsx:113-121 | the expanded set becomes the toggle of the old one |
| TaskListPage.TaskList.UpdateTask | src/components/TaskListPage.tsx:123-129 | tasks become the update and are published; subtask count and two-level nesting kept |
| TaskListPage.TaskList.UpdateSubtask | src/components/TaskListPage.tsx:131-147 | tasks become the subtask update and are published; length, total effort, subtask count and nesting kept |
| TaskListPage.TaskList.EditNewTask | src/components/TaskListPage.tsx:705-708 | the draft becomes `{...newTask, ...change}` |
| TaskListPage.TaskList.EditNewSubtask | src/components/TaskListPage.tsx:836-839 | the subtask draft becomes `{...newSubtask, ...change}` |
| TaskListPage.TaskList.SetAddTaskDialogOpen | src/components/TaskListPage.tsx:264 | the add-task dialog flag takes the given value |
| TaskListPage.TaskList.AddTask | src/components/TaskListPage.tsx:149-175 | an invalid draft changes nothing; otherwise the task is requested, appended at the end whatever the request's outcome, and published, and the draft and dialog are reset |
| TaskListPage.TaskList.SelectTaskForSubtask | src/components/TaskListPage.tsx:390-393 | the parent is selected and the subtask dialog opens |
| TaskListPage.TaskList.AddSubtask | src/components/TaskListPage.tsx:177-202 | an invalid draft or missing parent changes nothing; otherwise the subtask is appended under the parent and published, the draft is reset and the selection cleared; task count, every top-level estimate and two-level nesting kept |
| TaskListPage.TaskList.DeleteTask | src/components/TaskListPage.tsx:204-208 | tasks become the deletion and are published; nesting kept |
| TaskListPage.TaskList.DeleteSubtask | src/components/TaskListPage.tsx:210-222 | tasks become the subtask deletion and are published; total kept, subtask count not raised |
| TaskListPage.TaskList.EditTaskEffort | src/components/TaskListPage.tsx:496-510 | an unparsable value leaves tasks and the publication log unchanged; otherwise the effort update is applied |
| TaskListPage.TaskList.EditSubtaskEffort | src/components/TaskListPage.tsx:625-639 | the same rule for a subtask's effort |
| TaskListPage.TaskList.EditNewTaskEffort | src/components/TaskListPage.tsx:747-752 | the draft's estimates become `DraftEffort` of the input, and nothing else changes |
| TaskListPage.TaskList.EditNewSubtaskEffort | src/components/TaskListPage.tsx:851-856 | the same for the subtask draft |
| UrlParams.Pair | src/utils/joinUrlParams.tsx:8 | every rendered pair contains `=` |
| UrlParams.Join | src/utils/joinUrlParams.tsx:9 | joining nothing gives "", and the join starts with the first part |
| UrlParams.Split | src/utils/joinUrlParams.tsx:9 | splitting always yields at least one part |
| UrlParams.SplitJoin | src/utils/joinUrlParams.tsx:9 | splitting on `&` inverts the join when no part contains `&` |
| UrlParams.JoinParams | src/utils/joinUrlParams.tsx:5-9 | the output is "" exactly when every value is `undefined` or `null` |
| UrlParams.JoinParamsPairs | src/utils/joinUrlParams.tsx:5-9 | splitting the output on `&` gives one rendered pair per kept key, in key order |
| UrlParams.JoinUrlParams | src/utils/joinUrlParams.tsx:15-24 | the loop computes `JoinUrl`; the URL is a prefix; the URL comes back unchanged exactly when no object is present with at least one key |
| UrlParams.JoinUrl | src/utils/joinUrlParams.tsx:15-24 | the input URL is always a prefix of the result |
| UrlParams.UnchangedIffNothingAppends | src/utils/joinUrlParams.tsx:15-23 | the result equals the URL exactly when every object is absent or has no keys |
| UrlParams.QuestionMarkAfterAppend | src/utils/joinUrlParams.tsx:19 | once an object has been appended, or the URL had one, the result contains `?` |
| UrlParams.SeparatorRule | src/utils/joinUrlParams.tsx:19 | later objects are joined with `&` |
| UrlParams.FirstSeparator | src/utils/joinUrlParams.tsx:19 | the first object appended to a URL without `?` is joined with `?` |
| UrlParams.BareSeparator | src/utils/joinUrlParams.tsx:18-19 | an object whose values are all null or undefined still appends a bare separator |
| Fallback.Fallback | src/utils/fallback.ts:1-7 | the first argument that is not `undefined` (`null` included), or `undefined` when there is none |
| Gantt.Users | src/components/ReactGanttChart.tsx:95 | one user per task, in task order |
| Gantt.UniqueUsers | src/components/ReactGanttChart.tsx:96 | no repeats; exactly the tasks' users; in order of first occurrence |
| Gantt.KeysOf | src/components/ReactGanttChart.tsx:98 | one property name per user |
| Gantt.UserClassInjective | src/components/ReactGanttChart.tsx:98 | distinct positions get distinct `wx-user-N` classes |
| Gantt.LastIndex | src/components/ReactGanttChart.tsx:97-100 | the last position holding a name |
| Gantt.FillDomain | src/components/ReactGanttChart.tsx:97-100 | the dictionary's keys are exactly the users' property names |
| Gantt.FillKeys | src/components/ReactGanttChart.tsx:97-100 | the insertion order is the order of first occurrence |
| Gantt.FillValues | src/components/ReactGanttChart.tsx:97-100 | each name holds the class of its last assignment |
| Gantt.FillWellFormed | src/components/ReactGanttChart.tsx:97-100 | the key list has no repeats and lists exactly the names holding a value |
| Gantt.FillShape | src/components/ReactGanttChart.tsx:97-100 | the dictionary is a well-formed object, with the three facts above |
| Gantt.FillInjective | src/components/ReactGanttChart.tsx:97-100 | different names never share a class |
| Gantt.FillDistinct | src/components/ReactGanttChart.tsx:97-100 | without shared names, the i-th name holds `wx-user-(i+1)` |
| Gantt.UsersDict | src/components/ReactGanttChart.tsx:97-100 | the `reduce` loop builds `Fill`; the result is well-formed and injective; without shared names, user i gets `wx-user-(i+1)` |
| Gantt.Lookup | src/components/ReactGanttChart.tsx:104 | `usersDict[user]` on a well-formed object is defined exactly when the user's property name is a key, and is then one of the stored classes |
| Gantt.Retag | src/components/ReactGanttChart.tsx:104 | same length and order; only `type` changes |
| Gantt.TaskTypes | src/components/ReactGanttChart.tsx:106-109 | one entry per dictionary key |
| Gantt.TaskTypesDistinct | src/components/ReactGanttChart.tsx:106-109 | task-type ids are distinct, and so are their labels |
| Gantt.EveryUserHasType | src/components/ReactGanttChart.tsx:104-109 | every task's user has a class and a task type labelled with the user |
| Gantt.TypesWithoutCollision | src/components/ReactGanttChart.tsx:97-109 | the t-th unique user is the t-th task type, with class `wx-user-(t+1)` |
| Gantt.LookupWithoutCollision | src/components/ReactGanttChart.tsx:104 | each task's `type` is the class of its user's position among the unique users |
| Gantt.LookupListed | src/components/ReactGanttChart.tsx:104 | a listed user finds the class of its position |
| Gantt.Derive | src/components/ReactGanttChart.tsx:95-109 | same tasks with only `type` set; each type names a task type labelled with the user; ids and labels distinct; without the `undefined` collision, numbering by first occurrence |
| Gantt.DedupOfDistinct | src/components/ReactGanttChart.tsx:96 | de-duplicating a list without repeats changes nothing |
| Gantt.KeysOfDistinct | src/components/ReactGanttChart.tsx:97-100 | distinct users have distinct property names unless both `undefined` and "undefined" occur |
| Gantt.UndefinedCollides | src/components/ReactGanttChart.tsx:98 | `undefined` and "undefined" are distinct users that share one dictionary entry |
| Gantt.IsDayOff | src/components/ReactGanttChart.tsx:111-114 | of the seven days, exactly Sunday and Saturday are days off |
| Gantt.HighlightTime | src/components/ReactGanttChart.tsx:116-119 | "" or "wx-weekend"; "" for cells that are not days; on day cells the same as `dayStyle` |
| Gantt.DayStyle | src/components/ReactGanttChart.tsx:121-124 | "wx-weekend" exactly on days off, "" otherwise |
| Gantt.HighlightTimeWeekend | src/components/ReactGanttChart.tsx:111-124 | "wx-weekend" exactly for day cells on day 0 or 6, else ""; agrees with `dayStyle` on day cells |
| PrdInput.HashRun | src/components/PRDInputPage.tsx:122 | the run of `#` at a position |
| PrdInput.Matches | src/components/PRDInputPage.tsx:122-123 | the number of matching line starts never exceeds the number of positions scanned; what the count means is stated by `MatchesZero` (none exactly when no line start matches) and `MatchesDoNotOverlap` (the global match count is the count of matching line starts) |
| PrdInput.MatchesZero | src/components/PRDInputPage.tsx:122-123 | `(content.match(re) \|\| []).length` is 0 exactly when no line start matches |
| PrdInput.MatchesDoNotOverlap | src/components/PRDInputPage.tsx:122-123 | no match covers the start of another line, so the global match count is the count of matching line starts |
| PrdInput.MatchesWithinLines | src/components/PRDInputPage.tsx:122-123 | headers plus bullets never exceed the number of lines |
| PrdInput.EstimateFeatureCount | src/components/PRDInputPage.tsx:120-125 | at least 1; a third of headers plus bullets, rounded down, once that reaches 1 |
| PrdInput.FeatureCountAtMostLines | src/components/PRDInputPage.tsx:120-125 | the estimate is at most a third of the line count, or 1 |
| PrdInput.ContentPreview | src/components/PRDInputPage.tsx:134-137 | content of at most 200 characters is returned unchanged; longer content is cut to 200 characters plus "..." |
| PrdInput.IsSubmitDisabled | src/components/PRDInputPage.tsx:127-132 | confluence tab: enabled exactly when content was fetched and the title is not blank; manual tab: enabled exactly when content and title are not blank |
| PrdInput.FetchedTitleVisible | src/components/PRDInputPage.tsx:97 | the fetched title is not blank |
| PrdInput.PrdInputPage.constructor | src/components/PRDInputPage.tsx:36-44 | confluence tab, empty strings, not loading, nothing fetched |
| PrdInput.PrdInputPage.SetActiveTab | src/components/PRDInputPage.tsx:240 | the tab takes the chosen value |
| PrdInput.PrdInputPage.SetConfluenceUrl | src/components/PRDInputPage.tsx:275 | the URL takes the typed value |
| PrdInput.PrdInputPage.SetManualContent | src/components/PRDInputPage.tsx:343 | the manual content takes the typed value |
| PrdInput.PrdInputPage.SetPrdTitle | src/components/PRDInputPage.tsx:231 | the title takes the typed value |
| PrdInput.PrdInputPage.HandleConfluenceFetch | src/components/PRDInputPage.tsx:46-49 | a blank URL changes nothing; otherwise loading starts |
| PrdInput.PrdInputPage.CompleteConfluenceFetch | src/components/PRDInputPage.tsx:96-103 | content and title are set, the content counts as fetched, loading ends, and the confluence tab can submit |
| PrdInput.PrdInputPage.HandleSubmit | src/components/PRDInputPage.tsx:106-118 | one record goes to both callbacks: content and source from the active tab, URL only on confluence, features estimated from that content |
| Notifications.TypeName | src/components/NotificationPanel.tsx:12 | no notification type is named "all" |
| Notifications.FilteredNotifications | src/components/NotificationPanel.tsx:46-49 | "all" shows everything; another tab shows exactly the notifications of that type; never longer than the input |
| Notifications.UnreadCount | src/components/NotificationPanel.tsx:51 | the unread count never exceeds the number of notifications; its exact value, the number of notifications with `read` false, is pinned by `UnreadPlusRead` |
| Notifications.FilterKeepsOrder | src/components/NotificationPanel.tsx:46-49 | filtering keeps the original order |
| Notifications.OneTypeTab | src/components/NotificationPanel.tsx:98-101 | a notification shows under exactly one type tab |
| Notifications.TypeTabsPartition | src/components/NotificationPanel.tsx:98-101 | the three type tabs together list every notification exactly once |
| Notifications.UnknownTabIsEmpty | src/components/NotificationPanel.tsx:46-49 | a tab that names no type shows nothing |
| Notifications.UnreadPlusRead | src/components/NotificationPanel.tsx:51 | unread plus read notifications make up the whole list |
| Conflicts.SeverityName | src/components/ConflictDetectionPanel.tsx:32 | no severity is named "all" |
| Conflicts.FilteredConflicts | src/components/ConflictDetectionPanel.tsx:98-101 | "all" shows every conflict; another tab shows exactly the conflicts of that severity |
| Conflicts.FilterKeepsOrder | src/components/ConflictDetectionPanel.tsx:98-101 | filtering keeps the original order |
| Conflicts.LowOnlyUnderAll | src/components/ConflictDetectionPanel.tsx:159-161 | among the offered tabs, a low-severity conflict is listed only under "all" |
| Conflicts.ConflictPanel.constructor | src/components/ConflictDetectionPanel.tsx:93-96 | nothing selected, tab "all", nothing reported |
| Conflicts.ConflictPanel.SetActiveTab | src/components/ConflictDetectionPanel.tsx:155 | the tab takes the chosen value |
| Conflicts.ConflictPanel.HandleSelectConflict | src/components/ConflictDetectionPanel.tsx:103-105 | the conflict becomes the selection |
| Conflicts.ConflictPanel.HandleResolveConflict | src/components/ConflictDetectionPanel.tsx:107-112 | without a selection nothing happens; with one, its id and the resolution are reported once and the selection is cleared |

## Left out

- Network and asynchronous plumbing is not modelled: the create-task and Gantt-generation mutations, the API query hooks, and the team-member directory fetch. The create request is a log, and `addTask` appends whatever the request's outcome.
- The two-second wait and the mock document of the Confluence fetch are not modelled. The fetched document is a parameter of `CompleteConfluenceFetch`. The fetch's `catch` branch cannot be reached because the simulated request never fails.
- TaskListPage.TaskList.AddTask: does not model the stale closure of the asynchronous handler. The state after the awaited request is computed from the state when the handler started, as the handler's own variables are.
- Random ids are a caller-supplied fresh id. The code does not guarantee unique ids, so the model claims none.
- `formatRounded` in the page wrapper is not part of this model, and neither is the wrapper's normalisation of falsy estimates to "0".
- The task editing-mode flags and all rendering are not modelled. This covers the expanded or collapsed view, the task-type and assignee selects except as update objects, and the dialogs' markup.
- The status and priority selects (src/components/TaskListPage.tsx:519-538, :644-660 and :768-789) sit in blocks switched off by `false &&` and are not modelled. Their options are words, so `parseInt` of them would store NaN as a priority; the model takes priority to be an integer. `getCompletedTasks` is modelled, although its only display (line 323) is switched off too.
- Assignees are an optional opaque `Member`. The selects pass strings where the task type holds objects, and that mismatch is not modelled.
- `children` is always present. On a task without children the subtask-count reduce's `children?.length` would make the count NaN, and `getTotalEffort`'s `task.children.reduce` (src/components/TaskListPage.tsx:240) would throw a TypeError; neither is modelled.
- Numbers are unbounded integers. Floating-point behaviour of `parseInt` beyond 2^53 and exponent notation in `toString` are not modelled.
- Strings are sequences of code points, not of UTF-16 code units. This affects `length`, `slice` and the 200-character preview only for characters outside the Basic Multilingual Plane.
- `snakeCase` and `encodeURIComponent` are arbitrary functions supplied by the caller. A parameter value is taken in its string form, and `undefined` and `null` are rendered as JavaScript does.
- Gantt: a plain object is modelled as insertion-ordered keys plus a map, which does not capture two JavaScript behaviours. `Object.entries` lists integer-like keys first, in ascending order. A user named `"__proto__"` sets the prototype of `{}` rather than an own property, so the real chart gives it no task type and its lookup yields `Object.prototype`; the model treats that name like any other, giving it an entry and a `wx-user-N` class. Task fields other than `user` and `type` are an opaque `rest`. Dates, scales and the end-date computation are left out, and a day of the week is an integer from 0 to 6.
- `renderMarkdown` (a chain of regular-expression replacements producing HTML) is not modelled.
- The accept, reject, dismiss and mark-all-read callbacks of the notification panel are not modelled. Neither are date formatting and the avatar markup of both panels.
