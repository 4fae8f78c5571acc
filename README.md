# Task list bookkeeping of a React Native task manager

The app keeps a list of tasks `{ id, text }` (the id is the creation time in
milliseconds) under one AsyncStorage key, `'tasks'`, and shows it on a home screen.
Three screens change it. The home screen deletes a task by filtering the list it
displays; the save effect then writes that list back. The add screen reads the stored
list afresh, appends the new task and writes it back. The edit screen reads the stored
list afresh, replaces the text of the task with the edited id, writes it back and
hands the result to the home screen. A toggle hides or shows the list.

The model has three layers:

- `Whitespace`: the forms' validation `text.trim()` (`TrimStart`, `TrimEnd`, `Trim`,
  `NonBlank`), over the characters ECMAScript's `trim` strips.
- `Tasks`: the `Task` record and the three list transformations: `RemoveById`
  (`filter`), `Appended` (array spread) and `ReplaceTextById` (`map`), with lemmas
  about them.
- `TaskStore`: the app's state as a value `AppState(persisted, display, hidden)`, one
  function per handler (`Loaded`, `Saved`, `Mounted`, `Deleted`, `Toggled`, `Added`,
  `Edited`), and the lemmas about them. `App.TaskApp` is a class with the same three
  fields. Its methods change them in place, and each method's `ensures` ties the new
  state to the matching `TaskStore` step applied to the old state.

`persisted` is an `Option<seq<Task>>`. `None` means `getItem` found nothing, which is
what the guard `if (storedTasks)` tests. JSON serialisation is the identity. Each
handler runs as one atomic step. Its `ok` parameter says whether all of its storage
calls and its parse succeeded. When they did not, the handler writes nothing, as in
the source's `catch`. Mounting has three flags instead: one for its read, one for the
first render's write of the empty list, and one for the write of the loaded list. Storage is taken to serve the read before the first write, in the
order the effects issue them. `Date.now()` is the parameter `now`. A form's reaction
is an `Outcome`: it returns home, it stays open, or it shows the validation alert.

Three behaviours of the code are stated as they are, not repaired:

- The add screen never refreshes the displayed list, and returning home does not
  reload it. A later delete filters the stale display and writes it back, so the added
  task is lost from storage. See `StaleDeleteLosesAdd`, the run `StaleDeleteExample`
  and the client method `App.StaleDeleteRun`. An edit re-reads storage and brings the
  task back on screen (`EditResyncsAfterAdd`).
- The first render's save effect writes the empty list whatever the load does. When
  that write succeeds and then the load fails or the second write fails, storage ends
  holding the empty list (`MountReadFailureClearsStore`, `MountSecondWriteFailure`).
- Add does not hand its new list to the display. Delete removes every task carrying
  the id, not just one. A failed load keeps the current display.

## Model

| member | source | states |
|---|---|---|
| Whitespace.IsWhitespace | App.js:119 | no contract: the characters `trim` strips (ECMAScript WhiteSpace and LineTerminator); used by TrimStart and TrimEnd |
| Whitespace.TrimStart | App.js:119 | the result is the longest suffix of the text that does not start with whitespace; every dropped character is whitespace |
| Whitespace.TrimEnd | App.js:119 | the result is the longest prefix of the text that does not end with whitespace; every dropped character is whitespace |
| Whitespace.Trim | App.js:119 | no contract: `trim` as TrimEnd after TrimStart, whose contracts carry its properties; TrimIdempotent states idempotence |
| Whitespace.NonBlank | App.js:164 | no contract: the guard `if (text.trim())`; NonBlankIff states what it means |
| Whitespace.NonBlankIff | App.js:119 | `text.trim()` is non-empty exactly when some character of the text is not whitespace (both directions) |
| Whitespace.TrimIdempotent | App.js:164 | trimming an already trimmed text changes nothing |
| Tasks.CountId | App.js:47 | the number of tasks carrying an id is at most the length, and zero exactly when no task carries it |
| Tasks.RemoveById | App.js:47 | a task is in the filtered list exactly when it was in the list and its id differs from the deleted one |
| Tasks.RemoveByIdCount | App.js:47 | the filter keeps every task with another id as often as it occurred and keeps no task with the id |
| Tasks.RemoveByIdConcat | App.js:47 | the filter distributes over concatenation, so the kept tasks stay in their original relative order |
| Tasks.RemoveByIdUnchanged | App.js:47 | the filter returns the list unchanged exactly when no task carries the id |
| Tasks.RemoveByIdLength | App.js:47 | the filter shortens the list by the number of tasks carrying the id |
| Tasks.CountIdUnique | App.js:47 | in a list with unique ids a present id occurs exactly once |
| Tasks.RemoveByIdUniqueLength | App.js:47 | deleting a present id from a list with unique ids makes it exactly one shorter |
| Tasks.RemoveByIdIdempotent | App.js:47 | deleting the same id twice gives the same list as deleting it once |
| Tasks.Appended | App.js:125 | the spread keeps the old list as an unchanged prefix and puts the new task last, one longer |
| Tasks.RemoveAppended | App.js:120-125 | appending a task whose id is not in the list and then deleting that id gives back the list |
| Tasks.ReplaceTextById | App.js:168-170 | the map keeps length and the id at every position, gives matching tasks the new text and leaves every other task unchanged |
| Tasks.ReplaceTextByIdUnchanged | App.js:168-170 | the map returns the list unchanged exactly when every task with the id already has the new text |
| Tasks.ReplaceTextByIdAbsent | App.js:168-170 | an id no task carries yields an identical list |
| Tasks.ReplaceTextByIdOverride | App.js:168-170 | a second edit of the same id overrides the first |
| Tasks.RemoveAfterReplace | App.js:168-170 | editing a task and then deleting its id is the same as deleting it |
| Tasks.ReplaceTextByIdCountId | App.js:168-170 | editing never changes how often any id occurs in the list |
| TaskStore.Initial | App.js:11-12 | no contract: the first render, an empty display, not hidden, over the given storage |
| TaskStore.StoredOrEmpty | App.js:124 | no contract: `storedTasks ? JSON.parse(storedTasks) : []`; AddSpec and EditSpec state it for both forms |
| TaskStore.Loaded | App.js:14-24 | no contract: the load effect; LoadCases states its cases |
| TaskStore.Saved | App.js:26-35 | no contract: the save effect; DeleteSpec and App.TaskApp.SaveTasks state its result |
| TaskStore.Mounted | App.js:14-35 | no contract: the read, the first render's save, then the load's result and its save; MountShowsLoad, MountSynced, MountIdempotent, MountReadFailureClearsStore and MountSecondWriteFailure state its properties |
| TaskStore.Deleted | App.js:46-48 | no contract: filter the display, then the save effect; DeleteSpec and DeleteAbsent state its properties |
| TaskStore.Toggled | App.js:59-61 | no contract: flip the flag; ToggleSpec states its properties |
| TaskStore.Added | App.js:118-135 | no contract: the add handler's effect on storage; AddSpec, AddFailure, AddedAllInOrder and BlankTextNoWrite state its properties |
| TaskStore.AddOutcome | App.js:119-134 | no contract: home after a non-blank text, else the alert; AddFailure and BlankTextNoWrite state it |
| TaskStore.Edited | App.js:163-180 | no contract: the edit handler's effect; EditSpec, EditAbsent, EditFailure and BlankTextNoWrite state its properties |
| TaskStore.EditOutcome | App.js:163-179 | no contract: home only after a successful write, the form stays open on failure, the alert for a blank text; EditFailure and BlankTextNoWrite state it |
| TaskStore.LoadCases | App.js:14-24 | with nothing stored the load changes nothing, so the first render keeps its empty list; a successful load of a stored value makes display equal storage; a failed load changes nothing; storage and the flag are never touched |
| TaskStore.MountShowsLoad | App.js:14-35 | whatever the writes do, a mount shows what the load alone shows, and leaves the flag |
| TaskStore.MountSynced | App.js:14-35 | after a mount whose read and both writes succeed the display equals what was stored (empty if nothing) and storage holds the display |
| TaskStore.MountIdempotent | App.js:14-35 | mounting again after a successful mount changes nothing |
| TaskStore.RemountFromInitial | App.js:10-35 | a fresh mount over what a successful mount stored reaches the same state again |
| TaskStore.MountReadFailureClearsStore | App.js:14-35 | when the load fails but the first render's write succeeds, storage ends holding the empty list whatever it held |
| TaskStore.MountSecondWriteFailure | App.js:14-35 | when the first render's write succeeds and the write of a loaded non-empty list fails, the list is displayed while storage holds the empty list |
| TaskStore.DeleteSpec | App.js:46-48 | after a delete no displayed task has the id, every other task is kept as often as before, a successful save leaves storage equal to the display, a failed save leaves storage as it was, the flag is untouched |
| TaskStore.DeleteAbsent | App.js:46-48 | deleting an id that is not displayed leaves the display unchanged, and a successful save stores that display |
| TaskStore.AddSpec | App.js:118-126 | a written add stores the freshly read list (empty if nothing stored) followed by the new task, one longer with the old list as prefix; display and flag are untouched |
| TaskStore.AddFailure | App.js:122-131 | a storage failure in add writes nothing, and the form still returns home |
| TaskStore.AddedAllInOrder | App.js:118-126 | a run of adds with non-blank texts stores exactly those tasks, in add order, after what was stored, and never changes the display |
| TaskStore.AddBreaksSync | App.js:122-126 | from a state where storage equals the display, a written add leaves them different |
| TaskStore.EditSpec | App.js:163-172 | a written edit keeps the length and ids of the freshly read list, gives the matching tasks the new text, keeps the others, and leaves display equal to the new storage |
| TaskStore.EditAbsent | App.js:166-172 | editing an id that is not stored writes back and displays the list it read, unchanged |
| TaskStore.EditFailure | App.js:163-176 | a storage failure in edit changes nothing and the form stays open |
| TaskStore.EditResyncsAfterAdd | App.js:163-172 | after an add, an edit of another id puts the added task on the display, because edit re-reads storage |
| TaskStore.BlankTextNoWrite | App.js:118-135 | a text made only of whitespace changes neither storage nor display in add or edit, and both forms show the validation alert |
| TaskStore.ToggleSpec | App.js:59-61 | toggling flips the flag, leaves both lists unchanged, and toggling twice restores the state |
| TaskStore.StaleDeleteLosesAdd | App.js:46-48 | after an add from a synced state, deleting any id writes back the stale filtered display, so the added task is no longer stored |
| TaskStore.StaleDeleteExample | App.js:95 | mount on `[{1, a}]`, add `{2, b}`, delete the displayed task 1: storage ends empty although task 2 was never deleted |
| TaskStore.AddScenario | App.js:118-126 | mount on empty storage and add `{1, "buy milk"}`: storage holds exactly that task |
| TaskStore.EditScenario | App.js:166-171 | editing task 2 of `[{1,"a"},{2,"b"}]` to "b2" stores `[{1,"a"},{2,"b2"}]` |
| TaskStore.DeleteScenario | App.js:47-48 | deleting task 1 of a mounted `[{1,"a"},{2,"b"}]` displays and stores `[{2,"b"}]` |
| App.TaskApp.constructor | App.js:11-12 | the first render shows an empty list, not hidden, over the given storage |
| App.TaskApp.LoadTasks | App.js:14-24 | the new state is the load step of the old one |
| App.TaskApp.SaveTasks | App.js:26-35 | the new state is the save step of the old one; a successful write leaves storage equal to the display |
| App.TaskApp.Mount | App.js:14-35 | the new state is the mount step: the read, the first render's save, then the load's result and its save, each write with its own flag |
| App.TaskApp.DeleteTask | App.js:46-48 | the new state is the delete step; the display holds exactly the old tasks with another id; storage is the display after a successful save, else unchanged |
| App.TaskApp.ToggleHideTasks | App.js:59-61 | the flag flips and both lists stay as they were |
| App.TaskApp.AddTask | App.js:118-135 | the new state is the add step; the display is unchanged; the outcome is home for a non-blank text and the alert otherwise |
| App.TaskApp.SaveEdit | App.js:163-180 | the new state is the edit step; the outcome is home only after a successful write, which leaves storage equal to the display |
| App.StaleDeleteRun | App.js:46-48 | the stale-delete run on the class: for any non-blank text `b`: mount on `[{1, a}]`, add `{2, b}`, delete the displayed task 1, and the stored list returned is empty |

## Left out

- Rendering (JSX, list items, header, styles) is presentation only.
- Navigation is not modelled. A form's return home is reported as the `Outcome` value `NavigatedHome`.
- Alert dialogs are not modelled. The delete confirmation is modelled as the call of `DeleteTask`; Cancel does nothing. The validation alert is the `Outcome` value `ValidationAlert`.
- The list's trash and edit icons are only shown while the list is not hidden. The methods do not require `!hidden`, because the handlers themselves do not check it.
- AsyncStorage is asynchronous, and handlers could interleave while they await. Each handler is modelled as atomic, and a failure is the `ok` parameter. At mount, storage is taken to serve the load's read before the first render's write, the order in which the two effects issue them.
- JSON.stringify and JSON.parse are the identity on task lists. A parse failure counts as a storage failure. A stored value is assumed to be a task list, and the empty string cannot occur because stringify never produces it.
- `Date.now()` is the parameter `now`. Two adds in the same millisecond may share an id; the model handles such duplicates and does not prevent them.
- `console.error` logging is a side channel and is dropped.
- App.TaskApp.SaveEdit: the save effect that `setTasks` triggers after an edit rewrites the list that was just stored. Whether that second write succeeds makes no difference, so it is modelled as a plain write of the same list.
