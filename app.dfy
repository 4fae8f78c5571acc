/**
 * The handlers as state-changing code. One object holds the storage key and
 * HomeScreen's two state variables; each handler is a method whose new state is the
 * matching step of TaskStore applied to the old one.
 */
module App {
  import opened Wrappers
  import opened Whitespace
  import opened Tasks
  import opened TaskStore

  class TaskApp {
    /** The value under the 'tasks' key of AsyncStorage (None until first written). */
    var persisted: Option<seq<Task>>
    /** HomeScreen's `tasks` state, the list on screen. */
    var display: seq<Task>
    /** HomeScreen's `isHidden` state. */
    var hidden: bool

    function Snapshot(): AppState
      reads this
    {
      AppState(persisted, display, hidden)
    }

    /** HomeScreen's first render over the given storage. */
    constructor (stored: Option<seq<Task>>)
      ensures Snapshot() == Initial(stored)
    {
      persisted := stored;
      display := [];
      hidden := false;
    }

    /** `loadTasks`; `ok` is false when the read or the JSON parse throws. */
    method LoadTasks(ok: bool)
      modifies this
      ensures Snapshot() == Loaded(old(Snapshot()), ok)
    {
      if ok && persisted.Some? {
        display := persisted.value;
      }
    }

    /** `saveTasks`: the effect that writes the display whenever it changes. */
    method SaveTasks(ok: bool)
      modifies this
      ensures Snapshot() == Saved(old(Snapshot()), ok)
      ensures ok ==> persisted == Some(display)
    {
      if ok {
        persisted := Some(display);
      }
    }

    /** Mounting HomeScreen: the load's read, the first render's save, then the load's result and its save. */
    method Mount(readOk: bool, firstWriteOk: bool, secondWriteOk: bool)
      modifies this
      ensures Snapshot() == Mounted(old(Snapshot()), readOk, firstWriteOk, secondWriteOk)
    {
      var storedTasks := persisted;
      SaveTasks(firstWriteOk);
      if readOk && storedTasks.Some? {
        display := storedTasks.value;
        SaveTasks(secondWriteOk);
      }
    }

    /** The confirm branch of `handleDeleteTask`, followed by the save effect. */
    method DeleteTask(id: int, ok: bool)
      modifies this
      ensures Snapshot() == Deleted(old(Snapshot()), id, ok)
      ensures forall t :: t in display <==> t in old(display) && t.id != id
      ensures persisted == if ok then Some(display) else old(persisted)
    {
      display := RemoveById(display, id);
      SaveTasks(ok);
    }

    /** `toggleHideTasks`. */
    method ToggleHideTasks()
      modifies this
      ensures Snapshot() == Toggled(old(Snapshot()))
      ensures hidden == !old(hidden) && display == old(display) && persisted == old(persisted)
    {
      hidden := !hidden;
    }

    /** `handleAddTask` with `now` for `Date.now()`; `ok` is false when a storage call or the parse throws. */
    method AddTask(text: string, now: int, ok: bool) returns (outcome: Outcome)
      modifies this
      ensures Snapshot() == Added(old(Snapshot()), now, text, ok)
      ensures outcome == AddOutcome(text)
      ensures display == old(display)
    {
      if NonBlank(text) {
        var newTask := Task(now, text);
        if ok {
          var currentTasks := StoredOrEmpty(persisted);
          persisted := Some(Appended(currentTasks, newTask));
        }
        outcome := NavigatedHome;
      } else {
        outcome := ValidationAlert;
      }
    }

    /** `handleSaveEdit` for the task with the given id; `ok` as for AddTask. */
    method SaveEdit(id: int, text: string, ok: bool) returns (outcome: Outcome)
      modifies this
      ensures Snapshot() == Edited(old(Snapshot()), id, text, ok)
      ensures outcome == EditOutcome(text, ok)
      ensures outcome == NavigatedHome ==> persisted == Some(display)
    {
      if NonBlank(text) {
        if ok {
          var currentTasks := StoredOrEmpty(persisted);
          var updatedTasks := ReplaceTextById(currentTasks, id, text);
          persisted := Some(updatedTasks);
          display := updatedTasks;
          SaveTasks(true);
          outcome := NavigatedHome;
        } else {
          outcome := StayedOnForm;
        }
      } else {
        outcome := ValidationAlert;
      }
    }
  }

  /**
   * A client run the screens can make: mount on `[{1, a}]`, add `{2, b}`, delete the
   * displayed task 1; the stored list that results is empty.
   */
  method StaleDeleteRun(a: string, b: string) returns (stored: Option<seq<Task>>)
    requires NonBlank(b)
    ensures stored == Some([])
  {
    var app := new TaskApp(Some([Task(1, a)]));
    app.Mount(true, true, true);
    var outcome := app.AddTask(b, 2, true);
    app.DeleteTask(1, true);
    StaleDeleteExample(a, b);
    stored := app.persisted;
  }
}
