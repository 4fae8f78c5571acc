/**
 * What each handler of the app does to the three pieces of state: the value stored
 * under the single 'tasks' key, HomeScreen's `tasks` list and its `isHidden` flag.
 * Every handler is one atomic step; `ok` says whether its storage calls (and the JSON
 * parsing of what was read) succeeded, and a failure is swallowed after logging.
 */
module TaskStore {
  import opened Wrappers
  import opened Whitespace
  import opened Tasks

  /** persisted: the 'tasks' key (None = never written); display: HomeScreen's `tasks`; hidden: `isHidden`. */
  datatype AppState = AppState(persisted: Option<seq<Task>>, display: seq<Task>, hidden: bool)

  /** What the user sees after pressing a form's button. */
  datatype Outcome = NavigatedHome | ValidationAlert | StayedOnForm

  /** HomeScreen's first render: `useState([])` and `useState(false)` over whatever storage holds. */
  function Initial(stored: Option<seq<Task>>): AppState {
    AppState(stored, [], false)
  }

  /** `storedTasks ? JSON.parse(storedTasks) : []`. */
  function StoredOrEmpty(p: Option<seq<Task>>): seq<Task> {
    if p.Some? then p.value else []
  }

  /** The display is exactly what storage holds. */
  predicate Synced(s: AppState) {
    s.persisted == Some(s.display)
  }

  /** `loadTasks`: a stored value replaces the display; nothing stored or a failed read leaves it. */
  function Loaded(s: AppState, ok: bool): AppState {
    if ok && s.persisted.Some? then s.(display := s.persisted.value) else s
  }

  /** `saveTasks`, the effect run after every change of the display: it overwrites the key. */
  function Saved(s: AppState, ok: bool): AppState {
    if ok then s.(persisted := Some(s.display)) else s
  }

  /**
   * Mounting HomeScreen. The load effect issues its read first; the save effect of the
   * first render then writes the initial display (`[]`); when the read brought a list,
   * `setTasks` shows it and the save effect writes it a second time. Storage is taken
   * to serve these requests in the order they were issued. Each write has its own flag.
   */
  function Mounted(s: AppState, readOk: bool, firstWriteOk: bool, secondWriteOk: bool): AppState {
    var first := Saved(s, firstWriteOk);
    if readOk && s.persisted.Some? then Saved(first.(display := s.persisted.value), secondWriteOk)
    else first
  }

  /** The confirm branch of `handleDeleteTask`: filter the DISPLAYED list, then the save effect. */
  function Deleted(s: AppState, id: int, ok: bool): AppState {
    Saved(s.(display := RemoveById(s.display, id)), ok)
  }

  /** `toggleHideTasks`. */
  function Toggled(s: AppState): AppState {
    s.(hidden := !s.hidden)
  }

  /** `handleAddTask`: a fresh read of storage, append `{ id: now, text }`, write back; the display is not touched. */
  function Added(s: AppState, now: int, text: string, ok: bool): AppState {
    if NonBlank(text) && ok then s.(persisted := Some(Appended(StoredOrEmpty(s.persisted), Task(now, text))))
    else s
  }

  /** Add always returns home after a non-blank text, even when storage failed. */
  function AddOutcome(text: string): Outcome {
    if NonBlank(text) then NavigatedHome else ValidationAlert
  }

  /**
   * `handleSaveEdit`: a fresh read, the text replacement, the write, then `setTasks` of the
   * written list (whose save effect rewrites the same list). On failure nothing changes.
   */
  function Edited(s: AppState, id: int, text: string, ok: bool): AppState {
    if NonBlank(text) && ok then
      var u := ReplaceTextById(StoredOrEmpty(s.persisted), id, text);
      AppState(Some(u), u, s.hidden)
    else s
  }

  /** Edit returns home only after the write succeeded. */
  function EditOutcome(text: string, ok: bool): Outcome {
    if !NonBlank(text) then ValidationAlert else if ok then NavigatedHome else StayedOnForm
  }

  // ---------------------------------------------------------------- load and save

  /** Without a stored value the display keeps its initial empty list; a failed read changes nothing. */
  lemma LoadCases(s: AppState, ok: bool)
    ensures s.persisted == None ==> Loaded(s, ok) == s
    ensures Loaded(Initial(None), ok).display == []
    ensures ok && s.persisted.Some? ==> Synced(Loaded(s, ok))
    ensures !ok ==> Loaded(s, ok) == s
    ensures Loaded(s, ok).persisted == s.persisted && Loaded(s, ok).hidden == s.hidden
  {
  }

  /** Whatever the writes do, a mount shows what the load effect alone would show. */
  lemma MountShowsLoad(s: AppState, readOk: bool, firstWriteOk: bool, secondWriteOk: bool)
    ensures Mounted(s, readOk, firstWriteOk, secondWriteOk).display == Loaded(s, readOk).display
    ensures Mounted(s, readOk, firstWriteOk, secondWriteOk).hidden == s.hidden
  {
  }

  /** A mount whose read and writes all succeed leaves display and storage in step, holding what was stored (or nothing). */
  lemma MountSynced(p: Option<seq<Task>>)
    ensures Synced(Mounted(Initial(p), true, true, true))
    ensures Mounted(Initial(p), true, true, true).display == StoredOrEmpty(p)
  {
  }

  /** Loading and saving again is idempotent: a second successful mount is the first one. */
  lemma MountIdempotent(s: AppState)
    ensures Mounted(Mounted(s, true, true, true), true, true, true) == Mounted(s, true, true, true)
  {
  }

  /** Remounting starts again from the first render over what the last mount stored, and arrives at the same state. */
  lemma RemountFromInitial(p: Option<seq<Task>>)
    ensures var m := Mounted(Initial(p), true, true, true);
      Mounted(Initial(m.persisted), true, true, true) == m
  {
  }

  /**
   * A failed read at mount does not stop the first render's save effect: a successful
   * write then replaces whatever was stored with the empty display.
   */
  lemma MountReadFailureClearsStore(p: Option<seq<Task>>, secondWriteOk: bool)
    ensures Mounted(Initial(p), false, true, secondWriteOk).persisted == Some([])
  {
  }

  /**
   * When the first render's write succeeds and the write after the load fails, the loaded
   * list is on screen while storage holds the empty list: the two are out of step.
   */
  lemma MountSecondWriteFailure(l: seq<Task>)
    requires l != []
    ensures var m := Mounted(Initial(Some(l)), true, true, false);
      m.display == l && m.persisted == Some([]) && !Synced(m)
  {
  }

  // ---------------------------------------------------------------- delete

  /**
   * No displayed task with the id remains, every other one stays as often as before
   * (and, by RemoveByIdConcat, in its order); a successful save stores the new display.
   */
  lemma DeleteSpec(s: AppState, id: int, ok: bool)
    ensures var d := Deleted(s, id, ok);
      && !HasId(d.display, id)
      && (forall t: Task :: t.id != id ==> multiset(d.display)[t] == multiset(s.display)[t])
      && (ok ==> Synced(d))
      && (!ok ==> d.persisted == s.persisted)
      && d.hidden == s.hidden
  {
    forall t: Task | t.id != id
      ensures multiset(Deleted(s, id, ok).display)[t] == multiset(s.display)[t]
    {
      RemoveByIdCount(s.display, id, t);
    }
  }

  /** Deleting an id that is not displayed leaves the display as it was, and a successful save syncs storage to it. */
  lemma DeleteAbsent(s: AppState, id: int, ok: bool)
    requires !HasId(s.display, id)
    ensures Deleted(s, id, ok).display == s.display
    ensures ok ==> Deleted(s, id, ok).persisted == Some(s.display)
  {
    RemoveByIdUnchanged(s.display, id);
  }

  // ---------------------------------------------------------------- add

  /** A non-blank text that is written grows the fresh list by one task at the end; the display is untouched. */
  lemma AddSpec(s: AppState, now: int, text: string, ok: bool)
    requires NonBlank(text) && ok
    ensures var a := Added(s, now, text, ok);
      var before := StoredOrEmpty(s.persisted);
      && a.persisted.Some?
      && |a.persisted.value| == |before| + 1
      && a.persisted.value[..|before|] == before
      && a.persisted.value[|before|] == Task(now, text)
      && a.display == s.display && a.hidden == s.hidden
  {
  }

  /** A storage failure writes nothing, yet the add form still returns home. */
  lemma AddFailure(s: AppState, now: int, text: string)
    requires NonBlank(text)
    ensures Added(s, now, text, false) == s
    ensures AddOutcome(text) == NavigatedHome
  {
  }

  /** Adding a run of non-blank tasks stores exactly those tasks, in order, after what was stored. */
  function AddedAll(s: AppState, adds: seq<Task>): AppState
    decreases |adds|
  {
    if adds == [] then s else AddedAll(Added(s, adds[0].id, adds[0].text, true), adds[1..])
  }

  lemma {:induction false} AddedAllInOrder(s: AppState, adds: seq<Task>)
    requires forall i :: 0 <= i < |adds| ==> NonBlank(adds[i].text)
    ensures adds != [] ==> AddedAll(s, adds).persisted == Some(StoredOrEmpty(s.persisted) + adds)
    ensures adds == [] ==> AddedAll(s, adds) == s
    ensures AddedAll(s, adds).display == s.display
    decreases |adds|
  {
    if adds != [] {
      var before := StoredOrEmpty(s.persisted);
      var s' := Added(s, adds[0].id, adds[0].text, true);
      assert NonBlank(adds[0].text);
      assert s'.persisted == Some(before + [adds[0]]) && s'.display == s.display;
      assert forall i :: 0 <= i < |adds[1..]| ==> NonBlank(adds[1..][i].text) by {
        forall i | 0 <= i < |adds[1..]| ensures NonBlank(adds[1..][i].text) {
          assert adds[1..][i] == adds[i + 1];
        }
      }
      AddedAllInOrder(s', adds[1..]);
      if adds[1..] == [] {
        assert adds == [adds[0]];
      } else {
        ShiftFirst(before, adds);
      }
    }
  }

  /** Moving the first element of the second list to the end of the first. */
  lemma ShiftFirst(before: seq<Task>, adds: seq<Task>)
    requires adds != []
    ensures before + adds == (before + [adds[0]]) + adds[1..]
  {

  }

  /** Add is the one operation that puts storage ahead of the display. */
  lemma AddBreaksSync(s: AppState, now: int, text: string)
    requires Synced(s) && NonBlank(text)
    ensures !Synced(Added(s, now, text, true))
  {

  }

  // ---------------------------------------------------------------- edit

  /**
   * A written edit keeps the length and the ids of the freshly read list, gives the
   * matching tasks the new text, keeps all others, and leaves display and storage equal.
   */
  lemma EditSpec(s: AppState, id: int, text: string)
    requires NonBlank(text)
    ensures var e := Edited(s, id, text, true);
      var before := StoredOrEmpty(s.persisted);
      && Synced(e) && e.hidden == s.hidden
      && |e.display| == |before|
      && (forall i :: 0 <= i < |before| ==> e.display[i].id == before[i].id)
      && (forall i :: 0 <= i < |before| && before[i].id == id ==> e.display[i] == Task(id, text))
      && (forall i :: 0 <= i < |before| && before[i].id != id ==> e.display[i] == before[i])
  {
  }

  /** Editing an id that is not stored writes back the list it read, unchanged. */
  lemma EditAbsent(s: AppState, id: int, text: string)
    requires NonBlank(text) && !HasId(StoredOrEmpty(s.persisted), id)
    ensures Edited(s, id, text, true).display == StoredOrEmpty(s.persisted)
    ensures Synced(Edited(s, id, text, true))
  {

  }

  /** A storage failure in the edit form changes nothing and keeps the form open. */
  lemma EditFailure(s: AppState, id: int, text: string)
    requires NonBlank(text)
    ensures Edited(s, id, text, false) == s
    ensures EditOutcome(text, false) == StayedOnForm
  {
  }

  /** Because Edit re-reads storage, an edit shows a task that an earlier add left off the display. */
  lemma EditResyncsAfterAdd(s: AppState, now: int, text: string, id: int, newText: string)
    requires NonBlank(text) && NonBlank(newText) && id != now
    ensures Task(now, text) in Edited(Added(s, now, text, true), id, newText, true).display
  {

  }

  // ---------------------------------------------------------------- blank text and toggle

  /** A text made only of whitespace fails validation: neither form writes anything and both show the alert. */
  lemma BlankTextNoWrite(s: AppState, now: int, id: int, text: string, ok: bool)
    requires forall i :: 0 <= i < |text| ==> IsWhitespace(text[i])
    ensures Added(s, now, text, ok) == s && AddOutcome(text) == ValidationAlert
    ensures Edited(s, id, text, ok) == s && EditOutcome(text, ok) == ValidationAlert
  {

  }

  /** Toggling flips the flag, touches neither list, and twice restores the state. */
  lemma ToggleSpec(s: AppState)
    ensures Toggled(s).hidden == !s.hidden
    ensures Toggled(s).display == s.display && Toggled(s).persisted == s.persisted
    ensures Toggled(Toggled(s)) == s
  {
  }

  // ---------------------------------------------------------------- the stale display

  /**
   * Delete filters the display, not a fresh read, so after an add (which does not
   * refresh the display) a delete of any other task writes the stale list back and the
   * newly added task is lost from storage.
   */
  lemma StaleDeleteLosesAdd(s: AppState, now: int, text: string, other: int)
    requires Synced(s) && NonBlank(text) && Task(now, text) !in s.display
    ensures Task(now, text) in Added(s, now, text, true).persisted.value
    ensures Deleted(Added(s, now, text, true), other, true).persisted == Some(RemoveById(s.display, other))
    ensures Task(now, text) !in Deleted(Added(s, now, text, true), other, true).persisted.value
  {

  }

  /**
   * The same, on a run the screens can make: mount on `[{1, a}]`, add `{2, b}`, then
   * delete the displayed task 1. Storage ends empty although task 2 was never deleted.
   */
  lemma StaleDeleteExample(a: string, b: string)
    requires NonBlank(b)
    ensures var m := Mounted(Initial(Some([Task(1, a)])), true, true, true);
      var added := Added(m, 2, b, true);
      && added.persisted == Some([Task(1, a), Task(2, b)])
      && HasId(added.display, 1)
      && Deleted(added, 1, true).persisted == Some([])
  {
    var first := [Task(1, a)];
    var m := Mounted(Initial(Some(first)), true, true, true);
    assert m == AppState(Some(first), first, false);
    assert Added(m, 2, b, true) == AppState(Some(first + [Task(2, b)]), first, false);
    assert first + [Task(2, b)] == [Task(1, a), Task(2, b)];
    assert first[0] in first;
    assert RemoveById(first, 1) == [];
  }

  // ---------------------------------------------------------------- scenarios

  /** Start empty and add `{1, "buy milk"}`: storage holds exactly that task. */
  lemma AddScenario()
    ensures Added(Mounted(Initial(None), true, true, true), 1, "buy milk", true).persisted == Some([Task(1, "buy milk")])
  {

  }

  /** Editing task 2 of `[{1, "a"}, {2, "b"}]` to "b2" changes only that task. */
  lemma EditScenario()
    ensures var s := Initial(Some([Task(1, "a"), Task(2, "b")]));
      Edited(s, 2, "b2", true).persisted == Some([Task(1, "a"), Task(2, "b2")])
  {
    NonBlankIff("b2");
    assert !IsWhitespace("b2"[0]);
    var r := ReplaceTextById([Task(1, "a"), Task(2, "b")], 2, "b2");
    assert r == [r[0], r[1]];
  }

  /** Deleting task 1 of a mounted `[{1, "a"}, {2, "b"}]` leaves `[{2, "b"}]` displayed and stored. */
  lemma DeleteScenario()
    ensures var s := Mounted(Initial(Some([Task(1, "a"), Task(2, "b")])), true, true, true);
      var d := Deleted(s, 1, true);
      d.display == [Task(2, "b")] && d.persisted == Some([Task(2, "b")])
  {

  }
}
