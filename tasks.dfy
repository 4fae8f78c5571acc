/**
 * The task record and the three list transformations the screens apply to it:
 * removal by id (the `filter` of the delete handler), appending (the array spread
 * of the add handler) and text replacement by id (the `map` of the edit handler).
 */
module Tasks {

  /** One stored task: `{ id, text }`, the id being the creation timestamp. */
  datatype Task = Task(id: int, text: string)

  /** Some task of the list carries the id. */
  predicate HasId(ts: seq<Task>, id: int) {
    exists t :: t in ts && t.id == id
  }

  /** No two tasks of the list share an id (what timestamps are meant to give). */
  predicate UniqueIds(ts: seq<Task>) {
    forall i, j :: 0 <= i < j < |ts| ==> ts[i].id != ts[j].id
  }

  /** How many tasks of the list carry the id (ids are not checked for uniqueness). */
  function CountId(ts: seq<Task>, id: int): (n: nat)
    ensures n <= |ts|
    ensures n == 0 <==> !HasId(ts, id)
  {
    if ts == [] then 0 else (if ts[0].id == id then 1 else 0) + CountId(ts[1..], id)
  }

  /** `tasks.filter((task) => task.id !== id)`: exactly the tasks with another id remain. */
  function RemoveById(ts: seq<Task>, id: int): (r: seq<Task>)
    ensures forall t :: t in r <==> t in ts && t.id != id
  {
    if ts == [] then [] else (if ts[0].id != id then [ts[0]] else []) + RemoveById(ts[1..], id)
  }

  /** `[...currentTasks, newTask]`: the old list is an unchanged prefix and the new task comes last. */
  function Appended(ts: seq<Task>, t: Task): (r: seq<Task>)
    ensures |r| == |ts| + 1 && r[..|ts|] == ts && r[|ts|] == t
  {
    ts + [t]
  }

  /**
   * `currentTasks.map((t) => t.id === id ? { ...t, text } : t)`: every position keeps
   * its id; a task with the id gets the new text, every other task is untouched.
   */
  function ReplaceTextById(ts: seq<Task>, id: int, text: string): (r: seq<Task>)
    ensures |r| == |ts|
    ensures forall i :: 0 <= i < |ts| ==> r[i].id == ts[i].id
    ensures forall i :: 0 <= i < |ts| && ts[i].id == id ==> r[i].text == text
    ensures forall i :: 0 <= i < |ts| && ts[i].id != id ==> r[i] == ts[i]
  {
    if ts == [] then []
    else [if ts[0].id == id then ts[0].(text := text) else ts[0]] + ReplaceTextById(ts[1..], id, text)
  }

  // ---------------------------------------------------------------- removal

  /** Removal keeps every other task as often as it occurred and drops every task with the id. */
  lemma {:induction false} RemoveByIdCount(ts: seq<Task>, id: int, t: Task)
    ensures multiset(RemoveById(ts, id))[t] == if t.id == id then 0 else multiset(ts)[t]
  {
    if ts != [] {
      RemoveByIdCount(ts[1..], id, t);
      assert ts == [ts[0]] + ts[1..];
    }
  }

  /** Removal preserves relative order: it distributes over concatenation. */
  lemma {:induction false} RemoveByIdConcat(a: seq<Task>, b: seq<Task>, id: int)
    ensures RemoveById(a + b, id) == RemoveById(a, id) + RemoveById(b, id)
  {
    if a == [] {
      assert a + b == b;
    } else {
      assert (a + b)[1..] == a[1..] + b;
      RemoveByIdConcat(a[1..], b, id);
    }
  }

  /** The list is left unchanged exactly when no task carries the id. */
  lemma {:induction false} RemoveByIdUnchanged(ts: seq<Task>, id: int)
    ensures RemoveById(ts, id) == ts <==> !HasId(ts, id)
  {
    if ts != [] && !HasId(ts, id) {
      assert !HasId(ts[1..], id) by {
        forall t | t in ts[1..] ensures t.id != id { assert t in ts; }
      }
      RemoveByIdUnchanged(ts[1..], id);
    }
  }

  /** Each task carrying the id shortens the list by one (RemoveByIdUniqueLength gives the unique-id case). */
  lemma {:induction false} RemoveByIdLength(ts: seq<Task>, id: int)
    ensures |RemoveById(ts, id)| == |ts| - CountId(ts, id)
  {
    if ts != [] {
      RemoveByIdLength(ts[1..], id);
    }
  }

  /** With unique ids a present id occurs exactly once. */
  lemma {:induction false} CountIdUnique(ts: seq<Task>, id: int)
    requires UniqueIds(ts) && HasId(ts, id)
    ensures CountId(ts, id) == 1
  {
    if ts[0].id == id {
      assert !HasId(ts[1..], id) by {
        forall t | t in ts[1..] ensures t.id != id {
          var j :| 0 <= j < |ts[1..]| && ts[1..][j] == t;
          assert ts[j + 1] == t;
        }
      }
    } else {
      var t :| t in ts && t.id == id;
      assert t in ts[1..] by { assert t == ts[0] || t in ts[1..]; }
      assert UniqueIds(ts[1..]) by {
        forall i, j | 0 <= i < j < |ts[1..]| ensures ts[1..][i].id != ts[1..][j].id {
          assert ts[1..][i] == ts[i + 1] && ts[1..][j] == ts[j + 1];
        }
      }
      CountIdUnique(ts[1..], id);
    }
  }

  /** Deleting a present id from a list with unique ids makes it exactly one shorter. */
  lemma RemoveByIdUniqueLength(ts: seq<Task>, id: int)
    requires UniqueIds(ts) && HasId(ts, id)
    ensures |RemoveById(ts, id)| == |ts| - 1
  {
    RemoveByIdLength(ts, id);
    CountIdUnique(ts, id);
  }

  /** Deleting twice is deleting once. */
  lemma RemoveByIdIdempotent(ts: seq<Task>, id: int)
    ensures RemoveById(RemoveById(ts, id), id) == RemoveById(ts, id)
  {
    RemoveByIdUnchanged(RemoveById(ts, id), id);
  }

  /** Appending a task with a fresh id and then removing that id gives back the old list. */
  lemma RemoveAppended(ts: seq<Task>, t: Task)
    requires !HasId(ts, t.id)
    ensures RemoveById(Appended(ts, t), t.id) == ts
  {
    RemoveByIdConcat(ts, [t], t.id);
    RemoveByIdUnchanged(ts, t.id);
    assert RemoveById([t], t.id) == [];
  }

  // ---------------------------------------------------------------- replacement

  /** The list is left unchanged exactly when every task with the id already has that text. */
  lemma ReplaceTextByIdUnchanged(ts: seq<Task>, id: int, text: string)
    ensures ReplaceTextById(ts, id, text) == ts <==> forall t :: t in ts && t.id == id ==> t.text == text
  {

  }

  /** In particular an id no task carries leaves the list identical. */
  lemma ReplaceTextByIdAbsent(ts: seq<Task>, id: int, text: string)
    requires !HasId(ts, id)
    ensures ReplaceTextById(ts, id, text) == ts
  {

  }

  /** A second edit of the same id overrides the first. */
  lemma ReplaceTextByIdOverride(ts: seq<Task>, id: int, a: string, b: string)
    ensures ReplaceTextById(ReplaceTextById(ts, id, a), id, b) == ReplaceTextById(ts, id, b)
  {

  }

  /** Editing a task and then deleting it is the same as deleting it. */
  lemma {:induction false} RemoveAfterReplace(ts: seq<Task>, id: int, text: string)
    ensures RemoveById(ReplaceTextById(ts, id, text), id) == RemoveById(ts, id)
  {
    if ts != [] {
      var r := ReplaceTextById(ts, id, text);
      assert r[1..] == ReplaceTextById(ts[1..], id, text);
      RemoveAfterReplace(ts[1..], id, text);
    }
  }

  /** Editing never changes which ids the list holds, nor how often. */
  lemma {:induction false} ReplaceTextByIdCountId(ts: seq<Task>, id: int, text: string, other: int)
    ensures CountId(ReplaceTextById(ts, id, text), other) == CountId(ts, other)
  {
    if ts != [] {
      var r := ReplaceTextById(ts, id, text);
      assert r[1..] == ReplaceTextById(ts[1..], id, text);
      ReplaceTextByIdCountId(ts[1..], id, text, other);
    }
  }
}
