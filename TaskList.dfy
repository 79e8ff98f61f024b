/** The task list the tasks panel mirrors, and the expressions that rewrite it: the
    prepend, `map` and `filter` that the realtime handler and the user handlers pass to
    `setTasks` (src/components/dashboard/TasksSection.tsx). Everything here is a value. */
module TaskList {
  import opened Common
  import opened Text

  /** A row of the `tasks` table. Timestamps are opaque strings assigned by the store. */
  datatype Task = Task(
    id: string,
    title: string,
    description: Option<string>,
    completed: bool,
    createdAt: string,
    updatedAt: string,
    userId: string)

  /** The `{ title, description }` buffers behind the add form (`newTask`) and the
      edit form (`editTask`). */
  datatype TaskDraft = TaskDraft(title: string, description: string)

  const EmptyDraft := TaskDraft("", "")

  /** A change notification from the realtime channel: the new row of an INSERT or
      UPDATE, or the id of the old row of a DELETE. */
  datatype RealtimeEvent = Insert(row: Task) | Update(row: Task) | Delete(id: string)

  /** The ids of the list, in list order. */
  function Ids(ts: seq<Task>): (ids: seq<string>)
    ensures |ids| == |ts|
    ensures forall i :: 0 <= i < |ts| ==> ids[i] == ts[i].id
  {
    if ts == [] then [] else [ts[0].id] + Ids(ts[1..])
  }

  /** No two entries share an id. */
  predicate UniqueIds(ts: seq<Task>) {
    forall i, j :: 0 <= i < j < |ts| ==> ts[i].id != ts[j].id
  }

  /** How many entries carry `id`. */
  function CountId(ts: seq<Task>, id: string): (n: nat)
    ensures n <= |ts|
    ensures n == 0 <==> id !in Ids(ts)
  {
    if ts == [] then 0 else (if ts[0].id == id then 1 else 0) + CountId(ts[1..], id)
  }

  /** `[t, ...prev]`. */
  function Prepend(t: Task, ts: seq<Task>): seq<Task> {
    [t] + ts
  }

  /** `prev.map(task => task.id === row.id ? row : task)`: every entry with the row's id
      becomes the row, every other entry stays, and positions do not move. */
  function ReplaceById(ts: seq<Task>, row: Task): (r: seq<Task>)
    ensures |r| == |ts|
    ensures forall i :: 0 <= i < |ts| ==> r[i] == (if ts[i].id == row.id then row else ts[i])
  {
    if ts == [] then []
    else [if ts[0].id == row.id then row else ts[0]] + ReplaceById(ts[1..], row)
  }

  /** `prev.filter(task => task.id !== id)`: a task stays exactly when it was there and
      does not carry `id`. */
  function RemoveById(ts: seq<Task>, id: string): (r: seq<Task>)
    ensures |r| <= |ts|
    ensures forall t :: t in r <==> t in ts && t.id != id
  {
    if ts == [] then []
    else (if ts[0].id == id then [] else [ts[0]]) + RemoveById(ts[1..], id)
  }

  /** `prev.map(task => task.id === id ? { ...task, completed: flag } : task)`: entries
      with `id` get the flag and keep every other field, the rest stay as they were. */
  function SetCompleted(ts: seq<Task>, id: string, flag: bool): (r: seq<Task>)
    ensures |r| == |ts|
    ensures forall i :: 0 <= i < |ts| ==>
              r[i] == (if ts[i].id == id then ts[i].(completed := flag) else ts[i])
  {
    if ts == [] then []
    else [if ts[0].id == id then ts[0].(completed := flag) else ts[0]] + SetCompleted(ts[1..], id, flag)
  }

  /** What the realtime handler does with the list for each kind of event: an INSERT
      puts its row in front of the unchanged list, an UPDATE keeps the ids in place, a
      DELETE leaves no entry with its id. */
  function ApplyEvent(ts: seq<Task>, ev: RealtimeEvent): (r: seq<Task>)
    ensures ev.Insert? ==> |r| == |ts| + 1 && r[0] == ev.row && r[1..] == ts
    ensures ev.Update? ==> Ids(r) == Ids(ts)
    ensures ev.Delete? ==> |r| <= |ts| && ev.id !in Ids(r)
  {
    assert ev.Update? ==> Ids(ReplaceById(ts, ev.row)) == Ids(ts) by {
      if ev.Update? {
        var u := ReplaceById(ts, ev.row);
        assert forall i :: 0 <= i < |ts| ==> Ids(u)[i] == Ids(ts)[i];
      }
    }
    assert ev.Delete? ==> ev.id !in Ids(RemoveById(ts, ev.id)) by {
      if ev.Delete? {
        var d := RemoveById(ts, ev.id);
        assert forall i :: 0 <= i < |d| ==> d[i] in d && Ids(d)[i] == d[i].id;
      }
    }
    match ev
    case Insert(row) => Prepend(row, ts)
    case Update(row) => ReplaceById(ts, row)
    case Delete(id) => RemoveById(ts, id)
  }

  /** An INSERT puts its row first and moves every other task down by one. */
  lemma InsertPrepends(ts: seq<Task>, row: Task)
    ensures |ApplyEvent(ts, Insert(row))| == |ts| + 1
    ensures ApplyEvent(ts, Insert(row))[0] == row
    ensures forall i :: 0 <= i < |ts| ==> ApplyEvent(ts, Insert(row))[i + 1] == ts[i]
  {
  }

  /** An INSERT does not look for the row's id: when `addTask` has already prepended
      the returned row, the echoed INSERT of the same row adds a second copy. */
  lemma AddThenEchoDuplicates(ts: seq<Task>, row: Task)
    ensures CountId(ApplyEvent(Prepend(row, ts), Insert(row)), row.id) == CountId(ts, row.id) + 2
    ensures !UniqueIds(ApplyEvent(Prepend(row, ts), Insert(row)))
  {
  }

  /** An UPDATE keeps the ids in place, so it keeps the length and the order. */
  lemma UpdateKeepsIds(ts: seq<Task>, row: Task)
    ensures Ids(ApplyEvent(ts, Update(row))) == Ids(ts)
  {
  }

  /** Applying the same UPDATE twice gives the list of applying it once. */
  lemma UpdateIdempotent(ts: seq<Task>, row: Task)
    ensures ApplyEvent(ApplyEvent(ts, Update(row)), Update(row)) == ApplyEvent(ts, Update(row))
  {
  }

  /** An UPDATE for an id the list does not hold leaves the list as it is. */
  lemma UpdateUnknownIsNoop(ts: seq<Task>, row: Task)
    requires row.id !in Ids(ts)
    ensures ApplyEvent(ts, Update(row)) == ts
  {
  }

  /** Filtering a concatenation filters each part: the tasks that survive a DELETE keep
      their relative order. */
  lemma {:induction false} RemoveDistributes(a: seq<Task>, b: seq<Task>, id: string)
    ensures RemoveById(a + b, id) == RemoveById(a, id) + RemoveById(b, id)
  {
    if a == [] {
      assert a + b == b && RemoveById(a, id) == [];
    } else {
      assert (a + b)[0] == a[0] && (a + b)[1..] == a[1..] + b;
      RemoveDistributes(a[1..], b, id);
      var head := if a[0].id == id then [] else [a[0]];
      var front, back := RemoveById(a[1..], id), RemoveById(b, id);
      assert RemoveById(a + b, id) == head + (front + back);
      assert RemoveById(a, id) == head + front;
      AppendAssoc(head, front, back);
    }
  }

  /** A DELETE removes exactly the entries carrying the id: none is left, and the list
      shrinks by their number. */
  lemma {:induction false} RemoveCount(ts: seq<Task>, id: string)
    ensures CountId(RemoveById(ts, id), id) == 0
    ensures |RemoveById(ts, id)| == |ts| - CountId(ts, id)
  {
    if ts != [] {
      RemoveCount(ts[1..], id);
      if ts[0].id != id {
        assert RemoveById(ts, id)[1..] == RemoveById(ts[1..], id);
      }
    }
  }

  /** A DELETE for an id the list does not hold leaves the list as it is. */
  lemma {:induction false} RemoveUnknownIsNoop(ts: seq<Task>, id: string)
    requires id !in Ids(ts)
    ensures RemoveById(ts, id) == ts
  {
    if ts != [] {
      assert Ids(ts)[1..] == Ids(ts[1..]);
      RemoveUnknownIsNoop(ts[1..], id);
    }
  }

  /** Applying the same DELETE twice gives the list of applying it once. */
  lemma RemoveIdempotent(ts: seq<Task>, id: string)
    ensures RemoveById(RemoveById(ts, id), id) == RemoveById(ts, id)
  {
    RemoveCount(ts, id);
    RemoveUnknownIsNoop(RemoveById(ts, id), id);
  }

  /** A DELETE never introduces two entries with one id. */
  lemma {:induction false} RemoveKeepsUnique(ts: seq<Task>, id: string)
    requires UniqueIds(ts)
    ensures UniqueIds(RemoveById(ts, id))
  {
    if ts != [] {
      RemoveKeepsUnique(ts[1..], id);
      var r := RemoveById(ts, id);
      if ts[0].id != id {
        assert r == [ts[0]] + RemoveById(ts[1..], id);
        forall j | 1 <= j < |r| ensures r[0].id != r[j].id {
          assert r[j] in RemoveById(ts[1..], id);
          var k :| 1 <= k < |ts| && ts[k] == r[j] by {
            assert r[j] in ts[1..];
          }
        }
      }
    }
  }

  /** An UPDATE never introduces two entries with one id. */
  lemma UpdateKeepsUnique(ts: seq<Task>, row: Task)
    requires UniqueIds(ts)
    ensures UniqueIds(ApplyEvent(ts, Update(row)))
  {
  }

  /** Setting the completion flag keeps the ids in place. */
  lemma SetCompletedKeepsIds(ts: seq<Task>, id: string, flag: bool)
    ensures Ids(SetCompleted(ts, id, flag)) == Ids(ts)
  {
  }

  /** `startEditing(task)`: the edit buffer gets the title and the description, a null
      description becoming the empty string. */
  function EditDraftOf(t: Task): TaskDraft {
    TaskDraft(t.title, OrEmpty(t.description))
  }
}
