/**
  The two list transformations the tasks page applies optimistically:
  the `map` that flips `completed` on the records with a given id, and the
  `filter` that drops the records with a given id.
 */
module TaskList {
  import opened JsCore

  /** A task as the server returns it; `id` and `createdAt` are assigned by the server. */
  datatype Task = Task(id: int, title: string, description: Option<string>, completed: bool, createdAt: string)

  /** `tasks.map(t => t.id === id ? { ...t, completed: !t.completed } : t)` */
  function ToggleById(tasks: seq<Task>, id: int): (r: seq<Task>)
    ensures |r| == |tasks|
    ensures forall i :: 0 <= i < |tasks| && tasks[i].id != id ==> r[i] == tasks[i]
    ensures forall i :: 0 <= i < |tasks| && tasks[i].id == id ==>
              && r[i].completed == !tasks[i].completed
              && r[i].id == tasks[i].id && r[i].title == tasks[i].title
              && r[i].description == tasks[i].description && r[i].createdAt == tasks[i].createdAt
  {
    if |tasks| == 0 then []
    else
      var t := tasks[0];
      [if t.id == id then t.(completed := !t.completed) else t] + ToggleById(tasks[1..], id)
  }

  /** Toggling the same id twice gives back the list. */
  lemma ToggleTwice(tasks: seq<Task>, id: int)
    ensures ToggleById(ToggleById(tasks, id), id) == tasks
  {
  }

  /** Toggling an id no record carries leaves the list as it was. */
  lemma ToggleAbsent(tasks: seq<Task>, id: int)
    requires forall i :: 0 <= i < |tasks| ==> tasks[i].id != id
    ensures ToggleById(tasks, id) == tasks
  {
  }

  /** `tasks.filter(t => t.id !== id)` */
  function RemoveById(tasks: seq<Task>, id: int): (r: seq<Task>)
    ensures forall t :: t in r <==> t in tasks && t.id != id
    ensures forall t :: multiset(r)[t] == if t.id == id then 0 else multiset(tasks)[t]
    ensures |r| <= |tasks|
  {
    if |tasks| == 0 then []
    else
      var rest := RemoveById(tasks[1..], id);
      assert tasks == [tasks[0]] + tasks[1..];
      if tasks[0].id == id then rest else [tasks[0]] + rest
  }

  /** `sub` is `tasks` with some elements left out and the rest in their original order. */
  ghost predicate IsSubsequence(sub: seq<Task>, tasks: seq<Task>)
    decreases |tasks|
  {
    if |sub| == 0 then true
    else if |tasks| == 0 then false
    else (sub[0] == tasks[0] && IsSubsequence(sub[1..], tasks[1..])) || IsSubsequence(sub, tasks[1..])
  }

  lemma {:induction false} RemoveByIdKeepsOrder(tasks: seq<Task>, id: int)
    ensures IsSubsequence(RemoveById(tasks, id), tasks)
  {
    if |tasks| > 0 {
      RemoveByIdKeepsOrder(tasks[1..], id);
    }
  }

  lemma {:induction false} SubsequenceMultiset(sub: seq<Task>, tasks: seq<Task>)
    requires IsSubsequence(sub, tasks)
    ensures multiset(sub) <= multiset(tasks)
    decreases |tasks|
  {
    if |sub| > 0 {
      assert tasks == [tasks[0]] + tasks[1..];
      if sub[0] == tasks[0] && IsSubsequence(sub[1..], tasks[1..]) {
        SubsequenceMultiset(sub[1..], tasks[1..]);
        assert sub == [sub[0]] + sub[1..];
      } else {
        SubsequenceMultiset(sub, tasks[1..]);
      }
    }
  }

  /** The filter is the only order-preserving selection that keeps every record with a
      different id (as often as it occurs) and no record with this id: `RemoveById` is
      pinned down by these two properties alone. */
  lemma {:induction false} RemoveByIdUnique(tasks: seq<Task>, id: int, sub: seq<Task>)
    requires IsSubsequence(sub, tasks)
    requires forall t :: multiset(sub)[t] == if t.id == id then 0 else multiset(tasks)[t]
    ensures sub == RemoveById(tasks, id)
    decreases |tasks|
  {
    if |tasks| == 0 {
      assert |sub| == 0;
    } else {
      var t := tasks[0];
      var rest := tasks[1..];
      assert tasks == [t] + rest;
      if t.id == id {
        assert IsSubsequence(sub, rest) by {
          if |sub| > 0 {
            assert multiset(sub)[sub[0]] > 0;
          }
        }
        RemoveByIdUnique(rest, id, sub);
      } else {
        assert multiset(sub)[t] == multiset(rest)[t] + 1;
        if |sub| > 0 && sub[0] == t && IsSubsequence(sub[1..], rest) {
          assert sub == [t] + sub[1..];
          forall u ensures multiset(sub[1..])[u] == if u.id == id then 0 else multiset(rest)[u] {
            assert multiset(sub)[u] == multiset(sub[1..])[u] + (if u == t then 1 else 0);
          }
          RemoveByIdUnique(rest, id, sub[1..]);
        } else {
          assert IsSubsequence(sub, rest);
          SubsequenceMultiset(sub, rest);
          assert false;
        }
      }
    }
  }

  /** Removing an id no record carries leaves the list as it was. */
  lemma {:induction false} RemoveAbsent(tasks: seq<Task>, id: int)
    requires forall i :: 0 <= i < |tasks| ==> tasks[i].id != id
    ensures RemoveById(tasks, id) == tasks
  {
    if |tasks| > 0 {
      RemoveAbsent(tasks[1..], id);
    }
  }
}
