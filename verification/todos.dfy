/** The client's one entity, a todo record as the store returns it, and the
    two list updates the client applies to its local copy of the list. */
module Todos {
  import Seqs

  /** The store-assigned identifier (`_id`); ids are compared with `===`. */
  type Id = string

  /** One todo record `{_id, text, done}`. */
  datatype Todo = Todo(id: Id, text: string, done: bool)

  /** Some entry of `todos` carries the identifier `id`. */
  predicate HasId(todos: seq<Todo>, id: Id) {
    exists i :: 0 <= i < |todos| && todos[i].id == id
  }

  /** No two entries of `todos` share an identifier. The client never checks
      this; it holds only as far as the store hands out distinct ids. */
  predicate UniqueIds(todos: seq<Todo>) {
    forall i, j :: 0 <= i < j < |todos| ==> todos[i].id != todos[j].id
  }

  /** `todos.map(todo => todo._id === id ? record : todo)`: every entry whose
      id is `id` is replaced by `record`, every other entry stays where it
      was, and the length does not change. */
  function ReplaceById(todos: seq<Todo>, id: Id, record: Todo): (r: seq<Todo>)
    ensures |r| == |todos|
    ensures forall i :: 0 <= i < |todos| ==>
              r[i] == if todos[i].id == id then record else todos[i]
  {
    Seqs.Map(todos, (t: Todo) => if t.id == id then record else t)
  }

  /** `todos.filter(todo => todo._id !== id)`: the order-preserving
      subsequence of the entries whose id is not `id`, each kept as often as it
      occurs; every entry with that id is gone. */
  function RemoveById(todos: seq<Todo>, id: Id): (r: seq<Todo>)
    ensures Seqs.IsSubsequence(r, todos)
    ensures forall t :: t in r <==> t in todos && t.id != id
    ensures forall t :: multiset(r)[t] == if t.id != id then multiset(todos)[t] else 0
    ensures !HasId(r, id)
  {
    Seqs.FilterCounts(todos, (t: Todo) => t.id != id);
    Seqs.FilterIsSubsequence(todos, (t: Todo) => t.id != id);
    var r := Seqs.Filter(todos, (t: Todo) => t.id != id);
    assert forall i :: 0 <= i < |r| ==> r[i] in r;
    r
  }

  /** Replacing an identifier that does not occur changes nothing. */
  lemma ReplaceAbsentIsIdentity(todos: seq<Todo>, id: Id, record: Todo)
    requires !HasId(todos, id)
    ensures ReplaceById(todos, id, record) == todos
  {
    var r := ReplaceById(todos, id, record);
    assert forall i :: 0 <= i < |todos| ==> r[i] == todos[i];
  }

  /** Removing an identifier that does not occur changes nothing. */
  lemma RemoveAbsentIsIdentity(todos: seq<Todo>, id: Id)
    requires !HasId(todos, id)
    ensures RemoveById(todos, id) == todos
  {
    Seqs.FilterKeepsAll(todos, (t: Todo) => t.id != id);
  }

  /** Removal distributes over concatenation, so the survivors keep their
      relative order. */
  lemma RemoveAppend(a: seq<Todo>, b: seq<Todo>, id: Id)
    ensures RemoveById(a + b, id) == RemoveById(a, id) + RemoveById(b, id)
  {
    Seqs.FilterAppend(a, b, (t: Todo) => t.id != id);
  }

  /** Removal around a single matching entry leaves the entries on either side,
      provided neither side mentions the identifier. */
  lemma RemoveAroundOne(front: seq<Todo>, x: Todo, back: seq<Todo>, id: Id)
    requires !HasId(front, id) && !HasId(back, id) && x.id == id
    ensures RemoveById(front + [x] + back, id) == front + back
  {
    Seqs.FilterAroundOne(front, x, back, (t: Todo) => t.id != id);
  }

  /** When ids are unique and `id` sits at index `i`, removal takes out exactly
      that one entry and the list shrinks by one. */
  lemma RemoveUniqueDropsOne(todos: seq<Todo>, id: Id, i: nat)
    requires UniqueIds(todos)
    requires i < |todos| && todos[i].id == id
    ensures RemoveById(todos, id) == todos[..i] + todos[i + 1..]
    ensures |RemoveById(todos, id)| == |todos| - 1
  {
    var front, back := todos[..i], todos[i + 1..];
    assert todos == front + [todos[i]] + back;
    assert !HasId(front, id) by {
      forall k | 0 <= k < |front| ensures front[k].id != id {
        assert front[k] == todos[k];
      }
    }
    assert !HasId(back, id) by {
      forall k | 0 <= k < |back| ensures back[k].id != id {
        assert back[k] == todos[i + 1 + k];
      }
    }
    RemoveAroundOne(front, todos[i], back, id);
  }

  /** Removing entries cannot create a clash of identifiers. */
  lemma {:induction false} RemoveKeepsIdsUnique(todos: seq<Todo>, id: Id)
    requires UniqueIds(todos)
    ensures UniqueIds(RemoveById(todos, id))
  {
    if todos != [] {
      var x, rest := todos[0], todos[1..];
      assert todos == [x] + rest;
      UniqueIdsSplit(x, rest);
      RemoveKeepsIdsUnique(rest, id);
      var tail := RemoveById(rest, id);
      RemoveAppend([x], rest, id);
      if x.id != id {
        assert RemoveById([x], id) == [x];
        UniqueIdsPrepend(x, tail);
      } else {
        assert RemoveById([x], id) == [];
      }
    }
  }

  /** A list with unique ids is its head followed by a tail with unique ids
      none of which is the head's id. */
  lemma UniqueIdsSplit(x: Todo, rest: seq<Todo>)
    requires UniqueIds([x] + rest)
    ensures UniqueIds(rest)
    ensures forall t :: t in rest ==> t.id != x.id
  {
    var todos := [x] + rest;
    forall i, j | 0 <= i < j < |rest|
      ensures rest[i].id != rest[j].id
    {
      assert rest[i] == todos[i + 1] && rest[j] == todos[j + 1];
    }
    forall t | t in rest
      ensures t.id != x.id
    {
      var k :| 0 <= k < |rest| && rest[k] == t;
      assert todos[0] == x && todos[k + 1] == t;
    }
  }

  /** Putting a record in front of a list with unique ids keeps them unique
      when none of the list's records has the new record's id. */
  lemma UniqueIdsPrepend(x: Todo, tail: seq<Todo>)
    requires UniqueIds(tail)
    requires forall t :: t in tail ==> t.id != x.id
    ensures UniqueIds([x] + tail)
  {
    var r := [x] + tail;
    forall i, j | 0 <= i < j < |r|
      ensures r[i].id != r[j].id
    {
      assert r[j] == tail[j - 1];
      if i == 0 {
        assert tail[j - 1] in tail;
      } else {
        assert r[i] == tail[i - 1];
      }
    }
  }

  /** Installing a record under its own identifier keeps identifiers unique
      and does not move any identifier. */
  lemma ReplaceKeepsIdsUnique(todos: seq<Todo>, id: Id, record: Todo)
    requires UniqueIds(todos) && record.id == id
    ensures UniqueIds(ReplaceById(todos, id, record))
    ensures forall i :: 0 <= i < |todos| ==> ReplaceById(todos, id, record)[i].id == todos[i].id
  {
  }
}
