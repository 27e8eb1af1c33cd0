/** The view state of the `App` component and the four actions that change it
    (src/App.jsx). Each action is modelled from the moment its HTTP request
    has settled: it takes the current state and the request's outcome and
    yields the next state. Actions are applied one at a time. */
module App {
  import opened Wrappers
  import opened JsText
  import opened Seqs
  import opened Todos

  /** The component's four pieces of React state. */
  datatype State = State(
    todos: seq<Todo>,   // the local copy of the list, in display order
    input: string,      // `inputValue`, the text box contents
    loading: bool,      // true while the list fetch is in flight
    error: string       // the banner message, '' when there is none
  )

  /** The state on mount, before the fetch effect runs. */
  const Init := State([], "", false, "")

  const FetchFailedMessage := "Failed to fetch todos. Make sure backend is running!"
  const AddFailedMessage := "Failed to add todo"
  const UpdateFailedMessage := "Failed to update todo"
  const DeleteFailedMessage := "Failed to delete todo"

  /** The requests the client sends to the collection `${API_URL}`. */
  datatype Request =
    | HttpGet                          // GET the whole list
    | HttpPost(text: string)           // POST `{ text }`
    | HttpPut(id: Id, done: bool)      // PUT `{ done }` to `/${id}`
    | HttpDelete(id: Id)               // DELETE `/${id}`

  /** The first half of `fetchTodos`, before the `await`: only `loading` is
      raised, so the list view switches to the loading message. */
  function FetchBegin(s: State): (s': State)
    ensures s'.loading
    ensures s'.todos == s.todos && s'.input == s.input && s'.error == s.error
  {
    s.(loading := true)
  }

  /** The second half of `fetchTodos`, once the GET has settled: a success
      installs the returned list wholesale and clears the banner, a failure
      keeps the list and shows the fetch message, and the `finally` block
      lowers `loading` either way. The text box is never touched. */
  function FetchEnd(s: State, o: Outcome<seq<Todo>>): (s': State)
    ensures !s'.loading
    ensures s'.input == s.input
    ensures o.Success? ==> s'.todos == o.payload && s'.error == ""
    ensures o.Failure? ==> s'.todos == s.todos && s'.error == FetchFailedMessage
  {
    var settled :=
      match o
      case Success(list) => s.(todos := list, error := "")
      case Failure => s.(error := FetchFailedMessage);
    settled.(loading := false)
  }

  /** The whole of `fetchTodos` applied to a state. */
  function Fetch(s: State, o: Outcome<seq<Todo>>): (s': State)
    ensures !s'.loading && s'.input == s.input
    ensures o.Success? ==> s'.todos == o.payload && s'.error == ""
    ensures o.Failure? ==> s'.todos == s.todos && s'.error == FetchFailedMessage
  {
    FetchEnd(FetchBegin(s), o)
  }

  /** The text box's `onChange`: only `inputValue` changes. */
  function Edit(s: State, text: string): (s': State)
    ensures s'.input == text
    ensures s'.todos == s.todos && s'.loading == s.loading && s'.error == s.error
  {
    s.(input := text)
  }

  /** The request `handleAddTodo` sends, if any. The guard trims, but the body
      carries the text box contents as typed, surrounding white space
      included. No request is sent exactly when the contents are all white
      space (or empty). */
  function AddRequest(s: State): (q: Option<Request>)
    ensures q.None? <==> forall i :: 0 <= i < |s.input| ==> IsJsWhitespace(s.input[i])
    ensures q.Some? ==> q.value == HttpPost(s.input)
  {
    BlankIffAllWhitespace(s.input);
    if IsBlank(s.input) then None else Some(HttpPost(s.input))
  }

  /** `handleAddTodo` once its POST has settled. A blank text box returns
      before any request, so the outcome is irrelevant and nothing changes.
      Otherwise a success puts the store's record in front of the old list
      and clears the text box and the banner; a failure keeps the list and the
      typed text and shows the add message. `loading` is never touched. */
  function Add(s: State, o: Outcome<Todo>): (s': State)
    ensures IsBlank(s.input) ==> s' == s
    ensures !IsBlank(s.input) && o.Success? ==>
              && |s'.todos| == |s.todos| + 1
              && s'.todos[0] == o.payload && s'.todos[1..] == s.todos
              && s'.input == "" && s'.error == ""
    ensures !IsBlank(s.input) && o.Failure? ==>
              s'.todos == s.todos && s'.input == s.input && s'.error == AddFailedMessage
    ensures s'.loading == s.loading
  {
    if IsBlank(s.input) then s
    else
      match o
      case Success(record) => s.(todos := [record] + s.todos, input := "", error := "")
      case Failure => s.(error := AddFailedMessage)
  }

  /** The request a row's checkbox sends: the flipped flag, for that id. */
  function ToggleRequest(id: Id, currentDone: bool): Request {
    HttpPut(id, !currentDone)
  }

  /** `handleToggleDone` once its PUT has settled. A success puts the store's
      record, whatever it holds, in place of every entry carrying `id`, leaves
      every other entry where it was, keeps the length and clears the banner;
      a failure keeps the list and shows the update message. Neither branch
      touches the text box or `loading`. */
  function Toggle(s: State, id: Id, o: Outcome<Todo>): (s': State)
    ensures s'.input == s.input && s'.loading == s.loading
    ensures |s'.todos| == |s.todos|
    ensures o.Success? ==>
              && s'.error == ""
              && forall i :: 0 <= i < |s.todos| ==>
                   s'.todos[i] == if s.todos[i].id == id then o.payload else s.todos[i]
    ensures o.Failure? ==> s'.todos == s.todos && s'.error == UpdateFailedMessage
  {
    match o
    case Success(record) => s.(todos := ReplaceById(s.todos, id, record), error := "")
    case Failure => s.(error := UpdateFailedMessage)
  }

  /** The request a row's delete button sends. */
  function DeleteRequest(id: Id): Request {
    HttpDelete(id)
  }

  /** `handleDelete` once its DELETE has settled (the response body is
      ignored). A success keeps, in order, exactly the entries whose id is not
      `id` (all entries with that id go, not just the first) and clears the
      banner; a failure keeps the list and shows the delete message. Neither
      branch touches the text box or `loading`. */
  function Delete(s: State, id: Id, o: Outcome<()>): (s': State)
    ensures s'.input == s.input && s'.loading == s.loading
    ensures o.Success? ==>
              && s'.error == ""
              && IsSubsequence(s'.todos, s.todos)
              && (forall t :: t in s'.todos <==> t in s.todos && t.id != id)
              && (forall t :: multiset(s'.todos)[t] == if t.id != id then multiset(s.todos)[t] else 0)
              && !HasId(s'.todos, id)
    ensures o.Failure? ==> s'.todos == s.todos && s'.error == DeleteFailedMessage
  {
    match o
    case Success(_) => s.(todos := RemoveById(s.todos, id), error := "")
    case Failure => s.(error := DeleteFailedMessage)
  }

  /** Whatever the outcome, a settled add, toggle or delete that failed leaves
      the list, the text box and `loading` as they were and replaces the banner
      with that action's message. */
  lemma FailuresOnlySetTheBanner(s: State, id: Id)
    ensures !IsBlank(s.input) ==> Add(s, Failure) == s.(error := AddFailedMessage)
    ensures Toggle(s, id, Failure) == s.(error := UpdateFailedMessage)
    ensures Delete(s, id, Failure) == s.(error := DeleteFailedMessage)
  {
  }

  /** The user typing `inputs[k]` and pressing Add, with the store answering
      `records[k]`, for k = 0, 1, ... in turn. */
  function TypeAndAddAll(s: State, inputs: seq<string>, records: seq<Todo>): State
    requires |inputs| == |records|
    decreases |inputs|
  {
    if inputs == [] then s
    else TypeAndAddAll(Add(Edit(s, inputs[0]), Success(records[0])), inputs[1..], records[1..])
  }

  /** After n successful adds of non-blank text the list has grown by n, and
      the newest record is in front: the new records sit before the old list
      in reverse order of creation. */
  lemma {:induction false} SuccessfulAddsPrepend(s: State, inputs: seq<string>, records: seq<Todo>)
    requires |inputs| == |records|
    requires forall k :: 0 <= k < |inputs| ==> !IsBlank(inputs[k])
    ensures TypeAndAddAll(s, inputs, records).todos == Reverse(records) + s.todos
    ensures |TypeAndAddAll(s, inputs, records).todos| == |s.todos| + |records|
    decreases |inputs|
  {
    if inputs != [] {
      var next := Add(Edit(s, inputs[0]), Success(records[0]));
      assert next.todos == [records[0]] + s.todos by {
        assert !IsBlank(Edit(s, inputs[0]).input);
      }
      assert forall k :: 0 <= k < |inputs[1..]| ==> inputs[1..][k] == inputs[k + 1];
      SuccessfulAddsPrepend(next, inputs[1..], records[1..]);
      ReverseUnfold(records, s.todos);
    }
  }

  /** A store that carries out a PUT faithfully: it answers with the stored
      record with only `done` changed to the requested value. */
  predicate Honours(stored: Todo, q: Request, answer: Todo) {
    q.HttpPut? && q.id == stored.id && answer == stored.(done := q.done)
  }

  /** The client does not itself flip anything: it installs whatever the
      store answers. Two successive toggles of a row restore the list only
      when the store honours both PUTs (and ids are unique). */
  lemma DoubleToggleWithHonestStore(s: State, i: nat, first: Todo, second: Todo)
    requires UniqueIds(s.todos) && i < |s.todos|
    requires Honours(s.todos[i], ToggleRequest(s.todos[i].id, s.todos[i].done), first)
    requires Honours(first, ToggleRequest(first.id, first.done), second)
    ensures Toggle(s, s.todos[i].id, Success(first)).todos[i].done == !s.todos[i].done
    ensures Toggle(Toggle(s, s.todos[i].id, Success(first)), first.id, Success(second)) == s.(error := "")
  {
    var id := s.todos[i].id;
    var s1 := Toggle(s, id, Success(first));
    var s2 := Toggle(s1, id, Success(second));
    assert second == s.todos[i];
    assert s2.todos == s.todos by {
      forall k | 0 <= k < |s.todos|
        ensures s2.todos[k] == s.todos[k]
      {
        if k != i {
          assert s.todos[k].id != id;
        }
      }
    }
  }

  /** Toggling cannot restore the flag by itself: against a store that
      ignores the PUT body and echoes the stored record, a toggle leaves the
      row's flag unchanged. */
  lemma ToggleTrustsTheStore(s: State, i: nat)
    requires i < |s.todos|
    ensures Toggle(s, s.todos[i].id, Success(s.todos[i])).todos[i].done == s.todos[i].done
    ensures !Honours(s.todos[i], ToggleRequest(s.todos[i].id, s.todos[i].done), s.todos[i])
  {
  }

  /** The successful actions keep identifiers unique as long as the store's
      records do not clash: a new record brings a fresh id, and an updated
      record keeps the id it was requested for. */
  lemma SuccessesKeepIdsUnique(s: State, id: Id, created: Todo, updated: Todo)
    requires UniqueIds(s.todos)
    ensures !HasId(s.todos, created.id) ==> UniqueIds(Add(s, Success(created)).todos)
    ensures updated.id == id ==> UniqueIds(Toggle(s, id, Success(updated)).todos)
    ensures UniqueIds(Delete(s, id, Success(())).todos)
  {
    if updated.id == id {
      ReplaceKeepsIdsUnique(s.todos, id, updated);
    }
    RemoveKeepsIdsUnique(s.todos, id);
  }

  /** Deleting or toggling an id the list does not hold leaves the list as it
      was (the request is sent regardless; the store decides). */
  lemma AbsentIdLeavesListAlone(s: State, id: Id, record: Todo)
    requires !HasId(s.todos, id)
    ensures Delete(s, id, Success(())).todos == s.todos
    ensures Toggle(s, id, Success(record)).todos == s.todos
  {
    RemoveAbsentIsIdentity(s.todos, id);
    ReplaceAbsentIsIdentity(s.todos, id, record);
  }

  /** With unique ids, deleting an id that is present takes out exactly that
      one entry; the others keep their order. */
  lemma DeletePresentRemovesOne(s: State, i: nat)
    requires UniqueIds(s.todos) && i < |s.todos|
    ensures Delete(s, s.todos[i].id, Success(())).todos == s.todos[..i] + s.todos[i + 1..]
  {
    RemoveUniqueDropsOne(s.todos, s.todos[i].id, i);
  }
}
