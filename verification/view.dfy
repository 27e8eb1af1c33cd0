/** What the `App` component renders from its state (src/App.jsx, the JSX
    return): the error banner, the choice between the loading message, the
    empty message and the rows, and the stats line. Markup and styling are
    not modelled, only which content is shown. */
module View {
  import opened Wrappers
  import opened Seqs
  import opened Todos
  import opened App

  /** One rendered row: keyed by the id, a checkbox showing `done`, and the
      text, whose element carries the `done` class when the todo is done. */
  datatype Row = Row(key: Id, text: string, checked: bool, doneClass: bool)

  /** The three things the list area can show. */
  datatype ListView = LoadingMessage | EmptyMessage | Rows(rows: seq<Row>)

  /** The row rendered for one todo. */
  function RowOf(t: Todo): Row {
    Row(t.id, t.text, t.done, t.done)
  }

  /** The request a row's checkbox sends when clicked. */
  function RowToggleRequest(row: Row): Request {
    ToggleRequest(row.key, row.checked)
  }

  /** The request a row's Delete button sends when clicked. */
  function RowDeleteRequest(row: Row): Request {
    DeleteRequest(row.key)
  }

  /** The list area: while loading, the loading message whatever the list
      holds; otherwise the empty message for an empty list; otherwise exactly
      one row per todo, in list order. */
  function ListArea(s: State): (v: ListView)
    ensures s.loading ==> v == LoadingMessage
    ensures !s.loading && s.todos == [] ==> v == EmptyMessage
    ensures !s.loading && s.todos != [] ==>
              && v.Rows?
              && |v.rows| == |s.todos|
              && forall i :: 0 <= i < |s.todos| ==>
                   v.rows[i].key == s.todos[i].id && v.rows[i].text == s.todos[i].text
                   && v.rows[i].checked == s.todos[i].done && v.rows[i].doneClass == s.todos[i].done
  {
    if s.loading then LoadingMessage
    else if |s.todos| == 0 then EmptyMessage
    else Rows(Map(s.todos, RowOf))
  }

  /** The error banner `{error && ...}`: shown exactly when the message is not
      the empty string, and then it shows that message. */
  function Banner(s: State): (b: Option<string>)
    ensures b.Some? <==> s.error != ""
    ensures b.Some? ==> b.value == s.error
  {
    if s.error == "" then None else Some(s.error)
  }

  /** The three numbers of the stats line. */
  datatype Stats = Stats(total: nat, done: nat, pending: nat)

  /** The number of finished todos, `todos.filter(t => t.done).length`. */
  function DoneCount(todos: seq<Todo>): nat {
    |Filter(todos, (t: Todo) => t.done)|
  }

  /** The number of open todos, `todos.filter(t => !t.done).length`. */
  function PendingCount(todos: seq<Todo>): nat {
    |Filter(todos, (t: Todo) => !t.done)|
  }

  /** The stats line: finished and open todos together make up the total, so
      neither exceeds it. */
  function StatsOf(todos: seq<Todo>): (st: Stats)
    ensures st.total == |todos|
    ensures st.done + st.pending == st.total
    ensures st.done <= st.total && st.pending <= st.total
  {
    FilterPartition(todos, (t: Todo) => t.done, (t: Todo) => !t.done);
    Stats(|todos|, DoneCount(todos), PendingCount(todos))
  }

  /** The stats of two lists placed one after the other are the sums of the
      stats of each. */
  lemma StatsOfAppend(a: seq<Todo>, b: seq<Todo>)
    ensures StatsOf(a + b).done == StatsOf(a).done + StatsOf(b).done
    ensures StatsOf(a + b).pending == StatsOf(a).pending + StatsOf(b).pending
  {
    FilterAppend(a, b, (t: Todo) => t.done);
    FilterAppend(a, b, (t: Todo) => !t.done);
  }

  /** The stats of a one-element list. */
  lemma StatsOfOne(t: Todo)
    ensures StatsOf([t]) == if t.done then Stats(1, 1, 0) else Stats(1, 0, 1)
  {
    assert [t][1..] == [];
  }

  /** A successful add grows the total by one and the finished or the open
      count by one, according to the record the store returned. */
  lemma StatsAfterAdd(s: State, record: Todo)
    requires !JsText.IsBlank(s.input)
    ensures var before, after := StatsOf(s.todos), StatsOf(Add(s, Success(record)).todos);
            && after.total == before.total + 1
            && after.done == before.done + (if record.done then 1 else 0)
            && after.pending == before.pending + (if record.done then 0 else 1)
  {
    StatsOfAppend([record], s.todos);
    StatsOfOne(record);
  }

  /** Taking one entry out of the middle of a list lowers the total and the
      entry's own count by one. */
  lemma StatsWithoutOne(todos: seq<Todo>, i: nat)
    requires i < |todos|
    ensures var before, after := StatsOf(todos), StatsOf(todos[..i] + todos[i + 1..]);
            && after.total == before.total - 1
            && after.done == before.done - (if todos[i].done then 1 else 0)
            && after.pending == before.pending - (if todos[i].done then 0 else 1)
  {
    var front, x, back := todos[..i], todos[i], todos[i + 1..];
    assert todos == front + ([x] + back);
    StatsOfAppend(front, [x] + back);
    StatsOfAppend([x], back);
    StatsOfAppend(front, back);
    StatsOfOne(x);
  }

  /** With unique ids, a successful delete of the entry at index `i` lowers
      the total by one and the count that entry belonged to by one. */
  lemma StatsAfterDelete(s: State, i: nat)
    requires UniqueIds(s.todos) && i < |s.todos|
    ensures var gone := s.todos[i];
            var before, after := StatsOf(s.todos), StatsOf(Delete(s, gone.id, Success(())).todos);
            && after.total == before.total - 1
            && after.done == before.done - (if gone.done then 1 else 0)
            && after.pending == before.pending - (if gone.done then 0 else 1)
  {
    DeletePresentRemovesOne(s, i);
    StatsWithoutOne(s.todos, i);
  }

  /** A fetch in flight shows the loading message whatever the list holds,
      and a settled fetch never does. */
  lemma LoadingMessageOnlyWhileFetching(s: State, o: Outcome<seq<Todo>>)
    ensures ListArea(FetchBegin(s)) == LoadingMessage
    ensures ListArea(Fetch(s, o)) != LoadingMessage
    ensures o.Success? ==> (ListArea(Fetch(s, o)) == EmptyMessage <==> o.payload == [])
  {
  }

  /** Every row's checkbox asks the store for the opposite of the flag the row
      shows, for the id of the todo it was rendered from. */
  lemma RowCheckboxRequestsTheFlip(s: State, i: nat)
    requires !s.loading && i < |s.todos|
    ensures ListArea(s).Rows?
    ensures RowToggleRequest(ListArea(s).rows[i]) == HttpPut(s.todos[i].id, !s.todos[i].done)
  {
  }

  /** Every row's Delete button asks the store to delete the todo the row was
      rendered from. */
  lemma RowDeleteButtonRequestsItsTodo(s: State, i: nat)
    requires !s.loading && i < |s.todos|
    ensures ListArea(s).Rows?
    ensures RowDeleteRequest(ListArea(s).rows[i]) == HttpDelete(s.todos[i].id)
  {
  }

  /** A settled action shows a banner exactly when it failed (a blank add
      settles nothing and leaves the banner as it was). */
  lemma BannerReflectsLastOutcome(s: State, id: Id, o: Outcome<Todo>, d: Outcome<()>)
    ensures Banner(Toggle(s, id, o)) == if o.Success? then None else Some(UpdateFailedMessage)
    ensures Banner(Delete(s, id, d)) == if d.Success? then None else Some(DeleteFailedMessage)
    ensures !JsText.IsBlank(s.input) ==>
              Banner(Add(s, o)) == if o.Success? then None else Some(AddFailedMessage)
    ensures JsText.IsBlank(s.input) ==> Banner(Add(s, o)) == Banner(s)
  {
  }

  /** The records of the example session below. */
  const Buy := Todo("1", "buy milk", false)
  const Walk := Todo("2", "walk dog", false)
  const Bought := Todo("1", "buy milk", true)

  /** Example session, first part. The list is fetched only by the mount
      effect: before it settles the list area is empty; if it fails, the list
      stays empty and the fetch message shows; a later load is a remount
      (page reload), which starts again from `Init` and here loads one open
      todo. */
  lemma SessionLoad()
    ensures ListArea(Init) == EmptyMessage
    ensures var s1 := Fetch(Init, Failure);
            s1.todos == [] && Banner(s1) == Some(FetchFailedMessage)
    ensures Fetch(Init, Success([Buy])) == State([Buy], "", false, "")
    ensures StatsOf([Buy]) == Stats(1, 0, 1)
  {
    StatsOfOne(Buy);
  }

  /** Example session, second part: typing "walk dog" and adding it, with the
      store answering the new record, puts it in front of the loaded todo. */
  lemma SessionAdd()
    ensures Add(Edit(State([Buy], "", false, ""), "walk dog"), Success(Walk))
            == State([Walk, Buy], "", false, "")
    ensures StatsOf([Walk, Buy]) == Stats(2, 0, 2)
  {
    JsText.NonSpaceMeansNotBlank("walk dog", 0);
    StatsAfterAdd(Edit(State([Buy], "", false, ""), "walk dog"), Walk);
  }

  /** Example session, third part: toggling id "1", with the store honouring
      the PUT, finishes that todo and leaves the other alone. */
  lemma SessionToggle()
    ensures Honours(Buy, ToggleRequest(Buy.id, Buy.done), Bought)
    ensures Toggle(State([Walk, Buy], "", false, ""), "1", Success(Bought))
            == State([Walk, Bought], "", false, "")
    ensures StatsOf([Walk, Bought]) == Stats(2, 1, 1)
  {
    var after := Toggle(State([Walk, Buy], "", false, ""), "1", Success(Bought));
    assert after.todos == [Walk, Bought];
    StatsOfAppend([Walk], [Bought]);
    StatsOfOne(Walk);
    StatsOfOne(Bought);
  }

  /** Example session, last part: deleting id "2" leaves only the finished
      todo. */
  lemma SessionDelete()
    ensures Delete(State([Walk, Bought], "", false, ""), "2", Success(()))
            == State([Bought], "", false, "")
    ensures StatsOf([Bought]) == Stats(1, 1, 0)
  {
    var before := State([Walk, Bought], "", false, "");
    assert UniqueIds(before.todos);
    DeletePresentRemovesOne(before, 0);
    assert before.todos[..0] + before.todos[1..] == [Bought];
    StatsOfOne(Bought);
  }
}
