# Task-list client view state, in Dafny

A model of the `App` component of a single-page todo client (`src/App.jsx`).
The component holds four pieces of state: the list of todos, each `{_id, text, done}`,
the text box contents, a `loading` flag and an error banner message. Typing into the text
box changes only the text box (`App.Edit`). Four actions talk to the store: fetch the
list, add a todo, toggle a todo, and delete a todo. Each issues one HTTP request and then
settles as a success, carrying the response body, or as a failure. The exception is an
add with a blank text box, which returns before sending anything.

Here each action is a pure function `(State, Outcome) -> State`, where
`Outcome<T> = Success(payload) | Failure`. The HTTP exchange itself is abstract: the
outcome is a parameter, so nothing depends on the network or on the backend's
behaviour. The rendered content is modelled too: the banner, the choice between the
loading message, the empty message and the rows, and the stats counts.

Modules:
- `Wrappers` (wrappers.dfy): `Option` and the two-way `Outcome` of an HTTP exchange.
- `JsText` (jstext.dfy): ECMAScript `String.prototype.trim`, used by the add guard.
- `Seqs` (seqs.dfy): `Array.prototype.filter` and `map` as `Filter` and `Map`, with
  their facts: concatenation, partition, multiplicities and subsequence.
- `Todos` (todos.dfy): the todo record, replace-by-id (the toggle update) and
  remove-by-id (the delete update).
- `App` (app.dfy): the state, the four actions, the requests they send, and lemmas
  over sequences of actions.
- `View` (view.dfy): the list area, the banner, the stats, and a worked example
  session.

Where the code does something other than an idealised description of it, the model
follows the code:
- The add request sends the text box contents untrimmed. Only the emptiness guard
  trims (`App.AddRequest`).
- A successful delete removes every entry with the id, not only the first. It
  removes exactly one entry when the id occurs once, for instance when ids are unique
  (`App.DeletePresentRemovesOne`).
- A successful toggle installs whatever record the store returns. Toggling twice
  restores the list only if the store honours both PUT bodies
  (`App.DoubleToggleWithHonestStore`, `App.ToggleTrustsTheStore`).
- A fetch does not clear the banner when it starts; only a success clears it.
- The list is fetched only by the mount effect; there is no retry. A later load is a
  remount, which starts again from `Init`.

## Model

| member | source | states |
|---|---|---|
| JsText.LeadingSpaces | src/App.jsx:33 | the number of white-space characters `s` starts with: all of them are white space and the next character, if any, is not |
| JsText.TrailingSpaces | src/App.jsx:33 | the number of white-space characters `s` ends with: all of them are white space and the character before them, if any, is not |
| JsText.TrimStart | src/App.jsx:33 | the result is a suffix of the input, everything cut off is white space, and the result does not start with white space |
| JsText.TrimEnd | src/App.jsx:33 | the result is a prefix of the input, everything cut off is white space, and the result does not end with white space |
| JsText.Trim | src/App.jsx:33 | `trim()` yields the piece of the input starting after its leading white space, with no white space at either end, and everything cut off on either side is white space |
| JsText.BlankIffAllWhitespace | src/App.jsx:33 | `s.trim() === ''` holds exactly when every character of `s` is ECMAScript white space or a line terminator, the empty string included |
| JsText.NonSpaceMeansNotBlank | src/App.jsx:33 | a string with one character that is not white space passes the add guard |
| Seqs.Filter | src/App.jsx:62 | `filter` never lengthens, and an element is in the result iff it is in the input and satisfies the predicate |
| Seqs.Map | src/App.jsx:49-51 | `map` keeps the length, and position i holds f applied to input position i |
| Seqs.FilterIsSubsequence | src/App.jsx:62 | `filter` only deletes elements and never reorders the survivors |
| Seqs.FilterCounts | src/App.jsx:62 | every element satisfying the predicate keeps its multiplicity, and every other element occurs zero times |
| Seqs.FilterAppend | src/App.jsx:62 | filtering commutes with concatenation, so survivors keep their relative order |
| Seqs.FilterKeepsAll | src/App.jsx:62 | a filter whose predicate holds of every element returns the input unchanged |
| Seqs.FilterPartition | src/App.jsx:129 | filtering by a predicate and by its negation splits the multiset of the input, so the two lengths add up to the input length |
| Todos.ReplaceById | src/App.jsx:49-51 | the toggle update keeps the length; each entry with the id becomes the record and every other entry stays at its index |
| Todos.RemoveById | src/App.jsx:62 | the delete update is a subsequence of the list, holds exactly the entries with another id at their original multiplicities, and holds no entry with the id |
| Todos.ReplaceAbsentIsIdentity | src/App.jsx:49-51 | replacing an id that is not in the list changes nothing |
| Todos.RemoveAbsentIsIdentity | src/App.jsx:62 | removing an id that is not in the list changes nothing |
| Todos.RemoveAppend | src/App.jsx:62 | removal distributes over concatenation |
| Todos.RemoveUniqueDropsOne | src/App.jsx:62 | with unique ids, removing the id at index i yields the list without index i, one shorter |
| Todos.RemoveKeepsIdsUnique | src/App.jsx:62 | removal preserves uniqueness of ids |
| Todos.ReplaceKeepsIdsUnique | src/App.jsx:49-51 | installing a record under its own id preserves uniqueness and moves no id |
| App.FetchBegin | src/App.jsx:18-20 | before the GET settles, `loading` is raised and nothing else changes |
| App.FetchEnd | src/App.jsx:21-29 | once the GET settles, `loading` is false; a success installs the payload wholesale and clears the banner; a failure keeps the list and shows the fetch message; the text box is untouched |
| App.Fetch | src/App.jsx:18-30 | a whole fetch ends with `loading` false, the text box untouched, and the list and banner set by the outcome as above |
| App.Edit | src/App.jsx:88 | typing sets the text box to the typed value and changes no other state |
| App.AddRequest | src/App.jsx:33-36 | no request is sent iff the text box is all white space; otherwise the POST body is the text box contents as typed, untrimmed |
| App.Add | src/App.jsx:32-44 | a blank text box leaves the state unchanged whatever the outcome; a success puts the record in front of the old list, one longer, and clears the text box and banner; a failure keeps the list and text and shows the add message; `loading` is never touched |
| App.Toggle | src/App.jsx:46-57 | a success keeps the length, turns every entry with the id into the returned record, leaves every other entry at its index and clears the banner; a failure keeps the list and shows the update message; text box and `loading` untouched |
| App.Delete | src/App.jsx:59-68 | a success leaves exactly the order-preserving subsequence of entries with another id and clears the banner; a failure keeps the list and shows the delete message; text box and `loading` untouched |
| App.FailuresOnlySetTheBanner | src/App.jsx:40-66 | a failed add (of non-blank text), toggle or delete differs from the previous state only in the banner message |
| App.SuccessfulAddsPrepend | src/App.jsx:36-38 | after n successful adds of non-blank text, the list is the n returned records, newest first, followed by the old list |
| App.DoubleToggleWithHonestStore | src/App.jsx:48-51 | with unique ids and a store that applies each PUT body, one toggle flips the row's flag and a second restores the list |
| App.ToggleTrustsTheStore | src/App.jsx:49-51 | against a store that echoes the stored record, a toggle leaves the flag as it was; such an answer does not honour the PUT |
| App.SuccessesKeepIdsUnique | src/App.jsx:36-63 | adding a record with a fresh id, installing a record under its own id, and deleting all preserve unique ids |
| App.AbsentIdLeavesListAlone | src/App.jsx:48-63 | toggling or deleting an id that is not in the list leaves the list unchanged |
| App.DeletePresentRemovesOne | src/App.jsx:61-63 | with unique ids, deleting the id at index i removes exactly that entry and keeps the rest in order |
| View.ListArea | src/App.jsx:99-125 | while loading, the loading message is shown whatever the list holds; otherwise an empty list shows the empty message; otherwise one row per todo, in list order, showing its id, text, checkbox flag and `done` class |
| View.Banner | src/App.jsx:82 | a banner is shown exactly when the error message is non-empty, and it shows that message |
| View.StatsOf | src/App.jsx:129 | done count + pending count = total = list length, and each count is at most the total |
| View.StatsOfAppend | src/App.jsx:129 | the done and pending counts of a concatenation are the sums of the parts' counts |
| View.StatsOfOne | src/App.jsx:129 | a one-element list counts once, as done or pending according to its flag |
| View.StatsAfterAdd | src/App.jsx:129 | a successful add raises the total by one, and raises the done or pending count by one according to the returned record |
| View.StatsWithoutOne | src/App.jsx:129 | taking the entry at index i out of a list lowers the total and that entry's own count by one |
| View.StatsAfterDelete | src/App.jsx:129 | with unique ids, deleting the entry at index i lowers the total and that entry's count by one |
| View.LoadingMessageOnlyWhileFetching | src/App.jsx:99-102 | a fetch in flight shows the loading message; a settled fetch never does; after a successful fetch the empty message shows iff the payload is empty |
| View.RowCheckboxRequestsTheFlip | src/App.jsx:107-110 | the row at index i sends a PUT for that todo's id, asking for the opposite of its flag |
| View.RowDeleteButtonRequestsItsTodo | src/App.jsx:117-119 | the row at index i's Delete button sends a DELETE for that todo's id |
| View.BannerReflectsLastOutcome | src/App.jsx:82 | after a settled toggle, delete or non-blank add, a banner shows iff the action failed, and it shows that action's message; a blank add leaves the banner as it was |
| View.SessionLoad | src/App.jsx:14-30 | example: on mount the list area shows the empty message; a failed mount fetch keeps the list empty and shows the fetch message; a successful mount fetch (after a remount) loads one open todo with stats 1/0/1 |
| View.SessionAdd | src/App.jsx:32-44 | example: adding "walk dog" puts the new record in front; stats become 2/0/2 |
| View.SessionToggle | src/App.jsx:46-57 | example: toggling id "1", with the store honouring the PUT, finishes that todo; stats become 2/1/1 |
| View.SessionDelete | src/App.jsx:59-68 | example: deleting id "2" leaves only the finished todo; stats become 1/1/0 |

## Left out

- The HTTP calls (src/App.jsx:21, 36, 48, 61) and the backend's behaviour. Each exchange is an abstract `Outcome` parameter, and the request each action would send is a plain value (`App.Request`). The store is an external collaborator.
- The shape of response bodies. The model types each payload as a list of todos or as a single todo. A malformed body that the component would store, or crash on, is not modelled.
- `console.error` logging: it is diagnostic output only.
- React hooks, asynchronous interleaving, and the stale `todos` captured by each handler. When requests overlap, that closure can lose updates. This is concurrency; the model applies actions one at a time to the current state. The mount effect is modelled as `Init` followed by `Fetch`.
- `API_URL` construction from the environment (src/App.jsx:5). It is configuration. Its `||` fallback can never apply, because the template literal is never empty.
- JSX markup, CSS classes, the title texts, and `handleKeyPress` (src/App.jsx:70-74). Enter simply calls the add handler, which is `App.Add`.
- The decimal formatting of the stats line. Only the three numbers are modelled.
- App.ToggleRequest, App.DeleteRequest: these only build the request value and carry no contract. What a row sends through them is stated by `View.RowCheckboxRequestsTheFlip` and `View.RowDeleteButtonRequestsItsTodo`. `App.DoubleToggleWithHonestStore` also uses `ToggleRequest`.
- Text encoding: a Dafny `string` is a sequence of Unicode scalar values, while a JavaScript string is a sequence of UTF-16 code units. This does not affect `trim`, because every character it strips is a single code unit outside the surrogate range.
