# todoflow core in Dafny

todoflow is a React Native to-do app backed by a document store. Its core is the per-user todo
repository `TodoService`. Every operation is scoped to the signed-in user's collection
`users/<uid>/todos`. The asynchronous operations answer a `{success, data | error}` result, and
`subscribeTodos` returns an unsubscribe handle or `null`. Whichever client API generation
(modular or namespaced) carries an operation out, its effect on the store is the same; the answer
is the same too, except that the modular `toggleTodoComplete` reports a different error message
when nobody is signed in.

The model has three parts:

- That repository: `getUserTodosRef`, `getTodos`, `subscribeTodos`, `addTodo`, `updateTodo`,
  `deleteTodo`, `toggleTodoComplete`.
- The screen logic around it. For `HomeScreen` this is the live subscription and its cleanup,
  plus the completed, pending and completion-rate statistics. For `TodoItem` it is the
  relative-time label of `formatDate` and the arguments its buttons pass on. For
  `AddEditTodoScreen` it is the prefill, the input length caps and `handleSave`.
- The two JavaScript string primitives these rely on: `String.prototype.trim` and the decimal
  text of a count in a template literal.

Modules:

- `Results` (`results.dfy`): `Option`, the repository's `Error`s and their `message` strings, and
  `Result`.
- `JsText` (`js_text.dfy`): `trim` over the ECMAScript WhiteSpace and LineTerminator code
  points, the decimal text of a natural number with its parser, and the UTF-16 length of a
  string.
- `TodoData` (`todo_data.dfy`): task documents, per-user collections, and the listing order of
  `orderBy('createdAt', 'desc')`. That order is defined by a let-such-that choice of the newest
  document and proved to be the unique sorted enumeration. It also holds the update patch.
- `TodoService` (`todo_service.dfy`):
  - pure step functions on a repository state `Repo`: store, current user, server clock, id
    supply, store outage, open listeners;
  - lemmas about those steps;
  - the class `TodoService`, which holds that state in fields. Each method is proved to follow
    its step function.
- `TodoItem` (`todo_item.dfy`): `formatDate` as a label datatype, and the checkbox and delete
  presses.
- `HomeScreen` (`home_screen.dfy`): the statistics and a class for the screen's state and its
  subscription callback.
- `AddEditTodoScreen` (`add_edit_todo_screen.dfy`): the `handleSave` step and a class for the
  form's state.

The environment is made explicit:

- The signed-in user is a field, set by `SetCurrentUser`.
- A store failure (network, permission, quota) is an `outage` field, set by `SetOutage`. While it
  is set, every request that reaches the store fails with its message.
- Server timestamps come from a clock that every write carrying the sentinel advances by one.
- Document ids come from a supply that is never reused.
- The current time of `formatDate` is a parameter.
- A listener delivery is an explicit `Deliver` call.

Where the code does not show the store's behaviour, the model assumes:

- Equal `createdAt` values are listed in descending document id order, as the store orders ties
  by document name in the direction of the last `orderBy`.
- Deleting a document that does not exist succeeds. Updating one fails with the store's
  not-found error.

Where the code paths differ, the model keeps the difference: the modular branch of
`toggleTodoComplete` reads `currentUser.uid` directly, so with nobody signed in it fails with the
runtime's TypeError message instead of `User not authenticated`.

## Model

| member | source | states |
|---|---|---|
| `Results.Message` | src/services/todoService.js:42 | the `message` handed back: `User not authenticated` from `getUserTodosRef`, the runtime TypeError for reading `uid` of `null`, the store's not-found text, or the store's own message unchanged |
| `JsText.Trim` | src/services/todoService.js:140-141 | the result is the infix of the input left after removing only trimmable code points at both ends; it is empty or starts and ends with a non-trimmable code point |
| `JsText.TrimIdempotent` | src/services/todoService.js:140-141 | trimming a trimmed string changes nothing |
| `JsText.BlankIffAllTrimmable` | src/screens/AddEditTodoScreen.js:35 | `title.trim()` is empty exactly when every code point of the title is whitespace or a line terminator |
| `JsText.Decimal` | src/components/TodoItem.js:23-25 | the decimal text of a count is a non-empty digit string with no leading zero except for 0 |
| `JsText.ParseDecimalInvertsDecimal` | src/components/TodoItem.js:23-25 | reading the digits back gives the count |
| `JsText.DecimalInjective` | src/components/TodoItem.js:23-25 | different counts render as different texts, and equal counts as equal ones |
| `JsText.Utf16Length` | src/screens/AddEditTodoScreen.js:127 | `.length` counts UTF-16 code units: between the number of characters and twice it, and equal to it when every character is in the Basic Multilingual Plane |
| `TodoData.Ordered` | src/services/todoService.js:68 | the listed ids are exactly the collection's ids, each once, strictly newest first: `createdAt` descending, then id descending |
| `TodoData.EnumerationUnique` | src/services/todoService.js:68-78 | two newest-first enumerations of a collection are equal, so both query paths list the same order |
| `TodoData.Listing` | src/services/todoService.js:70-72 | `{ id: doc.id, ...doc.data() }` per document in listing order: one entry per listed id, each carrying its own document's fields |
| `TodoData.ListingSorted` | src/services/todoService.js:68-72 | every document of the collection appears in its listing, and the listing is newest first |
| `TodoData.AddedComesFirst` | src/services/todoService.js:144-151 | a document newer than all others is listed first, ahead of the previous listing unchanged |
| `TodoData.RemovedDropsOut` | src/services/todoService.js:252-254 | removing a document removes exactly its entry from the listing and keeps the rest in order |
| `TodoData.RewriteKeepsOrder` | src/services/todoService.js:188-194 | rewriting a document without changing `createdAt` keeps every listing position |
| `TodoData.ApplyPatch` | src/services/todoService.js:188-194 | `{ ...updates, updatedAt: serverTimestamp() }`: every key present in the patch is written, every absent one keeps its value, and `updatedAt` is the write's server time whatever the patch holds |
| `TodoService.ResolveUser` | src/services/todoService.js:39-55 | succeeds exactly when a user is signed in, with that user's id; otherwise `User not authenticated` |
| `TodoService.ListStep` | src/services/todoService.js:58-88 | succeeds exactly when someone is signed in and the store answers, with that user's listing; otherwise `User not authenticated` or the store's message |
| `TodoService.AddStep` | src/services/todoService.js:137-177 | succeeds exactly when someone is signed in and the store answers; a failure changes nothing; a success returns the new document under the first unused id, stores it in the user's collection at the next server time, and leaves user and channels alone |
| `TodoService.DescriptionArgument` | src/services/todoService.js:137 | an omitted description is the empty string; a given one is used as it is |
| `TodoService.NewTask` | src/services/todoService.js:139-152 | the written document: both fields trimmed, not completed, `createdAt` and `updatedAt` both the write's server time |
| `TodoService.PatchStep` | src/services/todoService.js:188-194 | the store update of one document: refused with not-found for a missing one and with the store's message while it fails, changing nothing; otherwise the ids stay the same, the document becomes the patched one at the next server time |
| `TodoService.UpdateStep` | src/services/todoService.js:180-238 | succeeds exactly when someone is signed in, the store answers and the document exists; it is the store update on the signed-in user's collection; a failure changes nothing |
| `TodoService.DeleteStep` | src/services/todoService.js:241-267 | succeeds exactly when someone is signed in and the store answers; a success leaves the user's collection without that id, and changes nothing when it was not there |
| `TodoService.TogglePatch` | src/services/todoService.js:284-292 | applying it to any document sets `completed` to `!currentStatus` and refreshes `updatedAt`, nothing else |
| `TodoService.ToggleStep` | src/services/todoService.js:270-305 | succeeds exactly as the update does; with nobody signed in it fails with the TypeError message on the modular path and `User not authenticated` on the other; a failure changes nothing |
| `TodoService.SubscribeStep` | src/services/todoService.js:91-134 | opens a channel exactly when someone is signed in, on that user's collection and under a handle not yet in use; otherwise `null` and nothing changes |
| `TodoService.UnsubscribeStep` | src/services/todoService.js:100-129 | the channel is closed, every other channel stays as it was, and nothing else changes |
| `TodoService.DeliverStep` | src/services/todoService.js:102-112 | a closed channel delivers nothing; an open one delivers the listing of the collection it watches, or, while the store fails, its message and is then closed |
| `TodoService.SignedOutChangesNothing` | src/services/todoService.js:39-43 | with nobody signed in every operation fails with `User not authenticated` and changes nothing, the modular toggle failing with the TypeError message; subscribing returns `null` |
| `TodoService.ListingIsOwnTodosNewestFirst` | src/services/todoService.js:58-80 | a successful `getTodos` lists exactly the signed-in user's documents, each with its own fields, with `createdAt` non-increasing |
| `TodoService.StepsPreserveConsistency` | src/services/todoService.js:137-305 | every operation keeps ids below the id supply, `updatedAt` no later than the server clock, and listener handles below their supply |
| `TodoService.AddThenList` | src/services/todoService.js:137-169 | a successful add returns the trimmed, uncompleted todo with both timestamps the write's server time, under an id no collection holds; the next listing contains it, and first ahead of the old listing when all documents were server-stamped |
| `TodoService.UpdateThenList` | src/services/todoService.js:180-230 | a successful update writes exactly the patch's keys, sets `updatedAt` to a later server time whatever the patch says, keeps the other documents, and keeps the listing order when `createdAt` is not patched |
| `TodoService.DeleteThenList` | src/services/todoService.js:241-259 | a delete succeeds; afterwards the id is not listed, and when it existed the new listing is the old one without exactly that entry |
| `TodoService.DeletedIdNotReused` | src/services/todoService.js:156-161 | a todo added after a delete never receives the deleted id |
| `TodoService.ToggleIsCompletedUpdate` | src/services/todoService.js:270-293 | the toggle is the update of `completed := !currentStatus` alone, on both paths while someone is signed in |
| `TodoService.TogglePathsAgree` | src/services/todoService.js:276-293 | the modular and namespaced toggles have the same store effect and the same success in every state, and give the same answer while someone is signed in |
| `TodoService.ToggleTwiceRestores` | src/services/todoService.js:284-292 | the toggle writes without reading: `toggle(id, false)` then `toggle(id, true)` leaves it not completed with strictly increasing `updatedAt` and the same `createdAt` |
| `TodoService.OtherUsersUntouched` | src/services/todoService.js:39-55 | no write changes the collection of anyone but the signed-in user |
| `TodoService.DeliveryAgreesWithGetTodos` | src/services/todoService.js:91-129 | a new channel delivers what `getTodos` returns; an error delivery closes it; a closed channel delivers nothing; closing twice is closing once |
| `TodoService.WritesKeepChannels` | src/services/todoService.js:137-305 | no write changes who is signed in, whether the store fails, or which channels are open on which collection |
| `TodoService.OpenChannelDeliversListing` | src/services/todoService.js:99-108 | in every state, an open channel of the signed-in user delivers exactly what `getTodos` returns while the store answers |
| `TodoService.ChannelFollowsWrites` | src/services/todoService.js:99-108 | after an add, update, delete or toggle, such a channel delivers the listing of the new state |
| `TodoService.OmittedDescriptionStoresEmpty` | src/services/todoService.js:137-141 | `addTodo(title)` without a description stores and returns the empty description |
| `TodoService.TodoService.constructor` | src/services/todoService.js:20-36 | the instance over a consistent existing store, with nobody signed in and no open channel |
| `TodoService.TodoService.SetCurrentUser` | src/services/todoService.js:40 | only the signed-in user changes |
| `TodoService.TodoService.SetOutage` | src/services/todoService.js:170-175 | only the store's failure changes |
| `TodoService.TodoService.GetUserTodosRef` | src/services/todoService.js:39-55 | answers `ResolveUser` of the current state |
| `TodoService.TodoService.CollectTodos` | src/services/todoService.js:70-72 | the `forEach` push loop builds exactly the collection's listing |
| `TodoService.TodoService.GetTodos` | src/services/todoService.js:58-88 | answers the listing step and changes nothing |
| `TodoService.TodoService.SubscribeTodos` | src/services/todoService.js:91-134 | opens a fresh channel on the signed-in user's collection, or returns `null` with nobody signed in |
| `TodoService.TodoService.Unsubscribe` | src/services/todoService.js:100-113 | closes that channel and nothing else |
| `TodoService.TodoService.Deliver` | src/services/todoService.js:102-112 | follows the delivery step: the full listing, or an error after which the channel is closed |
| `TodoService.TodoService.AddTodo` | src/services/todoService.js:137-177 | new state and answer are the add step's, an omitted description being the empty string |
| `TodoService.TodoService.WriteUpdate` | src/services/todoService.js:188-194 | the store update of one document: refused for a missing document, otherwise the patch plus a fresh `updatedAt` |
| `TodoService.TodoService.UpdateTodo` | src/services/todoService.js:180-238 | new state and answer are the update step's |
| `TodoService.TodoService.DeleteTodo` | src/services/todoService.js:241-267 | new state and answer are the delete step's |
| `TodoService.TodoService.ToggleTodoComplete` | src/services/todoService.js:270-305 | new state and answer are the toggle step's on the path fixed at start-up |
| `TodoItem.FormatDate` | src/components/TodoItem.js:13-31 | blank for a missing timestamp; otherwise just-now below a minute, whole minutes below an hour, whole hours below a day, whole days below a week, else the date; each count is the floor of the elapsed time in its unit and lies in the bucket's range |
| `TodoItem.Render` | src/components/TodoItem.js:14-30 | blank for no timestamp, `Just now`, the locale date; a relative label is its count's digits followed by `m ago`, `h ago` or `d ago`, and the digits read back as the count |
| `TodoItem.RelativeTextGivesCountBack` | src/components/TodoItem.js:23-25 | the digits before the unit of a relative label read back as the count |
| `TodoItem.CheckboxPress` | src/components/TodoItem.js:47 | hands on the todo's own id and its displayed status, whose toggle patch asks for the opposite status |
| `TodoItem.DeletePress` | src/components/TodoItem.js:98 | hands on the todo's own id |
| `TodoItem.CheckboxFlipsDisplayedStatus` | src/components/TodoItem.js:47 | pressing the checkbox of a listed todo succeeds and flips its stored `completed`, on either path |
| `TodoItem.DeleteRemovesShownTodo` | src/components/TodoItem.js:98 | pressing delete on a listed todo removes that one entry from the next listing |
| `HomeScreen.CompletedCount` | src/screens/HomeScreen.js:118 | at most the number of todos |
| `HomeScreen.PendingCount` | src/screens/HomeScreen.js:119 | at most the number of todos |
| `HomeScreen.CountsPartitionList` | src/screens/HomeScreen.js:118-119 | completed plus pending is the number of todos |
| `HomeScreen.CompletedCountExtremes` | src/screens/HomeScreen.js:118 | the completed count is the total exactly when all are completed, and 0 exactly when none is |
| `HomeScreen.CompletionRate` | src/screens/HomeScreen.js:120-121 | 0 for no todos; otherwise the percentage of completed todos rounded half up, between 0 and 100 |
| `HomeScreen.RateExtremes` | src/screens/HomeScreen.js:120-121 | the rate is 100 when all todos are completed and 0 when none is |
| `HomeScreen.HomeScreen.constructor` | src/screens/HomeScreen.js:22-24 | no todos, loading, not refreshing |
| `HomeScreen.HomeScreen.Subscribe` | src/screens/HomeScreen.js:38 | opens the channel via the subscribe step and keeps its handle, leaving the screen state alone |
| `HomeScreen.HomeScreen.OnResult` | src/screens/HomeScreen.js:38-46 | a success replaces the list with the delivered one; a failure keeps the list and alerts its message; both end loading and refreshing |
| `HomeScreen.HomeScreen.Receive` | src/screens/HomeScreen.js:38-46 | a delivery on the screen's channel runs the callback on what the store delivered: a success replaces the list, a failure alerts its message, both end loading and refreshing; without a channel or a delivery nothing happens |
| `HomeScreen.HomeScreen.Cleanup` | src/screens/HomeScreen.js:48-52 | closes the channel when there is one, and tolerates `null` |
| `AddEditTodoScreen.Cap` | src/screens/AddEditTodoScreen.js:123 | the accepted text is the longest prefix of what was typed whose UTF-16 length is within the cap, all of it when it fits |
| `AddEditTodoScreen.EditPatch` | src/screens/AddEditTodoScreen.js:43-46 | applied to any document, it writes the trimmed title and description and leaves status and creation time alone |
| `AddEditTodoScreen.SaveStep` | src/screens/AddEditTodoScreen.js:34-57 | the save is refused exactly for a blank title, crashes exactly for an edit route without a todo, and changes the repository only when it is saved |
| `AddEditTodoScreen.SendStep` | src/screens/AddEditTodoScreen.js:41-49 | the repository call succeeds exactly when someone is signed in, the store answers and an edited todo still exists; a failed call changes nothing |
| `AddEditTodoScreen.BlankTitleNeverWrites` | src/screens/AddEditTodoScreen.js:35-38 | the save is refused exactly when the title is all whitespace, and a refused save changes nothing |
| `AddEditTodoScreen.AddSaveStoresTrimmed` | src/screens/AddEditTodoScreen.js:47-49 | saving a new todo lists it first with both fields trimmed, not completed, its title non-blank and stable under a second trim |
| `AddEditTodoScreen.EditSaveStoresTrimmed` | src/screens/AddEditTodoScreen.js:42-46 | saving an edit writes both trimmed fields and keeps the todo's status, creation time, the other todos and the listing order |
| `AddEditTodoScreen.UntouchedEditKeepsFields` | src/screens/AddEditTodoScreen.js:27-46 | saving a prefilled edit unchanged rewrites the same title and description |
| `AddEditTodoScreen.FailedSaveChangesNothing` | src/screens/AddEditTodoScreen.js:51-56 | a non-blank save fails exactly when nobody is signed in, the store is failing, or the edited todo is gone; it then changes nothing and alerts the repository's message |
| `AddEditTodoScreen.AddEditTodoScreen.constructor` | src/screens/AddEditTodoScreen.js:20-25 | empty fields, not loading, on the route's mode and todo |
| `AddEditTodoScreen.AddEditTodoScreen.Prefill` | src/screens/AddEditTodoScreen.js:27-32 | in edit mode with a todo the fields become its title and description; otherwise nothing changes |
| `AddEditTodoScreen.AddEditTodoScreen.TypeTitle` | src/screens/AddEditTodoScreen.js:121-123 | the title becomes the typed text cut to 100 UTF-16 code units |
| `AddEditTodoScreen.AddEditTodoScreen.TypeDescription` | src/screens/AddEditTodoScreen.js:145-149 | the description becomes the typed text cut to 500 UTF-16 code units |
| `AddEditTodoScreen.AddEditTodoScreen.Send` | src/screens/AddEditTodoScreen.js:41-49 | new repository state and answer are the repository-call step's |
| `AddEditTodoScreen.AddEditTodoScreen.HandleSave` | src/screens/AddEditTodoScreen.js:34-57 | ignored while a save is in flight; otherwise the repository follows the save step; a save ends loading, navigates back on success, and alerts the missing title or the repository's message |

## Left out

- Client set-up and API detection (`src/services/todoService.js:1-36`) are left out: the modular or namespaced choice is one constant per service, and every branch has the same store effect.
- The `try`/`catch` fallbacks that re-issue a request through another API are merged with the first attempt, because their store effect is the same.
- `this.db.FieldValue.serverTimestamp()` on the namespaced path is taken to resolve to a server timestamp like the modular helper.
- Asynchrony is left out: each `await` completes before the next call, and listener deliveries, races and latency compensation (local pending writes) are not modelled.
- The sentinel-holding `data` that `addTodo` returns is modelled with the resolved server time.
- `TodoItem.FormatDate` takes the timestamp as an `Option`: `None` stands for a falsy argument, such as the `null` a pending server timestamp reads as. Stored documents always carry a resolved server time.
- `updateTodo`'s `updates` object is limited to a todo document's own fields. Arbitrary extra keys are not modelled.
- `console.error` logging, animation, layout, styles and icons are left out.
- `Render` for a date label takes the locale-formatted date as a parameter, because `toLocaleDateString` depends on the locale tables.
- `CompletionRate` uses exact rational rounding half up. The source's floating-point `Math.round(completed / total * 100)` may differ from it at a binary rounding edge.
- `HomeScreen`'s pull to refresh (`refreshKey`) and the sign-out, edit and add navigation are not modelled. A refresh is the cleanup followed by a new `Subscribe`.
- The confirmation dialogs of `handleDeleteTodo` and `handleToggleComplete`'s error alert are not modelled.
- `authService.js`, `LoginScreen.js`, `App.js`, the sign-in configuration and the theme are not part of this model.
- `AddEditTodoScreen.Cap`: a cut inside a surrogate pair is not modelled; the cap keeps whole characters, and text inserted in the middle of the field is treated as typed at its end.
- `TodoService.TodoService.SetOutage` stands for the store failing. Why it fails is not modelled.
- `AddEditTodoScreen.AddEditTodoScreen.HandleSave`: an edit route without a todo throws on `todo.id` after `setLoading(true)`. The model shows this as the save ending with loading still on; the unhandled rejection is not modelled.
