# Daily Task Tracker: a Dafny model of its offline queue, task store and forms

The Daily Task Tracker is a browser app for a daily to-do list. Signed out, tasks live in a
browser-stored list (`dailyTasks`). Signed in, they live in a remote per-user collection. Any
remote write that fails is recorded in a browser-stored queue of pending changes
(`pendingChanges`). When the browser comes back online, that queue is replayed ("drained")
against the remote store.

The model covers the part of `app.js` that decides things and the validation and session
handling of `auth.js`:

- the pending-change queue, its enqueue sites and its drain;
- the stored task list and its age-based cleanup;
- the rendered list of task items and the statistics line;
- the login and signup checks, the error messages and the button states;
- both session listeners.

The remote services, the DOM and the clock are replaced by inputs:

- every remote request ends as a `Reply` passed in by the caller: `Ok(docId)` or `Failed`;
- every `Date.now()` reading is its own clock argument;
- the DOM task list is a sequence of `Item(id, completed)`;
- `auth.currentUser` and `navigator.onLine` are fields of `App.Client`.

Modules, one per file:

- `wrappers.dfy` `Wrappers`: `Option` and `Result`.
- `seqs.dfy` `Seqs`: `Filter` (Array.prototype.filter), `Count`, `IsSubsequence` and their lemmas.
- `js_text.dfy` `JsText`: what the JavaScript built-ins do to strings. This covers `trim` over
  ECMAScript white space, `startsWith`, `length` in UTF-16 code units, Number-to-string for whole
  milliseconds, and `parseInt` with no radix (sign, `0x` prefix, longest digit prefix, NaN as `None`).
- `tasks.dfy` `Tasks`: local ids (`"local_"` plus a clock reading), rendered items, stored tasks,
  first-match search, rebinding, statistics, filtering by id and the cleanup filter.
- `queue.dfy` `Queue`: the four change kinds. It holds the per-entry dispatch (`Dispatch`) that
  yields an `allSettled` result, the commit filter (`Survivors`), the requests issued (`CallsOf`),
  the rebinding of created adds (`RebindAll`) and the purge of a deleted local task's add (`Purge`).
- `client.dfy` `App.Client`: the app.js handlers as methods on one object.
- `auth.dfy` `Auth`: the form checks and `AuthForms`, which holds the auth.js click handlers and
  its session listener.

The drain is split the way the code splits it:

- `BeginSync` is the `map` over the snapshot. It issues the requests and rebinds an item when
  its add is created.
- `FinishSync` is the `allSettled` callback. It commits the queue once and may reload the list.
- `SyncPendingChanges` runs the two back to back.

The requests of one drain run concurrently in the browser. So `CallsOf` lists them in issue
order, which is not a completion order.

What the proofs show about the code as written:

- A committed queue is the retained subsequence of the snapshot (`Survivors`, `SurvivorsMembers`).
  It is shorter exactly when some entry was accepted or was an update/delete of a local id
  (`DrainShrinksIff`).
- Local updates and deletes never survive a drain (`DrainDropsLocalEdits`). Unknown entries always
  do (`DrainKeepsUnknown`). No request ever targets a local id (`CallsOf`, `CallOf`).
- `FinishSync` overwrites the whole queue from the snapshot. An entry queued while a drain is in
  flight is therefore lost when that drain commits.
- Every created add drops its entry and so forces the reload. The reload clears the list. So after
  `SyncPendingChanges` a rebinding is never visible: the list is either cleared or unchanged.
- The offline add takes its rendered id and its queued timestamp from two clock readings. Deleting
  that task while signed in purges the queued add only when the two readings are equal
  (`PurgeOfflineAdd`, through `LocalIdStampRoundTrip`). The drain's rebinding depends on the same
  equality: with equal readings the item is rebound (`OfflineAddThenDrain`), with different ones
  it keeps its local id (`OfflineAddThenDrainMismatched`).
- On sign-in both listeners start a task query, and each answer is appended, so every task can
  appear twice (`Auth.SignInWithBothListeners`). On sign-out the final list depends on which
  listener runs last (`Auth.SignOutWithBothListeners`).

Behaviour of the code the model keeps:

- a failed signed-in add is queued only while offline; online it is dropped;
- the two sign-out listeners disagree, one clearing the list and one reloading the stored tasks;
- the task query orders by `createdAt` descending, and the model takes the order returned;
- there is no single-flight guard on the drain;
- the drain replays entries concurrently, not in queue order.

## Model

| member | source | states |
|---|---|---|
| JsText.Trim | auth.js:37 | trim yields exactly the stretch of the input between its leading and trailing white space: "" exactly for an all-white-space string, and otherwise a result with no white space at either end |
| JsText.TrimBothEnds | auth.js:37 | dropping the leading and then the trailing white space leaves the stretch between them, with no white space at its ends, empty exactly for an all-white-space input |
| JsText.TrimStart | auth.js:37 | leading white space is dropped and the rest is a suffix of the input |
| JsText.TrimEnd | app.js:100 | trailing white space is dropped and the rest is a prefix of the input |
| JsText.Utf16Length | auth.js:72 | `password.length` counts UTF-16 units: one per code point plus one more per code point above U+FFFF, so between the code-point count and twice it, and equal to it below U+10000 |
| JsText.DecimalString | app.js:135 | `'local_' + Date.now()` writes the reading as decimal digits without leading zeros |
| JsText.DigitPrefix | app.js:387 | parseInt reads the longest prefix of digits of its radix |
| JsText.DecimalStringValue | app.js:387 | the digits of a reading have the reading as their decimal value |
| JsText.DigitPrefixOfDigits | app.js:387 | a string made only of digits is read whole |
| JsText.ParseIntDecimalString | app.js:387 | parseInt reads back every decimal string of a reading |
| JsText.ParseInt | app.js:387 | parseInt gives NaN (None) for a blank string and reads a non-empty string of decimal digits as its decimal value |
| JsText.ParseUnsigned | app.js:387 | after the sign, nothing reads as NaN and a non-empty string of decimal digits reads as its decimal value |
| JsText.LeadingText | app.js:387 | parseInt's white-space skip leaves nothing of a blank string, and leaves a string of digits whole and unsigned |
| JsText.DecimalDigitsReadWhole | app.js:387 | a string of decimal digits is its own longest radix-10 digit prefix |
| JsText.TrimStartOfBlank | app.js:387 | skipping leading white space in a blank string leaves nothing |
| Tasks.LocalId | app.js:135 | an id made from a clock reading starts with "local_" |
| Tasks.IsLocalId | app.js:326 | `startsWith('local_')` holds exactly when "local_" is a prefix of the id |
| Tasks.LocalIdStamp | app.js:387 | a local id whose remainder after "local_" is all decimal digits stamps to the value of those digits |
| Tasks.LocalIdStampRoundTrip | app.js:387 | `parseInt(id.replace('local_',''))` returns the clock reading the local id was made from |
| Tasks.LocalIdInjective | app.js:155 | two readings give the same local id exactly when they are equal |
| Tasks.FirstIndex | app.js:357 | the first index holding the id, or -1 exactly when the id is absent |
| Tasks.FindIndex | app.js:357 | `findIndex` returns the first matching index, or -1 |
| Tasks.RebindFirstMatch | app.js:459-462 | rebinding sets the id of the first item with the old id and leaves every other item and the order unchanged; with no match nothing changes |
| Tasks.Rebind | app.js:459-462 | rebinding keeps the length of the list and every item's completed state, and an item that changes had the old id and takes the new one |
| Tasks.TaskStats | app.js:423-433 | total is the item count, completed the count of completed items, and remaining = total - completed is never negative and is 0 exactly when all are completed |
| Tasks.TitleCount | app.js:436-437 | the title shows a count exactly when some item is not completed, and the count is the remaining number |
| Tasks.StatsAfterAppend | app.js:303-304 | appending an item adds one to the total and one to completed exactly when it is completed |
| Tasks.StatsAfterRebind | app.js:461 | rebinding an id does not change the statistics |
| Tasks.StatsOfLocalItems | app.js:173-189 | after loadLocalTasks the list has one item per stored task and the completed count is the stored completed count |
| Tasks.LocalItemsKeepIds | app.js:184-186 | each stored task is rendered in its place under its own id, and a missing id is replaced by a fresh local one |
| Tasks.ShownItem | app.js:184-186 | a stored task is rendered with its completed state and its own id; a task with no id gets a local id whose stamp is the clock reading |
| Tasks.LocalItems | app.js:184-186 | one rendered item per stored task |
| Tasks.WithoutId | app.js:408-410 | the signed-out delete removes every task with the id and keeps the others in order, with the length falling by the number removed |
| Tasks.Cleanup | app.js:556-569 | cleanup keeps exactly the incomplete tasks and the completed ones created after the cutoff, in order and one for one (its length is the number of such tasks), and shortens the list exactly when a completed task is that old; the list is unchanged otherwise |
| Tasks.CleanupIdempotent | app.js:560-564 | a second cleanup with the same cutoff removes nothing |
| Queue.CallOf | app.js:454-485 | a request is issued exactly for an add or for an update or delete of a non-local id: an add creates its task's document, an update sets the id's completed flag to the queued value, a delete removes the id's document, all for the signed-in user |
| Queue.Dispatch | app.js:454-485 | an entry settles as a success exactly when it was sent and accepted; a local update or delete settles as unsuccessful with reason `local_task`, an unknown entry with reason `unknown_type`; the commit keeps it exactly when it is of unknown type or was sent and failed |
| Queue.Retained | app.js:494-498 | a result is kept exactly when it is a rejection or an unsuccessful fulfilment whose reason is not `local_task` |
| Queue.SettleAll | app.js:489-493 | the settled results line up with the snapshot, one per entry |
| Queue.Survivors | app.js:491-505 | the committed queue is a subsequence of the snapshot whose length is the number of retained results; the entry at index i, when retained, sits at the position given by the number of retained results before i; it is as long as the snapshot only when every result is retained |
| Queue.SurvivorsMembers | app.js:493-502 | every retained entry is committed, and every committed entry was retained at some index |
| Queue.CallsOf | app.js:453-486 | one request per replayable entry, the i-th being the request of the i-th replayable entry, all for the signed-in user and none naming a local id |
| Queue.CallsOfAppend | app.js:453 | the requests for two stretches of the queue are those of the first followed by those of the second |
| Queue.RebindStep | app.js:455-463 | one settled entry keeps the list's length and completed states, and can change an item only when it is a created add: the item had the add's local id and takes the new document id |
| Queue.RebindAll | app.js:455-463 | the rebinding done by a drain keeps the length of the list and every item's completed state |
| Queue.RebindAllWithoutCreatedAdd | app.js:455-463 | when no add is created during a drain, no item is rebound |
| Queue.RebindAllKeepsStats | app.js:455-463 | the rebinding done by a drain leaves the statistics unchanged |
| Queue.DrainDropsLocalEdits | app.js:466-478 | no update or delete of a local id survives a drain |
| Queue.DrainKeepsUnknown | app.js:482-484 | a drain keeps every entry of unknown type |
| Queue.DrainShrinksIff | app.js:509-511 | the committed queue is shorter, and the list is reloaded, exactly when some entry was accepted or was a local update or delete |
| Queue.FailedRetryKeepsQueue | app.js:494-500 | a queue with no local edits, all of whose requests fail, is committed unchanged |
| Queue.FailureIsRetained | app.js:494-500 | a failed request of an entry that is not a local edit is kept by the commit |
| Queue.AllRetainedSurvive | app.js:491-505 | when every result is retained, the commit keeps the whole snapshot |
| Queue.DrainThenFailedRetry | app.js:441-513 | draining the queue a drain left behind, with every request failing, commits the same queue |
| Queue.Purge | app.js:383-389 | deleting a local task while signed in drops exactly the queued adds whose timestamp equals the parsed id suffix and keeps all other entries one for one and in order, so its length is the number of kept entries |
| Queue.PurgeOfflineAdd | app.js:134-145 | the add queued offline is purged by deleting its rendered task exactly when the id's clock reading equals the queued timestamp |
| Queue.OfflineAddThenDrain | app.js:455-463 | an add queued under the reading of its rendered id, once created, leaves the queue empty and the item rebound to the remote id |
| Queue.OfflineAddThenDrainMismatched | app.js:455-463 | an add queued under a reading different from its rendered id's, once created, leaves the queue empty and the item under its local id |
| App.Client.AddTaskToUI | app.js:271-305 | the item is appended at the end of the list |
| App.Client.AddNewTask | app.js:99-170 | blank input does nothing; signed in, a create request is issued, and a failure while offline renders under a local id and queues one add, while online nothing is queued; signed out, one incomplete task with the trimmed text is stored and rendered |
| App.Client.AddTrimmedTask | app.js:104-169 | with a non-blank trimmed text, the same outcomes as addNewTask, branch by branch |
| App.Client.LoadLocalTasks | app.js:173-190 | the list is replaced by the stored tasks in stored order |
| App.Client.ToggleTaskComplete | app.js:308-366 | with no item of that id nothing changes; otherwise the first item takes the new state, and then either one update is queued or a request is issued, or only the first stored task with the id changes |
| App.Client.DeleteTask | app.js:369-420 | with no item of that id nothing changes; otherwise the first item is removed and then the queue is purged, or a request is issued and one delete is queued on failure, or the stored tasks with the id are removed |
| App.Client.CleanupOldTasks | app.js:555-570 | signed out, the stored list becomes the cleanup filter's result and is written exactly when that is shorter |
| App.Client.RebindRendered | app.js:459-462 | the first item with the old id takes the new id |
| App.Client.BeginSync | app.js:441-486 | without a user, a connection or queued entries nothing starts; otherwise the snapshot is the queue, with one settled result and at most one request per entry and every created add rebound |
| App.Client.ReplayEntry | app.js:454-485 | one entry of the map settles as its dispatch, issues its own request, and rebinds the list as one rebinding step |
| App.Client.FinishSync | app.js:489-512 | the queue becomes the retained part of the snapshot, replacing its current contents, and the list is cleared for reloading exactly when that is shorter |
| App.Client.SyncPendingChanges | app.js:441-513 | a drain with no user, offline or with an empty queue changes nothing and issues no request; otherwise it commits the retained entries and reloads exactly when the queue shrank |
| App.Client.LoadUserTasks | auth.js:166-169 | the list is cleared while the query runs |
| App.Client.UserTasksLoaded | auth.js:178-199 | a query result is appended in the order returned; a failed query leaves the list |
| App.Client.AppAuthStateChanged | app.js:194-207 | sign-in clears the list to load the user's tasks; sign-out renders the stored tasks |
| Auth.CheckLogin | auth.js:37-43 | login is refused exactly when the e-mail field is blank or the password empty; otherwise the trimmed e-mail is sent |
| Auth.CheckSignup | auth.js:63-75 | signup is accepted exactly when name and e-mail are not blank, the password is not empty and it has at least six UTF-16 units; otherwise it is refused with the fill-in message for a missing field, and with the length message for a short password; a request carries the trimmed name and e-mail |
| Auth.SignupLengthBoundary | auth.js:72-75 | a six-character password passes and a five-character one does not |
| Auth.AuthErrorMessage | auth.js:145-161 | every code outside the six known ones gets the generic message, and no known code does |
| Auth.AuthErrorMessageOfKnown | auth.js:145-157 | each of the six known codes gets its own message, as listed |
| Auth.AuthErrorMessagesDistinct | auth.js:145-157 | two different known codes get different messages |
| Auth.AuthForms.LoginClicked | auth.js:36-47 | a click on a disabled button changes nothing; on an enabled one the button is disabled, the error line cleared and the request sent exactly when the login check passes, and a refusal shows its message with no request |
| Auth.AuthForms.Press | auth.js:40-46 | an enabled button is disabled with its error line cleared exactly when its form's check yields a request; a refusal keeps it enabled and shows the message |
| Auth.AuthForms.LoginFailed | auth.js:54-58 | a failed sign-in shows the code's message and re-enables the button |
| Auth.AuthForms.LoginSucceeded | auth.js:49-53 | a successful sign-in clears both fields |
| Auth.AuthForms.SignupClicked | auth.js:62-78 | a click on a disabled button changes nothing; on an enabled one the button is disabled, the error line cleared and the request sent exactly when the signup check passes, and a refusal shows its message with no request |
| Auth.AuthForms.SignupFailed | auth.js:100-104 | a failed sign-up shows the code's message and re-enables the button |
| Auth.AuthForms.SignupSucceeded | auth.js:94-99 | a completed sign-up clears the three fields |
| Auth.AuthForms.SessionChanged | auth.js:115-141 | sign-in enables both buttons and clears both error lines; both transitions empty the list and leave the stored tasks and queue untouched |
| Auth.SignInWithBothListeners | auth.js:123 | with both listeners and two identical query answers, every task is listed twice |
| Auth.SignOutWithBothListeners | app.js:205 | on sign-out the list is empty or shows the stored tasks, depending on which listener runs last |

## Left out

- The remote document store and authentication service. Their calls are replaced by `Reply`
  inputs and `RemoteCall` values, and the documents they hold are not modelled.
- Concurrency. Every remote request completes before the handler's next step. In the browser,
  other handlers can run between a request and its callback. That is the case for `navigator.onLine`,
  which is read when the callback runs.
- The drain's completion order. Fulfilments rebind in snapshot order. Two adds with the same
  timestamp could be rebound in the opposite order in the browser.
- The closures of `addTaskToUI`. Its listeners keep the id the item was created with. The model does
  not track this, so a rebound item's checkbox and delete button are not modelled.
- DOM text and styling. This covers the empty-state text, form visibility, the update toast, the
  date display and the title string apart from its count.
- `cleanupOldTasks`' remote archive branch and its scheduling by `setInterval`. The cutoff instant
  ("thirty days ago", local calendar time) is an input.
- `initializeFirebase`, `debounce`, service-worker registration and `service-worker.js`: wrappers
  over browser APIs with no logic to model.
- `updateOnlineStatus`, which only calls `syncPendingChanges` when online and signed in. That drain
  is `SyncPendingChanges` itself.
- The `!db` guard of the app.js copy of `loadUserTasks`. The signed-in state implies the services
  are set up; `App.Client.user` is `None` when they are not.
- Malformed stored JSON. Stored records are typed, so a missing `taskId` can no longer make the
  drain throw, and an unknown record type is `Unknown`.
- The signup chain's profile update and user-document write. They are one outcome here.
- JsText.ParseInt: numbers are exact integers, so precision beyond 2^53 is not modelled.
- JsText.DecimalString: Number-to-string switches to exponent notation from 10^21 on; clock
  readings of that size are not modelled.
- JsText.Utf16Length: strings are sequences of Unicode scalar values, so lone surrogates cannot occur.
