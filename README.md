# Task manager core, modelled in Dafny

The system is a task-management web app. The Next.js client keeps a shared
store of tasks. It shows them as a filterable, sortable list, as a Kanban
board with drag-and-drop between status columns, and through an add/edit
dialog. The Express server registers and logs in users against a MongoDB
collection. This project models the client's task logic, the URL helpers, the
hero-banner highlight split, the server's register/login guards, and the user
schema's rules and JSON transform. It proves what each of them promises.

Modules, one per source file, plus shared pieces:

- `Options`, `Seqs`, `Text` (`common.dfy`): an option type, and the
  subsequence relation.
  - `Text` also holds the string primitives the source borrows from JavaScript:
    `trim` over the ECMAScript whitespace set, ASCII `toLowerCase`, and a
    code-point three-way comparison standing in for `localeCompare`.
- `Tasks` (`tasks.dfy`): the task record and the shared client store.
  - The store is a class over a `seq<Task>` and the draft `newTask`.
  - Its source is not part of this model. `updateTask` is assumed to replace
    every record whose `_id` equals the argument's, and `addTask` to append.
  - The blank draft `EmptyTask` is assumed to have no `_id`.
- `TaskList` (`tasklist.dfy`): the `processedTasks` projection, `isOverdue`, the
  selector state with "clear filters", and `handleStatusUpdate`.
- `Kanban` (`kanban.dfy`): the status buckets, the drag-end rule, and the mobile
  card's status picker.
- `AddTaskModal` (`add_task_modal.dfy`): the dialog as a class with `open`,
  `submitting` and the draft.
  - `handleAddTask` is split at its `await` into `Submit` and `Complete`. This
    makes a close request while the submission is in flight expressible.
- `Api` (`api.dfy`): `normalizeBase` and `apiUrl`.
- `Hero` (`hero.dfy`): `splitOnce`.
- `UserModel` (`user_model.dfy`): the schema's setters and validators, and the
  `toJSON` transform as an in-place method on a JSON object.
- `AuthController` (`auth_controller.dfy`): `register` and `login` as methods
  of a service.
  - The service holds the users collection as a map from stored email to
    document.
  - bcrypt's hash and compare, the JWT signer and `JWT_SECRET` are fixed
    parameters of the service.

The list view's status update posts to the raw configured base:
`${NEXT_PUBLIC_BASE_URL}/api/updatetask`. It does not go through `apiUrl`, so an
unset base becomes the text `undefined` and a trailing slash doubles.
`TaskList.StatusUpdateUrlIgnoresNormalisation` exhibits both. The model keeps the
code's behaviour.

The status updates are not optimistic. The list view writes the store only
after an ok response, and the board writes it locally with no request at all.
The model follows the code.

## Model

| member | source | states |
|---|---|---|
| Text.Trim | client/lib/api.ts:6 | The result is the input with a whitespace prefix and a whitespace suffix cut off. It is empty exactly when the input is all whitespace, and otherwise neither starts nor ends with whitespace. |
| Text.WhitespaceInfix | client/lib/api.ts:6 | Cutting a whitespace prefix and then a whitespace suffix leaves a slice of the input between whitespace on both sides. |
| Text.Lower | client/components/Hero.tsx:38 | Lowercasing keeps the length, so indices in the lowered haystack are indices in the original. |
| Text.CompareStrings | client/components/Tasklist.tsx:52-53 | The stand-in for `localeCompare` returns -1, 0 or 1, and 0 exactly on equal strings. |
| Text.CompareStringsAntisymmetric | client/components/Tasklist.tsx:51-53 | Swapping the arguments negates the comparison, so the descending title comparator is the negation of the ascending one. |
| Text.CompareStringsTransitive | client/components/Tasklist.tsx:51-53 | The string comparison is transitive, so the title sort is a consistent order. |
| Tasks.ReplaceById | client/components/Tasklist.tsx:114 | `updateTask` keeps the store's length. |
| Tasks.ReplaceByIdAbsent | client/components/Kanban.tsx:189 | Updating with an `_id` no record has leaves the store unchanged. |
| Tasks.ReplaceByIdSame | client/components/Kanban.tsx:137 | Updating records with identical ones leaves the store unchanged. |
| Tasks.ReplaceByIdAt | client/components/Kanban.tsx:189 | With unique ids, updating the record at index k changes that record only, and ids stay unique. |
| Tasks.TaskStore.SetTasks | client/components/Dashboard.tsx:42 | `setTasks` replaces the list and leaves the draft alone. |
| Tasks.TaskStore.AddTask | client/components/AddTaskModal.tsx:84 | `addTask` appends the task and leaves the draft alone. |
| Tasks.TaskStore.UpdateTask | client/components/Tasklist.tsx:114 | `updateTask` replaces by `_id` and leaves the draft alone. |
| Tasks.TaskStore.SetNewTask | client/components/AddTaskModal.tsx:41 | `setNewTask` replaces the draft and leaves the list alone. |
| TaskList.Rank | client/components/Tasklist.tsx:56-58 | The priority ranks: Low 0, Medium 1, High 2. |
| TaskList.RankOrder | client/components/Tasklist.tsx:56-58 | The ranks order the priorities Low < Medium < High, and equal ranks mean equal priorities. |
| TaskList.Passes | client/components/Tasklist.tsx:44-45 | The filter condition: each selector is "all" or equals the task's field. |
| TaskList.Filtered | client/components/Tasklist.tsx:42-46 | A task is in the filtered list iff it is in the store, the status selector is "all" or matches, and the priority selector is "all" or matches. The list is never longer than the store. |
| TaskList.FilteredInStoreOrder | client/components/Tasklist.tsx:42-47 | The filtered list is a subsequence of the store, so it keeps store order. |
| TaskList.FilteredAllIsIdentity | client/components/Tasklist.tsx:42-46 | With both selectors on "all" the filter returns the store itself. |
| TaskList.Compare | client/components/Tasklist.tsx:49-69 | Two tasks tie exactly when they agree on the sort key: equal titles, equal priorities, or the same due date. Two undated tasks never tie. Without a key every pair ties. |
| TaskList.UndatedComparedToDated | client/components/Tasklist.tsx:62-63 | An undated task compares greater than a dated one when ascending, and smaller when descending. |
| TaskList.DatedCompareByTimestamp | client/components/Tasklist.tsx:64-66 | Two dated tasks compare by timestamp difference, in either direction. |
| TaskList.CompareAntisymmetric | client/components/Tasklist.tsx:49-69 | The comparator is antisymmetric for every key, except on a pair of undated tasks under the due-date key. |
| TaskList.UndatedPairInconsistent | client/components/Tasklist.tsx:62 | On two undated tasks the comparator gives the same non-zero answer both ways, so it is not a consistent order there. |
| TaskList.CompareChain | client/components/Tasklist.tsx:49-69 | The transitivity step the sort needs holds for every key, including the inconsistent due-date case. |
| TaskList.Insert | client/components/Tasklist.tsx:49 | Inserting adds exactly one element: the result has one more element and the multiset grows by that element. |
| TaskList.InsertOrdered | client/components/Tasklist.tsx:49-69 | Inserting into an ordered list keeps it ordered: no task ends up after one it must precede. |
| TaskList.Sort | client/components/Tasklist.tsx:49-69 | The sort returns a permutation of its input in which no task follows one that must precede it. |
| TaskList.Processed | client/components/Tasklist.tsx:41-70 | The filter condition is iff for membership, and the result is never longer than the store (the "Showing X of Y" count). The result is a permutation of the filtered list. With no sort key it is a subsequence of the store, in store order. With a key it is ordered by the comparator. |
| TaskList.PrioritySortOrder | client/components/Tasklist.tsx:55-59 | In a priority sort the ranks Low=0, Medium=1, High=2 never decrease ascending and never increase descending. |
| TaskList.TitleSortOrder | client/components/Tasklist.tsx:50-54 | In a title sort the titles are non-decreasing ascending and non-increasing descending. |
| TaskList.DueDateSortOrder | client/components/Tasklist.tsx:61-67 | Ascending, undated tasks come after all dated ones and dates never decrease. Descending, undated tasks come first and dates never increase. This is the stand-in sort's order; with two or more undated tasks the language does not promise it. |
| TaskList.IsOverdue | client/components/Tasklist.tsx:98-101 | A task without a due date is never overdue; a dated one is overdue when its date is before now. |
| TaskList.OverdueFirstAscending | client/components/Tasklist.tsx:98-101 | In an ascending due-date sort every overdue task comes before every task that is not overdue. With two or more undated tasks this is the stand-in sort's order. |
| TaskList.OverdueLastDescending | client/components/Tasklist.tsx:98-101 | In a descending due-date sort no task that is not overdue follows an overdue one. With two or more undated tasks this is the stand-in sort's order. |
| TaskList.ListState.HasActiveFilters | client/components/Tasklist.tsx:139-140 | Filters are active when a selector is not "all" or a sort key is chosen. |
| TaskList.ListState.View | client/components/Tasklist.tsx:41-47 | With no active filter the list shows the whole store unchanged, and it never shows more tasks than the store has. |
| TaskList.ListState.ClearFilters | client/components/Tasklist.tsx:133-140 | After clearing, `hasActiveFilters` is false and all three selectors are "all"/"none". The sort direction is untouched. |
| TaskList.ListState.ToggleSortOrder | client/components/Tasklist.tsx:239 | The direction button flips asc/desc and changes no selector. |
| TaskList.EnvText | client/components/Tasklist.tsx:105 | A template literal renders an unset variable as the text `undefined`. |
| TaskList.StatusUpdateUrlIgnoresNormalisation | client/components/Tasklist.tsx:105 | The status update's URL uses the raw base: `undefined/...` when it is unset and a double slash after a trailing one. `apiUrl` gives `/api/updatetask` for an unset base. |
| TaskList.HandleStatusUpdate | client/components/Tasklist.tsx:103-131 | The request carries `{...task, status}` to the raw update URL. On ok the store record becomes that object; on failure the store is unchanged. The draft is never touched. |
| Kanban.InStatus | client/components/Kanban.tsx:172-176 | A bucket holds exactly the store's tasks of that status and is no longer than the store. |
| Kanban.InStatusAppend | client/components/Kanban.tsx:173-174 | A new task extends its own status's bucket by itself and leaves the other buckets unchanged. |
| Kanban.GroupTasks | client/components/Kanban.tsx:171-177 | A bucket exists exactly for a status some task has. Each bucket holds that status's tasks in store order. |
| Kanban.GroupStep | client/components/Kanban.tsx:173-174 | One reduce step keeps both of those facts for the longer prefix. |
| Kanban.Column | client/components/Kanban.tsx:214 | A column shows its bucket, or nothing when no task has that status. |
| Kanban.BucketsPartitionStore | client/components/Kanban.tsx:172-176 | The three buckets together are the store as a multiset, so every task is in exactly one bucket. Their sizes sum to the store's length. |
| Kanban.BucketInStoreOrder | client/components/Kanban.tsx:174 | Each bucket is a subsequence of the store. |
| Kanban.ColumnIsListFilter | client/components/Kanban.tsx:172-176 | A column equals the list view filtered by that status, with the other selector on "all" and no sort. |
| Kanban.FindById | client/components/Kanban.tsx:183 | `find` returns the first record with the id, or nothing when no record has it. |
| Kanban.DragEffect | client/components/Kanban.tsx:179-192 | A drop keeps the store's length. Any record it changes carries the dragged id before and after, and gets the destination column as its status, and only when there is a destination. |
| Kanban.DropOutsideIsNoOp | client/components/Kanban.tsx:180 | Without a destination the store is unchanged. |
| Kanban.UnknownDraggableIsNoOp | client/components/Kanban.tsx:183-184 | A draggable id no task has leaves the store unchanged. |
| Kanban.DropOnOwnColumnIsNoOp | client/components/Kanban.tsx:186-188 | Dropping the found task into its current column leaves the store unchanged, even with duplicate ids. |
| Kanban.DropMovesOnlyDraggedTask | client/components/Kanban.tsx:186-190 | With unique ids, a drop sets the dragged task's status to the destination column and changes nothing else. |
| Kanban.DropIndexIgnored | client/components/Kanban.tsx:182-189 | The destination index and the source location do not affect the store. |
| Kanban.DroppedTaskInDestinationColumn | client/components/Kanban.tsx:186-190 | After a drop the moved task appears in the destination column and under its id in no other. |
| Kanban.OnDragEnd | client/components/Kanban.tsx:179-192 | The handler's effect on the store is exactly the guard chain, and the draft is untouched. |
| Kanban.MobileTaskCard.Open | client/components/Kanban.tsx:84 | The card's button opens the status dialog. |
| Kanban.MobileTaskCard.Cancel | client/components/Kanban.tsx:153 | Cancel closes the dialog. |
| Kanban.MobileTaskCard.PickStatus | client/components/Kanban.tsx:136-139 | Picking a status always calls `updateTask` with it, even when it is the current one, and closes the dialog. |
| Kanban.RepickCurrentStatus | client/components/Kanban.tsx:136-139 | Re-picking the current status leaves the store unchanged when the card's record agrees with the stored ones. |
| Api.StripTrailingSlashes | client/lib/api.ts:7 | Drops the maximal run of trailing slashes. The result is a prefix, only slashes were removed, and it does not end in `/`. |
| Api.NormalizeBase | client/lib/api.ts:4-8 | A missing, empty, "undefined", "null" or whitespace-only value gives "". Otherwise the result is a prefix not ending in `/` with only slashes removed, and an input without a trailing slash is returned unchanged. |
| Api.WhitespaceIsUnset | client/lib/api.ts:6 | A whitespace-only base is treated as unset. |
| Api.NormalizeBaseNotIdempotent | client/lib/api.ts:6-7 | `"undefined/"` normalises to `"undefined"`, which a second call turns into "". |
| Api.ApiUrl | client/lib/api.ts:12-13 | The URL is the base followed by `/`, and it ends with `p`. It is `base + p` when `p` starts with `/`, else `base + "/" + p`. |
| AddTaskModal.AddTaskDialog.Close | client/components/AddTaskModal.tsx:38-42 | Ignored while submitting. Otherwise the dialog closes and the draft becomes `EmptyTask`. The list is never touched. |
| AddTaskModal.AddTaskDialog.Submit | client/components/AddTaskModal.tsx:54-79 | Sets `submitting` and captures the draft. A draft with `_id` gives an update request to `apiUrl("/api/updatetask")`; otherwise an add request to `apiUrl("/api/addtask")` carrying the user's email. |
| AddTaskModal.AddTaskDialog.Complete | client/components/AddTaskModal.tsx:65-95 | On success, the update path stores the captured draft and the add path appends the server's task. The draft is then reset and the dialog closes. On failure the store, draft and open flag are unchanged. `submitting` is false afterwards. |
| AddTaskModal.AddTaskDialog.HandleAddTask | client/components/AddTaskModal.tsx:54-96 | The whole handler without interleaved user actions: the request of `Submit` and the outcome of `Complete`. |
| AddTaskModal.AddTaskDialog.SetTitle | client/components/AddTaskModal.tsx:130 | Only the draft's title changes. |
| AddTaskModal.AddTaskDialog.SetDescription | client/components/AddTaskModal.tsx:152-154 | Only the draft's description changes. |
| AddTaskModal.AddTaskDialog.SetStatus | client/components/AddTaskModal.tsx:176 | Only the draft's status changes. |
| AddTaskModal.AddTaskDialog.SetPriority | client/components/AddTaskModal.tsx:208 | Only the draft's priority changes. |
| AddTaskModal.AddTaskDialog.SetDueDate | client/components/AddTaskModal.tsx:241-245 | Only the draft's due date changes, and an empty input clears it. |
| AddTaskModal.CloseDuringSubmitThenFail | client/components/AddTaskModal.tsx:38-95 | A close during a submission that then fails leaves the dialog open with the typed draft, and the store unchanged. |
| Hero.IndexOf | client/components/Hero.tsx:38 | `indexOf` is -1 exactly when the needle never occurs. Otherwise it is an occurrence with none earlier. |
| Hero.MatchesAt | client/components/Hero.tsx:38 | A case-insensitive occurrence: the lowered haystack holds the lowered needle at that index. |
| Hero.SplitOnce | client/components/Hero.tsx:37-45 | `pre + hit + post` is the haystack. With no case-insensitive match the result is `[haystack, "", ""]`. With a match, `hit` has the needle's length and equals it up to case, and it starts at the first match. |
| Hero.SplitOnceEmptyNeedle | client/components/Hero.tsx:37-45 | An empty needle gives `["", "", haystack]`. |
| UserModel.NormalizeEmail | server/models/User.js:16-17 | The `trim` and `lowercase` setters never lengthen the email, and give the empty string exactly for an all-whitespace one. |
| UserModel.NormalizeEmailIdempotent | server/models/User.js:16-17 | Trimming and lowercasing an already normalised email changes nothing, so a stored email finds its own document. |
| UserModel.Cast | server/models/User.js:6-26 | A saved document holds the trimmed name, the normalised email and the password field as given. |
| UserModel.Valid | server/models/User.js:6-26 | The schema's validators: a name of 2 to 64 characters, an email matching the pattern, a password field of at least 6. |
| UserModel.CastIsNormalized | server/models/User.js:9-17 | A saved document's email is trimmed and lowercase, and its name is trimmed. |
| UserModel.IndexOfChar | server/models/User.js:19 | The first index of a character, or -1 when it does not occur. |
| UserModel.ValidDomain | server/models/User.js:19 | `([\w-]+\.)+[\w-]{2,}`: a valid domain contains a dot and starts and ends with a label character. |
| UserModel.ValidEmail | server/models/User.js:19 | The whole pattern: a valid address contains `@`, starts with a local-part character and ends with a label character. |
| UserModel.ValidEmailParts | server/models/User.js:19 | A non-empty local part of `[\w.-]`, then `@`, then a valid domain, matches the pattern. |
| UserModel.AcceptedDomain | server/models/User.js:19 | `x.com` is a valid domain. |
| UserModel.AcceptedEmail | server/models/User.js:19 | `jane@x.com` matches the pattern. |
| UserModel.RejectedEmailWithoutDot | server/models/User.js:19 | `jane@x` does not match: the domain needs a dot. |
| UserModel.RejectedEmailWithoutLocalPart | server/models/User.js:19 | `@x.com` does not match: the local part is not empty. |
| UserModel.Transformed | server/models/User.js:32-40 | The serialised keys are the document's keys minus `_id`, `password` and `__v`, plus `id`. `id` holds the old `_id`, and every other key keeps its value. |
| UserModel.Transform | server/models/User.js:33-39 | The in-place transform leaves exactly that object. |
| UserModel.SerializedUserHidesSecrets | server/models/User.js:28-40 | A serialised user has the keys id, name, email, createdAt and updatedAt. It never has the password. |
| AuthController.AuthService.Candidate | server/controllers/AuthController.js:22-23 | The document `register` builds holds the hash of the password, the trimmed name, and the normalised email it was looked up by. |
| AuthController.AuthService.Register | server/controllers/AuthController.js:9-33 | Missing or empty fields give 400 and an existing normalised email gives 400, both leaving the table unchanged. A document failing validation gives 500, also unchanged. Otherwise the hashed-password document is inserted under its email with 201. No existing entry ever changes. The service invariant holds before and after: every document is filed under its own email. |
| AuthController.AuthService.Login | server/controllers/AuthController.js:35-84 | Missing fields give 400. An unknown email and a wrong password give the identical 401. An empty stored password or an unset secret gives 500. Otherwise 200 with a 28-day token over the stored id, email and name, and that email and name, which is the email looked up. It requires the service invariant. `login` has no way to change the table. |
| AuthController.AuthService.constructor | server/controllers/AuthController.js:1-3 | The controller works over the users collection, bcrypt and jwt. The service is built from them and must start on a table filed by email, so the invariant holds from the start. |
| AuthController.AuthService.Inv | server/models/User.js:18 | The invariant: every document is filed under its own stored email. |
| AuthController.EmailsUnique | server/models/User.js:18 | `unique: true`: in a table that meets the invariant, two documents share an email exactly when they are the same entry. |
| AuthController.ValidatorsSeeHash | server/models/User.js:20-25 | A registration passes the validators iff the trimmed name has 2 to 64 characters, the normalised email matches, and the password's hash has at least 6 characters. The plaintext's length plays no part. |
| AuthController.ShortPasswordAccepted | server/models/User.js:20-25 | A password shorter than 6 characters whose hash is long enough passes the validators, given a valid name and email. |
| AuthController.RegisterThenLogin | server/controllers/AuthController.js:22-79 | After a successful registration, logging in with the same password and the email in any case or padding succeeds, given that bcrypt accepts its own hash and the secret is set. The reply carries the stored email and the trimmed name. |

## Left out

- Rendering, toasts, `localStorage`, routing and every `fetch`: a request's outcome enters only as an input (`ok`, the server's task).
- Asynchrony: only the await inside `handleAddTask` is modelled, by splitting it in two. Other interleavings of handlers are not modelled.
- The store's source: `updateTask`, `addTask`, `setTasks` and `EmptyTask` follow the stated assumptions.
- TaskList.Sort: an insertion sort stands in for the engine's `Array.prototype.sort`. The result is a permutation with no strict inversion. Every conforming engine returns such a result when the comparator is consistent on the input. That holds for the title and priority keys, and for the due-date key with at most one undated task (`CompareAntisymmetric`, `CompareChain`). With two or more undated tasks under the due-date key the comparator is inconsistent (`UndatedPairInconsistent`). There the language leaves the order implementation-defined and guarantees only the permutation. The `Ordered` clause (dated tasks before undated ones ascending, after them descending) is then a property of the stand-in, and of any sort that places each element by single comparisons. The order among the undated tasks is not claimed in any case.
- TaskList.Processed: its `Ordered` clause for the due-date key with two or more undated tasks describes the stand-in sort, as the `TaskList.Sort` line explains. The membership, length and permutation clauses hold for every engine.
- TaskList.DueDateSortOrder: with two or more undated tasks, the stand-in sort's order, not one the language promises (see `TaskList.Sort`).
- TaskList.OverdueFirstAscending: with two or more undated tasks, the stand-in sort's order, not one the language promises (see `TaskList.Sort`).
- TaskList.OverdueLastDescending: with two or more undated tasks, the stand-in sort's order, not one the language promises (see `TaskList.Sort`).
- Text.CompareStrings: `localeCompare` is replaced by a code-point lexicographic order, with no locale collation.
- String lengths: strings are sequences of Unicode scalar values, while JavaScript counts UTF-16 code units. `minlength`, `maxlength`, `needle.length` and the other lengths therefore differ for characters outside the Basic Multilingual Plane, which count once here and twice in the source.
- Text.Lower: `toLowerCase` is ASCII only. Full Unicode lowering can change a string's length.
- Dates: due dates and "now" are integer timestamps; `date-fns` formatting and `Date` parsing are not modelled (`SetDueDate` takes the parsed value as input).
- bcrypt's salt and cost, the JWT encoding and `expiresIn` handling: these are the service's parameters `hash`, `compare` and `sign`.
- Database failures and races: a failing `findOne` or `save` (other than validation), and two concurrent registrations racing the unique index, are not modelled.
- Request bodies whose fields are not strings: a body field is either a string or absent.
- Mongoose casting of query filters is taken to apply the email's trim and lowercase setters, so a lookup uses the normalised email.
- The schema's `timestamps` option is modelled only as the two fields a serialised document carries.
- Login and register pages, the sidebar, the marketing pages and the server bootstrap are presentation or plumbing outside this core.
