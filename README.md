# Momentum, modelled in Dafny

Momentum is a task manager. This project models three parts of it.

1. **The API server** (FastAPI over SQLAlchemy).
   - Accounts register, log in and read their own profile.
   - Each account keeps its own list of tasks. A free account cannot create a task while it owns 25 or more; cancelling a subscription keeps every task, so a free account can own more than 25.
   - A Stripe subscription lifts that limit. Stripe checkout, the Stripe webhook and cancellation switch an account's `is_subscribed` flag.
2. **The desktop `MomentumLogic`.** It saves, updates, deletes and reads tasks in a local database, and it answers with `(flag, message)` pairs.
3. **The updater's planner.** It scans the installed tree and a downloaded release, and decides which files to update, add and remove. It never touches user data: `app/storage/`, `.env*`, `config.ini*` and `settings.json*`.

How the pieces are modelled:

- **The store.** The database is the class `Models.Database`. It holds a `users` table and a `tasks` table (as `seq`, in row order) and a commit clock.
  - `Models.Consistent` is the invariant every route keeps: unique usernames and ids, every owner a task names is an existing user (desktop tasks have no owner), and timestamps no later than the clock.
  - Routes that write are module-level methods that take the `Database` and modify it. Routes that only read are functions of its snapshot `Db`.
  - `priority` is a nullable column. A create never stores NULL, but an update may send `null`; the server then stores it and fails to serialise the row (500), and the desktop stores it.
- **Outside services are parameters.**
  - Password hashing and JWT issue and decode form a `Crypto` value of functions.
  - Stripe's `checkout.Session.create` and `Webhook.construct_event` are function parameters.
  - Uuid4 ids are parameters, and so is the outcome of a desktop commit.
- **Errors.** Every HTTP error is an `HttpErrors.ApiError`, which carries its status code and `detail` text.
- **The desktop dictionary.** The dict the desktop logic receives is a `TaskDict`, which records for each key whether it is present. A missing key is the `KeyError` the Python raises.
- **The updater's data.** The updater's `files_info` dicts are `FilesInfo` values: insertion order plus a path-to-hash map.
  - The planning loops are methods, proved equal to the functions `Collect` and `Diff`.
  - The lemmas then relate `Diff` to "the scanned installed files agree with the scanned release". The installed scan leaves out ignored names and the release scan does not, so an installed tree identical to the release can still be out of sync (see Findings).

## Model

| member | source | states |
|---|---|---|
| HttpErrors.ApiError.Status | api/dependencies.py:23-43 | 401 exactly for the two authentication failures (the token guard here, and the login refusal at api/routes/auth.py:60-70); 500 exactly for the missing price id, the missing webhook secret, a Stripe failure, a failed commit or a row that fails response validation; every other error is a 4xx (the 500s are raised at api/routes/subscriptions.py:50-133 and by failed commits) |
| HttpErrors.ApiError.Detail | api/routes/subscriptions.py:88-92 | every error has a non-empty detail; a Stripe failure's detail starts with "Stripe error: " and ends with Stripe's own message |
| Models.NewTask | core/models/task.py:14-20 | a new row never has a NULL priority: an omitted (or `None`) priority gets the column default 3, otherwise the priority given |
| Models.OwnerMatchesUserTasks | core/models/task.py:18-23 | the two sides of the user/task relationship agree: a task is in `user.tasks` exactly when its `owner` is that user |
| Models.SetFlag | core/models/user.py:18-20 | setting `is_subscribed` changes only that user's flag and stamp; setting it to its current value changes nothing (no UPDATE is emitted); a real change stamps `updated_at` with a later tick; consistency is kept |
| Models.SetFlagIdempotent | core/models/user.py:18-20 | setting the same flag twice is the same as setting it once |
| Models.DeleteUserCascade | core/models/user.py:23 | deleting a user removes exactly that user and exactly the tasks it owns (delete-orphan cascade), and keeps the store consistent |
| Models.ReplaceTaskRow | core/models/task.py:20 | rewriting one task row at a later tick keeps the store consistent |
| Models.AppendTaskRow | core/models/task.py:14-19 | adding a task row owned by an existing user, with a fresh id, keeps the store consistent |
| Models.RemoveTaskRow | core/models/task.py:14 | removing one task row removes exactly the tasks with that id (ids are unique) and keeps the store consistent |
| Models.Database.SetSubscribed | core/models/user.py:18-20 | the in-place flag update leaves the store equal to `SetFlag` of the old store, and still consistent |
| Models.Database.DeleteUser | core/models/user.py:23 | after deleting a user, neither the user nor any of its tasks remains, and every other task does |
| Dependencies.GetCurrentUser | api/dependencies.py:18-43 | a token succeeds exactly when it decodes, has a `sub` claim, and a stored user has that username; the user returned is that stored user; every failure is the same 401 |
| Dependencies.GetCurrentUserIsThatUser | api/dependencies.py:39-43 | with unique usernames, a token naming a stored user resolves to exactly that user |
| Dependencies.RequireSubscriptionActive | api/dependencies.py:62-69 | admits exactly the tokens that the plain guard admits; the subscription flag plays no part |
| Dependencies.FreeUserPassesSubscriptionGuard | api/dependencies.py:62-69 | a free (unsubscribed) user passes the "subscription active" guard |
| Dependencies.CheckSubscriptionLimits | api/dependencies.py:46-59 | subscribed users are always allowed; a free user is allowed exactly while owning fewer than 25 tasks |
| Dependencies.QuotaIgnoresOtherOwners | api/dependencies.py:55 | tasks owned by anybody else never change the quota decision |
| Dependencies.FreeTierBoundary | api/dependencies.py:55-57 | a free user with 24 tasks may create one more, and is refused after that 25th task is stored |
| Dependencies.AdmittedCreateStaysWithinLimit | api/dependencies.py:52-59 | a create the quota admits never takes a free user beyond 25 tasks |
| AuthRoutes.ResponseOmitsPasswordHash | api/schemas.py:21-25 | the user response does not depend on the password hash, so no response can reveal it |
| AuthRoutes.Register | api/routes/auth.py:18-47 | a taken username gives 400 and changes nothing; otherwise exactly one unsubscribed user is appended, holding the password's hash; the store stays consistent and the username is taken afterwards |
| AuthRoutes.Login | api/routes/auth.py:50-80 | an unknown username or a wrong password gives the same 401; with unique usernames, login succeeds exactly when the stored user's hash verifies the password, and it returns a bearer token for that username |
| AuthRoutes.GetCurrentUserInfo | api/routes/auth.py:83-88 | `/me` succeeds exactly when the guard resolves the token, and then answers with that user's profile; otherwise 401 |
| AuthRoutes.LoginThenMe | api/routes/auth.py:50-88 | the token from a successful login opens `/me` for the same username (when issue and decode agree) |
| AuthRoutes.RegisterThenLogin | api/routes/auth.py:18-80 | right after registering, the same username and password log in |
| TaskRoutes.GetAllTasks | api/routes/tasks.py:18-27 | lists exactly the caller's tasks; an invalid token gives 401; the list fails response validation (500) exactly when one of the caller's tasks has a NULL priority |
| TaskRoutes.GetTaskById | api/routes/tasks.py:30-51 | an absent task and another user's task give the same 404, and only those do; an owned task is returned when it fits `TaskResponse`, and a NULL priority gives 500 |
| TaskRoutes.NullPriorityRowIsUnreadable | api/routes/tasks.py:18-51 | once a task's priority is NULL, both GET endpoints answer its owner with 500 |
| TaskRoutes.CreateTask | api/routes/tasks.py:54-95 | checks the quota (403), then a title the caller already uses (400), then an id collision; on success it appends exactly one task owned by the caller, which always fits the response model; every failure leaves the store unchanged |
| TaskRoutes.ModelDump | api/routes/tasks.py:136-142 | the dump is empty exactly when no field was sent |
| TaskRoutes.ApplyUpdate | api/routes/tasks.py:144-145 | the setattr loop changes exactly the sent fields, and leaves the id, owner and timestamps alone |
| TaskRoutes.UpdateTask | api/routes/tasks.py:98-150 | checks ownership (404), then a title clash with another of the caller's tasks (400), then an empty update (400); once those pass, only that row changes, and `updated_at` moves to a later tick exactly when content changed; the answer is the row if it fits `TaskResponse`, otherwise 500 with the write kept, which is always the case when `null` was sent as priority |
| TaskRoutes.DeleteTask | api/routes/tasks.py:153-177 | removes exactly the caller's task with that id (404 otherwise); afterwards fetching it gives 404 |
| SubscriptionRoutes.GetSubscriptionStatus | api/routes/subscriptions.py:24-39 | reports the caller's own flag; the plan is "premium" exactly for subscribed users and "free" otherwise; the subscription id is always null |
| SubscriptionRoutes.CreateCheckoutSession | api/routes/subscriptions.py:42-92 | checks the guard, then the price id (500), then an existing subscription (400), and calls Stripe in none of those cases; otherwise it makes exactly one subscription-mode request for the caller's email and id, with the configured success and cancel URLs; a created session is answered with "checkout_created" and its URL, a Stripe failure with a 500 carrying Stripe's message |
| SubscriptionRoutes.Reconcile | api/routes/subscriptions.py:136-162 | a completed checkout subscribes exactly the user with the tagged id; a deleted subscription unsubscribes the user with that email; unknown events, blank values and unknown users change nothing; tasks and the other columns never change; a flag that really changes is stamped with the next commit tick, which is the only way the clock moves; consistency is kept |
| SubscriptionRoutes.ReconcileIdempotent | api/routes/subscriptions.py:136-162 | replaying the same webhook event changes nothing further |
| SubscriptionRoutes.CheckoutThenWebhookSubscribes | api/routes/subscriptions.py:74-150 | the completion event for a checkout this route requested subscribes exactly the user who asked, and no one else |
| SubscriptionRoutes.StripeWebhook | api/routes/subscriptions.py:95-162 | a missing signature (400), a missing secret (500), a bad payload or a bad signature (400) each leave the store unchanged; a verified event is acknowledged and applied as `Reconcile` |
| SubscriptionRoutes.CancelSubscription | api/routes/subscriptions.py:165-191 | a free user gets 400 and nothing changes; a subscribed user is switched to free (only their flag and stamp change), and the guard then sees them unsubscribed |
| DesktopLogic.Patched | core/logic.py:54-57 | the bulk update sets the title, plus details and priority (possibly to NULL) when those keys are present, stamps `updated_at`, and keeps the id, owner and creation time |
| DesktopLogic.MomentumLogic.constructor | core/logic.py:7-8 | the logic object works on the database it was given |
| DesktopLogic.MomentumLogic.SaveTask | core/logic.py:10-33 | an empty dict, a title already used by any task, or a failed commit each give (True, message) and change nothing; a missing key raises `KeyError` in the order title, details, priority; a save appends exactly one task (a `None` priority takes the default 3) and answers (False, "Task Saved Successfully"), after which that title is taken |
| DesktopLogic.MomentumLogic.UpdateTask | core/logic.py:35-62 | an empty id or dict is refused; an unknown id gets "No Task Found By Id"; an unchanged title and details give "No Changes Made"; only a successful write changes the store, and afterwards fetching the task shows the new title, details and priority (a `None` priority is stored as NULL) |
| DesktopLogic.MomentumLogic.DeleteTask | core/logic.py:64-73 | deletes every task with that id, after which fetching the id finds nothing; a failed commit changes nothing |
| DesktopLogic.MomentumLogic.GetAllTasks | core/logic.py:75-82 | returns exactly the stored tasks, or None when the query fails |
| DesktopLogic.MomentumLogic.GetTaskById | core/logic.py:84-91 | returns a stored task with that id exactly when one exists (and the query succeeds) |
| Updater.StartsWithAny | updater/utils/update_thread.py:41-45 | true exactly when the path starts with one of the patterns |
| Updater.ShouldPreserveFile | updater/utils/update_thread.py:32-45 | a path is user data exactly when it starts with one of the four preserve prefixes |
| Updater.PreserveIsPlainPrefix | updater/utils/update_thread.py:34-44 | the preserve test is a plain prefix test: ".envrc", "settings.json.bak" and "app/storage/momentum.db" are preserved, while "api/.env" and "app/main.py" are not |
| Updater.MatchesAny | updater/utils/update_thread.py:80-86 | true exactly when one of the ignore patterns matches the name |
| Updater.ShouldIgnore | updater/utils/update_thread.py:77-86 | a name is ignored exactly when an ignore pattern matches it: a suffix test for a leading `*`, a substring test for the rest |
| Updater.BackupPatternIsLiteral | updater/utils/update_thread.py:77-85 | `backup_*` is tested as a literal substring, so it matches no real file name (none contains `*`) |
| Updater.IgnoreExamples | updater/utils/update_thread.py:77-86 | "module.pyc", ".gitignore" and "venv" are ignored; "site.py" is not |
| Updater.BaseName | updater/utils/update_thread.py:82-85 | `path.name` is the last '/'-separated part of the path |
| Updater.Put | updater/utils/update_thread.py:61-65 | storing a path keeps the dict well formed and sets exactly that key |
| Updater.Collect | updater/utils/update_thread.py:47-112 | the scan's keys are exactly the paths of the kept items, and each hash comes from one of those items |
| Updater.GetReleaseFilesInfo | updater/utils/update_thread.py:47-72 | the release scan records every file of the release, with its hash |
| Updater.GetCurrentFilesInfo | updater/utils/update_thread.py:74-112 | the installed scan records every file that is neither ignored nor preserved; no preserved or ignored path appears |
| Updater.UpdatesMembers | updater/utils/update_thread.py:202-214 | a path is queued for update exactly when it is unpreserved and present in both trees with different hashes |
| Updater.AdditionsMembers | updater/utils/update_thread.py:202-216 | a path is queued for adding exactly when it is unpreserved and only in the release |
| Updater.RemovalsMembers | updater/utils/update_thread.py:218-226 | a path is queued for removal exactly when it is unpreserved and only installed |
| Updater.PlanUpdate | updater/utils/update_thread.py:196-226 | the two comparison loops compute the plan `Diff` |
| Updater.CompareReleaseFiles | updater/utils/update_thread.py:202-216 | the loop over the release produces the update and add lists of `Diff` |
| Updater.FindRemovedFiles | updater/utils/update_thread.py:218-226 | the loop over the installed files produces the remove list of `Diff` |
| Updater.DiffMembership | updater/utils/update_thread.py:196-226 | each list of the plan holds exactly the paths its rule selects; preserved paths are never in any list |
| Updater.DiffDisjoint | updater/utils/update_thread.py:196-226 | no path is in two lists of the plan, and no preserved path is in any |
| Updater.Conclude | updater/utils/update_thread.py:228-232 | "already up to date" is reported exactly when all three lists are empty; otherwise the counts are the list lengths |
| Updater.FinishMessage | updater/utils/update_thread.py:304-309 | the message is "Already up to date!" exactly in the up-to-date case |
| Updater.UpToDateIffInSync | updater/utils/update_thread.py:196-232 | the updater says "up to date" exactly when the scanned installed files agree with the scanned release outside user data |
| Updater.InSyncPlansNothing | updater/utils/update_thread.py:196-232 | scanned installed files that agree with the scanned release get an empty plan |
| Updater.OutOfSyncPlansSomething | updater/utils/update_thread.py:196-232 | scanned installed files that differ from the scanned release outside user data get a non-empty plan |
| Updater.ApplyPlanSyncs | updater/utils/update_thread.py:260-295 | carrying out the plan makes the scanned installed files agree with the scanned release outside user data, and leaves every user-data file exactly as it was |
| Updater.AsWrittenRemovesVenvFile | updater/utils/update_thread.py:77-99 | as written, an installed file under `venv/` that is not in the release is planned for removal |
| Updater.CorrectedIgnoresFolders | updater/utils/update_thread.py:77 | with the ignore test applied to every path component, anything under an ignored folder is ignored |
| Updater.CorrectedPlanSparesIgnored | updater/utils/update_thread.py:77-112 | with that test, no file under an ignored folder is ever planned for removal or update |
| Updater.AsWrittenIgnoredReleaseFileIsReAdded | updater/utils/update_thread.py:47-112 | as written, a shipped file whose name is ignored (and is not user data) is planned for adding even when installed identically, so the run never ends "Already up to date!" |
| Updater.GitignoreIsIgnored | updater/utils/update_thread.py:77-86 | `.gitignore` is an ignored name, because it contains `.git` |
| Updater.GitignoreNotPreserved | updater/utils/update_thread.py:32-45 | `.gitignore` is not user data |
| Updater.AsWrittenShippedGitignoreIsNeverUpToDate | updater/utils/update_thread.py:47-232 | a release shipping `.gitignore`, installed identically, is never reported up to date |
| Updater.CorrectedIdenticalTreeIsUpToDate | updater/utils/update_thread.py:47-232 | with the same corrected filter on both scans, an installation holding the release's files plus any ignored files or user data is reported up to date |

## Left out

- Concurrency. Each route runs alone against the store, so the quota's count-then-insert race between two concurrent creates is not modelled.
- Transactions are modelled only as far as the routes use them. A failed commit leaves the store unchanged; the routes never commit partially.
- Password hashing and JWT internals: `api/authentication` is not part of this model. Hashing, verification, issue and decode are arbitrary functions, and `Login` and `LoginThenMe` assume only what their requires state.
- Stripe internals. Session creation and event construction are function parameters, and the webhook's JSON payload is already decoded into an event.
- Wall-clock time. Timestamps are ticks of a commit clock, and `server_default=now()` and `onupdate=now()` take the commit's tick.
- Response validation only for the task priority, the one column a request can make NULL. Serialisation otherwise, HTTP headers (such as `WWW-Authenticate`), CORS, and the app wiring in `api/main.py`.
- The desktop GUI, the database session setup and the updater's pages are not modelled. Only `MomentumLogic` and the planning part of the update thread are.
- Updater I/O is not modelled:
  - the download and extraction, the backup copy, and the progress signals;
  - `should_stop` cancellation and the exception path;
  - the removal of empty directories.
  - The trees are given as lists of items with a relative path, a file flag and a hash (None when hashing fails). Paths use '/' as the separator.
- Updater.Collect: the stored `path` and `size` entries of `files_info` are not kept, because the plan compares only hashes.
- Updater.ApplyPlanSyncs: assumes each copy succeeds and that each written file has the release's hash. The source ignores only a failed unlink, which this lemma does not cover.
- DesktopLogic.MomentumLogic.SaveTask: dict keys other than title, details and priority are not modelled. `save_task` reads only those three keys, so extra keys matter only to its emptiness test, and a dict holding them is never empty.
- DesktopLogic.MomentumLogic.UpdateTask: dict keys other than title, details and priority are not modelled. `.update(updated_task)` writes every key of the dict to the row, so `{"title": "x", "user_id": "u"}` also changes the owner, and a key that names no column makes the bulk update raise ("Failed to Update Task"). `TaskDict` cannot express either case.
- DesktopLogic.MomentumLogic.GetTaskById: a query that fails is not told apart from an id that is not found. The source returns None for both.
- The desktop logic prints the exception text on its failure branches; console output is not modelled.
- Neither the server nor the desktop checks a title for emptiness after trimming; the model follows the code.

## Findings

| source | as written | input that shows it | evidently intended | confidence | as-written member | corrected member |
|---|---|---|---|---|---|---|
| updater/utils/update_thread.py:77-112 | `should_ignore` tests only `path.name`, and `backup_*` is tested as a literal substring, so files inside `venv/`, `.git/` or `backup_v*/` are not ignored | an installed `venv/lib/site.py` that is absent from the release is added to `files_to_remove` and deleted by the update | files under those folders are skipped by the scan, so the update never plans them for removal or overwrite | not executed | Updater.AsWrittenRemovesVenvFile | Updater.CorrectedPlanSparesIgnored |
| updater/utils/update_thread.py:47-72 | the release scan keeps every file, while the installed scan (lines 96-99) drops ignored names | a release that ships `.gitignore` (or any `*.pyc`, or a name containing `__pycache__`, `venv` or `.git`), installed identically: the file is planned for adding, copied again, and "Already up to date!" is never reported | both scans apply the same ignore filter, so an identical installation is up to date | not executed | Updater.AsWrittenShippedGitignoreIsNeverUpToDate | Updater.CorrectedIdenticalTreeIsUpToDate |
