# affirmME in Dafny

affirmME is a browser extension. It keeps a daily task list, counts a streak
of days with a completed task, and asks an on-device summarizer model for a
short affirmation about what was done today. It also has a separate, simpler
to-do list. This project models the three pieces that hold the logic and
proves what they promise.

- `storage.dfy` (module `Storage`) models the daily task store, `StorageManager`.
  - It is a class over the three keys `dailyTasks`, `lastActiveDate` and
    `streakInfo`. A key that is not set is `None`.
  - The task operations roll the store over to today first. Those are
    `getTodaysTasks` and the operations built on it: `addTask`, `toggleTask`,
    `deleteTask`, `getCompletedTasks` and `getProgress`. A stored day that is
    not today empties the items. The operation then reads or changes the
    items and writes them back.
  - `clearAllTasks`, `_getStreakInfo`, `getStreak` and
    `_updateStreakOnCompletion` never call `getTodaysTasks`, so they do not
    roll over.
  - Each method is specified against a function of the old state: `Rollover`,
    `ToggleItems`, `WithoutId`, `CompletedOnly` or `StreakAfterCompletion`. The
    lemmas are about those functions.
- `gemini.dfy` (module `Gemini`) models the affirmation service, `GeminiAPI`.
  - The session and its initialisation guard form a class. Its wait loop is
    proved against `InitTransition`.
  - The deadline-bounded availability poll is a loop, proved against `PollFrom`.
  - The prompt, the fallback pick and the failure classification are
    functions.
  - The summarizer runtime is an oracle. Each call to `availability`,
    `create` and `summarize` is passed in as the `Attempt` it settles with: a
    value, or an error with its message.
  - `destroy()` is not passed in. `destroySession` catches and logs anything
    it throws (gemini-api.js:247-252), so its outcome changes nothing.
- `todo.dfy` (module `Todo`) models the index-based to-do list. The handlers
  load the list, change it and save it. `TodoStore` holds the two keys
  `tasks` and `listTitle`.
- `outcomes.dfy`, `seqs.dfy` and `text.dfy` hold what the three modules share:
  - `Option`, `Result` and `Attempt`;
  - `Array.prototype.filter`, with what it keeps;
  - the JavaScript string operations the code calls: `trim`, `includes`,
    `join`, and a count inside a template literal;
  - `split` on one character. The modelled code does not call it: the date
    helpers that do (storage.js:7, 216) are left out. `Text.Split` is the
    inverse of `join` that `Gemini.PromptContextLines` uses to read the
    prompt back line by line.

Time, identifiers and randomness are parameters:
- `today` is a day number, and the day before it is `today - 1`;
- `now` is the completion time;
- the new task's `id` is passed in;
- `draw` is the value `Math.random()` would give.

Where the code does something other than its documented behaviour, the model
follows the code:
- On a completely empty store, `getTodaysTasks` finds no stored date and
  resets first. That writes `dailyTasks`, so the branch that initialises
  `streakInfo` (storage.js:66-76) does not run, and the streak key stays unset.
  `_getStreakInfo` then reports `{count: 0, lastDate: null}` all the same.
  `Storage.RolloverInitialisesStreakOnlyWithoutItems` states exactly when
  that branch runs.
- `isFirstCompletion` is "this toggle went from open to done"
  (storage.js:153). A task that is checked, unchecked and checked again
  reports it a second time (`Storage.RecheckIsFirstCompletionAgain`). The
  test at test.js:67-69 expects otherwise. It is not the day's first
  completion either: a second task completed later the same day reports it
  too (`Storage.ToggleItems`).
- Toggling an unknown id fails with a not-found error and writes no task
  change. The rollover that `getTodaysTasks` performs before the lookup has
  still happened.
- `generateAffirmation` stops early only when availability is "unavailable"
  (gemini-api.js:284). That is a value `checkAvailability` passes through
  from the runtime, not its "no". On "no" the call goes on to open a session
  (`Gemini.GeminiApi.GenerateAffirmation`).
- `checkAvailability` never throws, so the poll's `catch` is dead. See
  Findings.

## Model

| member | source | states |
|---|---|---|
| Storage.Rollover | storage.js:52-82 | after the lazy rollover the task key is set and the stored day is today |
| Storage.RolloverClearsStaleDay | storage.js:37-61 | a stored day other than today, or none, empties the items and dates them today; the streak is left alone |
| Storage.RolloverKeepsCurrentDay | storage.js:58-82 | on the stored day a store with items is not touched, so tasks added since survive |
| Storage.RolloverIdempotent | storage.js:52-82 | a second rollover on the same day changes nothing |
| Storage.RolloverInitialises | storage.js:66-76 | on the stored day with the task key missing, the store becomes no items, dated today, with streak `{count: 0, lastDate: null}` |
| Storage.RolloverInitialisesStreakOnlyWithoutItems | storage.js:66-76 | the streak is initialised only when the day is current but the task key is missing; an empty store keeps no streak |
| Storage.NewTask | storage.js:94-99 | a new task carries the given id and text, is open and has no completion time |
| Storage.FindById | storage.js:118 | the position of the first task with the id; none exactly when no task has it |
| Storage.FindByIdAfterUpdate | storage.js:118-125 | changing a task in place, keeping its id, does not move where an id is found |
| Storage.Flip | storage.js:124-133 | a toggle flips `completed`; an open-to-done flip sets the completion time to the supplied `now`, a done-to-open flip clears it; id and text are kept |
| Storage.ToggleItems | storage.js:114-154 | not-found exactly for an unknown id; otherwise the items are the old items with only the first task with the id replaced by its `Flip` at `now`, and that task is returned with `isFirstCompletion` equal to "now done" |
| Storage.ToggleKeepsWellFormed | storage.js:124-135 | distinct ids and "time set iff done" survive a toggle |
| Storage.ToggleTwice | storage.js:124-133 | two toggles restore `completed` and report opposite first-completion flags; they restore the whole task when it started open; a task that started done ends with the second toggle's time |
| Storage.RecheckIsFirstCompletionAgain | storage.js:151-154 | checked, unchecked and checked again reports a first completion twice |
| Storage.FilterKeepsWellFormed | storage.js:165 | keeping some tasks of a well-formed sequence keeps it well formed |
| Storage.DeleteRemovesExactlyThatId | storage.js:165 | deletion removes every task with the id and keeps every other task, as often as it occurs, in its order |
| Storage.DeleteAbsentIsNoop | storage.js:165 | deleting an unknown id changes nothing and is no error |
| Storage.DeletePresentRemovesOne | storage.js:165 | with distinct ids, deleting a present id removes exactly one task |
| Storage.AddThenDeleteRestores | storage.js:161-166 | deleting the task just appended gives back the earlier items |
| Storage.AppendKeepsWellFormed | storage.js:94-108 | appending a new task with a fresh id keeps the items well formed |
| Storage.CompletedOnlyIsExact | storage.js:174-183 | the completed-task query returns exactly the completed tasks, each as often as it occurs, in order |
| Storage.StreakAfterCompletion | storage.js:211-234 | after a completion the streak is dated today, and it is at least 1 unless it was already credited today |
| Storage.StreakOncePerDay | storage.js:222-225 | a second completion on the same day leaves the streak unchanged |
| Storage.StreakGapResets | storage.js:227-231 | after a gap, or with no day credited, the streak restarts at 1 |
| Storage.StreakFollowsDays | storage.js:219-234 | over completion days without gaps the count grows by one per new day and not for further completions on the same day |
| Storage.StreakCountsDays | storage.js:219-234 | a gap-free run of completion days after a broken streak counts the days it covers |
| Storage.StreakOfConsecutiveDays | storage.js:219-234 | completions on n consecutive days give a streak of n dated the last day |
| Storage.StorageManager.CheckStorageApi | storage.js:10-17 | succeeds exactly when the storage API exists |
| Storage.StorageManager.IsNewDay | storage.js:19-35 | true exactly when the stored day is not today |
| Storage.StorageManager.ResetForNewDay | storage.js:37-50 | writes no items and today's date, nothing else |
| Storage.StorageManager.GetTodaysTasks | storage.js:52-87 | the state becomes the rollover of the old state and today's items are returned; stored tasks stay well formed |
| Storage.StorageManager.AddTask | storage.js:89-112 | after the rollover, the new open task is appended last and returned; earlier items are kept in order; a fresh id keeps the items well formed |
| Storage.StorageManager.ToggleTask | storage.js:114-159 | the result and items are those of `ToggleItems` on the rolled-over items; on a first completion the streak advances unless its write is refused, which does not change the result |
| Storage.StorageManager.DeleteTask | storage.js:161-172 | after the rollover, the items are those without the id; with well-formed items, deleting a present id removes exactly one task |
| Storage.StorageManager.GetCompletedTasks | storage.js:174-188 | returns the completed tasks of today's items |
| Storage.StorageManager.GetProgress | storage.js:190-196 | returns the number of tasks and of completed tasks, the second never larger |
| Storage.StorageManager.GetStreakInfo | storage.js:199-203 | returns the stored streak, or count 0 with no date |
| Storage.StorageManager.GetStreak | storage.js:205-208 | returns the stored count, or 0 |
| Storage.StorageManager.UpdateStreakOnCompletion | storage.js:211-236 | writes `StreakAfterCompletion` of the stored streak, or nothing when the store refuses |
| Storage.StorageManager.ClearAllTasks | storage.js:238-247 | empties the items and changes no other key |
| Gemini.CheckAvailability | gemini-api.js:81-97 | the runtime's answer, or "no" when asking throws |
| Gemini.GetRandomFallback | gemini-api.js:347-350 | always one of the five fallback affirmations |
| Gemini.ClassifyFailure | gemini-api.js:313-344 | quota-exceeded with the daily-limit text exactly when the message mentions quota; requires-activation with the interact text exactly when it mentions activation but not quota; otherwise error with the random fallback; always a fallback |
| Gemini.QuotaBeforeActivation | gemini-api.js:319-335 | any message mentioning quota, whether or not it mentions activation, is a quota failure with the daily-limit text |
| Gemini.QuotaBeforeActivationExample | gemini-api.js:319-335 | "activation quota" mentions both words and is a quota failure |
| Gemini.BuildPromptContext | gemini-api.js:257-264 | the fixed "no tasks" text exactly when there are no tasks |
| Gemini.PromptContextLines | gemini-api.js:262-263 | for single-line task texts the context splits into the count line and one bullet per task, in order; the count reads back as the number of tasks |
| Gemini.InitTransition | gemini-api.js:103-182 | a returned session is the stored one; an existing session is reused; the guard is never left set by the call itself; a throw comes only from creation and clears the session; a new session comes only from creation or from the initialisation in flight |
| Gemini.GuardSetNeverCreates | gemini-api.js:110-118 | with the guard set, the outcome does not depend on creation and never throws |
| Gemini.WaiterGetsInFlightOutcome | gemini-api.js:110-118 | a caller finding the guard set gets the in-flight initialisation's session, with the guard released, when it settles within 50 rounds of 200 ms; otherwise it gets no session and the guard stays set |
| Gemini.CreationReleasesGuard | gemini-api.js:120-181 | on the creation path the guard is released; success stores and returns the session; failure stores none and rethrows the same error |
| Gemini.AffirmationFrom | gemini-api.js:296-344 | a thrown initialisation error is classified by `ClassifyFailure`; a null session is classified as the TypeError of calling `summarize` on null; with a session, a returned summary of the built prompt and context is a success with that text, and a thrown summary error is classified; fallback exactly when not successful |
| Gemini.NullSessionIsGenericError | gemini-api.js:296-343 | a null session ends in a generic error with a fallback text |
| Gemini.GeminiApi.constructor | gemini-api.js:15-18 | no session and no guard |
| Gemini.GeminiApi.InitSession | gemini-api.js:103-182 | the result and new fields are those of `InitTransition` |
| Gemini.GeminiApi.DestroySession | gemini-api.js:245-255 | the session is cleared whether or not destroying it throws; the guard is unchanged |
| Gemini.GeminiApi.GenerateAffirmation | gemini-api.js:273-345 | "unavailable" gives a fallback without touching the session; otherwise the session step of `InitTransition` followed by `AffirmationFrom`; fallback exactly when not successful |
| Gemini.PollFrom | gemini-api.js:189-243 | the poll ends ready, unsupported or timed out; ready only after a probe answered "readily" before the deadline; unsupported only after a probe that read as "no"; timed out once the deadline has passed |
| Gemini.PollReadyOnReadily | gemini-api.js:200-214 | a probe before the deadline that answers "readily" ends the poll ready |
| Gemini.PollNotSupportedOnNo | gemini-api.js:222-229 | a probe before the deadline that reads as "no" ends the poll unsupported; as written a throwing probe reads as "no" |
| Gemini.PollWaitsAfterDownload | gemini-api.js:216-220 | after an "after-download" answer the next probe comes `POLL_INTERVAL_MS` (5000 ms) after this one settles |
| Gemini.PollWaitsAfterRetriedError | gemini-api.js:231-234 | with probe errors retried, a throwing probe is waited out for 5000 ms before the next probe |
| Gemini.PollReprobesOnOtherAnswer | gemini-api.js:195-229 | any other answer falls through the loop: the next probe is made as soon as this one settles |
| Gemini.PollTimesOutWithoutAnswer | gemini-api.js:195-242 | when no probe before the deadline answers "readily" or "no", the poll times out |
| Gemini.PollForAvailability | gemini-api.js:189-243 | the loop as written returns `PollFrom` without retrying probe errors; available exactly when ready |
| Gemini.PollForAvailabilityRetrying | gemini-api.js:231-234 | the loop with probe errors waited out and retried returns `PollFrom` with retries, where unsupported means the runtime answered "no" |
| Gemini.ProbeErrorEndsPoll | gemini-api.js:195-234 | one throwing probe ends the poll as unsupported although the runtime never answers "no" |
| Gemini.ProbeErrorRetried | gemini-api.js:231-234 | with retries the same runtime is found ready |
| Text.Trim | todo.js:41 | the trimmed string is the slice between leading and trailing white space, starts and ends with no white space, and is empty exactly when the input is all white space |
| Todo.NormalizeTitle | todo.js:27-31 | the blurred title is the trimmed value, or the default when that is empty; never empty |
| Todo.NormalizeTitleIdempotent | todo.js:28 | normalising a normalised title changes nothing |
| Todo.Flipped | todo.js:105-111 | only the task at the index changes, its flag flipped and its text kept |
| Todo.FlipTwice | todo.js:108 | toggling the same index twice gives back the list |
| Todo.SpliceStart | todo.js:115 | the splice start: the index clamped to the length, a negative index counted from the end |
| Todo.Spliced | todo.js:113-118 | one element is removed at the start position, the rest keep their order; past the end nothing changes |
| Todo.DeleteFirstAfterAdd | todo.js:98-118 | deleting index 0 right after an add gives back the list |
| Todo.PendingOnly | todo.js:49 | clearing keeps only open tasks that were there |
| Todo.PendingOnlyIsExact | todo.js:47-52 | clearing keeps exactly the open tasks, as often as they occur, in order; a list with none completed is unchanged |
| Todo.PendingOnlyIdempotent | todo.js:49 | clearing twice is clearing once |
| Todo.TodoStore.LoadTasks | todo.js:84-90 | the stored list, or the empty list |
| Todo.TodoStore.LoadTitle | todo.js:12-18 | the stored title; 'To-do List' when none or an empty one is stored |
| Todo.TodoStore.AddTask | todo.js:98-103 | the new open task is first, the others follow in order |
| Todo.TodoStore.SubmitForm | todo.js:39-45 | input empty after trimming changes nothing; otherwise its trimmed text is added |
| Todo.TodoStore.ToggleTask | todo.js:105-111 | no task at the index: nothing written; otherwise the list is `Flipped` |
| Todo.TodoStore.DeleteTask | todo.js:113-118 | the list is `Spliced` at the index and saved |
| Todo.TodoStore.ClearCompleted | todo.js:47-52 | the list becomes its open tasks |
| Todo.TodoStore.BlurTitle | todo.js:27-31 | the normalised title is shown and saved; the tasks are untouched |

## Left out

- popup.js is not part of this model. It holds the rendering, event wiring and banners, and its one decision (ask for an affirmation after a first completion) is glue over the store.
- background.js is not part of this model. Its midnight alarm writes the same reset as `ResetForNewDay`.
- validate.js is not part of this model; it checks packaging files.
- test.js is not part of this model; its mocked storage only serves as evidence.
- The clock is not modelled. `getTodayString` takes a UTC date, while "yesterday" is computed in local time. Both are day numbers here, and yesterday is `today - 1`.
- Task ids are passed in rather than drawn from `Date.now()` and `Math.random()`.
- Storage.StorageManager.AddTask: keeps the items well formed only when the id is fresh. The source does not guarantee unique ids.
- Storage.StorageManager: a read or write of `chrome.storage.local` that rejects is not modelled, except the streak update's. The source rethrows such an error unchanged.
- Stored values of the wrong shape are not modelled, such as a `dailyTasks` object without `items` or a non-numeric count.
- Console logging is left out.
- The 30-second creation warning timer, the `gemini-model-ready`, `gemini-download-progress` and `gemini-download-timeout` events, and the `downloadProgress` field are left out. Nothing reads or updates that field.
- `CREATE_OPTIONS`, `PROMPT_OPTIONS` and `SUPPORTED_LANGUAGES` are left out. `availability()` is called without options, and the latter two are unused.
- `hasUserActivation` always returns true, so the throw that demands activation (gemini-api.js:134-136) cannot happen and is not modelled.
- Gemini.GeminiApi.InitSession: models only one earlier initialisation in flight, given by when it settles. Other interleavings of concurrent calls are not modelled.
- Gemini.GeminiApi.GenerateAffirmation: takes the tasks as a sequence. A null argument would throw at `tasks.length`, before the `try`, and is not modelled.
- Gemini.PollFrom: assumes each probe takes at least one millisecond. The source relies on the clock advancing.
- Todo: `renderTasks` and the DOM are left out.
- Todo: the Enter key only blurs the title field, which `BlurTitle` models.
- Todo: clearing the input box is left out.
- Handlers that interleave their loads and saves are not modelled; each operation runs to completion.

## Findings

| source | as written | input that shows it | evidently intended | confidence | as-written member | corrected member |
|---|---|---|---|---|---|---|
| gemini-api.js:231-234 | `checkAvailability` catches every error and returns "no", so the poll's `catch` never runs and a throwing probe ends the poll as "unsupported" | first probe throws, every later probe answers "readily" (`ErrorThenReady`) | a probe error is logged, waited out for 5000 ms and probed again | high, not executed | Gemini.ProbeErrorEndsPoll | Gemini.PollForAvailabilityRetrying |
