/** The daily task store: today's tasks, the day they belong to, and the
    completion streak, kept under three keys of the browser's key-value store.
    Every task operation first rolls the store over to today when the stored
    day is another one, then reads, changes and writes the task sequence; the
    streak operations and clearing do not roll over. */
module Storage {
  import opened Outcomes
  import Seqs

  /** A calendar day as a day number; the day before `d` is `d - 1`. */
  type Day = int
  type TaskId = string
  /** Milliseconds since the epoch, as `Date.now()` gives them. */
  type Timestamp = int

  datatype Task = Task(id: TaskId, text: string, completed: bool, completedAt: Option<Timestamp>)

  datatype StreakInfo = StreakInfo(count: nat, lastDate: Option<Day>)

  /** The streak a store without streak information reports. */
  const NO_STREAK := StreakInfo(0, None)

  /** The contents of the three keys `dailyTasks` (its `items`),
      `lastActiveDate` and `streakInfo`; `None` is a key that is not set. */
  datatype Snapshot = Snapshot(
    dailyTasks: Option<seq<Task>>,
    lastActiveDate: Option<Day>,
    streakInfo: Option<StreakInfo>)

  datatype Failure =
    | StorageUnavailable     // the storage API is missing
    | StoreRejected          // the key-value store refused a read or a write
    | TaskNotFound(id: TaskId)

  datatype Toggled = Toggled(task: Task, isFirstCompletion: bool)

  datatype Progress = Progress(total: nat, completed: nat)

  // ---------------------------------------------------------------------------
  // Rollover

  /** The stored day is not today, or no day is stored. */
  predicate IsStale(s: Snapshot, today: Day) {
    s.lastActiveDate != Some(today)
  }

  /** The write that starts a new day: no items, dated today. */
  function ResetForDay(s: Snapshot, today: Day): Snapshot {
    s.(dailyTasks := Some([]), lastActiveDate := Some(today))
  }

  /** What the store holds after the lazy rollover of `getTodaysTasks`. */
  function Rollover(s: Snapshot, today: Day): (t: Snapshot)
    ensures t.dailyTasks.Some? && t.lastActiveDate == Some(today)
  {
    var s1 := if IsStale(s, today) then ResetForDay(s, today) else s;
    if s1.dailyTasks.None? then Snapshot(Some([]), Some(today), Some(NO_STREAK)) else s1
  }

  /** The items `getTodaysTasks` returns. */
  function TodaysItems(s: Snapshot, today: Day): seq<Task> {
    Rollover(s, today).dailyTasks.value
  }

  /** A stale store is emptied and re-dated; its streak is left alone. */
  lemma RolloverClearsStaleDay(s: Snapshot, today: Day)
    requires IsStale(s, today)
    ensures Rollover(s, today) == s.(dailyTasks := Some([]), lastActiveDate := Some(today))
  {
  }

  /** On the stored day, rollover leaves a store that has items untouched, so
      what was added since the last rollover survives. */
  lemma RolloverKeepsCurrentDay(s: Snapshot, today: Day)
    requires !IsStale(s, today) && s.dailyTasks.Some?
    ensures Rollover(s, today) == s
  {
  }

  /** Rolling over twice on the same day clears at most once. */
  lemma RolloverIdempotent(s: Snapshot, today: Day)
    ensures Rollover(Rollover(s, today), today) == Rollover(s, today)
  {
  }

  /** On the stored day with the task key missing, the store is initialised:
      no items, dated today, and a streak of zero with no date. */
  lemma RolloverInitialises(s: Snapshot, today: Day)
    requires !IsStale(s, today) && s.dailyTasks.None?
    ensures Rollover(s, today) == Snapshot(Some([]), Some(today), Some(NO_STREAK))
  {
  }

  /** The streak is (re)initialised only when the stored day is today but the
      task key is missing; a store with nothing in it at all is reset by the
      stale-day branch first and keeps no streak information. */
  lemma RolloverInitialisesStreakOnlyWithoutItems(s: Snapshot, today: Day)
    ensures Rollover(s, today).streakInfo != s.streakInfo ==>
              !IsStale(s, today) && s.dailyTasks.None?
    ensures Rollover(Snapshot(None, None, None), today).streakInfo == None
  {
  }

  // ---------------------------------------------------------------------------
  // Well-formed task sequences

  predicate UniqueIds(items: seq<Task>) {
    forall i, j :: 0 <= i < j < |items| ==> items[i].id != items[j].id
  }

  /** A task carries a completion time exactly when it is completed. */
  predicate StampedIffCompleted(t: Task) {
    t.completedAt.Some? <==> t.completed
  }

  predicate WellFormed(items: seq<Task>) {
    && UniqueIds(items)
    && forall i :: 0 <= i < |items| ==> StampedIffCompleted(items[i])
  }

  /** No task in `items` has the id `id`. */
  predicate IdFresh(items: seq<Task>, id: TaskId) {
    forall i :: 0 <= i < |items| ==> items[i].id != id
  }

  /** Keeping some of the tasks of a well-formed sequence keeps it well formed. */
  lemma {:induction false} FilterKeepsWellFormed(p: Task -> bool, items: seq<Task>)
    requires WellFormed(items)
    ensures WellFormed(Seqs.Filter(p, items))
  {
    if items != [] {
      var rest := Seqs.Filter(p, items[1..]);
      FilterKeepsWellFormed(p, items[1..]);
      if p(items[0]) {
        var r := [items[0]] + rest;
        assert Seqs.Filter(p, items) == r;
        forall j | 0 <= j < |rest|
          ensures rest[j].id != items[0].id
        {
          assert rest[j] in rest;
          var k :| 0 <= k < |items[1..]| && items[1..][k] == rest[j];
          assert items[k + 1] == rest[j];
        }
        assert forall i :: 0 < i < |r| ==> r[i] == rest[i - 1];
      }
    }
  }

  // ---------------------------------------------------------------------------
  // Adding, finding, toggling and deleting

  /** The task `addTask` creates. */
  function NewTask(id: TaskId, text: string): (t: Task)
    ensures t.id == id && t.text == text
    ensures !t.completed && t.completedAt == None
  {
    Task(id, text, false, None)
  }

  /** The position of the first task with the id, as `Array.prototype.find` looks. */
  function FindById(items: seq<Task>, id: TaskId): (r: Option<nat>)
    ensures r.Some? ==> r.value < |items| && items[r.value].id == id
    ensures r.Some? ==> forall j :: 0 <= j < r.value ==> items[j].id != id
    ensures r.None? <==> IdFresh(items, id)
  {
    if items == [] then None
    else if items[0].id == id then Some(0)
    else match FindById(items[1..], id)
      case None => None
      case Some(k) => Some(k + 1)
  }

  /** Replacing a task by one with the same id does not move where an id is found. */
  lemma {:induction false} FindByIdAfterUpdate(items: seq<Task>, i: nat, t: Task, id: TaskId)
    requires i < |items| && t.id == items[i].id
    ensures FindById(items[i := t], id) == FindById(items, id)
  {
    if i > 0 {
      assert items[i := t][1..] == items[1..][i - 1 := t];
      FindByIdAfterUpdate(items[1..], i - 1, t, id);
    }
  }

  /** One toggle of one task: the flag flips, and the completion time is set
      on a false-to-true flip and cleared on a true-to-false flip. */
  function Flip(t: Task, now: Timestamp): (r: Task)
    ensures r.id == t.id && r.text == t.text && r.completed == !t.completed
    ensures !t.completed ==> r.completedAt == Some(now)
    ensures t.completed ==> r.completedAt == None
    ensures StampedIffCompleted(r)
  {
    if t.completed then t.(completed := false, completedAt := None)
    else t.(completed := true, completedAt := Some(now))
  }

  datatype ToggleStep = ToggleStep(items: seq<Task>, result: Toggled)

  /** What `toggleTask` does to today's items, and what it reports. */
  function ToggleItems(items: seq<Task>, id: TaskId, now: Timestamp): (r: Result<ToggleStep, Failure>)
    ensures r.Err? <==> IdFresh(items, id)
    ensures r.Err? ==> r.error == TaskNotFound(id)
    ensures r.Ok? ==> |r.value.items| == |items|
    ensures r.Ok? ==> forall j :: 0 <= j < |items| && items[j].id != id ==> r.value.items[j] == items[j]
    ensures r.Ok? ==> var i := FindById(items, id).value;
                      && r.value.items == items[i := Flip(items[i], now)]
                      && r.value.result.task == r.value.items[i]
                      && r.value.result.task.id == id
                      && r.value.result.task.completed != items[i].completed
    ensures r.Ok? ==> r.value.result.isFirstCompletion == r.value.result.task.completed
  {
    match FindById(items, id)
    case None => Err(TaskNotFound(id))
    case Some(i) =>
      var t := Flip(items[i], now);
      Ok(ToggleStep(items[i := t], Toggled(t, t.completed && !items[i].completed)))
  }

  /** Toggling keeps a well-formed sequence well formed. */
  lemma ToggleKeepsWellFormed(items: seq<Task>, id: TaskId, now: Timestamp)
    requires WellFormed(items) && ToggleItems(items, id, now).Ok?
    ensures WellFormed(ToggleItems(items, id, now).value.items)
  {
  }

  /** Toggling twice restores `completed` and reports opposite first-completion
      flags; it restores the whole task when it started uncompleted, while a
      task that started completed ends with the second toggle's time. */
  lemma {:induction false} ToggleTwice(items: seq<Task>, id: TaskId, now1: Timestamp, now2: Timestamp)
    requires ToggleItems(items, id, now1).Ok?
    ensures var once := ToggleItems(items, id, now1).value;
            var twice := ToggleItems(once.items, id, now2);
            var i := FindById(items, id).value;
            && twice.Ok?
            && twice.value.items[i].completed == items[i].completed
            && twice.value.result.isFirstCompletion == !once.result.isFirstCompletion
            && (!items[i].completed && StampedIffCompleted(items[i]) ==> twice.value.items == items)
            && (items[i].completed ==> twice.value.items[i].completedAt == Some(now2))
  {
    var i := FindById(items, id).value;
    var once := ToggleItems(items, id, now1).value;
    FindByIdAfterUpdate(items, i, Flip(items[i], now1), id);
    assert FindById(once.items, id) == Some(i);
    var twice := ToggleItems(once.items, id, now2);
    assert twice.value.items == items[i := Flip(Flip(items[i], now1), now2)];
  }

  /** A task checked, unchecked and checked again is reported as a first
      completion the third time too: the flag means only "this toggle went
      from not completed to completed". */
  lemma RecheckIsFirstCompletionAgain(items: seq<Task>, id: TaskId, n1: Timestamp, n2: Timestamp, n3: Timestamp)
    requires ToggleItems(items, id, n1).Ok?
    requires !items[FindById(items, id).value].completed
    ensures var once := ToggleItems(items, id, n1).value;
            var twice := ToggleItems(once.items, id, n2).value;
            var thrice := ToggleItems(twice.items, id, n3);
            && once.result.isFirstCompletion
            && !twice.result.isFirstCompletion
            && thrice.Ok? && thrice.value.result.isFirstCompletion
  {
    var i := FindById(items, id).value;
    ToggleTwice(items, id, n1, n2);
    var once := ToggleItems(items, id, n1).value;
    var twice := ToggleItems(once.items, id, n2).value;
    FindByIdAfterUpdate(items, i, Flip(items[i], n1), id);
    FindByIdAfterUpdate(once.items, i, Flip(once.items[i], n2), id);
    assert FindById(twice.items, id) == Some(i);
  }

  /** The filter test `deleteTask` keeps a task by. */
  function OtherThan(id: TaskId): Task -> bool {
    (t: Task) => t.id != id
  }

  /** The items `deleteTask` leaves. */
  function WithoutId(items: seq<Task>, id: TaskId): seq<Task> {
    Seqs.Filter(OtherThan(id), items)
  }

  /** Deleting removes every task with the id, keeps every other task as often
      as it occurs, and keeps their order. */
  lemma DeleteRemovesExactlyThatId(items: seq<Task>, id: TaskId)
    ensures forall t :: t in WithoutId(items, id) ==> t.id != id
    ensures forall t: Task :: t.id != id ==> multiset(WithoutId(items, id))[t] == multiset(items)[t]
    ensures Seqs.IsSubsequence(WithoutId(items, id), items)
  {
    Seqs.FilterIsSubsequence(OtherThan(id), items);
    forall t: Task | t.id != id
      ensures multiset(WithoutId(items, id))[t] == multiset(items)[t]
    {
      Seqs.FilterCount(OtherThan(id), items, t);
    }
  }

  /** Deleting an id no task has changes nothing. */
  lemma DeleteAbsentIsNoop(items: seq<Task>, id: TaskId)
    requires IdFresh(items, id)
    ensures WithoutId(items, id) == items
  {
    Seqs.FilterAll(OtherThan(id), items);
  }

  /** With unique ids, deleting a present id removes exactly one task. */
  lemma {:induction false} DeletePresentRemovesOne(items: seq<Task>, id: TaskId)
    requires UniqueIds(items) && !IdFresh(items, id)
    ensures |WithoutId(items, id)| == |items| - 1
  {
    if items[0].id == id {
      assert IdFresh(items[1..], id);
      DeleteAbsentIsNoop(items[1..], id);
    } else {
      assert !IdFresh(items[1..], id);
      DeletePresentRemovesOne(items[1..], id);
    }
  }

  /** Deleting the task just added restores the items it was added to. */
  lemma AddThenDeleteRestores(items: seq<Task>, id: TaskId, text: string)
    requires IdFresh(items, id)
    ensures WithoutId(items + [NewTask(id, text)], id) == items
  {
    Seqs.FilterAppend(OtherThan(id), items, [NewTask(id, text)]);
    DeleteAbsentIsNoop(items, id);
  }

  /** Appending a task whose id is fresh keeps a sequence well formed. */
  lemma AppendKeepsWellFormed(items: seq<Task>, id: TaskId, text: string)
    requires WellFormed(items) && IdFresh(items, id)
    ensures WellFormed(items + [NewTask(id, text)])
  {
  }

  // ---------------------------------------------------------------------------
  // Queries

  function IsCompleted(t: Task): bool {
    t.completed
  }

  /** The completed tasks, in order, as `getCompletedTasks` filters them. */
  function CompletedOnly(items: seq<Task>): seq<Task> {
    Seqs.Filter(IsCompleted, items)
  }

  /** `getCompletedTasks` returns exactly the completed tasks, each as often as
      it occurs, in their original order. */
  lemma CompletedOnlyIsExact(items: seq<Task>)
    ensures forall t :: t in CompletedOnly(items) ==> t.completed
    ensures forall t: Task :: t.completed ==> multiset(CompletedOnly(items))[t] == multiset(items)[t]
    ensures Seqs.IsSubsequence(CompletedOnly(items), items)
    ensures |CompletedOnly(items)| <= |items|
  {
    Seqs.FilterIsSubsequence(IsCompleted, items);
    forall t: Task | t.completed
      ensures multiset(CompletedOnly(items))[t] == multiset(items)[t]
    {
      Seqs.FilterCount(IsCompleted, items, t);
    }
  }

  // ---------------------------------------------------------------------------
  // Streak

  /** The streak after the first completion of a day: unchanged when already
      credited today, one more when last credited yesterday, else restarted at 1. */
  function StreakAfterCompletion(stored: Option<StreakInfo>, today: Day): (r: Option<StreakInfo>)
    ensures r.Some? && r.value.lastDate == Some(today)
    ensures r.value.count >= 1 || r == stored
  {
    var info := stored.GetOr(NO_STREAK);
    if info.lastDate == Some(today) then stored
    else if info.lastDate == Some(today - 1) then Some(StreakInfo(info.count + 1, Some(today)))
    else Some(StreakInfo(1, Some(today)))
  }

  /** A second completion on the same day leaves the streak as the first left it. */
  lemma StreakOncePerDay(stored: Option<StreakInfo>, today: Day)
    ensures var once := StreakAfterCompletion(stored, today);
            StreakAfterCompletion(once, today) == once
  {
  }

  /** A day after a gap of more than one day, or with no day credited yet,
      restarts the streak at 1. */
  lemma StreakGapResets(stored: Option<StreakInfo>, today: Day)
    requires var last := stored.GetOr(NO_STREAK).lastDate; last != Some(today) && last != Some(today - 1)
    ensures StreakAfterCompletion(stored, today) == Some(StreakInfo(1, Some(today)))
  {
  }

  /** The streak after completions on the given days, one after the other. */
  function StreakOver(stored: Option<StreakInfo>, days: seq<Day>): Option<StreakInfo>
    decreases |days|
  {
    if days == [] then stored else StreakOver(StreakAfterCompletion(stored, days[0]), days[1..])
  }

  /** Each completion day is the day of the one before or the next day. */
  predicate NoGaps(days: seq<Day>) {
    forall i :: 0 < i < |days| ==> days[i] == days[i - 1] || days[i] == days[i - 1] + 1
  }

  /** How many of `days` start a new day, counting from the day `prev`. */
  function NewDays(prev: Day, days: seq<Day>): nat
    decreases |days|
  {
    if days == [] then 0 else (if days[0] == prev then 0 else 1) + NewDays(days[0], days[1..])
  }

  /** From a streak last credited on day `p`, completions on days without gaps
      add one per new day and none for further completions on the same day. */
  lemma {:induction false} StreakFollowsDays(info: StreakInfo, p: Day, days: seq<Day>)
    requires info.lastDate == Some(p)
    requires days != [] ==> days[0] == p || days[0] == p + 1
    requires NoGaps(days)
    decreases |days|
    ensures StreakOver(Some(info), days)
         == Some(StreakInfo(info.count + NewDays(p, days), Some(if days == [] then p else days[|days| - 1])))
  {
    if days != [] {
      var next := StreakAfterCompletion(Some(info), days[0]).value;
      assert next.count == info.count + (if days[0] == p then 0 else 1);
      assert NoGaps(days[1..]) by {
        forall i | 0 < i < |days[1..]|
          ensures days[1..][i] == days[1..][i - 1] || days[1..][i] == days[1..][i - 1] + 1
        {
          assert days[1..][i] == days[i + 1] && days[1..][i - 1] == days[i];
        }
      }
      if |days| > 1 {
        assert days[1] == days[0] || days[1] == days[0] + 1;
      }
      StreakFollowsDays(next, days[0], days[1..]);
    }
  }

  /** A run of completion days without gaps, after no streak or a broken one,
      ends with a streak of as many days as the run covers. */
  lemma StreakCountsDays(stored: Option<StreakInfo>, days: seq<Day>)
    requires days != [] && NoGaps(days)
    requires var last := stored.GetOr(NO_STREAK).lastDate; last != Some(days[0]) && last != Some(days[0] - 1)
    ensures StreakOver(stored, days) == Some(StreakInfo(1 + NewDays(days[0], days[1..]), Some(days[|days| - 1])))
  {
    var first := StreakAfterCompletion(stored, days[0]).value;
    assert first == StreakInfo(1, Some(days[0]));
    assert NoGaps(days[1..]) by {
      forall i | 0 < i < |days[1..]|
        ensures days[1..][i] == days[1..][i - 1] || days[1..][i] == days[1..][i - 1] + 1
      {
        assert days[1..][i] == days[i + 1] && days[1..][i - 1] == days[i];
      }
    }
    if |days| > 1 {
      assert days[1] == days[0] || days[1] == days[0] + 1;
    }
    StreakFollowsDays(first, days[0], days[1..]);
  }

  /** `n` consecutive days, starting at `start`. */
  function Run(start: Day, n: nat): (r: seq<Day>)
    ensures |r| == n && forall i :: 0 <= i < n ==> r[i] == start + i
  {
    seq(n, i => start + i)
  }

  lemma {:induction false} NewDaysOfRun(prev: Day, n: nat)
    ensures NewDays(prev, Run(prev + 1, n)) == n
    decreases n
  {
    if n > 0 {
      assert Run(prev + 1, n)[1..] == Run(prev + 2, n - 1);
      NewDaysOfRun(prev + 1, n - 1);
    }
  }

  /** A completion on each of `n` consecutive days gives a streak of `n`. */
  lemma StreakOfConsecutiveDays(stored: Option<StreakInfo>, start: Day, n: nat)
    requires n >= 1
    requires var last := stored.GetOr(NO_STREAK).lastDate; last != Some(start) && last != Some(start - 1)
    ensures StreakOver(stored, Run(start, n)) == Some(StreakInfo(n, Some(start + n - 1)))
  {
    var days := Run(start, n);
    StreakCountsDays(stored, days);
    assert days[1..] == Run(start + 1, n - 1);
    NewDaysOfRun(start, n - 1);
  }

  // ---------------------------------------------------------------------------
  // The store

  class StorageManager {
    /** Whether `chrome.storage.local` exists at all. */
    const storageApiPresent: bool
    var dailyTasks: Option<seq<Task>>
    var lastActiveDate: Option<Day>
    var streakInfo: Option<StreakInfo>

    constructor (storageApiPresent: bool, persisted: Snapshot)
      ensures this.storageApiPresent == storageApiPresent && State() == persisted
    {
      this.storageApiPresent := storageApiPresent;
      dailyTasks := persisted.dailyTasks;
      lastActiveDate := persisted.lastActiveDate;
      streakInfo := persisted.streakInfo;
    }

    function State(): Snapshot
      reads this
    {
      Snapshot(dailyTasks, lastActiveDate, streakInfo)
    }

    /** Stored tasks have distinct ids and a completion time exactly when completed. */
    ghost predicate Valid()
      reads this
    {
      dailyTasks.Some? ==> WellFormed(dailyTasks.value)
    }

    method CheckStorageApi() returns (r: Result<(), Failure>)
      ensures r.Ok? <==> storageApiPresent
      ensures r.Err? ==> r.error == StorageUnavailable
    {
      if !storageApiPresent {
        return Err(StorageUnavailable);
      }
      return Ok(());
    }

    method IsNewDay(today: Day) returns (r: Result<bool, Failure>)
      ensures storageApiPresent ==> r == Ok(IsStale(State(), today))
      ensures !storageApiPresent ==> r == Err(StorageUnavailable)
    {
      var ok :- CheckStorageApi();
      return Ok(lastActiveDate != Some(today));
    }

    method ResetForNewDay(today: Day) returns (r: Result<(), Failure>)
      modifies this
      ensures storageApiPresent ==> r.Ok? && State() == ResetForDay(old(State()), today)
      ensures !storageApiPresent ==> r == Err(StorageUnavailable) && State() == old(State())
    {
      var ok :- CheckStorageApi();
      dailyTasks, lastActiveDate := Some([]), Some(today);
      return Ok(());
    }

    method GetTodaysTasks(today: Day) returns (r: Result<seq<Task>, Failure>)
      modifies this
      ensures storageApiPresent ==>
                r == Ok(TodaysItems(old(State()), today)) && State() == Rollover(old(State()), today)
      ensures !storageApiPresent ==> r == Err(StorageUnavailable) && State() == old(State())
      ensures old(Valid()) ==> Valid()
    {
      // IsNewDay checks for the storage API; once it is found, the reset cannot fail
      var newDay :- IsNewDay(today);
      if newDay {
        var reset := ResetForNewDay(today);
      }
      if dailyTasks.None? {
        dailyTasks, lastActiveDate, streakInfo := Some([]), Some(today), Some(NO_STREAK);
        return Ok([]);
      }
      return Ok(dailyTasks.value);
    }

    method AddTask(today: Day, id: TaskId, text: string) returns (r: Result<Task, Failure>)
      modifies this
      ensures storageApiPresent ==>
                && r == Ok(NewTask(id, text))
                && State() == Rollover(old(State()), today).(
                     dailyTasks := Some(TodaysItems(old(State()), today) + [NewTask(id, text)]))
      ensures !storageApiPresent ==> r == Err(StorageUnavailable) && State() == old(State())
      ensures old(Valid()) && IdFresh(TodaysItems(old(State()), today), id) ==> Valid()
    {
      var items :- GetTodaysTasks(today);
      var task := Task(id, text, false, None);
      items := items + [task];
      dailyTasks := Some(items);
      return Ok(task);
    }

    method ToggleTask(today: Day, id: TaskId, now: Timestamp, streakStoreFault: bool)
      returns (r: Result<Toggled, Failure>)
      modifies this
      ensures storageApiPresent ==>
                var rolled := Rollover(old(State()), today);
                match ToggleItems(rolled.dailyTasks.value, id, now)
                case Err(e) => r == Err(e) && State() == rolled
                case Ok(step) =>
                  && r == Ok(step.result)
                  && State() == rolled.(
                       dailyTasks := Some(step.items),
                       streakInfo := if step.result.isFirstCompletion && !streakStoreFault
                                     then StreakAfterCompletion(rolled.streakInfo, today)
                                     else rolled.streakInfo)
      ensures !storageApiPresent ==> r == Err(StorageUnavailable) && State() == old(State())
      ensures old(Valid()) ==> Valid()
    {
      var items :- GetTodaysTasks(today);
      var found := FindById(items, id);
      if found.None? {
        return Err(TaskNotFound(id));
      }
      var i := found.value;
      var wasCompleted := items[i].completed;
      var task := items[i].(completed := !items[i].completed);
      if task.completed && !wasCompleted {
        task := task.(completedAt := Some(now));
      } else if !task.completed {
        task := task.(completedAt := None);
      }
      dailyTasks := Some(items[i := task]);
      if task.completed && !wasCompleted {
        // a failed streak update is logged and does not change the result
        var streak := UpdateStreakOnCompletion(today, streakStoreFault);
      }
      return Ok(Toggled(task, task.completed && !wasCompleted));
    }

    method DeleteTask(today: Day, id: TaskId) returns (r: Result<(), Failure>)
      modifies this
      ensures storageApiPresent ==>
                && r.Ok?
                && State() == Rollover(old(State()), today).(
                     dailyTasks := Some(WithoutId(TodaysItems(old(State()), today), id)))
      ensures !storageApiPresent ==> r == Err(StorageUnavailable) && State() == old(State())
      ensures old(Valid()) ==> Valid()
      ensures storageApiPresent && old(Valid()) && !IdFresh(TodaysItems(old(State()), today), id) ==>
                |dailyTasks.value| == |TodaysItems(old(State()), today)| - 1
    {
      ghost var wasValid := Valid();
      var items :- GetTodaysTasks(today);
      if wasValid {
        FilterKeepsWellFormed(OtherThan(id), items);
        if !IdFresh(items, id) {
          DeletePresentRemovesOne(items, id);
        }
      }
      dailyTasks := Some(WithoutId(items, id));
      return Ok(());
    }

    method GetCompletedTasks(today: Day) returns (r: Result<seq<Task>, Failure>)
      modifies this
      ensures storageApiPresent ==>
                r == Ok(CompletedOnly(TodaysItems(old(State()), today)))
                && State() == Rollover(old(State()), today)
      ensures !storageApiPresent ==> r == Err(StorageUnavailable) && State() == old(State())
      ensures old(Valid()) ==> Valid()
    {
      var items :- GetTodaysTasks(today);
      return Ok(CompletedOnly(items));
    }

    method GetProgress(today: Day) returns (r: Result<Progress, Failure>)
      modifies this
      ensures storageApiPresent ==>
                var items := TodaysItems(old(State()), today);
                && r == Ok(Progress(|items|, |CompletedOnly(items)|))
                && r.value.completed <= r.value.total
                && State() == Rollover(old(State()), today)
      ensures !storageApiPresent ==> r == Err(StorageUnavailable) && State() == old(State())
      ensures old(Valid()) ==> Valid()
    {
      var items :- GetTodaysTasks(today);
      return Ok(Progress(|items|, |CompletedOnly(items)|));
    }

    method GetStreakInfo() returns (r: Result<StreakInfo, Failure>)
      ensures storageApiPresent ==> r == Ok(streakInfo.GetOr(NO_STREAK))
      ensures !storageApiPresent ==> r == Err(StorageUnavailable)
    {
      var ok :- CheckStorageApi();
      return Ok(streakInfo.GetOr(NO_STREAK));
    }

    method GetStreak() returns (r: Result<nat, Failure>)
      ensures storageApiPresent && streakInfo.None? ==> r == Ok(0)
      ensures storageApiPresent && streakInfo.Some? ==> r == Ok(streakInfo.value.count)
      ensures !storageApiPresent ==> r == Err(StorageUnavailable)
    {
      var info :- GetStreakInfo();
      return Ok(info.count);
    }

    /** Credits today to the streak; `storeFault` says the store refused the
        read or the write, in which case nothing is written. */
    method UpdateStreakOnCompletion(today: Day, storeFault: bool) returns (r: Result<(), Failure>)
      modifies this
      ensures storageApiPresent && !storeFault ==>
                r.Ok? && State() == old(State()).(streakInfo := StreakAfterCompletion(old(streakInfo), today))
      ensures !storageApiPresent || storeFault ==> r.Err? && State() == old(State())
    {
      var info :- GetStreakInfo();
      if storeFault {
        return Err(StoreRejected);
      }
      var count := info.count;
      var last := info.lastDate;
      if last == Some(today) {
        return Ok(());
      }
      if last == Some(today - 1) {
        count := count + 1;
      } else {
        count := 1;
      }
      streakInfo := Some(StreakInfo(count, Some(today)));
      return Ok(());
    }

    method ClearAllTasks() returns (r: Result<(), Failure>)
      modifies this
      ensures storageApiPresent ==> r.Ok? && State() == old(State()).(dailyTasks := Some([]))
      ensures !storageApiPresent ==> r == Err(StorageUnavailable) && State() == old(State())
      ensures old(Valid()) ==> Valid()
    {
      var ok :- CheckStorageApi();
      dailyTasks := Some([]);
      return Ok(());
    }
  }
}
