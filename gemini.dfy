/** The affirmation service over the on-device summarizer: the availability
    probe, the single reusable session with its initialisation guard, the
    deadline-bounded availability poll, the prompt built from completed tasks,
    and the mapping of every failure to a fallback text and a status.
    The summarizer runtime is an oracle: each call to `availability`, `create`
    and `summarize` is given as the `Attempt` it settles with; what `destroy`
    does is caught and logged, so it is not given at all. */
module Gemini {
  import opened Outcomes
  import opened Text
  import Storage

  /** A session handle handed out by the summarizer runtime. */
  datatype Session = Session(handle: nat)

  const FALLBACK_AFFIRMATIONS: seq<string> := [
    "Great work! You're making progress! 🌟",
    "Keep it up! Every task completed is a step forward. 💪",
    "You're doing amazing! Stay focused! ✨",
    "Progress over perfection! You're crushing it! 🎯",
    "Every completion brings you closer to your goals! 🚀"
  ]

  const NO_TASKS_CONTEXT := "No tasks completed yet."
  const PROMPT_REQUEST := "\n\nPlease provide a warm, encouraging affirmation that acknowledges my progress and motivates me to continue."
  const QUOTA_TEXT := "Daily AI limit reached. Try again tomorrow!"
  const ACTIVATION_TEXT := "Please interact with the extension to enable AI features."
  /** The TypeError message of calling `summarize` on a null session. */
  const NULL_SESSION_MESSAGE := "Cannot read " + "properties " + "of null " + "(reading " + "'summarize')"

  /** How many 200 ms rounds a caller waits for an initialisation in flight. */
  const MAX_WAIT_ROUNDS := 50
  const POLL_INTERVAL_MS := 5000
  const DEFAULT_MAX_WAIT_MS := 300000

  // ---------------------------------------------------------------------------
  // Availability and fallbacks

  /** The runtime's availability answer, or "no" when asking throws (a missing
      `Summarizer` included): the probe never fails. */
  function CheckAvailability(probe: Attempt<string>): (r: string)
    ensures probe.Returned? ==> r == probe.value
    ensures probe.Threw? ==> r == "no"
  {
    match probe
    case Returned(availability) => availability
    case Threw(_) => "no"
  }

  /** The fallback at index `floor(draw * 5)`, `draw` being `Math.random()`. */
  function GetRandomFallback(draw: real): (r: string)
    requires 0.0 <= draw < 1.0
    ensures r in FALLBACK_AFFIRMATIONS
  {
    FALLBACK_AFFIRMATIONS[(draw * (|FALLBACK_AFFIRMATIONS| as real)).Floor]
  }

  datatype Status = Success | Unavailable | QuotaExceeded | RequiresActivation | Error {
    /** The status string the caller sees. */
    function Code(): string {
      match this
      case Success => "success"
      case Unavailable => "unavailable"
      case QuotaExceeded => "quota-exceeded"
      case RequiresActivation => "requires-activation"
      case Error => "error"
    }
  }

  datatype AffirmationResult = AffirmationResult(text: string, isUsingFallback: bool, status: Status)

  /** The result a failure with `message` is turned into: a quota message wins
      over an activation message, and anything else is a generic error with a
      random fallback text. */
  function ClassifyFailure(message: string, draw: real): (r: AffirmationResult)
    requires 0.0 <= draw < 1.0
    ensures r.isUsingFallback && r.status != Success
    ensures r.status == QuotaExceeded <==> Contains(message, "quota")
    ensures r.status == RequiresActivation <==> !Contains(message, "quota") && Contains(message, "activation")
    ensures r.status == Error <==> !Contains(message, "quota") && !Contains(message, "activation")
    ensures r.status == QuotaExceeded ==> r.text == QUOTA_TEXT
    ensures r.status == RequiresActivation ==> r.text == ACTIVATION_TEXT
    ensures r.status == Error ==> r.text == GetRandomFallback(draw) && r.text in FALLBACK_AFFIRMATIONS
  {
    if Contains(message, "quota") then AffirmationResult(QUOTA_TEXT, true, QuotaExceeded)
    else if Contains(message, "activation") then AffirmationResult(ACTIVATION_TEXT, true, RequiresActivation)
    else AffirmationResult(GetRandomFallback(draw), true, Error)
  }

  /** A message that mentions quota is a quota failure, whether or not it also
      mentions activation. */
  lemma QuotaBeforeActivation(message: string, draw: real)
    requires 0.0 <= draw < 1.0
    requires Contains(message, "quota")
    ensures ClassifyFailure(message, draw) == AffirmationResult(QUOTA_TEXT, true, QuotaExceeded)
  {
  }

  /** For instance, "activation quota" is classified as a quota failure. */
  lemma QuotaBeforeActivationExample(draw: real)
    requires 0.0 <= draw < 1.0
    ensures Contains("activation quota", "activation") && Contains("activation quota", "quota")
    ensures ClassifyFailure("activation quota", draw).status == QuotaExceeded
  {
    assert OccursAt("activation quota", "activation", 0);
    assert OccursAt("activation quota", "quota", 11);
    QuotaBeforeActivation("activation quota", draw);
  }

  // ---------------------------------------------------------------------------
  // Prompt

  function PromptHeader(n: nat): string {
    "I've completed " + NatToString(n) + " task(s) today:"
  }

  function PromptLine(t: Storage.Task): string {
    "- " + t.text
  }

  function PromptLines(tasks: seq<Storage.Task>): (r: seq<string>)
    ensures |r| == |tasks| && forall i :: 0 <= i < |tasks| ==> r[i] == PromptLine(tasks[i])
  {
    seq(|tasks|, i requires 0 <= i < |tasks| => PromptLine(tasks[i]))
  }

  /** The context sentence for the model: a fixed text when there is nothing to
      report, else a count line followed by one bullet per task. */
  function BuildPromptContext(tasks: Option<seq<Storage.Task>>): (r: string)
    ensures r == NO_TASKS_CONTEXT <==> tasks.None? || tasks.value == []
  {
    if tasks.None? || tasks.value == [] then NO_TASKS_CONTEXT
    else
      var r := PromptHeader(|tasks.value|) + "\n" + Join(PromptLines(tasks.value), "\n");
      assert r[0] == 'I';
      r
  }

  /** For tasks whose texts are single lines, the context splits into the count
      line and one "- text" line per task, in order; the count line reads back
      as the number of tasks. */
  lemma PromptContextLines(tasks: seq<Storage.Task>)
    requires tasks != []
    requires forall i :: 0 <= i < |tasks| ==> '\n' !in tasks[i].text
    ensures Split(BuildPromptContext(Some(tasks)), '\n') == [PromptHeader(|tasks|)] + PromptLines(tasks)
    ensures DecimalValue(NatToString(|tasks|)) == |tasks|
  {
    var header, lines := PromptHeader(|tasks|), PromptLines(tasks);
    var all := [header] + lines;
    ContextIsJoin(tasks);
    HeaderIsOneLine(|tasks|);
    LinesAreOneLine(tasks);
    assert forall p :: p in all ==> p == header || p in lines;
    SplitJoin(all, '\n');
    NatToStringRoundTrip(|tasks|);
  }

  lemma ContextIsJoin(tasks: seq<Storage.Task>)
    requires tasks != []
    ensures BuildPromptContext(Some(tasks)) == Join([PromptHeader(|tasks|)] + PromptLines(tasks), "\n")
  {
    var all := [PromptHeader(|tasks|)] + PromptLines(tasks);
    assert all[1..] == PromptLines(tasks);
  }

  lemma HeaderIsOneLine(n: nat)
    ensures '\n' !in PromptHeader(n)
  {
    var digits := NatToString(n);
    assert '\n' !in digits by {
      forall i | 0 <= i < |digits|
        ensures digits[i] != '\n'
      {
        assert IsDigit(digits[i]);
      }
    }
    assert '\n' !in "I've completed ";
    assert '\n' !in " task(s) today:";
  }

  lemma LinesAreOneLine(tasks: seq<Storage.Task>)
    requires forall i :: 0 <= i < |tasks| ==> '\n' !in tasks[i].text
    ensures forall p :: p in PromptLines(tasks) ==> '\n' !in p
  {
    var lines := PromptLines(tasks);
    forall p | p in lines
      ensures '\n' !in p
    {
      var i :| 0 <= i < |lines| && lines[i] == p;
      assert p == "- " + tasks[i].text;
      assert '\n' !in "- ";
    }
  }

  // ---------------------------------------------------------------------------
  // Session lifecycle

  datatype SessionState = SessionState(session: Option<Session>, isInitializing: bool)

  /** What another, earlier `initSession` still in flight does while a caller
      waits for it: it stays pending, or it settles during the given 200 ms
      round, storing its session (none, if creation failed) and releasing the guard. */
  datatype InFlight = Pending | SettlesDuring(round: nat, outcome: Option<Session>)

  datatype InitStep = InitStep(result: Attempt<Option<Session>>, next: SessionState)

  /** What `initSession` returns and leaves behind: an existing session is
      reused; a caller finding the guard set never creates and returns whatever
      session exists once the initialisation in flight settles or the wait
      runs out; otherwise the session is created under the guard. */
  function InitTransition(st: SessionState, create: Attempt<Session>, inFlight: InFlight): (step: InitStep)
    ensures step.result.Returned? ==> step.result.value == step.next.session
    ensures st.session.Some? ==> step == InitStep(Returned(st.session), st)
    ensures step.next.isInitializing ==> st.isInitializing && step.next == st
    ensures step.result.Threw? ==> !st.isInitializing && create == Threw(step.result.message) && step.next.session == None
    ensures step.next.session.Some? && step.next.session != st.session ==>
              (st.isInitializing && inFlight.SettlesDuring? && step.next.session == inFlight.outcome)
              || (!st.isInitializing && create == Returned(step.next.session.value))
  {
    if st.session.Some? then InitStep(Returned(st.session), st)
    else if st.isInitializing then
      if inFlight.SettlesDuring? && inFlight.round < MAX_WAIT_ROUNDS
      then InitStep(Returned(inFlight.outcome), SessionState(inFlight.outcome, false))
      else InitStep(Returned(st.session), st)
    else
      match create
      case Returned(s) => InitStep(Returned(Some(s)), SessionState(Some(s), false))
      case Threw(m) => InitStep(Threw(m), SessionState(None, false))
  }

  /** While the guard is set, `initSession` does not depend on what creating a
      session would give: it never creates one. */
  lemma GuardSetNeverCreates(st: SessionState, create1: Attempt<Session>, create2: Attempt<Session>, inFlight: InFlight)
    requires st.isInitializing
    ensures InitTransition(st, create1, inFlight) == InitTransition(st, create2, inFlight)
    ensures InitTransition(st, create1, inFlight).result.Returned?
  {
  }

  /** A caller finding the guard set waits up to `MAX_WAIT_ROUNDS` rounds of
      200 ms: when the initialisation in flight settles within them the caller
      gets that initialisation's session, and the guard is released; otherwise
      it gets the session as it stands, none, and the guard stays set. */
  lemma WaiterGetsInFlightOutcome(st: SessionState, create: Attempt<Session>, inFlight: InFlight)
    requires st.session.None? && st.isInitializing
    ensures inFlight.SettlesDuring? && inFlight.round < MAX_WAIT_ROUNDS ==>
              InitTransition(st, create, inFlight) == InitStep(Returned(inFlight.outcome), SessionState(inFlight.outcome, false))
    ensures !(inFlight.SettlesDuring? && inFlight.round < MAX_WAIT_ROUNDS) ==>
              InitTransition(st, create, inFlight) == InitStep(Returned(None), st)
  {
  }

  /** On the creation path the guard is released whatever creation does; on
      success the created session is stored and returned, on failure no
      session is stored and the error is passed on. */
  lemma CreationReleasesGuard(st: SessionState, create: Attempt<Session>, inFlight: InFlight)
    requires st.session.None? && !st.isInitializing
    ensures var step := InitTransition(st, create, inFlight);
            && !step.next.isInitializing
            && (create.Returned? ==> step.result == Returned(Some(create.value)) && step.next.session == Some(create.value))
            && (create.Threw? ==> step.result == Threw(create.message) && step.next.session == None)
  {
  }

  /** What `generateAffirmation` makes of the outcome of `initSession`. */
  function AffirmationFrom(
    initialised: Attempt<Option<Session>>,
    tasks: seq<Storage.Task>,
    summarize: (Session, string, string) -> Attempt<string>,
    draw: real): (r: AffirmationResult)
    requires 0.0 <= draw < 1.0
    ensures r.isUsingFallback <==> r.status != Success
    ensures r.status == Success ==>
              && initialised.Returned? && initialised.value.Some?
              && var context := BuildPromptContext(Some(tasks));
                 summarize(initialised.value.value, context + PROMPT_REQUEST, context) == Returned(r.text)
    ensures r.status != Unavailable
    ensures initialised.Threw? ==> r == ClassifyFailure(initialised.message, draw)
    ensures initialised == Returned(None) ==> r == ClassifyFailure(NULL_SESSION_MESSAGE, draw)
    ensures initialised.Returned? && initialised.value.Some? ==>
              var context := BuildPromptContext(Some(tasks));
              match summarize(initialised.value.value, context + PROMPT_REQUEST, context)
              case Returned(text) => r == AffirmationResult(text, false, Success)
              case Threw(m) => r == ClassifyFailure(m, draw)
  {
    match initialised
    case Threw(m) => ClassifyFailure(m, draw)
    case Returned(None) => ClassifyFailure(NULL_SESSION_MESSAGE, draw)
    case Returned(Some(s)) =>
      var context := BuildPromptContext(Some(tasks));
      match summarize(s, context + PROMPT_REQUEST, context)
      case Returned(text) => AffirmationResult(text, false, Success)
      case Threw(m) => ClassifyFailure(m, draw)
  }

  /** The null-session message mentions neither quota nor activation. */
  lemma NullSessionMessageIsGeneric()
    ensures !Contains(NULL_SESSION_MESSAGE, "quota") && !Contains(NULL_SESSION_MESSAGE, "activation")
  {
    NullSessionMessageLacks('q');
    assert "quota"[0] == 'q';
    MissingCharNotContained(NULL_SESSION_MESSAGE, "quota", 0);
    NullSessionMessageLacks('v');
    assert "activation"[4] == 'v';
    MissingCharNotContained(NULL_SESSION_MESSAGE, "activation", 4);
  }

  lemma NullSessionMessageLacks(c: char)
    requires c == 'q' || c == 'v'
    ensures c !in NULL_SESSION_MESSAGE
  {
    assert c !in "Cannot read ";
    assert c !in "properties ";
    assert c !in "of null ";
    assert c !in "(reading ";
    assert c !in "'summarize')";
  }

  /** A null session (a failed initialisation observed while waiting) ends in a
      generic error with a fallback text. */
  lemma NullSessionIsGenericError(tasks: seq<Storage.Task>, summarize: (Session, string, string) -> Attempt<string>, draw: real)
    requires 0.0 <= draw < 1.0
    ensures var r := AffirmationFrom(Returned(None), tasks, summarize, draw);
            r.status == Error && r.text in FALLBACK_AFFIRMATIONS
  {
    NullSessionMessageIsGeneric();
  }

  class GeminiApi {
    var session: Option<Session>
    var isInitializing: bool

    constructor ()
      ensures State() == SessionState(None, false)
    {
      session := None;
      isInitializing := false;
    }

    function State(): SessionState
      reads this
    {
      SessionState(session, isInitializing)
    }

    /** `create` is how `Summarizer.create` would settle; `inFlight` is what the
        initialisation already under way does while this call waits. */
    method InitSession(create: Attempt<Session>, inFlight: InFlight) returns (r: Attempt<Option<Session>>)
      modifies this
      ensures InitStep(r, State()) == InitTransition(old(State()), create, inFlight)
    {
      if session.Some? {
        return Returned(session);
      }
      if isInitializing {
        var retries := 0;
        while isInitializing && retries < MAX_WAIT_ROUNDS
          invariant 0 <= retries <= MAX_WAIT_ROUNDS
          invariant isInitializing ==> session == None && !(inFlight.SettlesDuring? && inFlight.round < retries)
          invariant !isInitializing ==>
                      inFlight.SettlesDuring? && inFlight.round < retries && session == inFlight.outcome
          decreases MAX_WAIT_ROUNDS - retries
        {
          // a 200 ms sleep, during which the initialisation in flight may settle
          if inFlight.SettlesDuring? && inFlight.round == retries {
            session, isInitializing := inFlight.outcome, false;
          }
          retries := retries + 1;
        }
        return Returned(session);
      }
      isInitializing := true;
      match create {
        case Returned(s) =>
          session := Some(s);
          r := Returned(session);
        case Threw(m) =>
          session := None;
          r := Threw(m);
      }
      // the `finally` block
      isInitializing := false;
    }

    /** Releases the session; an error thrown by `destroy()` is only logged, so
        the handle is cleared whether or not it throws. */
    method DestroySession()
      modifies this
      ensures session == None && isInitializing == old(isInitializing)
    {
      if session.Some? {
        session := None;
      }
    }

    /** `probe` is how `Summarizer.availability()` settles, `summarize` how a
        session answers a prompt and context, and `draw` the `Math.random()`
        value a fallback is picked with. */
    method GenerateAffirmation(
      tasks: seq<Storage.Task>,
      probe: Attempt<string>,
      create: Attempt<Session>,
      inFlight: InFlight,
      summarize: (Session, string, string) -> Attempt<string>,
      draw: real) returns (r: AffirmationResult)
      requires 0.0 <= draw < 1.0
      modifies this
      ensures r.isUsingFallback <==> r.status != Success
      ensures CheckAvailability(probe) == "unavailable" ==>
                && r == AffirmationResult(GetRandomFallback(draw), true, Unavailable)
                && State() == old(State())
      ensures CheckAvailability(probe) != "unavailable" ==>
                var step := InitTransition(old(State()), create, inFlight);
                State() == step.next && r == AffirmationFrom(step.result, tasks, summarize, draw)
    {
      var availability := CheckAvailability(probe);
      if availability == "unavailable" {
        return AffirmationResult(GetRandomFallback(draw), true, Unavailable);
      }
      var initialised := InitSession(create, inFlight);
      match initialised {
        case Threw(m) =>
          r := ClassifyFailure(m, draw);
        case Returned(session) =>
          if session.None? {
            r := ClassifyFailure(NULL_SESSION_MESSAGE, draw);
          } else {
            var context := BuildPromptContext(Some(tasks));
            var prompt := context + PROMPT_REQUEST;
            match summarize(session.value, prompt, context) {
              case Returned(text) =>
                r := AffirmationResult(text, false, Success);
              case Threw(m) =>
                r := ClassifyFailure(m, draw);
            }
          }
      }
    }
  }

  // ---------------------------------------------------------------------------
  // Polling

  datatype PollStatus = Ready | NotSupported | TimedOut {
    function Code(): string {
      match this
      case Ready => "ready"
      case NotSupported => "unavailable"
      case TimedOut => "timeout"
    }
  }

  datatype PollResult = PollResult(available: bool, status: PollStatus, message: string)

  const READY := PollResult(true, Ready, "AI model is ready to use")
  const NOT_SUPPORTED := PollResult(false, NotSupported, "AI model not supported on this device")
  const TIMED_OUT := PollResult(false, TimedOut, "Model download timeout. Check chrome://on-device-internals for details")

  /** How long one availability probe takes, in milliseconds; at least one. */
  type ProbeMillis = n: int | n >= 1 witness 1

  datatype PollStep = Finish(result: PollResult) | WaitThenProbe | ProbeAgain

  /** What one probe makes the poll do. As written (`retryProbeErrors` false) a
      throwing probe has already been turned into "no" by `CheckAvailability`;
      with `retryProbeErrors` it is waited out and retried instead. */
  function NextPollStep(probe: Attempt<string>, retryProbeErrors: bool): PollStep {
    if retryProbeErrors && probe.Threw? then WaitThenProbe
    else
      var availability := CheckAvailability(probe);
      if availability == "readily" then Finish(READY)
      else if availability == "after-download" then WaitThenProbe
      else if availability == "no" then Finish(NOT_SUPPORTED)
      else ProbeAgain
  }

  /** The outcome of polling from `elapsed` milliseconds after the start, the
      probe made at time `t` settling as `probeAt(t)` and taking `costAt(t)`. */
  function PollFrom(
    elapsed: nat, maxWaitMs: int,
    probeAt: nat -> Attempt<string>, costAt: nat -> ProbeMillis,
    retryProbeErrors: bool): (r: PollResult)
    ensures r == READY || r == NOT_SUPPORTED || r == TIMED_OUT
    ensures elapsed >= maxWaitMs ==> r == TIMED_OUT
    ensures r == READY ==> exists t: nat :: elapsed <= t < maxWaitMs && probeAt(t) == Returned("readily")
    ensures r == NOT_SUPPORTED ==> exists t: nat :: elapsed <= t < maxWaitMs && CheckAvailability(probeAt(t)) == "no"
    ensures r == NOT_SUPPORTED && retryProbeErrors ==>
              exists t: nat :: elapsed <= t < maxWaitMs && probeAt(t) == Returned("no")
    decreases maxWaitMs - elapsed
  {
    if elapsed >= maxWaitMs then TIMED_OUT
    else
      var after := elapsed + costAt(elapsed);
      match NextPollStep(probeAt(elapsed), retryProbeErrors)
      case Finish(result) => result
      case WaitThenProbe => PollFrom(after + POLL_INTERVAL_MS, maxWaitMs, probeAt, costAt, retryProbeErrors)
      case ProbeAgain => PollFrom(after, maxWaitMs, probeAt, costAt, retryProbeErrors)
  }

  /** A probe before the deadline that answers "readily" ends the poll ready. */
  lemma PollReadyOnReadily(
    elapsed: nat, maxWaitMs: int,
    probeAt: nat -> Attempt<string>, costAt: nat -> ProbeMillis, retryProbeErrors: bool)
    requires elapsed < maxWaitMs && probeAt(elapsed) == Returned("readily")
    ensures PollFrom(elapsed, maxWaitMs, probeAt, costAt, retryProbeErrors) == READY
  {
  }

  /** A probe before the deadline that answers "after-download" is followed by
      a wait of `POLL_INTERVAL_MS` before the next probe. */
  lemma PollWaitsAfterDownload(
    elapsed: nat, maxWaitMs: int,
    probeAt: nat -> Attempt<string>, costAt: nat -> ProbeMillis, retryProbeErrors: bool)
    requires elapsed < maxWaitMs && probeAt(elapsed) == Returned("after-download")
    ensures PollFrom(elapsed, maxWaitMs, probeAt, costAt, retryProbeErrors)
         == PollFrom(elapsed + costAt(elapsed) + POLL_INTERVAL_MS, maxWaitMs, probeAt, costAt, retryProbeErrors)
  {
  }

  /** When probe errors are retried, a throwing probe before the deadline is
      waited out for `POLL_INTERVAL_MS` before the next probe. */
  lemma PollWaitsAfterRetriedError(
    elapsed: nat, maxWaitMs: int,
    probeAt: nat -> Attempt<string>, costAt: nat -> ProbeMillis)
    requires elapsed < maxWaitMs && probeAt(elapsed).Threw?
    ensures PollFrom(elapsed, maxWaitMs, probeAt, costAt, true)
         == PollFrom(elapsed + costAt(elapsed) + POLL_INTERVAL_MS, maxWaitMs, probeAt, costAt, true)
  {
  }

  /** Any other answer falls through the loop body: the next probe is made as
      soon as this one has settled. */
  lemma PollReprobesOnOtherAnswer(
    elapsed: nat, maxWaitMs: int,
    probeAt: nat -> Attempt<string>, costAt: nat -> ProbeMillis, retryProbeErrors: bool)
    requires elapsed < maxWaitMs && probeAt(elapsed).Returned?
    requires probeAt(elapsed).value !in {"readily", "after-download", "no"}
    ensures PollFrom(elapsed, maxWaitMs, probeAt, costAt, retryProbeErrors)
         == PollFrom(elapsed + costAt(elapsed), maxWaitMs, probeAt, costAt, retryProbeErrors)
  {
  }

  /** A probe before the deadline that reads as "no" ends the poll unsupported;
      as written a throwing probe reads as "no". */
  lemma PollNotSupportedOnNo(
    elapsed: nat, maxWaitMs: int,
    probeAt: nat -> Attempt<string>, costAt: nat -> ProbeMillis, retryProbeErrors: bool)
    requires elapsed < maxWaitMs
    requires probeAt(elapsed) == Returned("no") || (!retryProbeErrors && probeAt(elapsed).Threw?)
    ensures PollFrom(elapsed, maxWaitMs, probeAt, costAt, retryProbeErrors) == NOT_SUPPORTED
  {
  }

  /** A runtime that never answers "readily" or "no" (nor, as written, throws)
      before the deadline makes the poll time out. */
  lemma {:induction false} PollTimesOutWithoutAnswer(
    elapsed: nat, maxWaitMs: int,
    probeAt: nat -> Attempt<string>, costAt: nat -> ProbeMillis, retryProbeErrors: bool)
    requires forall t: nat :: elapsed <= t < maxWaitMs ==>
               && probeAt(t) != Returned("readily")
               && probeAt(t) != Returned("no")
               && (!retryProbeErrors ==> probeAt(t).Returned?)
    ensures PollFrom(elapsed, maxWaitMs, probeAt, costAt, retryProbeErrors) == TIMED_OUT
    decreases maxWaitMs - elapsed
  {
    if elapsed < maxWaitMs {
      var after := elapsed + costAt(elapsed);
      match NextPollStep(probeAt(elapsed), retryProbeErrors)
      case Finish(result) =>
        assert false;
      case WaitThenProbe =>
        PollTimesOutWithoutAnswer(after + POLL_INTERVAL_MS, maxWaitMs, probeAt, costAt, retryProbeErrors);
      case ProbeAgain =>
        PollTimesOutWithoutAnswer(after, maxWaitMs, probeAt, costAt, retryProbeErrors);
    }
  }

  /** `pollForAvailability` as written: `checkAvailability` never throws, so
      its `catch` block is never entered. */
  method PollForAvailability(maxWaitMs: int, probeAt: nat -> Attempt<string>, costAt: nat -> ProbeMillis)
    returns (r: PollResult)
    ensures r == PollFrom(0, maxWaitMs, probeAt, costAt, false)
    ensures r.available <==> r.status == Ready
  {
    var elapsed: nat := 0;
    while elapsed < maxWaitMs
      invariant PollFrom(elapsed, maxWaitMs, probeAt, costAt, false) == PollFrom(0, maxWaitMs, probeAt, costAt, false)
      decreases maxWaitMs - elapsed
    {
      var availability := CheckAvailability(probeAt(elapsed));
      elapsed := elapsed + costAt(elapsed);
      if availability == "readily" {
        return READY;
      }
      if availability == "after-download" {
        elapsed := elapsed + POLL_INTERVAL_MS;
        continue;
      }
      if availability == "no" {
        return NOT_SUPPORTED;
      }
    }
    return TIMED_OUT;
  }

  /** The poll as its `catch` block intends: a probe that throws is waited out
      and retried rather than read as "no". */
  method PollForAvailabilityRetrying(maxWaitMs: int, probeAt: nat -> Attempt<string>, costAt: nat -> ProbeMillis)
    returns (r: PollResult)
    ensures r == PollFrom(0, maxWaitMs, probeAt, costAt, true)
    ensures r.available <==> r.status == Ready
  {
    var elapsed: nat := 0;
    while elapsed < maxWaitMs
      invariant PollFrom(elapsed, maxWaitMs, probeAt, costAt, true) == PollFrom(0, maxWaitMs, probeAt, costAt, true)
      decreases maxWaitMs - elapsed
    {
      var probe := probeAt(elapsed);
      elapsed := elapsed + costAt(elapsed);
      match probe {
        case Threw(_) =>
          elapsed := elapsed + POLL_INTERVAL_MS;
        case Returned(availability) =>
          if availability == "readily" {
            return READY;
          }
          if availability == "after-download" {
            elapsed := elapsed + POLL_INTERVAL_MS;
          } else if availability == "no" {
            return NOT_SUPPORTED;
          }
      }
    }
    return TIMED_OUT;
  }

  /** Every probe takes one millisecond. */
  function OneMillisecond(t: nat): ProbeMillis {
    1
  }

  /** A first probe that throws, then a model that is ready. */
  function ErrorThenReady(t: nat): Attempt<string> {
    if t == 0 then Threw("transient failure") else Returned("readily")
  }

  /** As written, one probe that throws ends the poll as "unavailable" although
      the runtime never answered "no" and is ready a moment later. */
  lemma ProbeErrorEndsPoll()
    ensures PollFrom(0, DEFAULT_MAX_WAIT_MS, ErrorThenReady, OneMillisecond, false) == NOT_SUPPORTED
    ensures forall t: nat :: ErrorThenReady(t) != Returned("no")
  {
  }

  /** With probe errors retried, the same runtime is found ready. */
  lemma ProbeErrorRetried()
    ensures PollFrom(0, DEFAULT_MAX_WAIT_MS, ErrorThenReady, OneMillisecond, true) == READY
  {
    assert PollFrom(1 + POLL_INTERVAL_MS, DEFAULT_MAX_WAIT_MS, ErrorThenReady, OneMillisecond, true) == READY;
  }
}
