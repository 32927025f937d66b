// The dispatch loop: inject, send and wait, retried under two budgets with the gate rolled back in between.
module PromptFlowDispatcher {
  import opened Common
  import opened LifecycleGate
  import SendDispatcher
  import StreamMonitor

  const MAX_ATTEMPTS := 3

  // What an attempt raises. A stall and the retriable failures are told apart by their own budgets.
  datatype Failure =
    | StuckDetected(partial: Option<string>)
    | RateLimit
    | DetectionTimeout(partial: Option<string>)
    | RunCancelled
    | OtherFailure

  datatype AttemptResult = Answer(text: string) | Raised(failure: Failure)

  // An injection that raises: with a throttling error, or with one the loop does not retry.
  datatype InjectionFault = Throttled | Broken

  // The page during one attempt: whether injection raises, the send, the wait, the cancel token
  // as read after a failing wait, and as read by the retry loop once the attempt has failed.
  datatype Attempt = Attempt(
    injection: Option<InjectionFault>,
    send: SendDispatcher.Page,
    wait: StreamMonitor.Config,
    polls: StreamMonitor.Script,
    cancelledAfterWait: bool,
    cancelledAfterFailure: bool)

  type Run = nat -> Attempt

  ghost predicate Advances(a: Attempt) {
    && SendDispatcher.PageAdvances(a.send)
    && StreamMonitor.ClockAdvances(a.polls) && a.polls(0).now >= a.wait.start
    && (forall i: nat :: a.polls(i).later >= a.polls(i).now)
  }

  function FailureOf(o: StreamMonitor.Outcome): Failure
    requires !o.Complete?
  {
    match o
    case Stuck(partial) => StuckDetected(partial)
    case SafetyTimeout(partial) => DetectionTimeout(partial)
    case HardTimeout(partial) => DetectionTimeout(partial)
    case Cancelled => RunCancelled
    case Invalid(RateLimited) => RateLimit
    case _ => OtherFailure
  }

  /** A blank answer is no answer; the echo of the prompt is not stripped here. */
  function AnswerOf(text: string): AttemptResult {
    if SendDispatcher.IsBlank(text) then Raised(DetectionTimeout(None)) else Answer(text)
  }

  /** The emitter's trace and its gate have been extended by the same events. */
  ghost predicate Extended(emitter: Emitter, trace: seq<Event>, completed: seq<Event>, events: seq<Event>)
    reads emitter, emitter.gate
  {
    emitter.trace == trace + events && (emitter.gate != null ==> emitter.Completed() == completed + events)
  }

  function SequenceOf(emitter: Emitter): Option<seq<Event>>
    reads emitter, emitter.gate
  {
    if emitter.gate == null then None else Some(emitter.gate.sequence)
  }

  /** The prompt goes in, and the gate, if there is one, lets that be said. */
  predicate Injects(sequence: Option<seq<Event>>, a: Attempt, completed: seq<Event>) {
    a.injection.None? && (sequence.Some? ==> Accepts(sequence.value, completed, PromptInjected))
  }

  predicate IsBeforeAck(s: Stage) { s.Begin? || s.Injected? || s.Clicked? }

  /** Inject the prompt and send it; None when the turn is acknowledged. */
  method InjectAndSend(a: Attempt, sendTimeout: int, documentParsed: bool, emitter: Emitter)
    returns (failure: Option<Failure>, events: seq<Event>)
    requires Advances(a)
    modifies emitter, emitter.gate
    ensures Extended(emitter, old(emitter.trace), old(emitter.Completed()), events)
    ensures old(emitter.IsSound()) ==> emitter.IsSound()
    ensures failure.None? ==> Stages(Begin, events) == Acknowledged
    ensures failure.Some? ==> IsBeforeAck(Stages(Begin, events))
    ensures failure.Some? ==> failure.value == if a.injection == Some(Throttled) then RateLimit else OtherFailure
    ensures events != [] <==> Injects(SequenceOf(emitter), a, old(emitter.Completed()))
  {
    events := [];
    if a.injection.Some? {
      return Some(if a.injection.value.Throttled? then RateLimit else OtherFailure), events;
    }
    var ok := emitter.Emit(PromptInjected);
    if !ok {
      return Some(OtherFailure), events;
    }
    var sent, clicks, rounds := SendDispatcher.ClickSend(a.send, sendTimeout, documentParsed, emitter);
    var ack := if sent.Sent? then [DispatchAcknowledged] else [];
    events := [PromptInjected] + SendDispatcher.Clicks(clicks) + ack;
    ClicksLeadToClicked(clicks);
    FourParts(old(emitter.trace), PromptInjected, SendDispatcher.Clicks(clicks), ack);
    FourParts(old(emitter.Completed()), PromptInjected, SendDispatcher.Clicks(clicks), ack);
    assert !sent.Sent? ==> events == [PromptInjected] + SendDispatcher.Clicks(clicks);
    return if sent.Sent? then None else Some(OtherFailure), events;
  }

  lemma FourParts(front: seq<Event>, e: Event, middle: seq<Event>, back: seq<Event>)
    ensures front + [e] + middle + back == front + ([e] + middle + back)
  {}

  /** The outcome of the wait: the verdict of the first poll that has one. */
  ghost predicate IsMonitorsOutcome(a: Attempt, o: StreamMonitor.Outcome) {
    exists n: nat :: StreamMonitor.Verdict(a.wait, a.polls, n) == Some(o) && NoneEarlier(a, n)
  }

  ghost predicate NoneEarlier(a: Attempt, n: nat) {
    forall i: nat | i < n :: StreamMonitor.Verdict(a.wait, a.polls, i).None?
  }

  /** What the attempt makes of a wait that ended: a text that is not blank is the answer; any failure is a cancellation
      once the token is set, and otherwise tells a stall, a throttled page and a missed ceiling apart. */
  predicate Reflects(cancelled: bool, o: StreamMonitor.Outcome, r: AttemptResult) {
    match o
    case Complete(text) =>
      if SendDispatcher.IsBlank(text) then r == Raised(DetectionTimeout(None)) else r == Answer(text)
    case _ =>
      && r.Raised? && (r.failure.RunCancelled? <==> cancelled || o.Cancelled?)
      && (!cancelled ==>
            && (r.failure.StuckDetected? <==> o.Stuck?) && (o.Stuck? ==> r.failure.partial == o.partial)
            && (r.failure.RateLimit? <==> o == StreamMonitor.Invalid(StreamMonitor.RateLimited))
            && (r.failure.DetectionTimeout? <==> o.SafetyTimeout? || o.HardTimeout?)
            && (o.SafetyTimeout? || o.HardTimeout? ==> r.failure.partial == o.partial))
  }

  /** One inject, send and wait cycle, the events it puts on the bus, and how its wait ended, if it came to one. */
  method DispatchOnce(a: Attempt, sendTimeout: int, documentParsed: bool, emitter: Emitter)
    returns (result: AttemptResult, events: seq<Event>, ghost outcome: Option<StreamMonitor.Outcome>)
    requires Advances(a)
    modifies emitter, emitter.gate
    ensures Extended(emitter, old(emitter.trace), old(emitter.Completed()), events)
    ensures old(emitter.IsSound()) ==> emitter.IsSound()
    ensures IsAttempt(SequenceOf(emitter), a, result, Piece(old(emitter.Completed()), events, outcome))
  {
    var failure;
    failure, events := InjectAndSend(a, sendTimeout, documentParsed, emitter);
    if failure.Some? {
      return Raised(failure.value), events, None;
    }
    var o, n, reloads, emitted := StreamMonitor.WaitForResponse(a.wait, a.polls, emitter);
    ResponseEventsFollow(events, emitted);
    events := events + StreamMonitor.RESPONSE_EVENTS[..emitted];
    assert !o.GateRejected? ==> StreamMonitor.Verdict(a.wait, a.polls, n) == Some(o) && NoneEarlier(a, n);
    ResultReflects(a, o);
    result, outcome := ResultOf(a, o), Some(o);
  }

  /** What a finished wait means for the attempt; a failing one is a cancellation once the token is set. */
  function ResultOf(a: Attempt, o: StreamMonitor.Outcome): AttemptResult {
    if o.Complete? then AnswerOf(o.text) else Raised(if a.cancelledAfterWait then RunCancelled else FailureOf(o))
  }

  lemma ResultReflects(a: Attempt, o: StreamMonitor.Outcome)
    ensures Reflects(a.cancelledAfterWait, o, ResultOf(a, o))
  {}

  lemma {:induction false} ClicksLeadToClicked(n: nat)
    ensures Stages(Begin, [PromptInjected] + SendDispatcher.Clicks(n)) == if n == 0 then Injected else Clicked
    ensures n >= 1 ==> Stages(Begin, [PromptInjected] + SendDispatcher.Clicks(n) + [DispatchAcknowledged]) == Acknowledged
  {
    var trace := [PromptInjected] + SendDispatcher.Clicks(n);
    if n == 0 {
      assert trace == [PromptInjected];
    } else {
      ClicksLeadToClicked(n - 1);
      assert trace[..|trace| - 1] == [PromptInjected] + SendDispatcher.Clicks(n - 1);
      assert (trace + [DispatchAcknowledged])[..|trace|] == trace;
    }
  }

  lemma ResponseEventsFollow(front: seq<Event>, k: nat)
    requires Stages(Begin, front) == Acknowledged && k <= 3
    ensures Stages(Begin, front + StreamMonitor.RESPONSE_EVENTS[..k]) ==
      if k == 0 then Acknowledged else if k == 1 then Thinking else if k == 2 then Streaming else Finished
  {
    var r := StreamMonitor.RESPONSE_EVENTS;
    StagesConcat(Begin, front, r[..k]);
    assert r[..1][..0] == [] && r[..2][..1] == r[..1] && r[..3][..2] == r[..2];
    assert Stages(Acknowledged, r[..1]) == Thinking;
    assert Stages(Acknowledged, r[..2]) == Streaming;
  }

  /** Where the events of the attempt begin in the configured sequence, as the dispatcher computes it. */
  function AttemptBoundary(sequence: seq<Event>): (b: nat)
    ensures b <= |sequence|
  {
    if DocumentParsed in sequence then FirstIndexOf(sequence, DocumentParsed) + 1
    else if PromptInjected in sequence then FirstIndexOf(sequence, PromptInjected)
    else 0
  }

  // How the whole call ends. ResetRejected: the gate refused its own roll-back seed.
  datatype RunResult = Verdict(text: string) | Error(failure: Failure) | CancelledRun | ResetRejected

  predicate IsRetriable(f: Failure) {
    f.StuckDetected? || f.RateLimit? || f.DetectionTimeout?
  }

  function Stalls(results: seq<AttemptResult>): nat {
    if results == [] then 0
    else
      var last := results[|results| - 1];
      Stalls(results[..|results| - 1]) + if last.Raised? && last.failure.StuckDetected? then 1 else 0
  }

  // What the loop does after an attempt: end the run, leave the loop on a cancellation, or roll back and go round.
  datatype Decision = Stop(result: RunResult) | Leave | Retry

  /** A stall spends the stall budget; another retriable failure needs an attempt left. */
  function Decide(run: Run, budget: nat, earlier: seq<AttemptResult>, r: AttemptResult): Decision {
    match r
    case Answer(text) => Stop(Verdict(text))
    case Raised(failure) =>
      if !IsRetriable(failure) then Stop(Error(failure))
      else if run(|earlier|).cancelledAfterFailure then Leave
      else if failure.StuckDetected? then (if Stalls(earlier) < budget then Retry else Stop(Error(failure)))
      else if |earlier| + 1 < MAX_ATTEMPTS then Retry
      else Stop(Error(failure))
  }

  predicate AllRetried(run: Run, budget: nat, results: seq<AttemptResult>) {
    results == [] ||
      (var k := |results| - 1; Decide(run, budget, results[..k], results[k]) == Retry && AllRetried(run, budget, results[..k]))
  }

  /** The end of a run after its last attempt: leaving the loop, or running out of it, raises the last error or the cancellation. */
  function Final(run: Run, budget: nat, earlier: seq<AttemptResult>, last: AttemptResult, cancelledAtEnd: bool): RunResult {
    match Decide(run, budget, earlier, last)
    case Stop(result) => result
    case _ =>
      if last.Answer? then Verdict(last.text)
      else if cancelledAtEnd then CancelledRun
      else Error(last.failure)
  }

  function Take(s: seq<Event>, n: nat): seq<Event> {
    if n <= |s| then s[..n] else s
  }

  /** The run starts where the browser and attachment phases leave it: at or before the injection, on a sequence that
      the dispatcher's boundary splits exactly there. */
  predicate StandsBeforeInjection(sequence: seq<Event>, completed: seq<Event>) {
    && Distinct(sequence) && completed <= sequence
    && AttemptBoundary(sequence) < |sequence| && sequence[AttemptBoundary(sequence)] == PromptInjected
    && |completed| <= AttemptBoundary(sequence)
  }

  /** Cutting the gate at the boundary restores what the attempt found exactly when that ends at the boundary, or ends
      before it and the attempt added nothing. */
  lemma RollbackRestoresExactlyAtTheBoundary(completed: seq<Event>, events: seq<Event>, b: nat)
    ensures Take(completed + events, b) == completed <==> |completed| == b || (|completed| < b && events == [])
  {
    if |completed| < b && events != [] {
      assert |Take(completed + events, b)| > |completed|;
    }
  }

  lemma {:induction false} FirstIsTheInjection(events: seq<Event>)
    requires Stages(Begin, events) != Bad && events != []
    ensures events[0] == PromptInjected
  {
    if |events| > 1 {
      FirstIsTheInjection(events[..|events| - 1]);
    } else {
      assert events[..0] == [];
    }
  }

  /** Of an attempt that a gate let through: the gate takes the roll-back's seed, and accepts the injection of a retry
      exactly when the seed is what the attempt found, or the injection needs no predecessor and is not in the seed. */
  lemma RetryIsAcceptedExactlyWhen(sequence: seq<Event>, completed: seq<Event>, events: seq<Event>)
    requires IsHistory(sequence, completed + events) && Stages(Begin, events) != Bad
    requires Accepts(sequence, completed, PromptInjected)
    ensures var b := AttemptBoundary(sequence); var seed := Take(completed + events, b);
      && IsHistory(sequence, seed)
      && (Accepts(sequence, seed, PromptInjected) <==>
            seed == completed || (|completed| > b && Predecessor(sequence, PromptInjected).None?))
  {
    var b := AttemptBoundary(sequence);
    var seed := Take(completed + events, b);
    PrefixIsHistory(sequence, completed + events, if b < |completed + events| then b else |completed + events|);
    if |completed| < b {
      RollbackRestoresExactlyAtTheBoundary(completed, events, b);
      if events != [] {
        FirstIsTheInjection(events);
        assert seed[|completed|] == PromptInjected;
      }
    } else {
      assert seed == completed[..b];
      if |completed| > b && b > 0 {
        assert (completed + events)[b - 1] != (completed + events)[|completed| - 1];
      }
    }
  }

  lemma RollbackRestores(sequence: seq<Event>, completed: seq<Event>, events: seq<Event>)
    requires StandsBeforeInjection(sequence, completed)
    requires !Accepts(sequence, completed, PromptInjected) ==> events == []
    ensures Take(completed + events, AttemptBoundary(sequence)) == completed
  {
    var b := AttemptBoundary(sequence);
    if |completed| < b {
      assert sequence[|completed|] != sequence[b];
      GateFollowsItsSequence(sequence, completed, PromptInjected);
    }
  }

  /** Roll the gate back to the pre-attempt phase. */
  method RollBack(emitter: Emitter) returns (ok: bool)
    modifies emitter.gate
    ensures emitter.gate == null ==> ok
    ensures emitter.gate != null ==>
      var seed := Take(old(emitter.gate.completed), AttemptBoundary(emitter.gate.sequence));
      && (ok <==> ValidSeed(emitter.gate.sequence, seed))
      && (ok ==> emitter.gate.completed == seed)
    ensures old(emitter.IsSound()) ==> ok && emitter.IsSound()
  {
    ok := true;
    if emitter.gate != null {
      ghost var b := AttemptBoundary(emitter.gate.sequence);
      if emitter.IsSound() && b <= |emitter.gate.completed| {
        PrefixIsHistory(emitter.gate.sequence, emitter.gate.completed, b);
      }
      ok := emitter.gate.Reset(Take(emitter.gate.completed, AttemptBoundary(emitter.gate.sequence)));
    }
  }

  lemma {:induction false} StallsAreBounded(run: Run, budget: nat, results: seq<AttemptResult>)
    requires AllRetried(run, budget, results)
    ensures Stalls(results) <= budget
  {
    if results != [] {
      StallsAreBounded(run, budget, results[..|results| - 1]);
    }
  }

  ghost predicate RunAdvances(run: Run) {
    forall i: nat :: Advances(run(i))
  }

  // One attempt on the record: what the gate held when it began, the events it put on the bus, and how its wait ended;
  // None when the turn was not acknowledged.
  datatype Piece = Piece(start: seq<Event>, events: seq<Event>, outcome: Option<StreamMonitor.Outcome>)

  predicate AllStartAt(pieces: seq<Piece>, completed: seq<Event>) {
    forall p | p in pieces :: p.start == completed
  }

  function Trace(pieces: seq<Piece>): seq<Event> {
    if pieces == [] then [] else Trace(pieces[..|pieces| - 1]) + pieces[|pieces| - 1].events
  }

  /** What a gate holds when the next attempt begins. */
  function NextStart(sequence: seq<Event>, completed: seq<Event>, pieces: seq<Piece>): seq<Event> {
    if pieces == [] then completed
    else Take(pieces[|pieces| - 1].start + pieces[|pieces| - 1].events, AttemptBoundary(sequence))
  }

  /** The record of an attempt: its events in order, as far as it got, none when the prompt does not go in; the wait's
      outcome from the acknowledgment on, which is the monitor's; and the result that goes with it. */
  ghost predicate IsAttempt(sequence: Option<seq<Event>>, a: Attempt, r: AttemptResult, p: Piece) {
    var stage := Stages(Begin, p.events);
    && stage != Bad && (p.events != [] <==> Injects(sequence, a, p.start))
    && (p.outcome.None? <==> IsBeforeAck(stage))
    && (p.outcome.None? ==> r == Raised(if a.injection == Some(Throttled) then RateLimit else OtherFailure))
    && (p.outcome.Some? ==> Reflects(a.cancelledAfterWait, p.outcome.value, r))
    && (p.outcome.Some? && !p.outcome.value.GateRejected? ==>
          && IsMonitorsOutcome(a, p.outcome.value) && (p.outcome.value.Complete? ==> stage == Finished))
    && (sequence.None? && p.outcome.Some? ==> !p.outcome.value.GateRejected?)
  }

  /** The record of a run whose gate, if there is one, held completed at first. */
  ghost predicate IsRecord(run: Run, sequence: Option<seq<Event>>, completed: seq<Event>, results: seq<AttemptResult>, pieces: seq<Piece>) {
    |results| == |pieces| &&
    (pieces == [] ||
      (var n := |pieces| - 1;
       && IsAttempt(sequence, run(n), results[n], pieces[n])
       && (sequence.Some? ==> pieces[n].start == NextStart(sequence.value, completed, pieces[..n]))
       && IsRecord(run, sequence, completed, results[..n], pieces[..n])))
  }

  /** The attempts so far: all of them retried but the last, on which the loop is still to decide. */
  predicate Attempted(run: Run, budget: nat, earlier: seq<AttemptResult>, last: AttemptResult, results: seq<AttemptResult>) {
    results == earlier + [last] && AllRetried(run, budget, earlier)
  }

  /** How the recorded attempts end the run. */
  ghost predicate EndsAs(run: Run, budget: nat, results: seq<AttemptResult>, cancelledAtEnd: bool, result: RunResult) {
    exists earlier, last | Attempted(run, budget, earlier, last, results) ::
      result == Final(run, budget, earlier, last, cancelledAtEnd)
  }

  lemma AttemptsEnd(run: Run, budget: nat, earlier: seq<AttemptResult>, last: AttemptResult, results: seq<AttemptResult>,
                    cancelledAtEnd: bool, result: RunResult)
    requires Attempted(run, budget, earlier, last, results)
    requires result == Final(run, budget, earlier, last, cancelledAtEnd)
    ensures EndsAs(run, budget, results, cancelledAtEnd, result)
  {}

  /** The emitter is gated and its gate holds exactly this pre-attempt prefix. */
  ghost predicate StandsAt(emitter: Emitter, completed: seq<Event>)
    reads emitter, emitter.gate
  {
    emitter.gate != null && emitter.gate.completed == completed && StandsBeforeInjection(emitter.gate.sequence, completed)
  }

  /** The attempts so far were all retried, at the cost of the stall budget. */
  predicate SoFar(run: Run, budget: nat, results: seq<AttemptResult>, stallRetries: nat) {
    AllRetried(run, budget, results) && stallRetries == Stalls(results) <= budget
  }

  lemma OneMoreAttempt(run: Run, budget: nat, results: seq<AttemptResult>, stallRetries: nat, r: AttemptResult)
    requires SoFar(run, budget, results, stallRetries)
    ensures Attempted(run, budget, results, r, results + [r])
    ensures Decide(run, budget, results, r) == Retry ==>
      SoFar(run, budget, results + [r], stallRetries + (if r.failure.StuckDetected? then 1 else 0))
  {
    assert (results + [r])[..|results|] == results;
    if Decide(run, budget, results, r) == Retry {
      StallsAreBounded(run, budget, results + [r]);
    }
  }

  lemma OneMorePiece(run: Run, sequence: Option<seq<Event>>, completed: seq<Event>, results: seq<AttemptResult>, pieces: seq<Piece>,
                     r: AttemptResult, p: Piece)
    requires IsRecord(run, sequence, completed, results, pieces) && IsAttempt(sequence, run(|results|), r, p)
    requires sequence.Some? ==> p.start == NextStart(sequence.value, completed, pieces)
    ensures IsRecord(run, sequence, completed, results + [r], pieces + [p])
    ensures Trace(pieces + [p]) == Trace(pieces) + p.events
  {
    assert (results + [r])[..|results|] == results && (pieces + [p])[..|pieces|] == pieces;
  }

  /** One attempt, and its piece of the record. */
  method RecordAttempt(a: Attempt, sendTimeout: int, documentParsed: bool, emitter: Emitter) returns (r: AttemptResult, ghost p: Piece)
    requires Advances(a)
    modifies emitter, emitter.gate
    ensures emitter.trace == old(emitter.trace) + p.events && p.start == old(emitter.Completed())
    ensures emitter.gate != null ==> emitter.gate.completed == p.start + p.events
    ensures IsAttempt(SequenceOf(emitter), a, r, p)
    ensures old(emitter.IsSound()) ==> emitter.IsSound()
  {
    ghost var completed := emitter.Completed();
    ghost var events, outcome;
    r, events, outcome := DispatchOnce(a, sendTimeout, documentParsed, emitter);
    p := Piece(completed, events, outcome);
  }

  /** One attempt and, when it is to be retried, the roll-back of the gate. */
  method AttemptAndRollBack(run: Run, budget: nat, ghost earlier: seq<AttemptResult>, attempt: nat, stallRetries: nat,
                            sendTimeout: int, documentParsed: bool, emitter: Emitter)
    returns (r: AttemptResult, decision: Decision, rolledBack: bool, ghost p: Piece)
    requires RunAdvances(run) && attempt == |earlier| + 1 && stallRetries == Stalls(earlier)
    modifies emitter, emitter.gate
    ensures decision == Decide(run, budget, earlier, r)
    ensures emitter.trace == old(emitter.trace) + p.events && p.start == old(emitter.Completed())
    ensures IsAttempt(SequenceOf(emitter), run(attempt - 1), r, p)
    ensures old(emitter.IsSound()) ==> rolledBack && emitter.IsSound()
    // A roll-back puts the gate where the next attempt is to begin, or the gate refuses that as a seed.
    ensures decision.Retry? && emitter.gate != null ==>
      var next := NextStart(emitter.gate.sequence, [], [p]);
      if rolledBack then emitter.gate.completed == next else !ValidSeed(emitter.gate.sequence, next)
    ensures !rolledBack ==> decision.Retry? && emitter.gate != null
  {
    var a := run(attempt - 1);
    r, p := RecordAttempt(a, sendTimeout, documentParsed, emitter);
    rolledBack := true;
    if r.Answer? {
      decision := Stop(Verdict(r.text));
    } else if !IsRetriable(r.failure) {
      decision := Stop(Error(r.failure));
    } else if a.cancelledAfterFailure {
      decision := Leave;
    } else if r.failure.StuckDetected? && stallRetries >= budget {
      decision := Stop(Error(r.failure));
    } else if !r.failure.StuckDetected? && attempt >= MAX_ATTEMPTS {
      decision := Stop(Error(r.failure));
    } else {
      decision := Retry;
      rolledBack := RollBack(emitter);
    }
  }

  /** The whole dispatch. results: what each attempt ended in; pieces: what its gate held at first, and what it emitted. */
  method DispatchAndWait(run: Run, budget: nat, sendTimeout: int, documentParsed: bool,
                         cancelledBefore: bool, cancelledAtEnd: bool, emitter: Emitter)
    returns (result: RunResult, results: seq<AttemptResult>, stallRetries: nat, ghost pieces: seq<Piece>)
    requires RunAdvances(run)
    modifies emitter, emitter.gate
    ensures cancelledBefore <==> results == []
    ensures cancelledBefore ==> result == CancelledRun
    ensures |results| <= MAX_ATTEMPTS && stallRetries <= budget
    // What goes out is the attempts' events, one attempt after the other, each from where the roll-back put the gate.
    ensures emitter.trace == old(emitter.trace) + Trace(pieces)
    ensures IsRecord(run, SequenceOf(emitter), old(emitter.Completed()), results, pieces)
    // Every attempt but the last was retried, and the last one decides.
    ensures results != [] ==> EndsAs(run, budget, results, cancelledAtEnd, result) || result.ResetRejected?
    // An attempt is followed by another exactly when it is worth one, and the last one tells how the run ends.
    ensures !result.ResetRejected? ==> GoesOn(run, budget, pieces)
    ensures results != [] && !result.ResetRejected? ==> EndsLike(run, budget, results, pieces, cancelledAtEnd, result)
    // A gate that holds a history always takes its own seed.
    ensures result.ResetRejected? ==> emitter.gate != null && !old(emitter.IsSound())
    // Every attempt starts where the first did exactly when that is the boundary, or before it and nothing was emitted.
    ensures emitter.gate != null ==>
      (AllStartAt(pieces, old(emitter.Completed())) <==>
        StartsStay(AttemptBoundary(emitter.gate.sequence), old(emitter.Completed()), pieces))
    ensures old(StandsAt(emitter, emitter.Completed())) ==>
      !result.ResetRejected? && AllStartAt(pieces, old(emitter.Completed()))
  {
    if cancelledBefore {
      return CancelledRun, [], 0, [];
    }
    ghost var completed := emitter.Completed();
    if StandsAt(emitter, completed) {
      PrefixIsAValidSeed(emitter.gate.sequence, completed);
    }
    result, results, stallRetries, pieces := Dispatch(run, budget, sendTimeout, documentParsed, cancelledAtEnd, emitter);
    if emitter.gate != null {
      StartsStayExactlyWhen(run, emitter.gate.sequence, completed, results, pieces);
      if StandsBeforeInjection(emitter.gate.sequence, completed) {
        StartsStayBeforeInjection(run, emitter.gate.sequence, completed, results, pieces);
      }
    }
  }

  /** The attempts, and what is returned or raised after the last one. */
  method Dispatch(run: Run, budget: nat, sendTimeout: int, documentParsed: bool, cancelledAtEnd: bool, emitter: Emitter)
    returns (result: RunResult, results: seq<AttemptResult>, stallRetries: nat, ghost pieces: seq<Piece>)
    requires RunAdvances(run)
    modifies emitter, emitter.gate
    ensures 0 < |results| <= MAX_ATTEMPTS && stallRetries <= budget
    ensures OnRecord(run, emitter, old(emitter.trace), old(emitter.Completed()), results, pieces)
    ensures EndsAs(run, budget, results, cancelledAtEnd, result) || result.ResetRejected?
    ensures !result.ResetRejected? ==>
      GoesOn(run, budget, pieces) && EndsLike(run, budget, results, pieces, cancelledAtEnd, result)
    ensures result.ResetRejected? ==> emitter.gate != null && !old(emitter.IsSound())
  {
    ghost var completed, earlier := emitter.Completed(), [];
    var last, decision, rolledBack;
    last, decision, rolledBack, results, stallRetries, earlier, pieces :=
      Attempts(run, budget, sendTimeout, documentParsed, emitter);
    if !rolledBack {
      return ResetRejected, results, stallRetries, pieces;
    }
    GoesOnExactlyWhenWorthIt(run, budget, SequenceOf(emitter), completed, earlier, last, results, pieces);
    RunEndsLikeItsLastAttempt(run, budget, SequenceOf(emitter), completed, earlier, last, results, pieces, cancelledAtEnd);
    result := if decision.Stop? then decision.result
              else if cancelledAtEnd then CancelledRun
              else Error(last.failure);
    AttemptsEnd(run, budget, earlier, last, results, cancelledAtEnd, result);
  }

  /** The attempt loop, up to the decision on the attempt that leaves it. */
  method Attempts(run: Run, budget: nat, sendTimeout: int, documentParsed: bool, emitter: Emitter)
    returns (last: AttemptResult, decision: Decision, rolledBack: bool, results: seq<AttemptResult>, stallRetries: nat,
             ghost earlier: seq<AttemptResult>, ghost pieces: seq<Piece>)
    requires RunAdvances(run)
    modifies emitter, emitter.gate
    ensures Attempted(run, budget, earlier, last, results) && decision == Decide(run, budget, earlier, last)
    ensures |results| <= MAX_ATTEMPTS && stallRetries <= budget
    ensures emitter.trace == old(emitter.trace) + Trace(pieces)
    ensures IsRecord(run, SequenceOf(emitter), old(emitter.Completed()), results, pieces)
    ensures !rolledBack ==> emitter.gate != null && !old(emitter.IsSound())
    ensures rolledBack && decision.Retry? ==> |results| == MAX_ATTEMPTS
  {
    results, stallRetries, earlier, pieces := [], 0, [], [];
    ghost var completed, trace := emitter.Completed(), emitter.trace;
    var attempt := 1;
    while true
      invariant |results| == attempt - 1 < MAX_ATTEMPTS && SoFar(run, budget, results, stallRetries)
      invariant OnRecord(run, emitter, trace, completed, results, pieces) && IsPlaced(emitter, completed, pieces)
      invariant old(emitter.IsSound()) ==> emitter.IsSound()
      decreases MAX_ATTEMPTS - attempt
    {
      earlier := results;
      last, decision, rolledBack, results, stallRetries, pieces :=
        NextAttempt(run, budget, results, stallRetries, trace, completed, pieces, sendTimeout, documentParsed, emitter);
      attempt := attempt + 1;
      if !decision.Retry? || !rolledBack || attempt > MAX_ATTEMPTS {
        return;
      }
    }
  }

  /** The pieces make up the trace, each from where the gate stood. */
  ghost predicate OnRecord(run: Run, emitter: Emitter, trace: seq<Event>, completed: seq<Event>, results: seq<AttemptResult>, pieces: seq<Piece>)
    reads emitter, emitter.gate
  {
    emitter.trace == trace + Trace(pieces) && IsRecord(run, SequenceOf(emitter), completed, results, pieces)
  }

  /** The gate, if there is one, stands where the next attempt is to begin. */
  ghost predicate IsPlaced(emitter: Emitter, completed: seq<Event>, pieces: seq<Piece>)
    reads emitter, emitter.gate
  {
    emitter.gate != null ==> emitter.gate.completed == NextStart(emitter.gate.sequence, completed, pieces)
  }

  /** One pass of the attempt loop. */
  method NextAttempt(run: Run, budget: nat, results: seq<AttemptResult>, stallRetries: nat, ghost trace: seq<Event>,
                     ghost completed: seq<Event>, ghost pieces: seq<Piece>, sendTimeout: int, documentParsed: bool, emitter: Emitter)
    returns (last: AttemptResult, decision: Decision, rolledBack: bool, results': seq<AttemptResult>, stallRetries': nat,
             ghost pieces': seq<Piece>)
    requires RunAdvances(run) && SoFar(run, budget, results, stallRetries)
    requires OnRecord(run, emitter, trace, completed, results, pieces) && IsPlaced(emitter, completed, pieces)
    modifies emitter, emitter.gate
    ensures results' == results + [last] && decision == Decide(run, budget, results, last)
    ensures OnRecord(run, emitter, trace, completed, results', pieces') && stallRetries' <= budget
    ensures decision.Retry? ==> SoFar(run, budget, results', stallRetries')
    ensures decision.Retry? && rolledBack ==> IsPlaced(emitter, completed, pieces')
    ensures !rolledBack ==> emitter.gate != null
    ensures old(emitter.IsSound()) ==> rolledBack && emitter.IsSound()
  {
    ghost var p;
    last, decision, rolledBack, p :=
      AttemptAndRollBack(run, budget, results, |results| + 1, stallRetries, sendTimeout, documentParsed, emitter);
    results', stallRetries' := results + [last], stallRetries + if decision.Retry? && last.failure.StuckDetected? then 1 else 0;
    OneMoreAttempt(run, budget, results, stallRetries, last);
    OneMorePiece(run, SequenceOf(emitter), completed, results, pieces, last, p);
    pieces' := pieces + [p];
  }

  // ----- When the loop goes on, and how it ends -----

  /** The attempt ended in a stall: its turn was acknowledged, the monitor found it stuck, and nobody cancelled. */
  predicate Stalled(a: Attempt, p: Piece) {
    p.outcome.Some? && p.outcome.value.Stuck? && !a.cancelledAfterWait
  }

  /** The attempt failed retriably otherwise: throttled at the injection or by the page, over a ceiling, or with a blank text. */
  predicate Stumbled(a: Attempt, p: Piece) {
    match p.outcome
    case None => a.injection == Some(Throttled)
    case Some(Complete(text)) => SendDispatcher.IsBlank(text)
    case Some(o) =>
      !a.cancelledAfterWait && (o.SafetyTimeout? || o.HardTimeout? || o == StreamMonitor.Invalid(StreamMonitor.RateLimited))
  }

  function StallsAmong(run: Run, pieces: seq<Piece>): nat {
    if pieces == [] then 0
    else
      var n := |pieces| - 1;
      StallsAmong(run, pieces[..n]) + if Stalled(run(n), pieces[n]) then 1 else 0
  }

  /** Attempt k is worth another: it stalled with room in the stall budget or stumbled, and was not cancelled since. */
  predicate IsWorthAnother(run: Run, budget: nat, pieces: seq<Piece>, k: nat)
    requires k < |pieces|
  {
    && !run(k).cancelledAfterFailure
    && (Stumbled(run(k), pieces[k]) || (Stalled(run(k), pieces[k]) && StallsAmong(run, pieces[..k]) < budget))
  }

  lemma ResultsTellTheirFailures(sequence: Option<seq<Event>>, a: Attempt, r: AttemptResult, p: Piece)
    requires IsAttempt(sequence, a, r, p)
    ensures r.Raised? && r.failure.StuckDetected? <==> Stalled(a, p)
    ensures r.Raised? && (r.failure.RateLimit? || r.failure.DetectionTimeout?) <==> Stumbled(a, p)
  {}

  lemma {:induction false} AttemptOnRecord(run: Run, sequence: Option<seq<Event>>, completed: seq<Event>, results: seq<AttemptResult>, pieces: seq<Piece>, k: nat)
    requires IsRecord(run, sequence, completed, results, pieces) && k < |pieces|
    ensures IsAttempt(sequence, run(k), results[k], pieces[k])
    ensures IsRecord(run, sequence, completed, results[..k], pieces[..k])
    decreases |pieces|
  {
    var n := |pieces| - 1;
    if k < n {
      AttemptOnRecord(run, sequence, completed, results[..n], pieces[..n], k);
      assert results[..n][..k] == results[..k] && pieces[..n][..k] == pieces[..k];
    }
  }

  lemma {:induction false} StallsAreTheStalls(run: Run, sequence: Option<seq<Event>>, completed: seq<Event>, results: seq<AttemptResult>, pieces: seq<Piece>)
    requires IsRecord(run, sequence, completed, results, pieces)
    ensures Stalls(results) == StallsAmong(run, pieces)
  {
    if pieces != [] {
      var n := |pieces| - 1;
      StallsAreTheStalls(run, sequence, completed, results[..n], pieces[..n]);
      ResultsTellTheirFailures(sequence, run(n), results[n], pieces[n]);
    }
  }

  /** What the loop decides after an attempt, told from the record. */
  lemma DecisionOnRecord(run: Run, budget: nat, sequence: Option<seq<Event>>, completed: seq<Event>, results: seq<AttemptResult>, pieces: seq<Piece>, k: nat)
    requires IsRecord(run, sequence, completed, results, pieces) && k < |pieces|
    ensures Decide(run, budget, results[..k], results[k]) == Retry <==>
      IsWorthAnother(run, budget, pieces, k) && (Stalled(run(k), pieces[k]) || k + 1 < MAX_ATTEMPTS)
  {
    AttemptOnRecord(run, sequence, completed, results, pieces, k);
    StallsAreTheStalls(run, sequence, completed, results[..k], pieces[..k]);
    ResultsTellTheirFailures(sequence, run(k), results[k], pieces[k]);
  }

  lemma {:induction false} RetriedAt(run: Run, budget: nat, results: seq<AttemptResult>, k: nat)
    requires AllRetried(run, budget, results) && k < |results|
    ensures Decide(run, budget, results[..k], results[k]) == Retry
  {
    var n := |results| - 1;
    if k < n {
      RetriedAt(run, budget, results[..n], k);
      assert results[..n][..k] == results[..k];
    }
  }

  /** Every attempt is followed by another exactly when it is worth one and not the last allowed. */
  predicate GoesOn(run: Run, budget: nat, pieces: seq<Piece>) {
    forall k: nat | k < |pieces| :: k + 1 < |pieces| <==> IsWorthAnother(run, budget, pieces, k) && k + 1 < MAX_ATTEMPTS
  }

  lemma GoesOnExactlyWhenWorthIt(run: Run, budget: nat, sequence: Option<seq<Event>>, completed: seq<Event>,
                                 earlier: seq<AttemptResult>, last: AttemptResult, results: seq<AttemptResult>, pieces: seq<Piece>)
    requires IsRecord(run, sequence, completed, results, pieces) && Attempted(run, budget, earlier, last, results)
    requires |results| <= MAX_ATTEMPTS && (Decide(run, budget, earlier, last) == Retry ==> |results| == MAX_ATTEMPTS)
    ensures GoesOn(run, budget, pieces)
  {
    forall k: nat | k < |pieces|
      ensures k + 1 < |pieces| <==> IsWorthAnother(run, budget, pieces, k) && k + 1 < MAX_ATTEMPTS
    {
      DecisionOnRecord(run, budget, sequence, completed, results, pieces, k);
      if k + 1 < |pieces| {
        RetriedAt(run, budget, earlier, k);
        assert earlier[..k] == results[..k] && earlier[k] == results[k];
      } else {
        assert results[..k] == earlier && results[k] == last;
      }
    }
  }

  /** Without a stall budget, the default, a stall is never sent again. */
  lemma StallWithoutBudgetIsTheLast(run: Run, pieces: seq<Piece>, k: nat)
    requires GoesOn(run, 0, pieces) && k < |pieces| && Stalled(run(k), pieces[k])
    ensures k + 1 == |pieces|
  {
    assert !IsWorthAnother(run, 0, pieces, k);
  }

  /** How the run ends, told from its last attempt: an answer is returned; otherwise its failure is raised, or a
      cancellation when the token is set at the end and the loop was left on a cancellation or after a stall with room. */
  predicate EndsLike(run: Run, budget: nat, results: seq<AttemptResult>, pieces: seq<Piece>, cancelledAtEnd: bool, result: RunResult)
    requires |results| == |pieces| > 0
  {
    var n := |results| - 1;
    var stalled, stumbled := Stalled(run(n), pieces[n]), Stumbled(run(n), pieces[n]);
    var hasRoom := StallsAmong(run, pieces[..n]) < budget;
    match results[n]
    case Answer(text) => result == Verdict(text)
    case Raised(failure) =>
      var left := ((stalled || stumbled) && run(n).cancelledAfterFailure) || (stalled && hasRoom);
      result == if left && cancelledAtEnd then CancelledRun else Error(failure)
  }

  lemma RunEndsLikeItsLastAttempt(run: Run, budget: nat, sequence: Option<seq<Event>>, completed: seq<Event>,
                                  earlier: seq<AttemptResult>, last: AttemptResult, results: seq<AttemptResult>, pieces: seq<Piece>,
                                  cancelledAtEnd: bool)
    requires IsRecord(run, sequence, completed, results, pieces) && Attempted(run, budget, earlier, last, results)
    requires Decide(run, budget, earlier, last) == Retry ==> |results| == MAX_ATTEMPTS
    ensures EndsLike(run, budget, results, pieces, cancelledAtEnd, Final(run, budget, earlier, last, cancelledAtEnd))
  {
    var n := |results| - 1;
    assert results[..n] == earlier && results[n] == last;
    DecisionOnRecord(run, budget, sequence, completed, results, pieces, n);
    AttemptOnRecord(run, sequence, completed, results, pieces, n);
    ResultsTellTheirFailures(sequence, run(n), last, pieces[n]);
  }

  predicate StartsStay(b: nat, completed: seq<Event>, pieces: seq<Piece>) {
    || |pieces| <= 1 || |completed| == b
    || (|completed| < b && forall k | 0 <= k < |pieces| - 1 :: pieces[k].events == [])
  }

  lemma {:induction false} StartIsTheRollbacks(run: Run, sequence: seq<Event>, completed: seq<Event>, results: seq<AttemptResult>, pieces: seq<Piece>, k: nat)
    requires IsRecord(run, Some(sequence), completed, results, pieces) && k < |pieces|
    ensures pieces[k].start == NextStart(sequence, completed, pieces[..k])
    ensures IsAttempt(Some(sequence), run(k), results[k], pieces[k])
    decreases |pieces|
  {
    var n := |pieces| - 1;
    if k < n {
      var front := pieces[..n];
      StartIsTheRollbacks(run, sequence, completed, results[..n], front, k);
      assert front[..k] == pieces[..k] && front[k] == pieces[k];
    }
  }

  /** All attempts start alike exactly when the first starts at the boundary, or before it and none that was retried emitted. */
  lemma {:induction false} StartsStayExactlyWhen(run: Run, sequence: seq<Event>, completed: seq<Event>, results: seq<AttemptResult>, pieces: seq<Piece>)
    requires IsRecord(run, Some(sequence), completed, results, pieces)
    ensures AllStartAt(pieces, completed) <==> StartsStay(AttemptBoundary(sequence), completed, pieces)
  {
    var b := AttemptBoundary(sequence);
    if AllStartAt(pieces, completed) {
      forall k | 0 <= k < |pieces| - 1
        ensures |completed| == b || (|completed| < b && pieces[k].events == [])
      {
        StartIsTheRollbacks(run, sequence, completed, results, pieces, k + 1);
        assert pieces[k] in pieces && pieces[k + 1] in pieces;
        assert pieces[..k + 1][k] == pieces[k];
        RollbackRestoresExactlyAtTheBoundary(completed, pieces[k].events, b);
      }
      assert |pieces| >= 2 ==> pieces[0] in pieces;
    }
    if StartsStay(b, completed, pieces) {
      forall k: nat | k < |pieces|
        ensures pieces[k].start == completed
      {
        StartStays(run, sequence, completed, results, pieces, k);
      }
    }
  }

  lemma {:induction false} StartStays(run: Run, sequence: seq<Event>, completed: seq<Event>, results: seq<AttemptResult>, pieces: seq<Piece>, k: nat)
    requires IsRecord(run, Some(sequence), completed, results, pieces) && k < |pieces|
    requires StartsStay(AttemptBoundary(sequence), completed, pieces)
    ensures pieces[k].start == completed
  {
    StartIsTheRollbacks(run, sequence, completed, results, pieces, k);
    if k > 0 {
      StartStays(run, sequence, completed, results, pieces, k - 1);
      assert pieces[..k][k - 1] == pieces[k - 1];
      RollbackRestoresExactlyAtTheBoundary(completed, pieces[k - 1].events, AttemptBoundary(sequence));
    }
  }

  /** So they do from any prefix of a configured sequence that ends at or before the injection. */
  lemma StartsStayBeforeInjection(run: Run, sequence: seq<Event>, completed: seq<Event>, results: seq<AttemptResult>, pieces: seq<Piece>)
    requires IsRecord(run, Some(sequence), completed, results, pieces) && StandsBeforeInjection(sequence, completed)
    ensures AllStartAt(pieces, completed)
  {
    forall k: nat | k < |pieces|
      ensures pieces[k].start == completed
    {
      StartStaysBeforeInjection(run, sequence, completed, results, pieces, k);
    }
  }

  lemma {:induction false} StartStaysBeforeInjection(run: Run, sequence: seq<Event>, completed: seq<Event>, results: seq<AttemptResult>, pieces: seq<Piece>, k: nat)
    requires IsRecord(run, Some(sequence), completed, results, pieces) && StandsBeforeInjection(sequence, completed) && k < |pieces|
    ensures pieces[k].start == completed
  {
    StartIsTheRollbacks(run, sequence, completed, results, pieces, k);
    if k > 0 {
      StartIsTheRollbacks(run, sequence, completed, results, pieces, k - 1);
      StartStaysBeforeInjection(run, sequence, completed, results, pieces, k - 1);
      assert pieces[..k][k - 1] == pieces[k - 1];
      RollbackRestores(sequence, completed, pieces[k - 1].events);
    }
  }

  lemma {:induction false} RetriedAttemptsFailed(run: Run, budget: nat, results: seq<AttemptResult>, i: nat)
    requires AllRetried(run, budget, results) && i < |results|
    ensures results[i].Raised? && IsRetriable(results[i].failure) && !run(i).cancelledAfterFailure
    ensures !results[i].failure.StuckDetected? ==> i + 1 < MAX_ATTEMPTS
  {
    if i < |results| - 1 {
      RetriedAttemptsFailed(run, budget, results[..|results| - 1], i);
    }
  }

  /** A run answers only with its last attempt's answer and fails only with its last attempt's failure or a
      cancellation; every earlier attempt failed retriably, and stalls among them stayed within the budget. */
  lemma RunEndsWithItsLastAttempt(run: Run, budget: nat, results: seq<AttemptResult>, cancelledAtEnd: bool, result: RunResult)
    requires EndsAs(run, budget, results, cancelledAtEnd, result)
    ensures results != [] && Stalls(results[..|results| - 1]) <= budget
    ensures forall i | 0 <= i < |results| - 1 :: results[i].Raised? && IsRetriable(results[i].failure)
    ensures var last := results[|results| - 1];
      match result
      case Verdict(text) => last == Answer(text)
      case Error(failure) => last == Raised(failure)
      case CancelledRun => cancelledAtEnd && last.Raised? && IsRetriable(last.failure)
      case ResetRejected => false
  {
    var earlier, last :| Attempted(run, budget, earlier, last, results)
      && result == Final(run, budget, earlier, last, cancelledAtEnd);
    assert results[..|results| - 1] == earlier && results[|results| - 1] == last;
    StallsAreBounded(run, budget, earlier);
    forall i | 0 <= i < |earlier|
      ensures results[i].Raised? && IsRetriable(results[i].failure)
    {
      RetriedAttemptsFailed(run, budget, earlier, i);
    }
  }

  /** The boundary is the injection's place exactly when no parse event is configured or it comes right before the injection. */
  lemma BoundaryIsTheInjection(sequence: seq<Event>)
    requires Distinct(sequence) && PromptInjected in sequence
    ensures AttemptBoundary(sequence) == FirstIndexOf(sequence, PromptInjected) <==>
      DocumentParsed !in sequence ||
      FirstIndexOf(sequence, DocumentParsed) + 1 == FirstIndexOf(sequence, PromptInjected)
  {}

  /** A configured sequence is cut right behind its first parse event; without one, right before its first injection; with
      neither, nothing is kept. */
  lemma BoundaryIsWhereAttemptsBegin(sequence: seq<Event>, b: nat)
    requires b <= |sequence|
    ensures AttemptBoundary(sequence) == b <==>
      if DocumentParsed in sequence then b > 0 && sequence[b - 1] == DocumentParsed && DocumentParsed !in sequence[..b - 1]
      else if PromptInjected in sequence then b < |sequence| && sequence[b] == PromptInjected && PromptInjected !in sequence[..b]
      else b == 0
  {
    var d, q := FirstIndexOf(sequence, DocumentParsed), FirstIndexOf(sequence, PromptInjected);
    assert d >= 0 && b > 0 && b - 1 > d ==> sequence[..b - 1][d] == DocumentParsed;
    assert q >= 0 && b > q ==> sequence[..b][q] == PromptInjected;
  }

  /** A sequence without a parse event, or with one right before the injection, is split at the injection; the two
      configured pipelines are of these shapes. */
  lemma SplitsAtTheInjection(front: seq<Event>, back: seq<Event>)
    requires Distinct(front + [PromptInjected] + back)
    requires DocumentParsed !in front + back || (front != [] && front[|front| - 1] == DocumentParsed)
    ensures AttemptBoundary(front + [PromptInjected] + back) == |front|
  {
    var s := front + [PromptInjected] + back;
    IndexInDistinct(s, |front|);
    if DocumentParsed in front + back {
      IndexInDistinct(s, |front| - 1);
    } else {
      forall i | 0 <= i < |s|
        ensures s[i] != DocumentParsed
      {
        assert i < |front| ==> s[i] in front + back;
        assert i > |front| ==> s[i] in front + back;
      }
    }
  }
}
