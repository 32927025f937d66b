// The response polling loop over an arbitrary script of page readings, exceptions and clock values.
module StreamMonitor {
  import opened Common
  import opened LifecycleGate

  datatype Read = Text(text: Option<string>) | TimeoutFault | BrowserFault

  // What content validation says of a text.
  datatype Validation = Valid | RateLimited | Refused

  // One poll. later is the clock when an exception handler runs.
  datatype Poll = Poll(now: int, cancelled: bool, thinking: bool, complete: bool, read: Read,
                       validation: Validation, reloads: bool, later: int)

  type Script = nat -> Poll

  datatype Config = Config(start: int, timeout: int, safety: int, stall: int, checks: int, minLength: int,
                           baseline: Option<string>)

  datatype Outcome =
    | Complete(text: string)
    | Stuck(partial: Option<string>)
    | SafetyTimeout(partial: Option<string>)
    | HardTimeout(partial: Option<string>)
    | Cancelled
    | Invalid(validation: Validation)
    | GateRejected

  const RELOAD_SEC := 30

  /** The reading counts as a new response: there is one, it is long enough and differs from the baseline. */
  predicate Accepts(c: Config, p: Poll) {
    p.read.Text? && p.read.text.Some? && |p.read.text.value| >= c.minLength && p.read.text != c.baseline
  }

  /** A text as long as the minimum is accepted unless it is the baseline; a shorter one, the baseline, no text or an
      exception never is. */
  lemma ReadingsAreAcceptedFromTheMinimumOn(c: Config, p: Poll, text: string)
    ensures p.read == Text(Some(text)) && |text| == c.minLength && c.baseline != Some(text) ==> Accepts(c, p)
    ensures p.read == Text(Some(text)) && |text| > c.minLength && c.baseline != Some(text) ==> Accepts(c, p)
    ensures p.read == Text(Some(text)) && (|text| < c.minLength || c.baseline == Some(text)) ==> !Accepts(c, p)
    ensures p.read == Text(None) || !p.read.Text? ==> !Accepts(c, p)
  {}

  /** The accepted texts among the first n polls, in order. */
  function Accepted(c: Config, obs: Script, n: nat): seq<string> {
    if n == 0 then []
    else if Accepts(c, obs(n - 1)) then Accepted(c, obs, n - 1) + [obs(n - 1).read.text.value]
    else Accepted(c, obs, n - 1)
  }

  function Last(texts: seq<string>): Option<string> {
    if texts == [] then None else Some(texts[|texts| - 1])
  }

  /** How often the last text has been repeated since it last changed. */
  function Repeats(texts: seq<string>): nat {
    if |texts| <= 1 || texts[|texts| - 1] != texts[|texts| - 2] then 0 else Repeats(texts[..|texts| - 1]) + 1
  }

  /** Thinking has been announced during the first n polls: seen on the page, or implied by a response. */
  predicate Thought(c: Config, obs: Script, n: nat) {
    n > 0 && (Thought(c, obs, n - 1) || obs(n - 1).thinking || Accepts(c, obs(n - 1)))
  }

  /** Poll i brings the run forward: the page starts thinking, or the accepted text changes. */
  predicate Forward(c: Config, obs: Script, i: nat) {
    || (obs(i).thinking && !Thought(c, obs, i))
    || (Accepts(c, obs(i)) && obs(i).read.text != Last(Accepted(c, obs, i)))
  }

  function LastForward(c: Config, obs: Script, n: nat): int {
    if n == 0 then c.start
    else if Forward(c, obs, n - 1) then obs(n - 1).now
    else LastForward(c, obs, n - 1)
  }

  predicate Stable(c: Config, obs: Script, n: nat) {
    && Accepts(c, obs(n))
    && obs(n).read.text == Last(Accepted(c, obs, n))
    && Repeats(Accepted(c, obs, n)) + 1 >= c.checks
    && obs(n).complete
  }

  /** What poll n decides, given that no earlier poll has decided; None to go on polling. */
  function Verdict(c: Config, obs: Script, n: nat): Option<Outcome> {
    var p := obs(n);
    if p.cancelled then Some(Cancelled)
    else if p.now - c.start >= c.safety then Some(SafetyTimeout(Last(Accepted(c, obs, n))))
    else if p.now - c.start >= c.timeout then Some(HardTimeout(Last(Accepted(c, obs, n))))
    else if !p.read.Text? then None
    else if Stable(c, obs, n) then
      Some(if p.validation.Valid? then Complete(p.read.text.value) else Invalid(p.validation))
    else if !Forward(c, obs, n) && p.now - LastForward(c, obs, n) >= c.stall then
      Some(Stuck(Last(Accepted(c, obs, n + 1))))
    else None
  }

  // The events a wait can emit, in the only order it can emit them.
  const RESPONSE_EVENTS := [ThinkingStarted, StreamingGeneration, GenerationFinished]

  /** How many of them the first n polls have emitted. */
  function Emitted(c: Config, obs: Script, n: nat): (k: nat)
    ensures k <= 2
  {
    if Accepted(c, obs, n) != [] then 2 else if Thought(c, obs, n) then 1 else 0
  }

  /** How many have been emitted when poll n ends the wait. */
  function EmittedBy(c: Config, obs: Script, n: nat, o: Outcome): nat {
    match o
    case Complete(_) => 3
    case Stuck(_) => Emitted(c, obs, n + 1)
    case Invalid(_) => Emitted(c, obs, n + 1)
    case _ => Emitted(c, obs, n)
  }

  ghost predicate ClockAdvances(obs: Script) {
    forall i: nat, j: nat | i < j :: obs(i).now < obs(j).now
  }

  lemma {:induction false} LaterPollsAreLater(obs: Script, i: nat, j: nat)
    requires ClockAdvances(obs) && i <= j
    ensures obs(i).now + (j - i) <= obs(j).now
  {
    if i < j {
      LaterPollsAreLater(obs, i, j - 1);
    }
  }

  lemma AcceptImpliesThought(c: Config, obs: Script, n: nat)
    ensures Accepted(c, obs, n) != [] ==> Thought(c, obs, n)
  {}

  // What the loop carries from poll to poll.
  datatype Watch = Watch(hasThinking: bool, hasStreaming: bool, lastText: Option<string>, stableCount: nat, lastForward: int)

  predicate Tracks(c: Config, obs: Script, n: nat, w: Watch) {
    && w.hasThinking == Thought(c, obs, n)
    && w.hasStreaming == (Accepted(c, obs, n) != [])
    && w.lastText == Last(Accepted(c, obs, n))
    && w.stableCount == Repeats(Accepted(c, obs, n))
    && w.lastForward == LastForward(c, obs, n)
  }

  /** The polls that reloaded the page: at least half a minute apart, each before any response text was accepted. */
  predicate ReloadsAgree(c: Config, obs: Script, n: nat, reloads: seq<nat>) {
    && (forall i, j | 0 <= i < j < |reloads| :: obs(reloads[i]).now + RELOAD_SEC <= obs(reloads[j]).now)
    && (forall i | 0 <= i < |reloads| :: reloads[i] < n && Accepted(c, obs, reloads[i] + 1) == [])
  }

  /** The clock of the reloads before poll n: the start, the last reload or the last exception. */
  function ReloadClock(c: Config, obs: Script, n: nat): int
    decreases n, 0
  {
    if n == 0 then c.start
    else if !obs(n - 1).read.Text? then obs(n - 1).later
    else if ReloadsAt(c, obs, n - 1) then obs(n - 1).now
    else ReloadClock(c, obs, n - 1)
  }

  /** Poll n reloads the page: half a minute has passed, and no response text has been accepted yet. */
  predicate ReloadsAt(c: Config, obs: Script, n: nat)
    decreases n, 1
  {
    obs(n).read.Text? && obs(n).now - ReloadClock(c, obs, n) >= RELOAD_SEC && Accepted(c, obs, n + 1) == []
  }

  ghost predicate AreTheReloads(c: Config, obs: Script, n: nat, reloads: seq<nat>) {
    forall i: nat :: i in reloads <==> i < n && ReloadsAt(c, obs, i)
  }

  predicate ReloadedBy(obs: Script, reloads: seq<nat>, time: int) {
    forall i | 0 <= i < |reloads| :: obs(reloads[i]).now <= time
  }

  lemma OneMoreReload(c: Config, obs: Script, n: nat, reloads: seq<nat>, lastReload: int)
    requires ReloadsAgree(c, obs, n, reloads) && ReloadedBy(obs, reloads, lastReload)
    ensures ReloadsAgree(c, obs, n + 1, reloads)
    ensures lastReload + RELOAD_SEC <= obs(n).now && Accepted(c, obs, n + 1) == [] ==>
      ReloadsAgree(c, obs, n + 1, reloads + [n]) && ReloadedBy(obs, reloads + [n], obs(n).now)
  {}

  lemma PastReloadsArePast(c: Config, obs: Script, n: nat, reloads: seq<nat>, time: int)
    requires ClockAdvances(obs) && ReloadsAgree(c, obs, n, reloads) && obs(n).now <= time
    ensures ReloadedBy(obs, reloads, time)
  {
    forall i | 0 <= i < |reloads|
      ensures obs(reloads[i]).now <= time
    {
      LaterPollsAreLater(obs, reloads[i], n);
    }
  }

  lemma OneMoreText(texts: seq<string>, t: string)
    ensures Last(texts + [t]) == Some(t)
    ensures Repeats(texts + [t]) == if Last(texts) == Some(t) then Repeats(texts) + 1 else 0
  {
    assert (texts + [t])[..|texts|] == texts;
  }

  function Ceiling(c: Config): int {
    if c.timeout < c.safety then c.timeout else c.safety
  }

  /** The emitter's trace and its gate have been extended by the first k response events. */
  ghost predicate HasEmitted(emitter: Emitter, trace: seq<Event>, completed: seq<Event>, k: nat)
    requires k <= 3
    reads emitter, emitter.gate
  {
    && emitter.trace == trace + RESPONSE_EVENTS[..k]
    && (emitter.gate != null ==> emitter.Completed() == completed + RESPONSE_EVENTS[..k])
  }

  method EmitNext(e: Event, emitter: Emitter, k: nat, ghost trace: seq<Event>, ghost completed: seq<Event>) returns (ok: bool)
    requires k < 3 && e == RESPONSE_EVENTS[k] && HasEmitted(emitter, trace, completed, k)
    modifies emitter, emitter.gate
    ensures HasEmitted(emitter, trace, completed, if ok then k + 1 else k)
    ensures old(emitter.IsSound()) ==> emitter.IsSound()
    ensures !ok ==> emitter.gate != null
  {
    assert RESPONSE_EVENTS[..k + 1] == RESPONSE_EVENTS[..k] + [e];
    ok := emitter.Emit(e);
  }

  /** One poll below the ceilings: announce, accept, settle, or find the run stuck. None: go on polling. */
  method Observe(c: Config, obs: Script, n: nat, w: Watch, emitter: Emitter, ghost trace: seq<Event>, ghost completed: seq<Event>)
    returns (verdict: Option<Outcome>, w': Watch, emitted: nat)
    requires Tracks(c, obs, n, w)
    requires HasEmitted(emitter, trace, completed, Emitted(c, obs, n))
    requires !obs(n).cancelled && obs(n).now - c.start < Ceiling(c)
    modifies emitter, emitter.gate
    ensures emitted <= 3 && HasEmitted(emitter, trace, completed, emitted)
    ensures old(emitter.IsSound()) ==> emitter.IsSound()
    ensures verdict == Some(GateRejected) ==> emitter.gate != null
    ensures verdict != Some(GateRejected) ==> verdict == Verdict(c, obs, n)
    ensures verdict.None? ==> Tracks(c, obs, n + 1, w')
    ensures verdict != Some(GateRejected) ==>
      emitted == if verdict.Some? && verdict.value.Complete? then 3 else Emitted(c, obs, n + 1)
  {
    AcceptImpliesThought(c, obs, n);
    var p := obs(n);
    w', emitted := w, if w.hasStreaming then 2 else if w.hasThinking then 1 else 0;
    var forward := false;
    if !w'.hasThinking && p.thinking {
      var ok := EmitNext(ThinkingStarted, emitter, emitted, trace, completed);
      if !ok {
        return Some(GateRejected), w', emitted;
      }
      w', forward, emitted := w'.(hasThinking := true, lastForward := p.now), true, 1;
    }
    if !p.read.Text? {
      return None, w', emitted;
    }
    if Accepts(c, p) {
      OneMoreText(Accepted(c, obs, n), p.read.text.value);
      if !w'.hasThinking {
        var ok := EmitNext(ThinkingStarted, emitter, emitted, trace, completed);
        if !ok {
          return Some(GateRejected), w', emitted;
        }
        w', emitted := w'.(hasThinking := true), 1;
      }
      if p.read.text == w'.lastText {
        w' := w'.(stableCount := w'.stableCount + 1);
        if w'.stableCount >= c.checks && p.complete {
          if !p.validation.Valid? {
            return Some(Invalid(p.validation)), w', emitted;
          }
          var ok := EmitNext(GenerationFinished, emitter, emitted, trace, completed);
          if !ok {
            return Some(GateRejected), w', emitted;
          }
          return Some(Complete(p.read.text.value)), w', 3;
        }
      } else {
        if !w'.hasStreaming {
          var ok := EmitNext(StreamingGeneration, emitter, emitted, trace, completed);
          if !ok {
            return Some(GateRejected), w', emitted;
          }
          emitted := 2;
        }
        w', forward := w'.(hasStreaming := true, stableCount := 0, lastText := p.read.text, lastForward := p.now), true;
      }
    }
    if !forward && p.now - w'.lastForward >= c.stall {
      return Some(Stuck(w'.lastText)), w', emitted;
    }
    return None, w', emitted;
  }

  /** Where the reloads stand before poll n. */
  ghost predicate ReloadsStand(c: Config, obs: Script, n: nat, reloads: seq<nat>, lastReload: int) {
    && ReloadsAgree(c, obs, n, reloads) && ReloadedBy(obs, reloads, lastReload)
    && AreTheReloads(c, obs, n, reloads) && lastReload == ReloadClock(c, obs, n)
  }

  /** The end of a poll that decides nothing: an exception restarts the reload clock, and a poll without progress may reload. */
  method ReloadWhenDue(c: Config, obs: Script, n: nat, lastText: Option<string>, textAtLastReload: Option<string>,
                       lastReload: int, reloads: seq<nat>)
    returns (lastReload': int, reloads': seq<nat>, textAtLastReload': Option<string>)
    requires ClockAdvances(obs) && obs(n).later >= obs(n).now
    requires ReloadsStand(c, obs, n, reloads, lastReload)
    requires textAtLastReload == None && lastText == Last(Accepted(c, obs, n + 1))
    ensures ReloadsStand(c, obs, n + 1, reloads', lastReload') && textAtLastReload' == None
  {
    lastReload', reloads', textAtLastReload' := lastReload, reloads, textAtLastReload;
    OneMoreReload(c, obs, n, reloads, lastReload);
    var p := obs(n);
    if !p.read.Text? {
      // The exception handlers restart the reload clock and poll again at once.
      PastReloadsArePast(c, obs, n, reloads, p.later);
      lastReload' := p.later;
    } else if p.now - lastReload >= RELOAD_SEC && lastText == textAtLastReload {
      lastReload', reloads' := p.now, reloads + [n];
      if p.reloads {
        textAtLastReload' := lastText;
      }
    }
  }

  /** The whole wait. The result is the verdict of the first poll that has one; a gate may cut it short by refusing an event. */
  method WaitForResponse(c: Config, obs: Script, emitter: Emitter)
    returns (result: Outcome, polls: nat, reloads: seq<nat>, emitted: nat)
    requires ClockAdvances(obs) && obs(0).now >= c.start
    requires forall i: nat :: obs(i).later >= obs(i).now
    modifies emitter, emitter.gate
    ensures !result.GateRejected? ==> Verdict(c, obs, polls) == Some(result)
    ensures result.GateRejected? ==> emitter.gate != null
    ensures forall i: nat | i < polls :: Verdict(c, obs, i).None?
    ensures emitted <= 3 && HasEmitted(emitter, old(emitter.trace), old(emitter.Completed()), emitted)
    ensures old(emitter.IsSound()) ==> emitter.IsSound()
    ensures !result.GateRejected? ==> emitted == EmittedBy(c, obs, polls, result)
    ensures ReloadsAgree(c, obs, polls, reloads) && AreTheReloads(c, obs, polls, reloads)
    ensures polls <= if Ceiling(c) > 0 then Ceiling(c) else 0
  {
    var w := Watch(false, false, None, 0, c.start);
    var lastReload := c.start;
    var textAtLastReload: Option<string> := None;
    polls, reloads, emitted := 0, [], 0;
    ghost var trace, completed := emitter.trace, emitter.Completed();
    while true
      invariant Tracks(c, obs, polls, w)
      invariant emitted == Emitted(c, obs, polls) && HasEmitted(emitter, trace, completed, emitted)
      invariant forall i: nat | i < polls :: Verdict(c, obs, i).None?
      invariant textAtLastReload == None && (old(emitter.IsSound()) ==> emitter.IsSound())
      invariant ReloadsStand(c, obs, polls, reloads, lastReload)
      invariant polls <= if Ceiling(c) > 0 then Ceiling(c) else 0
      decreases Ceiling(c) - polls
    {
      var p := obs(polls);
      LaterPollsAreLater(obs, 0, polls);
      var end := if p.cancelled then Some(Cancelled)
                 else if p.now - c.start >= c.safety then Some(SafetyTimeout(w.lastText))
                 else if p.now - c.start >= c.timeout then Some(HardTimeout(w.lastText))
                 else None;
      if end.Some? {
        return end.value, polls, reloads, emitted;
      }
      var verdict;
      verdict, w, emitted := Observe(c, obs, polls, w, emitter, trace, completed);
      if verdict.Some? {
        return verdict.value, polls, reloads, emitted;
      }
      lastReload, reloads, textAtLastReload :=
        ReloadWhenDue(c, obs, polls, w.lastText, textAtLastReload, lastReload, reloads);
      polls := polls + 1;
    }
  }

  // ----- What the verdicts mean -----

  lemma {:induction false} RepeatsAreEqual(texts: seq<string>, k: nat)
    requires k <= Repeats(texts) && texts != []
    ensures k < |texts| && forall i | |texts| - 1 - k <= i < |texts| :: texts[i] == texts[|texts| - 1]
  {
    if k > 0 {
      RepeatsAreEqual(texts[..|texts| - 1], k - 1);
    }
  }

  lemma {:induction false} AcceptedDifferFromBaseline(c: Config, obs: Script, n: nat)
    ensures forall i | 0 <= i < |Accepted(c, obs, n)| ::
      Some(Accepted(c, obs, n)[i]) != c.baseline && |Accepted(c, obs, n)[i]| >= c.minLength
  {
    if n > 0 {
      AcceptedDifferFromBaseline(c, obs, n - 1);
    }
  }

  /** A complete verdict is a text new against the baseline that the last accepted readings, one more
      than the required checks and never fewer than two, all show, on a poll where generation is over. */
  lemma CompleteMeansSettled(c: Config, obs: Script, n: nat, text: string)
    requires Verdict(c, obs, n) == Some(Complete(text))
    ensures Some(text) != c.baseline && |text| >= c.minLength && obs(n).complete && obs(n).validation.Valid?
    ensures var texts := Accepted(c, obs, n + 1); var k := if c.checks > 1 then c.checks else 1;
      k < |texts| && forall i | |texts| - 1 - k <= i < |texts| :: texts[i] == text
  {
    var texts := Accepted(c, obs, n + 1);
    OneMoreText(Accepted(c, obs, n), text);
    RepeatsAreEqual(texts, if c.checks > 1 then c.checks else 1);
  }

  lemma {:induction false} ForwardsAreBounded(c: Config, obs: Script, n: nat)
    requires ClockAdvances(obs) && obs(0).now >= c.start
    ensures c.start <= LastForward(c, obs, n)
    ensures forall i: nat | i < n && Forward(c, obs, i) :: obs(i).now <= LastForward(c, obs, n)
  {
    if n > 0 {
      ForwardsAreBounded(c, obs, n - 1);
      forall i: nat | i < n - 1
        ensures obs(i).now <= obs(n - 1).now
      {
        LaterPollsAreLater(obs, i, n - 1);
      }
      LaterPollsAreLater(obs, 0, n - 1);
    }
  }

  /** Stuck means a full stall window without a thinking start or a text change, and carries the last accepted text. */
  lemma StuckMeansSilence(c: Config, obs: Script, n: nat, partial: Option<string>)
    requires ClockAdvances(obs) && obs(0).now >= c.start
    requires Verdict(c, obs, n) == Some(Stuck(partial))
    ensures c.start + c.stall <= obs(n).now
    ensures forall i: nat | i <= n && Forward(c, obs, i) :: obs(i).now + c.stall <= obs(n).now
    ensures partial == Last(Accepted(c, obs, n + 1))
  {
    ForwardsAreBounded(c, obs, n);
  }

  /** So a run that moved within the last stall window is never called stuck. */
  lemma LiveRunIsNeverStuck(c: Config, obs: Script, n: nat, i: nat)
    requires ClockAdvances(obs) && obs(0).now >= c.start
    requires i <= n && Forward(c, obs, i) && obs(n).now < obs(i).now + c.stall
    ensures !(Verdict(c, obs, n).Some? && Verdict(c, obs, n).value.Stuck?)
  {
    if Verdict(c, obs, n).Some? && Verdict(c, obs, n).value.Stuck? {
      StuckMeansSilence(c, obs, n, Verdict(c, obs, n).value.partial);
      assert false;
    }
  }

  // ----- When each verdict comes, poll by poll -----

  /** The text of the latest of the first n polls that is accepted; None exactly when none is. */
  ghost predicate IsLatestText(c: Config, obs: Script, n: nat, text: Option<string>) {
    match text
    case None => forall i: nat | i < n :: !Accepts(c, obs(i))
    case Some(t) => exists i: nat | i < n :: Accepts(c, obs(i)) && obs(i).read.text == Some(t) && NoneAcceptedBetween(c, obs, i, n)
  }

  predicate NoneAcceptedBetween(c: Config, obs: Script, i: nat, n: nat) {
    forall j: nat | i < j < n :: !Accepts(c, obs(j))
  }

  lemma {:induction false} LatestTextIsTheLastAccepted(c: Config, obs: Script, n: nat, text: Option<string>)
    ensures IsLatestText(c, obs, n, text) <==> text == Last(Accepted(c, obs, n))
  {
    if n > 0 {
      LatestTextIsTheLastAccepted(c, obs, n - 1, text);
      if Accepts(c, obs(n - 1)) {
        assert NoneAcceptedBetween(c, obs, n - 1, n);
      } else {
        forall i: nat | i < n - 1
          ensures NoneAcceptedBetween(c, obs, i, n - 1) <==> NoneAcceptedBetween(c, obs, i, n)
        {}
      }
    }
  }

  function AcceptedPolls(c: Config, obs: Script, n: nat): set<nat> { set i: nat | i < n && Accepts(c, obs(i)) }

  lemma OneMoreAcceptedPoll(c: Config, obs: Script, n: nat)
    ensures |AcceptedPolls(c, obs, n + 1)| == |AcceptedPolls(c, obs, n)| + if Accepts(c, obs(n)) then 1 else 0
  {
    var before, after := AcceptedPolls(c, obs, n), AcceptedPolls(c, obs, n + 1);
    if Accepts(c, obs(n)) {
      assert after == before + {n};
    } else {
      assert after == before;
    }
  }

  /** There are as many accepted texts as accepted polls, and the text of each stands behind those of the earlier ones. */
  lemma {:induction false} AcceptedTextsAreThePolls(c: Config, obs: Script, n: nat, i: nat)
    ensures |Accepted(c, obs, n)| == |AcceptedPolls(c, obs, n)|
    ensures i < n && Accepts(c, obs(i)) ==>
      |Accepted(c, obs, i)| < |Accepted(c, obs, n)| && Some(Accepted(c, obs, n)[|Accepted(c, obs, i)|]) == obs(i).read.text
  {
    if n > 0 {
      AcceptedTextsAreThePolls(c, obs, n - 1, i);
      OneMoreAcceptedPoll(c, obs, n - 1);
    }
  }

  predicate IsBelowCeilings(c: Config, p: Poll) {
    !p.cancelled && p.now - c.start < c.safety && p.now - c.start < c.timeout
  }

  /** Cancellation comes first, then the safety ceiling from its bound on, then the hard one; both carry the latest text. */
  lemma CeilingsComeAtTheirBounds(c: Config, obs: Script, n: nat, text: Option<string>)
    ensures var v, p := Verdict(c, obs, n), obs(n);
      && (v == Some(Cancelled) <==> p.cancelled)
      && (v == Some(SafetyTimeout(text)) <==> !p.cancelled && p.now - c.start >= c.safety && IsLatestText(c, obs, n, text))
      && (v == Some(HardTimeout(text)) <==>
            !p.cancelled && c.timeout <= p.now - c.start < c.safety && IsLatestText(c, obs, n, text))
  {
    LatestTextIsTheLastAccepted(c, obs, n, text);
  }

  /** The poll shows the text, and so did the last accepted polls, one more than the required checks and at least two. */
  predicate IsSettled(c: Config, obs: Script, n: nat, text: string) {
    var texts := Accepted(c, obs, n + 1);
    var k := if c.checks > 1 then c.checks else 1;
    && Accepts(c, obs(n)) && obs(n).read.text == Some(text) && k < |texts|
    && forall i | |texts| - 1 - k <= i < |texts| :: texts[i] == text
  }

  lemma {:induction false} EqualTextsAreRepeats(texts: seq<string>, k: nat)
    requires k < |texts| && forall i | |texts| - 1 - k <= i < |texts| :: texts[i] == texts[|texts| - 1]
    ensures k <= Repeats(texts)
  {
    if k > 0 {
      assert texts[|texts| - 2] == texts[|texts| - 1];
      EqualTextsAreRepeats(texts[..|texts| - 1], k - 1);
    }
  }

  lemma SettledIsStable(c: Config, obs: Script, n: nat, text: string)
    requires Accepts(c, obs(n)) && obs(n).read.text == Some(text)
    ensures Stable(c, obs, n) <==> IsSettled(c, obs, n, text) && obs(n).complete
  {
    var texts := Accepted(c, obs, n + 1);
    var k := if c.checks > 1 then c.checks else 1;
    OneMoreText(Accepted(c, obs, n), text);
    if k <= Repeats(texts) {
      RepeatsAreEqual(texts, k);
    }
    if IsSettled(c, obs, n, text) {
      EqualTextsAreRepeats(texts, k);
    }
  }

  /** Below the ceilings a poll completes with a text exactly when that has settled, generation is over and the text
      validates; if it does not validate, it ends with what validation says. */
  lemma CompletesExactlyWhenSettled(c: Config, obs: Script, n: nat, text: string)
    requires IsBelowCeilings(c, obs(n))
    ensures Verdict(c, obs, n) == Some(Complete(text)) <==>
      IsSettled(c, obs, n, text) && obs(n).complete && obs(n).validation.Valid?
    ensures IsSettled(c, obs, n, text) && obs(n).complete && !obs(n).validation.Valid? ==>
      Verdict(c, obs, n) == Some(Invalid(obs(n).validation))
    ensures Verdict(c, obs, n).Some? && Verdict(c, obs, n).value.Invalid? ==>
      && Verdict(c, obs, n).value.validation == obs(n).validation && !obs(n).validation.Valid? && obs(n).complete
      && obs(n).read.Text? && obs(n).read.text.Some? && IsSettled(c, obs, n, obs(n).read.text.value)
  {
    if Accepts(c, obs(n)) {
      SettledIsStable(c, obs, n, obs(n).read.text.value);
    }
  }

  /** A poll moves the run on: it is the first to show thinking with no response yet, or its text is not the latest one. */
  ghost predicate MovesOn(c: Config, obs: Script, i: nat) {
    || (obs(i).thinking && forall j: nat | j < i :: !obs(j).thinking && !Accepts(c, obs(j)))
    || (Accepts(c, obs(i)) && !IsLatestText(c, obs, i, obs(i).read.text))
  }

  lemma {:induction false} ThoughtMeansSeen(c: Config, obs: Script, n: nat)
    ensures Thought(c, obs, n) <==> exists j: nat :: j < n && (obs(j).thinking || Accepts(c, obs(j)))
  {
    if n > 0 {
      ThoughtMeansSeen(c, obs, n - 1);
    }
  }

  lemma MovesOnIsForward(c: Config, obs: Script, i: nat)
    ensures MovesOn(c, obs, i) <==> Forward(c, obs, i)
  {
    ThoughtMeansSeen(c, obs, i);
    if Accepts(c, obs(i)) {
      LatestTextIsTheLastAccepted(c, obs, i, obs(i).read.text);
    }
  }

  /** Neither the start nor any move of the run lies within the last stall window. */
  ghost predicate IsSilent(c: Config, obs: Script, n: nat) {
    && !MovesOn(c, obs, n) && c.start + c.stall <= obs(n).now
    && forall i: nat | i < n && MovesOn(c, obs, i) :: obs(i).now + c.stall <= obs(n).now
  }

  lemma {:induction false} LastForwardIsAMove(c: Config, obs: Script, n: nat)
    ensures LastForward(c, obs, n) == c.start || exists i: nat :: i < n && Forward(c, obs, i) && obs(i).now == LastForward(c, obs, n)
  {
    if n > 0 {
      LastForwardIsAMove(c, obs, n - 1);
    }
  }

  lemma SilentIsStalled(c: Config, obs: Script, n: nat)
    requires ClockAdvances(obs) && obs(0).now >= c.start
    ensures IsSilent(c, obs, n) <==> !Forward(c, obs, n) && obs(n).now - LastForward(c, obs, n) >= c.stall
  {
    MovesOnIsForward(c, obs, n);
    ForwardsAreBounded(c, obs, n);
    LastForwardIsAMove(c, obs, n);
    forall i: nat | i < n
      ensures MovesOn(c, obs, i) <==> Forward(c, obs, i)
    {
      MovesOnIsForward(c, obs, i);
    }
  }

  /** Below the ceilings a poll that reads the page finds the run stuck exactly when it does not end it otherwise and a
      full stall window has been silent; what it carries is the latest text. */
  lemma StuckExactlyWhenSilent(c: Config, obs: Script, n: nat, text: Option<string>)
    requires ClockAdvances(obs) && obs(0).now >= c.start && IsBelowCeilings(c, obs(n))
    ensures Verdict(c, obs, n) == Some(Stuck(text)) <==>
      && obs(n).read.Text? && IsSilent(c, obs, n) && IsLatestText(c, obs, n + 1, text)
      && !(obs(n).complete && obs(n).read.text.Some? && IsSettled(c, obs, n, obs(n).read.text.value))
  {
    SilentIsStalled(c, obs, n);
    LatestTextIsTheLastAccepted(c, obs, n + 1, text);
    if Accepts(c, obs(n)) {
      SettledIsStable(c, obs, n, obs(n).read.text.value);
    }
  }

  /** Thinking is announced exactly when a poll has shown it or a response, streaming exactly when a response has come. */
  lemma EventsTellWhatWasSeen(c: Config, obs: Script, n: nat)
    ensures Emitted(c, obs, n) >= 1 <==> exists j: nat :: j < n && (obs(j).thinking || Accepts(c, obs(j)))
    ensures Emitted(c, obs, n) == 2 <==> exists j: nat :: j < n && Accepts(c, obs(j))
  {
    ThoughtMeansSeen(c, obs, n);
    AcceptImpliesThought(c, obs, n);
    LatestTextIsTheLastAccepted(c, obs, n, None);
  }

  /** The exception handler of poll i has run before the next poll. */
  ghost predicate HandlersFinish(obs: Script) {
    forall i: nat, j: nat | i < j :: obs(i).now <= obs(i).later <= obs(j).now
  }

  /** Since the start, any exception and any reload of the first n polls, half a minute has passed by the time. */
  ghost predicate IsDue(c: Config, obs: Script, n: nat, time: int) {
    && c.start + RELOAD_SEC <= time
    && (forall i: nat | i < n && !obs(i).read.Text? :: obs(i).later + RELOAD_SEC <= time)
    && (forall i: nat | i < n && ReloadsAt(c, obs, i) :: obs(i).now + RELOAD_SEC <= time)
  }

  lemma DueOneLater(c: Config, obs: Script, n: nat, time: int)
    ensures IsDue(c, obs, n + 1, time) <==>
      && IsDue(c, obs, n, time)
      && (!obs(n).read.Text? ==> obs(n).later + RELOAD_SEC <= time)
      && (ReloadsAt(c, obs, n) ==> obs(n).now + RELOAD_SEC <= time)
  {}

  lemma {:induction false} ReloadClockIsPast(c: Config, obs: Script, n: nat)
    requires ClockAdvances(obs) && HandlersFinish(obs) && c.start <= obs(0).now
    ensures ReloadClock(c, obs, n) <= obs(n).now
  {
    if n > 0 {
      ReloadClockIsPast(c, obs, n - 1);
    }
  }

  lemma {:induction false} DueByTheReloadClock(c: Config, obs: Script, n: nat, time: int)
    requires ClockAdvances(obs) && HandlersFinish(obs) && c.start <= obs(0).now
    ensures IsDue(c, obs, n, time) <==> ReloadClock(c, obs, n) + RELOAD_SEC <= time
  {
    if n > 0 {
      DueOneLater(c, obs, n - 1, time);
      DueByTheReloadClock(c, obs, n - 1, time);
      ReloadClockIsPast(c, obs, n - 1);
      assert obs(n - 1).now <= obs(n - 1).later <= obs(n).now;
    }
  }

  /** A poll that goes on reloads the page exactly when it could be read, no response has been accepted up to and with it,
      and half a minute has passed since the start, the last reload and the last exception. */
  lemma ReloadsExactlyWhenDue(c: Config, obs: Script, n: nat)
    requires ClockAdvances(obs) && HandlersFinish(obs) && c.start <= obs(0).now
    ensures ReloadsAt(c, obs, n) <==>
      obs(n).read.Text? && (forall i: nat | i <= n :: !Accepts(c, obs(i))) && IsDue(c, obs, n, obs(n).now)
  {
    DueByTheReloadClock(c, obs, n, obs(n).now);
    LatestTextIsTheLastAccepted(c, obs, n + 1, None);
  }
}
