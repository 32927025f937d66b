// Clicking send: rounds of baseline, click and acknowledgment until a deadline, over arbitrary page readings.
module SendDispatcher {
  import opened Common
  import opened LifecycleGate

  // What the page shows of the conversation at one moment.
  datatype Turn = Turn(messages: int, userMessages: int, text: Option<string>)

  predicate IsBlank(text: string) {
    forall i | 0 <= i < |text| :: text[i] in {' ', '\t', '\n', '\r'}
  }

  /** Evidence of a new user turn against a baseline. */
  predicate Grew(baseline: Turn, t: Turn) {
    || t.messages > baseline.messages
    || t.userMessages > baseline.userMessages
    || (t.text.Some? && !IsBlank(t.text.value) && t.text != baseline.text)
  }

  /** What was there before the click is no evidence, however it shrinks; one message more, one user message more, or
      another text that is not blank is. */
  lemma OnlyGrowthIsEvidence(b: Turn, t: Turn)
    ensures t.messages <= b.messages && t.userMessages <= b.userMessages && t.text == b.text ==> !Grew(b, t)
    ensures t.messages == b.messages + 1 || t.userMessages == b.userMessages + 1 ==> Grew(b, t)
    ensures t.text.Some? && t.text != b.text && !IsBlank(t.text.value) ==> Grew(b, t)
    ensures t.messages <= b.messages && t.userMessages <= b.userMessages && (t.text.None? || IsBlank(t.text.value)) ==> !Grew(b, t)
  {}

  // One poll of the acknowledgment loop: None when the browser raised instead of answering; fault: the pause after it raises.
  datatype AckPoll = AckPoll(clock: int, turn: Option<Turn>, fault: bool)

  datatype AckWindow = AckWindow(since: int, poll: nat -> AckPoll)

  // One round of the send loop. fault: a browser error before the click event; holdFault: one in the pause that follows a
  // toast after the click event.
  datatype Round = Round(
    clock: int, fault: bool, baseline: Turn, clicked: bool, toastAfterClick: bool,
    ack: AckWindow, toastAfterAck: bool, retryAck: AckWindow, toastAfterRetry: bool, holdFault: bool)

  // The page over the whole call: the clock when the loop starts, and every round it may take.
  datatype Page = Page(since: int, round: nat -> Round)

  ghost predicate WindowAdvances(w: AckWindow) {
    forall i: nat, j: nat | i < j :: w.poll(i).clock < w.poll(j).clock
  }

  ghost predicate PageAdvances(p: Page) {
    && (forall i: nat, j: nat | i < j :: p.round(i).clock < p.round(j).clock)
    && (forall k: nat :: WindowAdvances(p.round(k).ack) && WindowAdvances(p.round(k).retryAck))
  }

  predicate ShowsTurn(w: AckWindow, baseline: Turn, timeout: int, i: nat) {
    var p := w.poll(i);
    p.clock < w.since + timeout && p.turn.Some? && Grew(baseline, p.turn.value)
  }

  /** A new turn shows before the deadline and before any pause raises. */
  ghost predicate Acknowledges(w: AckWindow, baseline: Turn, timeout: int) {
    exists i: nat :: ShowsTurn(w, baseline, timeout, i) && forall j: nat | j < i :: !w.poll(j).fault
  }

  predicate Raises(w: AckWindow, timeout: int, i: nat) {
    w.poll(i).fault && w.poll(i).clock < w.since + timeout
  }

  /** A pause raises before the deadline and before any new turn shows. */
  ghost predicate Breaks(w: AckWindow, baseline: Turn, timeout: int) {
    exists i: nat :: Raises(w, timeout, i) && forall j: nat | j <= i :: !ShowsTurn(w, baseline, timeout, j)
  }

  ghost predicate IsSilent(w: AckWindow, baseline: Turn, timeout: int) {
    !Acknowledges(w, baseline, timeout) && !Breaks(w, baseline, timeout)
  }

  lemma {:induction false} ClockAdvances(w: AckWindow, i: nat, j: nat)
    requires WindowAdvances(w) && i <= j
    ensures w.poll(i).clock + (j - i) <= w.poll(j).clock
  {
    if i < j {
      ClockAdvances(w, i, j - 1);
    }
  }

  datatype AckResult = Yes | No | Fault

  /** The acknowledgment loop answers yes exactly when some poll before its deadline shows a new turn, and raises exactly
      when a pause does so first. */
  method WaitForDispatchAck(w: AckWindow, baseline: Turn, timeout: int) returns (r: AckResult)
    requires WindowAdvances(w)
    ensures r.Yes? <==> Acknowledges(w, baseline, timeout)
    ensures r.Fault? <==> Breaks(w, baseline, timeout)
  {
    var i: nat := 0;
    while w.poll(i).clock < w.since + timeout
      invariant forall j: nat | j < i :: !ShowsTurn(w, baseline, timeout, j) && !w.poll(j).fault
      decreases w.since + timeout - w.poll(i).clock
    {
      var turn := w.poll(i).turn;
      if turn.Some? && Grew(baseline, turn.value) {
        assert ShowsTurn(w, baseline, timeout, i);
        return Yes;
      }
      if w.poll(i).fault {
        assert Raises(w, timeout, i);
        return Fault;
      }
      i := i + 1;
    }
    forall j: nat
      ensures !ShowsTurn(w, baseline, timeout, j) && !Raises(w, timeout, j)
    {
      if j >= i {
        ClockAdvances(w, i, j);
      }
    }
    return No;
  }

  datatype SendResult = Sent | SendFailed | BrowserFailed | GateRejected(event: Event)

  /** The round's click was acknowledged against the baseline taken before it, at once or after the Enter fallback. */
  ghost predicate Acked(r: Round, timeout: int) {
    || Acknowledges(r.ack, r.baseline, timeout)
    || (IsSilent(r.ack, r.baseline, timeout) && !r.toastAfterAck && Acknowledges(r.retryAck, r.baseline, timeout))
  }

  /** The click was not acknowledged and a parse toast holds the round back. */
  ghost predicate ToastHolds(r: Round, timeout: int) {
    && IsSilent(r.ack, r.baseline, timeout)
    && (r.toastAfterAck || (IsSilent(r.retryAck, r.baseline, timeout) && r.toastAfterRetry))
  }

  ghost predicate HeldBack(r: Round, timeout: int) {
    ToastHolds(r, timeout) && !r.holdFault
  }

  /** The browser raises after the click event. */
  ghost predicate Broken(r: Round, timeout: int) {
    || Breaks(r.ack, r.baseline, timeout)
    || (IsSilent(r.ack, r.baseline, timeout) && !r.toastAfterAck && Breaks(r.retryAck, r.baseline, timeout))
    || (ToastHolds(r, timeout) && r.holdFault)
  }

  datatype Wait = Confirmed | Again | Faulted | Unconfirmed

  method AwaitAck(r: Round, timeout: int) returns (wait: Wait)
    requires WindowAdvances(r.ack) && WindowAdvances(r.retryAck)
    ensures wait.Confirmed? <==> Acked(r, timeout)
    ensures wait.Again? <==> HeldBack(r, timeout)
    ensures wait.Faulted? <==> Broken(r, timeout)
  {
    var ack := WaitForDispatchAck(r.ack, r.baseline, timeout);
    if ack.No? {
      if r.toastAfterAck {
        return if r.holdFault then Faulted else Again;
      }
      ack := WaitForDispatchAck(r.retryAck, r.baseline, timeout);
      if ack.No? && r.toastAfterRetry {
        return if r.holdFault then Faulted else Again;
      }
    }
    return match ack { case Yes => Confirmed case Fault => Faulted case No => Unconfirmed };
  }

  function Clicks(n: nat): seq<Event> {
    seq(n, i => SendClicked)
  }

  predicate Clickable(p: Page, timeout: int, k: nat) {
    var r := p.round(k);
    r.clock < p.since + timeout && !r.fault && r.clicked
  }

  /** A round that sends the loop round again. */
  ghost predicate GoesRound(p: Page, timeout: int, k: nat) {
    Clickable(p, timeout, k) && (p.round(k).toastAfterClick || HeldBack(p.round(k), timeout))
  }

  lemma ClicksGrow(n: nat)
    ensures Clicks(n + 1) == Clicks(n) + [SendClicked]
    ensures n >= 1 ==> SendClicked in Clicks(n)
  {
    if n >= 1 {
      assert Clicks(n)[0] == SendClicked;
    }
  }

  /** So many clicks went out, and the acknowledgment if sent; a gate has let one click through at most. */
  ghost predicate HasSent(emitter: Emitter, trace: seq<Event>, completed: seq<Event>, clicks: nat, sent: bool)
    reads emitter, emitter.gate
  {
    var events := Clicks(clicks) + (if sent then [DispatchAcknowledged] else []);
    emitter.trace == trace + events && (emitter.gate != null ==> emitter.Completed() == completed + events && clicks <= 1)
  }

  method Click(clicks: nat, emitter: Emitter, ghost trace: seq<Event>, ghost completed: seq<Event>) returns (ok: bool)
    requires HasSent(emitter, trace, completed, clicks, false)
    modifies emitter, emitter.gate
    ensures HasSent(emitter, trace, completed, if ok then clicks + 1 else clicks, false)
    ensures old(emitter.IsSound()) ==> emitter.IsSound()
    ensures !ok ==> emitter.gate != null
    ensures emitter.gate != null && clicks >= 1 ==> !ok
  {
    ClicksGrow(clicks);
    ok := emitter.Emit(SendClicked);
  }

  /** One click of a round: emit, then wait for the acknowledgment and emit that. Some(result) ends the send. */
  method ClickOnce(r: Round, timeout: int, clicks: nat, emitter: Emitter, ghost trace: seq<Event>, ghost completed: seq<Event>)
    returns (result: Option<SendResult>, clicks': nat)
    requires WindowAdvances(r.ack) && WindowAdvances(r.retryAck)
    requires HasSent(emitter, trace, completed, clicks, false)
    modifies emitter, emitter.gate
    ensures HasSent(emitter, trace, completed, clicks', result == Some(Sent))
    ensures old(emitter.IsSound()) ==> emitter.IsSound()
    ensures clicks' == if result == Some(GateRejected(SendClicked)) then clicks else clicks + 1
    ensures emitter.gate != null && clicks >= 1 ==> result == Some(GateRejected(SendClicked))
    ensures result == Some(Sent) ==> Acked(r, timeout)
    ensures result == Some(SendFailed) ==> !Acked(r, timeout) && !HeldBack(r, timeout) && !Broken(r, timeout)
    ensures result == Some(BrowserFailed) ==> Broken(r, timeout)
    ensures result == None ==> HeldBack(r, timeout)
    ensures result.Some? && result.value.GateRejected? ==> emitter.gate != null
  {
    var ok := Click(clicks, emitter, trace, completed);
    if !ok {
      return Some(GateRejected(SendClicked)), clicks;
    }
    var wait := AwaitAck(r, timeout);
    if !wait.Confirmed? {
      return match wait { case Again => None case Faulted => Some(BrowserFailed) case _ => Some(SendFailed) }, clicks + 1;
    }
    ok := emitter.Emit(DispatchAcknowledged);
    return Some(if ok then Sent else GateRejected(DispatchAcknowledged)), clicks + 1;
  }

  method ClickSend(p: Page, timeout: int, documentParsed: bool, emitter: Emitter)
    returns (result: SendResult, clicks: nat, rounds: nat)
    requires PageAdvances(p)
    modifies emitter, emitter.gate
    // What was emitted: some clicks, and one acknowledgment when sent.
    ensures emitter.trace == old(emitter.trace) + Clicks(clicks) + (if result.Sent? then [DispatchAcknowledged] else [])
    ensures emitter.gate != null ==>
      emitter.Completed() == old(emitter.Completed()) + Clicks(clicks) + (if result.Sent? then [DispatchAcknowledged] else [])
    ensures old(emitter.IsSound()) ==> emitter.IsSound()
    ensures result.Sent? ==> clicks >= 1
    // Sent only when the last round was acknowledged; otherwise, gate aside, no round was.
    ensures result.Sent? ==>
      && documentParsed && Clickable(p, timeout, rounds)
      && !p.round(rounds).toastAfterClick && Acked(p.round(rounds), timeout)
    ensures documentParsed && (result.SendFailed? || result.BrowserFailed?) && Clickable(p, timeout, rounds) ==>
      && !p.round(rounds).toastAfterClick && !Acked(p.round(rounds), timeout) && !HeldBack(p.round(rounds), timeout)
      && (result.BrowserFailed? <==> Broken(p.round(rounds), timeout))
    ensures result.BrowserFailed? && !Clickable(p, timeout, rounds) ==> p.round(rounds).fault
    ensures forall k: nat | k < rounds :: GoesRound(p, timeout, k)
    // A gate lets one click through: a second one is always refused.
    ensures result.GateRejected? ==> emitter.gate != null
    ensures emitter.gate != null ==> clicks <= 1
    ensures emitter.gate != null && result.Sent? ==> forall k: nat | k < rounds :: p.round(k).toastAfterClick
  {
    clicks, rounds := 0, 0;
    if !documentParsed {
      return SendFailed, 0, 0;
    }
    ghost var trace, completed := emitter.trace, emitter.Completed();
    while p.round(rounds).clock < p.since + timeout
      invariant HasSent(emitter, trace, completed, clicks, false)
      invariant old(emitter.IsSound()) ==> emitter.IsSound()
      invariant forall k: nat | k < rounds :: GoesRound(p, timeout, k)
      invariant clicks == 0 ==> forall k: nat | k < rounds :: p.round(k).toastAfterClick
      decreases p.since + timeout - p.round(rounds).clock
    {
      var r := p.round(rounds);
      if r.fault {
        return BrowserFailed, clicks, rounds;
      }
      if !r.clicked {
        return SendFailed, clicks, rounds;
      }
      if !r.toastAfterClick {
        var once;
        once, clicks := ClickOnce(r, timeout, clicks, emitter, trace, completed);
        if once.Some? {
          return once.value, clicks, rounds;
        }
      }
      rounds := rounds + 1;
    }
    return SendFailed, clicks, rounds;
  }
}
