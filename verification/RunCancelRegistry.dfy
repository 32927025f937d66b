// Targeted cancel: the registry object, and the interleaving of registrations,
// releases and cancels whose several lock sections are separate steps.
module RunCancelRegistry {
  import opened Common

  type RunId = int

  class CancelToken {
    var isSet: bool

    constructor ()
      ensures !isSet
    {
      isSet := false;
    }
  }

  class BrowserContext {
    var closed: bool

    constructor ()
      ensures !closed
    {
      closed := false;
    }
  }

  class RunState {
    const runId: RunId
    const cancelEvent: CancelToken
    var activeBctx: BrowserContext?

    constructor (runId: RunId, cancelEvent: CancelToken)
      ensures this.runId == runId && this.cancelEvent == cancelEvent && activeBctx == null
    {
      this.runId, this.cancelEvent, activeBctx := runId, cancelEvent, null;
    }
  }

  class Registry {
    var states: map<RunId, RunState>
    var eventIndex: map<CancelToken, RunId>

    constructor ()
      ensures states == map[] && eventIndex == map[]
    {
      states, eventIndex := map[], map[];
    }

    method Register(run: RunState)
      modifies this
      ensures states == old(states)[run.runId := run]
      ensures eventIndex == old(eventIndex)[run.cancelEvent := run.runId]
    {
      states := states[run.runId := run];
      eventIndex := eventIndex[run.cancelEvent := run.runId];
    }

    /** The event keeps its mapping when a later run has taken it over. */
    method Release(run: RunState)
      modifies this
      ensures states == old(states) - {run.runId}
      ensures run.cancelEvent in old(eventIndex) && old(eventIndex)[run.cancelEvent] != run.runId ==> eventIndex == old(eventIndex)
      ensures run.cancelEvent !in old(eventIndex) || old(eventIndex)[run.cancelEvent] == run.runId ==>
        eventIndex == old(eventIndex) - {run.cancelEvent}
    {
      states := states - {run.runId};
      if run.cancelEvent in eventIndex && eventIndex[run.cancelEvent] == run.runId {
        eventIndex := eventIndex - {run.cancelEvent};
      }
    }

    method SetActiveBctx(runId: RunId, bctx: BrowserContext?)
      modifies if runId in states then {states[runId]} else {}
      ensures runId in states ==> states[runId].activeBctx == bctx
    {
      if runId in states {
        states[runId].activeBctx := bctx;
      }
    }

    method ActiveBctx(runId: RunId) returns (bctx: BrowserContext?)
      ensures bctx == if runId in states then states[runId].activeBctx else null
    {
      if runId !in states {
        return null;
      }
      return states[runId].activeBctx;
    }

    ghost function TargetOf(runId: RunId): (effects: set<object>)
      reads this, if runId in states then {states[runId]} else {}
    {
      if runId !in states then {}
      else if states[runId].activeBctx == null then {states[runId].cancelEvent}
      else {states[runId].cancelEvent, states[runId].activeBctx}
    }

    /** The frame is the promise: nothing but this run's event and this run's context can change. */
    method CancelRun(runId: RunId) returns (stopped: bool)
      modifies TargetOf(runId)
      ensures stopped <==> runId in states
      ensures stopped ==> states[runId].cancelEvent.isSet
      ensures stopped && states[runId].activeBctx != null ==> states[runId].activeBctx.closed
    {
      if runId !in states {
        return false;
      }
      states[runId].cancelEvent.isSet := true;
      var bctx := ActiveBctx(runId);
      if bctx != null {
        bctx.closed := true;
      }
      return true;
    }

    method CancelByEvent(event: CancelToken) returns (stopped: bool)
      modifies if event in eventIndex then TargetOf(eventIndex[event]) else {}
      ensures stopped <==> event in eventIndex && eventIndex[event] in states
      ensures stopped ==> states[eventIndex[event]].cancelEvent.isSet
      ensures stopped ==> var bctx := states[eventIndex[event]].activeBctx; bctx != null ==> bctx.closed
    {
      if event !in eventIndex {
        return false;
      }
      stopped := CancelRun(eventIndex[event]);
    }
  }

  // ----- The interleaving -----

  type Event = int
  type Ctx = int

  datatype Registration = Registration(run: RunId, event: Event)

  // Where one cancel call stands between its lock sections.
  datatype Op =
    | Resolved(run: RunId)                                   // the event index answered
    | Found(run: RunId, event: Event)                        // the run was still registered
    | Flagged(run: RunId)                                    // its event is set
    | Peeked(run: RunId, bctx: Option<Ctx>)                  // its context was read
    | Done(target: Option<RunId>)                            // the run it stopped; None is the answer False

  // events holds the event of every run ever registered: the RunState object outlives its registration.
  datatype State = State(
    history: seq<Registration>,
    events: map<RunId, Event>,
    released: set<RunId>,
    states: set<RunId>,
    index: map<Event, RunId>,
    bctx: map<RunId, Ctx>,
    owner: map<Ctx, RunId>,
    setEvents: set<Event>,
    closed: set<Ctx>,
    flagged: set<RunId>,      // runs some cancel has acted on
    ops: map<int, Op>)

  datatype Action =
    | Register(run: RunId, event: Event)
    | Release(run: RunId)
    | SetBctx(run: RunId, ctx: Ctx)
    | ClearBctx(run: RunId)
    | StartByEvent(op: int, event: Event)
    | StartByRun(op: int, run: RunId)
    | Advance(op: int)

  const START := State([], map[], {}, {}, map[], map[], map[], {}, {}, {}, map[])

  /** The latest run registered with the event. */
  function Latest(history: seq<Registration>, event: Event): Option<RunId> {
    if history == [] then None
    else if history[|history| - 1].event == event then Some(history[|history| - 1].run)
    else Latest(history[..|history| - 1], event)
  }

  function At<K, V>(m: map<K, V>, k: K): Option<V> {
    if k in m then Some(m[k]) else None
  }

  function AdvanceOp(s: State, op: int): Option<State> {
    if op !in s.ops then None
    else
      match s.ops[op]
      case Resolved(run) =>
        Some(s.(ops := s.ops[op := if run in s.states && run in s.events then Found(run, s.events[run]) else Done(None)]))
      case Found(run, event) =>
        Some(s.(ops := s.ops[op := Flagged(run)], setEvents := s.setEvents + {event}, flagged := s.flagged + {run}))
      case Flagged(run) =>
        Some(s.(ops := s.ops[op := Peeked(run, if run in s.states then At(s.bctx, run) else None)]))
      case Peeked(run, bctx) =>
        Some(s.(ops := s.ops[op := Done(Some(run))], closed := if bctx.Some? then s.closed + {bctx.value} else s.closed))
      case Done(_) => None
  }

  function Step(s: State, a: Action): Option<State> {
    match a
    case Register(run, event) =>
      if run in s.events then None
      else Some(s.(history := s.history + [Registration(run, event)], events := s.events[run := event],
                   states := s.states + {run}, index := s.index[event := run]))
    case Release(run) =>
      if run !in s.states || run !in s.events then None
      else
        var event := s.events[run];
        Some(s.(released := s.released + {run}, states := s.states - {run},
                index := if At(s.index, event) == Some(run) then s.index - {event} else s.index))
    case SetBctx(run, ctx) =>
      // Every browser context belongs to the run that opened it.
      if run !in s.events || (ctx in s.owner && s.owner[ctx] != run) then None
      else Some(s.(bctx := s.bctx[run := ctx], owner := s.owner[ctx := run]))
    case ClearBctx(run) => Some(s.(bctx := s.bctx - {run}))
    case StartByEvent(op, event) =>
      if op in s.ops then None
      else Some(s.(ops := s.ops[op := if event in s.index then Resolved(s.index[event]) else Done(None)]))
    case StartByRun(op, run) =>
      if op in s.ops then None else Some(s.(ops := s.ops[op := Resolved(run)]))
    case Advance(op) => AdvanceOp(s, op)
  }

  function Exec(s: State, acts: seq<Action>): Option<State>
    decreases |acts|
  {
    if acts == [] then Some(s)
    else
      var next := Step(s, acts[0]);
      if next.None? then None else Exec(next.value, acts[1..])
  }

  predicate HistoryAgrees(history: seq<Registration>, events: map<RunId, Event>) {
    forall i | 0 <= i < |history| :: history[i].run in events && events[history[i].run] == history[i].event
  }

  /** What the index must answer: the latest run registered with the event, unless it has been released. */
  function LiveLatest(s: State, event: Event): Option<RunId> {
    var latest := Latest(s.history, event);
    if latest.Some? && latest.value !in s.released then latest else None
  }

  ghost predicate MapsAgree(s: State) {
    && HistoryAgrees(s.history, s.events)
    && s.states == s.events.Keys - s.released && s.released <= s.events.Keys
    && forall e :: At(s.index, e) == LiveLatest(s, e)
  }

  ghost predicate EffectsAgree(s: State) {
    && (forall r | r in s.bctx :: s.bctx[r] in s.owner && s.owner[s.bctx[r]] == r)
    && (forall r | r in s.flagged :: r in s.events && s.events[r] in s.setEvents)
    && (forall e | e in s.setEvents :: exists r :: r in s.flagged && r in s.events && s.events[r] == e)
    && (forall c | c in s.closed :: c in s.owner && s.owner[c] in s.flagged)
  }

  ghost predicate OpAgrees(s: State, op: Op) {
    match op
    case Resolved(_) => true
    case Found(run, event) => run in s.events && s.events[run] == event
    case Flagged(run) => run in s.flagged
    case Peeked(run, bctx) => run in s.flagged && (bctx.Some? ==> bctx.value in s.owner && s.owner[bctx.value] == run)
    case Done(target) => target.Some? ==> target.value in s.flagged
  }

  ghost predicate Inv(s: State) {
    MapsAgree(s) && EffectsAgree(s) && forall k | k in s.ops :: OpAgrees(s, s.ops[k])
  }

  lemma {:induction false} LatestIsRegistered(history: seq<Registration>, events: map<RunId, Event>, event: Event)
    requires HistoryAgrees(history, events) && Latest(history, event).Some?
    ensures Latest(history, event).value in events && events[Latest(history, event).value] == event
  {
    if history[|history| - 1].event != event {
      LatestIsRegistered(history[..|history| - 1], events, event);
    }
  }

  lemma RegisterKeepsMaps(s: State, run: RunId, event: Event)
    requires MapsAgree(s) && run !in s.events
    ensures MapsAgree(Step(s, Register(run, event)).value)
  {
    var t := Step(s, Register(run, event)).value;
    assert t.history[..|t.history| - 1] == s.history;
    forall e
      ensures At(t.index, e) == LiveLatest(t, e)
    {
      assert At(s.index, e) == LiveLatest(s, e);
      assert Latest(t.history, e) == if e == event then Some(run) else Latest(s.history, e);
    }
  }

  lemma ReleaseKeepsMaps(s: State, run: RunId)
    requires MapsAgree(s) && run in s.states
    ensures MapsAgree(Step(s, Release(run)).value)
  {
    var t := Step(s, Release(run)).value;
    forall e
      ensures At(t.index, e) == LiveLatest(t, e)
    {
      assert At(s.index, e) == LiveLatest(s, e);
      if Latest(s.history, e).Some? {
        LatestIsRegistered(s.history, s.events, e);
      }
    }
  }

  lemma StepKeepsEffects(s: State, a: Action)
    requires Inv(s) && Step(s, a).Some?
    ensures EffectsAgree(Step(s, a).value)
  {
    var t := Step(s, a).value;
    forall e | e in t.setEvents
      ensures exists r :: r in t.flagged && r in t.events && t.events[r] == e
    {
      if a.Advance? && s.ops[a.op].Found? && e == s.ops[a.op].event {
        assert s.ops[a.op].run in t.flagged;
      } else {
        var r :| r in s.flagged && r in s.events && s.events[r] == e;
        assert r in t.flagged;
      }
    }
  }

  lemma StepKeepsOps(s: State, a: Action, k: int)
    requires Inv(s) && Step(s, a).Some? && k in Step(s, a).value.ops
    ensures OpAgrees(Step(s, a).value, Step(s, a).value.ops[k])
  {
    if k in s.ops {
      assert OpAgrees(s, s.ops[k]);
    }
  }

  lemma StepKeepsInv(s: State, a: Action)
    requires Inv(s) && Step(s, a).Some?
    ensures Inv(Step(s, a).value)
  {
    StepKeepsEffects(s, a);
    forall k | k in Step(s, a).value.ops
      ensures OpAgrees(Step(s, a).value, Step(s, a).value.ops[k])
    {
      StepKeepsOps(s, a, k);
    }
    if a.Register? {
      RegisterKeepsMaps(s, a.run, a.event);
    } else if a.Release? {
      ReleaseKeepsMaps(s, a.run);
    }
  }

  lemma {:induction false} RunKeepsInv(s: State, acts: seq<Action>)
    requires Inv(s) && Exec(s, acts).Some?
    ensures Inv(Exec(s, acts).value)
    decreases |acts|
  {
    if acts != [] {
      StepKeepsInv(s, acts[0]);
      RunKeepsInv(Step(s, acts[0]).value, acts[1..]);
    }
  }

  /** In every interleaving the index maps an event to a run exactly when that run is the latest
      registered with the event and is not yet released. */
  lemma IndexIsTheLiveLatest(acts: seq<Action>, event: Event)
    requires Exec(START, acts).Some?
    ensures var s := Exec(START, acts).value; At(s.index, event) == LiveLatest(s, event)
  {
    RunKeepsInv(START, acts);
  }

  /** Releasing any other run leaves the event's live run where the index finds it. */
  lemma ReleaseNeverHidesASuccessor(acts: seq<Action>, run: RunId, event: Event)
    requires Exec(START, acts).Some? && Step(Exec(START, acts).value, Release(run)).Some?
    ensures var s := Exec(START, acts).value; var t := Step(s, Release(run)).value;
      && At(t.index, event) == (if LiveLatest(s, event) == Some(run) then None else LiveLatest(s, event))
      && (forall other | other in s.states && other != run :: other in t.states)
  {
    RunKeepsInv(START, acts);
    var s := Exec(START, acts).value;
    StepKeepsInv(s, Release(run));
    assert At(s.index, event) == LiveLatest(s, event);
    assert At(Step(s, Release(run)).value.index, event) == LiveLatest(Step(s, Release(run)).value, event);
  }

  function EventsOf(runs: set<RunId>, events: map<RunId, Event>): set<Event> {
    set r | r in runs && r in events :: events[r]
  }

  /** Cancels set exactly the events of the runs they acted on, and close only contexts those runs opened.
      So a run's event is set exactly when a cancel acted on a run sharing that event. */
  lemma CancelsTouchOnlyTheirRuns(acts: seq<Action>)
    requires Exec(START, acts).Some?
    ensures var s := Exec(START, acts).value;
      && s.setEvents == EventsOf(s.flagged, s.events)
      && forall c | c in s.closed :: c in s.owner && s.owner[c] in s.flagged
  {
    RunKeepsInv(START, acts);
    var s := Exec(START, acts).value;
    forall e | e in s.setEvents
      ensures e in EventsOf(s.flagged, s.events)
    {
      var r :| r in s.flagged && r in s.events && s.events[r] == e;
    }
  }

  lemma ExecCons(s: State, a: Action, rest: seq<Action>)
    requires Step(s, a).Some?
    ensures Exec(s, [a] + rest) == Exec(Step(s, a).value, rest)
  {
    assert ([a] + rest)[1..] == rest;
  }

  function Advances(op: int, n: nat): seq<Action> {
    if n == 0 then [] else [Advance(op)] + Advances(op, n - 1)
  }

  /** An uninterrupted cancel of a run stops it exactly when it is registered: its event is set and its context closed;
      otherwise nothing at all changes but the answer. */
  lemma UninterruptedCancel(s: State, op: int, run: RunId)
    requires Inv(s) && op in s.ops && s.ops[op] == Resolved(run)
    ensures run in s.states ==>
      && Exec(s, Advances(op, 4)).Some?
      && run in s.events
      && var t := Exec(s, Advances(op, 4)).value;
         && At(t.ops, op) == Some(Done(Some(run)))
         && t.setEvents == s.setEvents + {s.events[run]}
         && t.closed == s.closed + (if run in s.bctx then {s.bctx[run]} else {})
    ensures run !in s.states ==> Exec(s, Advances(op, 1)) == Some(s.(ops := s.ops[op := Done(None)]))
  {
    var s1 := AdvanceOp(s, op).value;
    if run in s.states {
      var s2 := AdvanceOp(s1, op).value;
      var s3 := AdvanceOp(s2, op).value;
      var s4 := AdvanceOp(s3, op).value;
      assert Exec(s4, Advances(op, 0)) == Some(s4);
      ExecCons(s3, Advance(op), Advances(op, 0));
      ExecCons(s2, Advance(op), Advances(op, 1));
      ExecCons(s1, Advance(op), Advances(op, 2));
      ExecCons(s, Advance(op), Advances(op, 3));
    } else {
      assert Exec(s1, Advances(op, 0)) == Some(s1);
      ExecCons(s, Advance(op), Advances(op, 0));
    }
  }

  /** An uninterrupted cancel by event acts on the event's live latest run, and on nothing when there is none. */
  lemma UninterruptedCancelByEvent(acts: seq<Action>, op: int, event: Event)
    requires Exec(START, acts).Some? && op !in Exec(START, acts).value.ops
    ensures var s := Exec(START, acts).value; var t := Step(s, StartByEvent(op, event)).value;
      && t.ops[op] == (if LiveLatest(s, event).Some? then Resolved(LiveLatest(s, event).value) else Done(None))
      && (LiveLatest(s, event).Some? ==>
            LiveLatest(s, event).value in t.states && At(t.events, LiveLatest(s, event).value) == Some(event))
  {
    RunKeepsInv(START, acts);
    var s := Exec(START, acts).value;
    assert At(s.index, event) == LiveLatest(s, event);
    if LiveLatest(s, event).Some? {
      LatestIsRegistered(s.history, s.events, event);
    }
  }

  /** Whether a cancel is past its second lookup, and which run it then stops. */
  predicate IsSettled(op: Op, target: Option<RunId>) {
    match op
    case Resolved(_) => false
    case Found(run, _) => target == Some(run)
    case Flagged(run) => target == Some(run)
    case Peeked(run, _) => target == Some(run)
    case Done(run) => target == run
  }

  lemma StepKeepsSettled(s: State, a: Action, op: int, target: Option<RunId>)
    requires op in s.ops && IsSettled(s.ops[op], target) && Step(s, a).Some?
    ensures op in Step(s, a).value.ops && IsSettled(Step(s, a).value.ops[op], target)
  {
    match a
    case Advance(k) => assert k == op || Step(s, a).value.ops[op] == s.ops[op];
    case _ =>
  }

  /** Past its second lookup a cancel is settled, whatever happens around it. */
  lemma {:induction false} CancelIsSettled(s: State, acts: seq<Action>, op: int, target: Option<RunId>)
    requires op in s.ops && IsSettled(s.ops[op], target) && Exec(s, acts).Some?
    ensures op in Exec(s, acts).value.ops && IsSettled(Exec(s, acts).value.ops[op], target)
    decreases |acts|
  {
    if acts != [] {
      StepKeepsSettled(s, acts[0], op, target);
      CancelIsSettled(Step(s, acts[0]).value, acts[1..], op, target);
    }
  }

  /** A cancel that resolved an event to run r, over any interleaving: it stops r exactly when r is registered at its
      second lookup, and stops the event's live run exactly when r is registered and still the latest. */
  lemma CancelStopsTheLiveRunExactlyWhenStillLatest(before: seq<Action>, op: int, r: RunId, event: Event, after: seq<Action>)
    requires Exec(START, before).Some?
    requires var s := Exec(START, before).value;
      && op in s.ops && s.ops[op] == Resolved(r) && At(s.events, r) == Some(event)
      && Exec(s, [Advance(op)] + after).Some? && At(Exec(s, [Advance(op)] + after).value.ops, op).GetOr(Resolved(r)).Done?
    ensures var s := Exec(START, before).value; var t := Exec(s, [Advance(op)] + after).value;
      && At(t.ops, op) == Some(Done(if r in s.states then Some(r) else None))
      && (r in s.states ==> r in t.flagged && event in t.setEvents)
      && (LiveLatest(s, event).Some? && At(t.ops, op) == Some(Done(LiveLatest(s, event))) <==>
          r in s.states && LiveLatest(s, event) == Some(r))
  {
    var s := Exec(START, before).value;
    var next := AdvanceOp(s, op).value;
    RunKeepsInv(START, before);
    ExecCons(s, Advance(op), after);
    CancelIsSettled(next, after, op, if r in s.states then Some(r) else None);
    StepKeepsInv(s, Advance(op));
    RunKeepsInv(next, after);
    var t := Exec(next, after).value;
    EventsStay(s, [Advance(op)] + after, r);
    if r in s.states {
      assert OpAgrees(t, t.ops[op]);
    }
  }

  lemma {:induction false} EventsStay(s: State, acts: seq<Action>, r: RunId)
    requires r in s.events && Exec(s, acts).Some?
    ensures At(Exec(s, acts).value.events, r) == Some(s.events[r])
    decreases |acts|
  {
    if acts != [] {
      EventsStay(Step(s, acts[0]).value, acts[1..], r);
    }
  }

  /** Between its two lookups a cancel by event can lose its run: it then misses the live successor of the same event. */
  lemma CancelCanMissASuccessor(e: Event)
    ensures var acts := [Register(1, e), StartByEvent(0, e), Release(1), Register(2, e), Advance(0)];
      && Exec(START, acts).Some?
      && var s := Exec(START, acts).value;
         At(s.ops, 0) == Some(Done(None)) && LiveLatest(s, e) == Some(2) && e !in s.setEvents
  {
    var acts := [Register(1, e), StartByEvent(0, e), Release(1), Register(2, e), Advance(0)];
    var s1 := Step(START, acts[0]).value;
    var s2 := Step(s1, acts[1]).value;
    var s3 := Step(s2, acts[2]).value;
    var s4 := Step(s3, acts[3]).value;
    var s5 := Step(s4, acts[4]).value;
    assert Exec(s5, acts[1..][1..][1..][1..][1..]) == Some(s5);
    assert Exec(s4, acts[1..][1..][1..][1..]) == Some(s5);
    assert Exec(s3, acts[1..][1..][1..]) == Some(s5);
    assert Exec(s2, acts[1..][1..]) == Some(s5);
    assert Exec(s1, acts[1..]) == Some(s5);
  }

  /** A reused event is shared: cancelling the superseded run sets the event its live successor polls,
      and once the successor is released the older run can no longer be reached by event at all. */
  lemma SharedEventReachesBothRuns(e: Event)
    ensures var acts := [Register(1, e), Register(2, e), StartByRun(0, 1), Advance(0), Advance(0)];
      && Exec(START, acts).Some?
      && var s := Exec(START, acts).value;
         && s.flagged == {1} && At(s.events, 2) == Some(e) && e in s.setEvents && LiveLatest(s, e) == Some(2)
         && Step(s, Release(2)).Some?
         && var t := Step(s, Release(2)).value; e !in t.index && 1 in t.states
  {
    var acts := [Register(1, e), Register(2, e), StartByRun(0, 1), Advance(0), Advance(0)];
    var s1 := Step(START, acts[0]).value;
    var s2 := Step(s1, acts[1]).value;
    var s3 := Step(s2, acts[2]).value;
    var s4 := Step(s3, acts[3]).value;
    var s5 := Step(s4, acts[4]).value;
    assert Exec(s5, acts[1..][1..][1..][1..][1..]) == Some(s5);
    assert Exec(s4, acts[1..][1..][1..][1..]) == Some(s5);
    assert Exec(s3, acts[1..][1..][1..]) == Some(s5);
    assert Exec(s2, acts[1..][1..]) == Some(s5);
    assert Exec(s1, acts[1..]) == Some(s5);
  }
}
