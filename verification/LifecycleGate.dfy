// The strict predecessor gate of the lifecycle events, its roll-back, and the emitter in front of it.
module LifecycleGate {
  import opened Common

  datatype Event =
    | NetworkReconnecting | WebLoaded | FileUploaded | PromptInjected | DocumentParsed | SendClicked
    | DispatchAcknowledged | ThinkingStarted | StreamingGeneration | GenerationFinished | OutputCopied
    | LoginVerified | ModelVerified | SessionExpired | SessionRenewed | PipelineFailed

  predicate Distinct(s: seq<Event>) {
    forall i, j | 0 <= i < j < |s| :: s[i] != s[j]
  }

  function LastIndexOf(s: seq<Event>, e: Event): (i: int)
    ensures -1 <= i < |s|
    ensures i >= 0 ==> s[i] == e
    ensures forall j | i < j < |s| :: s[j] != e
  {
    if s == [] then -1
    else if s[|s| - 1] == e then |s| - 1
    else LastIndexOf(s[..|s| - 1], e)
  }

  function FirstIndexOf(s: seq<Event>, e: Event): (i: int)
    ensures -1 <= i < |s|
    ensures i >= 0 ==> s[i] == e
    ensures forall j | 0 <= j < |s| && (i < 0 || j < i) :: s[j] != e
  {
    if s == [] then -1
    else if s[0] == e then 0
    else var i := FirstIndexOf(s[1..], e); if i < 0 then -1 else i + 1
  }

  function Predecessor(sequence: seq<Event>, e: Event): Option<Event> {
    var i := LastIndexOf(sequence, e);
    if i > 0 then Some(sequence[i - 1]) else None
  }

  predicate Follows(sequence: seq<Event>, completed: seq<Event>, e: Event) {
    var p := Predecessor(sequence, e);
    p.None? || (completed != [] && completed[|completed| - 1] == p.value)
  }

  predicate Accepts(sequence: seq<Event>, completed: seq<Event>, e: Event) {
    e !in completed && Follows(sequence, completed, e)
  }

  /** A seed the roll-back can replay. */
  predicate ValidSeed(sequence: seq<Event>, seed: seq<Event>) {
    forall i | 0 <= i < |seed| :: Follows(sequence, seed[..i], seed[i])
  }

  /** What a gate can hold: no event twice, and each one after its predecessor. */
  predicate IsHistory(sequence: seq<Event>, completed: seq<Event>) {
    Distinct(completed) && ValidSeed(sequence, completed)
  }

  lemma AcceptedKeepsHistory(sequence: seq<Event>, completed: seq<Event>, e: Event)
    requires IsHistory(sequence, completed) && Accepts(sequence, completed, e)
    ensures IsHistory(sequence, completed + [e])
  {
    var more := completed + [e];
    forall i | 0 <= i < |more|
      ensures Follows(sequence, more[..i], more[i])
    {
      assert more[..i] == completed[..i];
      assert completed[..|completed|] == completed;
    }
  }

  lemma PrefixIsHistory(sequence: seq<Event>, completed: seq<Event>, n: nat)
    requires IsHistory(sequence, completed) && n <= |completed|
    ensures IsHistory(sequence, completed[..n])
  {
    forall i | 0 <= i < n
      ensures Follows(sequence, completed[..n][..i], completed[..n][i])
    {
      assert completed[..n][..i] == completed[..i];
    }
  }

  class LifecycleGate {
    const sequence: seq<Event>
    var completed: seq<Event>
    var rejections: nat

    constructor (sequence: seq<Event>)
      ensures this.sequence == sequence && completed == [] && rejections == 0
    {
      this.sequence, completed, rejections := sequence, [], 0;
    }

    method Validate(e: Event) returns (ok: bool)
      modifies this
      ensures ok <==> Accepts(sequence, old(completed), e)
      ensures completed == if ok then old(completed) + [e] else old(completed)
      ensures rejections == if ok then old(rejections) else old(rejections) + 1
    {
      var predecessor := Predecessor(sequence, e);
      if e in completed {
        rejections := rejections + 1;
        return false;
      } else if predecessor.Some? && (completed == [] || completed[|completed| - 1] != predecessor.value) {
        rejections := rejections + 1;
        return false;
      }
      completed := completed + [e];
      return true;
    }

    /** Replay a seed; the first event that does not follow ends the replay with an error. */
    method Reset(seed: seq<Event>) returns (ok: bool)
      modifies this
      ensures ok <==> ValidSeed(sequence, seed)
      ensures completed <= seed && (ok ==> completed == seed)
      ensures rejections == 0
    {
      completed, rejections := [], 0;
      for i := 0 to |seed|
        invariant completed == seed[..i]
        invariant rejections == 0
        invariant forall j | 0 <= j < i :: Follows(sequence, seed[..j], seed[j])
      {
        if !Follows(sequence, completed, seed[i]) {
          return false;
        }
        completed := completed + [seed[i]];
      }
      return true;
    }
  }

  /** The event bus: an optional gate, and the record of the events that went out. */
  class Emitter {
    const gate: LifecycleGate?
    var trace: seq<Event>

    constructor (gate: LifecycleGate?)
      ensures this.gate == gate && trace == []
    {
      this.gate, trace := gate, [];
    }

    /** The gate, if there is one, holds a history. */
    ghost predicate IsSound()
      reads this, gate
    {
      gate != null ==> IsHistory(gate.sequence, gate.completed)
    }

    ghost function Completed(): seq<Event>
      reads this, gate
    {
      if gate == null then [] else gate.completed
    }

    /** Whether the event goes out; what goes out is recorded by the trace and by the gate alike. */
    method Emit(e: Event) returns (ok: bool)
      modifies this, gate
      ensures ok <==> gate == null || Accepts(gate.sequence, old(Completed()), e)
      ensures trace == if ok then old(trace) + [e] else old(trace)
      ensures Completed() == if ok && gate != null then old(Completed()) + [e] else old(Completed())
      ensures old(IsSound()) ==> IsSound()
    {
      if gate != null {
        if IsSound() && Accepts(gate.sequence, gate.completed, e) {
          AcceptedKeepsHistory(gate.sequence, gate.completed, e);
        }
        ok := gate.Validate(e);
        if !ok {
          return false;
        }
      }
      trace := trace + [e];
      return true;
    }
  }

  lemma IndexInDistinct(s: seq<Event>, i: nat)
    requires Distinct(s) && i < |s|
    ensures LastIndexOf(s, s[i]) == i && FirstIndexOf(s, s[i]) == i
  {}

  /** A gate that holds a prefix of its sequence accepts the next event of the sequence, any event outside it, and no other. */
  lemma GateFollowsItsSequence(sequence: seq<Event>, completed: seq<Event>, e: Event)
    requires Distinct(sequence) && completed <= sequence
    ensures Accepts(sequence, completed, e) <==>
      e !in sequence || (|completed| < |sequence| && e == sequence[|completed|])
  {
    if e in sequence {
      var i :| 0 <= i < |sequence| && sequence[i] == e;
      IndexInDistinct(sequence, i);
      if i < |completed| {
        assert e == completed[i];
      } else if completed != [] {
        assert completed[|completed| - 1] == sequence[|completed| - 1];
      }
    } else {
      assert LastIndexOf(sequence, e) == -1;
    }
  }

  /** Accepting an event keeps the gate a prefix of its sequence exactly when the event belongs to the sequence. */
  lemma AcceptedKeepsPrefix(sequence: seq<Event>, completed: seq<Event>, e: Event)
    requires Distinct(sequence) && completed <= sequence && Accepts(sequence, completed, e)
    ensures completed + [e] <= sequence <==> e in sequence
  {
    GateFollowsItsSequence(sequence, completed, e);
  }

  /** Once an event outside the sequence is accepted after some progress, no event of the sequence is ever accepted again. */
  lemma ForeignEventJamsTheGate(sequence: seq<Event>, completed: seq<Event>, foreign: seq<Event>, e: Event)
    requires Distinct(sequence) && completed <= sequence && completed != []
    requires foreign != [] && forall f | f in foreign :: f !in sequence
    requires e in sequence
    ensures !Accepts(sequence, completed + foreign, e)
  {
    var i :| 0 <= i < |sequence| && sequence[i] == e;
    IndexInDistinct(sequence, i);
    if i == 0 {
      assert e == completed[0] && e == (completed + foreign)[0];
    } else {
      assert (completed + foreign)[|completed + foreign| - 1] in foreign;
    }
  }

  lemma PrefixIsAValidSeed(sequence: seq<Event>, seed: seq<Event>)
    requires Distinct(sequence) && seed <= sequence
    ensures ValidSeed(sequence, seed)
  {
    forall i | 0 <= i < |seed|
      ensures Follows(sequence, seed[..i], seed[i])
    {
      IndexInDistinct(sequence, i);
    }
  }

  // ----- The events of one dispatch attempt -----

  datatype Stage = Begin | Injected | Clicked | Acknowledged | Thinking | Streaming | Finished | Bad

  function NextStage(s: Stage, e: Event): Stage {
    match (s, e)
    case (Begin, PromptInjected) => Injected
    case (Injected, SendClicked) => Clicked
    case (Clicked, SendClicked) => Clicked
    case (Clicked, DispatchAcknowledged) => Acknowledged
    case (Acknowledged, ThinkingStarted) => Thinking
    case (Thinking, StreamingGeneration) => Streaming
    case (Streaming, GenerationFinished) => Finished
    case _ => Bad
  }

  /** The stage a trace leads to; Bad when it strays from inject, click(s), acknowledge, think, stream, finish. */
  function Stages(s: Stage, trace: seq<Event>): Stage {
    if trace == [] then s else NextStage(Stages(s, trace[..|trace| - 1]), trace[|trace| - 1])
  }

  lemma {:induction false} StagesConcat(s: Stage, front: seq<Event>, back: seq<Event>)
    ensures Stages(s, front + back) == Stages(Stages(s, front), back)
    decreases |back|
  {
    if back == [] {
      assert front + back == front;
    } else {
      assert (front + back)[..|front + back| - 1] == front + back[..|back| - 1];
      StagesConcat(s, front, back[..|back| - 1]);
    }
  }
}
