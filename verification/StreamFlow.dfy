/** Credit flow of one stream: the writer, the credits channel and any number of
    concurrent acknowledgements, each atomic operation a step. */
module StreamFlows {
  import opened Wrappers
  import opened Text

  const DEFAULT_WINDOW := 16
  const MAX_WINDOW := 256

  datatype Kind = Data | Progress | Complete

  datatype Frame = Frame(kind: Kind, sequence: nat)

  /** Where emitFrame is: outside, waiting for a credit, with a credit that is
      not recorded in sent yet, or about to encode. */
  datatype Stage = Idle | Waiting(frame: Frame) | Taken(frame: Frame) | Encoding(frame: Frame)

  datatype Flow = Flow(
    window: nat,
    credits: nat,
    sent: nat,
    acked: nat,
    /** The writer's last number. */
    sequence: nat,
    stage: Stage,
    completed: bool,
    failed: bool,
    /** For each acknowledgement under way, the credits it still has to return. */
    returning: seq<nat>,
    /** The frames on the wire. */
    wire: seq<Frame>)

  datatype Step =
    | Begin(kind: Kind)
    | TakeCredit
    | GiveUp
    | Record
    | Encode(ok: bool)
    | Acknowledge(sequence: int)
    | ReturnCredit(index: nat)
    | DropCredits(index: nat)

  function NewFlow(window: nat): Flow {
    Flow(window, window, 0, 0, 0, Idle, false, false, [], [])
  }

  predicate CanStep(f: Flow, s: Step) {
    match s
    case Begin(_) => f.stage.Idle? && !f.completed && !f.failed
    case TakeCredit => f.stage.Waiting? && f.credits > 0
    case GiveUp => f.stage.Waiting?
    case Record => f.stage.Taken?
    case Encode(_) => f.stage.Encoding?
    case Acknowledge(_) => true
    case ReturnCredit(i) => i < |f.returning| && f.returning[i] > 0 && f.credits < f.window
    case DropCredits(i) => i < |f.returning| && f.returning[i] > 0 && f.credits >= f.window
  }

  function Next(f: Flow, s: Step): Flow
    requires CanStep(f, s)
  {
    match s
    case Begin(kind) =>
      var frame := Frame(kind, f.sequence + 1);
      f.(sequence := f.sequence + 1, stage := if kind.Complete? then Encoding(frame) else Waiting(frame))
    case TakeCredit => f.(credits := f.credits - 1, stage := Taken(f.stage.frame))
    case GiveUp => f.(stage := Idle, failed := true)
    case Record =>
      var frame := f.stage.frame;
      f.(sent := if frame.sequence > f.sent then frame.sequence else f.sent, stage := Encoding(frame))
    case Encode(ok) =>
      var frame := f.stage.frame;
      if ok then f.(stage := Idle, wire := f.wire + [frame], completed := f.completed || frame.kind.Complete?)
      else f.(stage := Idle, failed := true)
    case Acknowledge(sequence) =>
      if sequence <= f.acked || sequence > f.sent then f
      else f.(acked := sequence, returning := f.returning + [sequence - f.acked])
    case ReturnCredit(i) => f.(credits := f.credits + 1, returning := f.returning[i := f.returning[i] - 1])
    case DropCredits(i) => f.(returning := f.returning[i := 0])
  }

  function Sum(counts: seq<nat>): nat {
    if counts == [] then 0 else counts[0] + Sum(counts[1..])
  }

  lemma {:induction false} SumAppend(counts: seq<nat>, n: nat)
    ensures Sum(counts + [n]) == Sum(counts) + n
  {
    if counts == [] {
      assert counts + [n] == [n];
    } else {
      assert (counts + [n])[1..] == counts[1..] + [n];
      SumAppend(counts[1..], n);
    }
  }

  lemma {:induction false} SumUpdate(counts: seq<nat>, i: nat, n: nat)
    requires i < |counts|
    ensures Sum(counts[i := n]) == Sum(counts) - counts[i] + n
    ensures Sum(counts) >= counts[i]
  {
    if i > 0 {
      assert counts[i := n][1..] == counts[1..][i - 1 := n];
      SumUpdate(counts[1..], i - 1, n);
    } else {
      assert counts[0 := n][1..] == counts[1..];
    }
  }

  function Unrecorded(stage: Stage): nat {
    if stage.Taken? then 1 else 0
  }

  /** Every credit is in the channel, with a frame that is not acknowledged, taken
      and not recorded, or on its way back. */
  ghost predicate CreditsKept(f: Flow) {
    f.credits + (f.sent - f.acked) + Unrecorded(f.stage) + Sum(f.returning) == f.window && f.acked <= f.sent
  }

  /** The writer's numbers follow each other, on the wire and in sent. */
  ghost predicate Sequenced(f: Flow) {
    && (f.stage.Idle? && !f.failed ==> f.sequence == |f.wire|)
    && (!f.stage.Idle? ==> !f.failed && !f.completed && f.stage.frame.sequence == f.sequence == |f.wire| + 1)
    && (f.stage.Waiting? || f.stage.Taken? ==> f.sent == |f.wire| && !f.stage.frame.kind.Complete?)
    && (f.stage.Encoding? ==> f.sent == |f.wire| + if f.stage.frame.kind.Complete? then 0 else 1)
    && (f.stage.Idle? && !f.failed && !f.completed ==> f.sent == |f.wire|)
    && (f.completed ==> |f.wire| > 0)
    && (forall i | 0 <= i < |f.wire| :: f.wire[i].sequence == i + 1)
    && (forall i | 0 <= i < |f.wire| :: f.wire[i].kind.Complete? <==> f.completed && i == |f.wire| - 1)
    && |f.wire| - (if f.completed then 1 else 0) <= f.sent
  }

  ghost predicate Inv(f: Flow) {
    CreditsKept(f) && Sequenced(f)
  }

  lemma NextKeepsSequence(f: Flow, s: Step)
    requires Sequenced(f) && CanStep(f, s)
    ensures Sequenced(Next(f, s))
  {
  }

  lemma NextKeepsCredits(f: Flow, s: Step)
    requires Inv(f) && CanStep(f, s)
    ensures CreditsKept(Next(f, s))
  {
    if s.Acknowledge? && f.acked < s.sequence <= f.sent {
      SumAppend(f.returning, s.sequence - f.acked);
    } else if s.ReturnCredit? || s.DropCredits? {
      SumUpdate(f.returning, s.index, if s.ReturnCredit? then f.returning[s.index] - 1 else 0);
    }
  }

  /** The default branch, which would lose credits, is never taken. */
  lemma CreditsNeverDropped(f: Flow, index: nat)
    requires CreditsKept(f)
    ensures !CanStep(f, DropCredits(index))
  {
    if index < |f.returning| {
      SumUpdate(f.returning, index, 0);
    }
  }

  /** The data and progress frames on the wire that no acknowledgement covers. */
  function Unacknowledged(wire: seq<Frame>, acked: nat): nat {
    if wire == [] then 0
    else
      var last := wire[|wire| - 1];
      Unacknowledged(wire[..|wire| - 1], acked) + if !last.kind.Complete? && last.sequence > acked then 1 else 0
  }

  lemma {:induction false} CountUnacknowledged(wire: seq<Frame>, acked: nat)
    requires forall i | 0 <= i < |wire| :: wire[i].sequence == i + 1 && !wire[i].kind.Complete?
    ensures Unacknowledged(wire, acked) == if acked <= |wire| then |wire| - acked else 0
  {
    if wire != [] {
      CountUnacknowledged(wire[..|wire| - 1], acked);
    }
  }

  lemma WindowHolds(f: Flow)
    requires Inv(f)
    ensures Unacknowledged(f.wire, f.acked) <= f.sent - f.acked <= f.window
  {
    var frames := if f.completed then f.wire[..|f.wire| - 1] else f.wire;
    assert forall i | 0 <= i < |frames| :: frames[i] == f.wire[i];
    CountUnacknowledged(frames, f.acked);
  }

  // ---- Every run ----

  predicate Runs(f: Flow, steps: seq<Step>)
    decreases |steps|
  {
    steps == [] || (CanStep(f, steps[0]) && Runs(Next(f, steps[0]), steps[1..]))
  }

  function After(f: Flow, steps: seq<Step>): Flow
    requires Runs(f, steps)
    decreases |steps|
  {
    if steps == [] then f else After(Next(f, steps[0]), steps[1..])
  }

  lemma {:induction false} RunKeepsInv(f: Flow, steps: seq<Step>)
    requires Inv(f) && Runs(f, steps)
    ensures Inv(After(f, steps)) && After(f, steps).window == f.window
    ensures forall i | 0 <= i < |steps| :: !steps[i].DropCredits?
    decreases |steps|
  {
    if steps != [] {
      NextKeepsSequence(f, steps[0]);
      NextKeepsCredits(f, steps[0]);
      if steps[0].DropCredits? {
        CreditsNeverDropped(f, steps[0].index);
      }
      RunKeepsInv(Next(f, steps[0]), steps[1..]);
      assert forall i | 1 <= i < |steps| :: steps[i] == steps[1..][i - 1];
    }
  }

  /** In every reachable state the credits add up to the window, the frames that
      are not acknowledged fit in it, and no credit was ever lost. */
  lemma FlowKeepsWindow(window: nat, steps: seq<Step>)
    requires Runs(NewFlow(window), steps)
    ensures var f := After(NewFlow(window), steps);
            && f.credits + (f.sent - f.acked) + Unrecorded(f.stage) + Sum(f.returning) == window
            && Unacknowledged(f.wire, f.acked) <= window
            && (forall i | 0 <= i < |f.wire| :: f.wire[i].sequence == i + 1)
            && (forall i | 0 <= i < |steps| :: !steps[i].DropCredits?)
  {
    RunKeepsInv(NewFlow(window), steps);
    WindowHolds(After(NewFlow(window), steps));
  }

  /** A writer can begin until it fails or completes, and waits for a credit only
      while frames are not acknowledged or credits are on their way. */
  lemma WriterGoesOn(f: Flow, kind: Kind)
    requires Inv(f) && f.window > 0
    ensures f.stage.Idle? && !f.completed && !f.failed ==> CanStep(f, Begin(kind))
    ensures f.stage.Waiting? && f.credits == 0 ==> f.acked < f.sent || Sum(f.returning) > 0
    ensures f.stage.Waiting? && f.credits > 0 ==> CanStep(f, TakeCredit)
    ensures CanStep(NewFlow(f.window), Begin(kind))
  {
  }

  /** An acknowledgement is taken at any time, and each credit it returns arrives. */
  lemma CreditsArrive(f: Flow, sequence: int, i: nat)
    requires CreditsKept(f)
    ensures CanStep(f, Step.Acknowledge(sequence))
    ensures f.acked < sequence <= f.sent ==>
              Sum(Next(f, Step.Acknowledge(sequence)).returning) == Sum(f.returning) + (sequence - f.acked)
    ensures i < |f.returning| && f.returning[i] > 0 ==>
              CanStep(f, ReturnCredit(i)) && Next(f, ReturnCredit(i)).credits == f.credits + 1
  {
    if f.acked < sequence <= f.sent {
      SumAppend(f.returning, sequence - f.acked);
    }
    if i < |f.returning| {
      SumUpdate(f.returning, i, 0);
    }
  }

  // ---- The window a client asks for ----

  function ParseStreamWindow(value: string): (window: nat)
    ensures 1 <= window <= MAX_WINDOW
  {
    if value == "" then DEFAULT_WINDOW
    else
      match Atoi(value)
      case None => DEFAULT_WINDOW
      case Some(n) => if n < 1 || n > MAX_WINDOW then DEFAULT_WINDOW else n
  }

  /** Every window a client can ask for in decimal is the one it gets. */
  lemma WindowRoundTrip(window: nat)
    requires 1 <= window <= MAX_WINDOW
    ensures ParseStreamWindow(Decimal(window)) == window
  {
    AtoiDecimal(window);
    assert Decimal(window) != "";
  }

  /** Everything else gets the default. */
  lemma WindowExact(value: string)
    ensures ParseStreamWindow(value) ==
            if value != "" && Atoi(value).Some? && 1 <= Atoi(value).value <= 256 then Atoi(value).value else 16
  {
  }

  // ---- The flow and the writer ----

  class StreamFlow {
    const window: nat
    var credits: nat
    var sent: nat
    var acked: nat

    ghost predicate Valid()
      reads this
    {
      acked <= sent && credits <= window
    }

    /** The credits and the numbers not acknowledged fit in the window. */
    ghost predicate InWindow()
      reads this
    {
      Valid() && credits + (sent - acked) <= window
    }

    constructor (window: nat)
      ensures this.window == window && credits == window && sent == 0 && acked == 0 && InWindow()
    {
      this.window, credits, sent, acked := window, window, 0, 0;
    }

    /** Takes a credit when there is one, then records the number under the lock.
        Consecutive numbers stay in the window. */
    method Acquire(sequence: int, contextDone: bool) returns (ok: bool)
      requires Valid() && (contextDone || credits > 0)
      modifies this
      ensures Valid() && acked == old(acked) && (ok <==> !contextDone)
      ensures credits == if ok then old(credits) - 1 else old(credits)
      ensures sent == if ok && sequence > old(sent) then sequence else old(sent)
      ensures old(InWindow()) && sequence <= old(sent) + 1 ==> InWindow()
    {
      if contextDone { return false; }
      credits := credits - 1;
      if sequence > sent {
        sent := sequence;
      }
      ok := true;
    }

    /** Returns one credit for each number newly acknowledged, and none when the
        number is old or was never sent; none is lost of a flow in its window. */
    method Acknowledge(sequence: int)
      requires Valid()
      modifies this
      ensures Valid() && sent == old(sent)
      ensures acked == if old(acked) < sequence <= old(sent) then sequence else old(acked)
      ensures credits == if old(credits) + (acked - old(acked)) > window then window
                else old(credits) + (acked - old(acked))
      ensures old(InWindow()) ==> InWindow() && credits == old(credits) + (acked - old(acked))
    {
      if sequence <= acked || sequence > sent { return; }
      var release := sequence - acked;
      acked := sequence;
      var returned := 0;
      while returned < release
        invariant returned <= release && credits == old(credits) + returned && credits <= window
        invariant sent == old(sent) && acked == sequence
      {
        if credits >= window { return; }
        credits := credits + 1;
        returned := returned + 1;
      }
    }
  }

  datatype EmitError = StreamFailed | StreamClosed | ContextDone | EmitFailed

  class StreamWriter {
    const flow: StreamFlow
    var sequence: nat
    var completed: bool
    var failed: bool
    ghost var wire: seq<Frame>

    ghost predicate Valid()
      reads this, flow
    {
      && flow.InWindow()
      && (forall i | 0 <= i < |wire| :: wire[i] == Frame(wire[i].kind, i + 1))
      && (!failed ==> sequence == |wire|)
      && (!failed && !completed ==> flow.sent == sequence)
    }

    constructor (flow: StreamFlow)
      requires flow.InWindow() && flow.sent == 0
      ensures this.flow == flow && Valid() && sequence == 0 && !completed && !failed && wire == []
    {
      this.flow := flow;
      sequence, completed, failed, wire := 0, false, false, [];
    }

    /** A frame needs a credit unless it completes the stream. The arguments say
        when the context ends and whether the encoder takes the frame. */
    method EmitFrame(kind: Kind, doneBefore: bool, doneWaiting: bool, encodes: bool)
      returns (r: Result<Frame, EmitError>)
      requires Valid() && (kind.Complete? || doneWaiting || flow.credits > 0)
      modifies this, flow
      ensures Valid() && flow.acked == old(flow.acked)
      ensures r.Ok? <==> !old(failed) && !old(completed) && !doneBefore && (kind.Complete? || !doneWaiting) && encodes
      ensures r.Ok? ==> r.value == Frame(kind, old(sequence) + 1) && wire == old(wire) + [r.value]
                        && completed == kind.Complete? && !failed
                        && flow.credits == old(flow.credits) - if kind.Complete? then 0 else 1
      ensures r.Err? ==> wire == old(wire) && completed == old(completed)
      ensures r.Err? && (old(failed) || old(completed) || doneBefore) ==>
                sequence == old(sequence) && failed == old(failed) && flow.credits == old(flow.credits)
      ensures r.Err? && !old(failed) && !old(completed) && !doneBefore ==> failed
    {
      if failed { return Err(StreamFailed); }
      if completed { return Err(StreamClosed); }
      if doneBefore { return Err(ContextDone); }
      sequence := sequence + 1;
      if kind != Complete {
        var acquired := flow.Acquire(sequence, doneWaiting);
        if !acquired {
          failed := true;
          return Err(EmitFailed);
        }
      }
      if !encodes {
        failed := true;
        return Err(EmitFailed);
      }
      wire := wire + [Frame(kind, sequence)];
      if kind == Complete {
        completed := true;
      }
      r := Ok(Frame(kind, sequence));
    }
  }
}
