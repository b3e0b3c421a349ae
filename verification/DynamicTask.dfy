/** The runner of a dynamic scheduled task: triggers coalesce, a new interval
    restarts the wait, and no wake-up is lost. */
module DynamicTasks {
  import opened Wrappers

  /** What the runner copied in its first critical section. */
  datatype Snapshot = Snapshot(interval: int, revision: nat, trigger: bool)

  datatype Stage =
    | Top
    | Copied(snapshot: Snapshot)
    | Waiting(snapshot: Snapshot)
    | Ticked(snapshot: Snapshot)
    | Ready
    | Invoking
    | Returned

  datatype Task = Task(
    interval: int,
    revision: nat,
    trigger: bool,
    wake: bool,
    stopped: bool,
    stage: Stage,
    /** Invocations started and ended, and whether a trigger was accepted since
        the last start. */
    starts: nat,
    ends: nat,
    owed: bool)

  datatype Step =
    | SetInterval(interval: int)
    | TriggerNow
    | Stop
    | CopyState
    | AfterCopy
    | WakeUp
    | Tick
    | StopWaiting
    | AfterTick
    | Invoke
    | Finish

  function NewTask(interval: int): Task {
    Task(interval, 0, false, false, false, Top, 0, 0, false)
  }

  predicate CanStep(t: Task, s: Step) {
    match s
    case SetInterval(interval) => interval > 0 && !t.stopped
    case TriggerNow => !t.stopped
    case Stop => true
    case CopyState => t.stage.Top?
    case AfterCopy => t.stage.Copied?
    case WakeUp => t.stage.Waiting? && t.wake
    case Tick => t.stage.Waiting?
    case StopWaiting => t.stage.Waiting? && t.stopped
    case AfterTick => t.stage.Ticked?
    case Invoke => t.stage.Ready?
    case Finish => t.stage.Invoking?
  }

  function Next(t: Task, s: Step): Task
    requires CanStep(t, s)
  {
    match s
    case SetInterval(interval) => t.(interval := interval, revision := t.revision + 1, wake := true)
    case TriggerNow => t.(trigger := true, wake := true, owed := true)
    case Stop => t.(stopped := true)
    case CopyState => t.(stage := Copied(Snapshot(t.interval, t.revision, t.trigger)), trigger := false, wake := false)
    case AfterCopy =>
      t.(stage := if t.stopped then Returned else if t.stage.snapshot.trigger then Ready else Waiting(t.stage.snapshot))
    case WakeUp => t.(stage := Top, wake := false)
    case Tick => t.(stage := Ticked(t.stage.snapshot))
    case StopWaiting => t.(stage := Returned)
    case AfterTick =>
      var changed := t.stage.snapshot.revision != t.revision && !t.trigger;
      t.(stage := if changed then Top else Ready, trigger := false, wake := false)
    case Invoke =>
      if t.stopped then t.(stage := Returned) else t.(stage := Invoking, starts := t.starts + 1, owed := false)
    case Finish => t.(stage := Top, ends := t.ends + 1)
  }

  /** Without a wake-up in the channel, what the runner copied is current. */
  ghost predicate SnapshotCurrent(t: Task) {
    t.stage.Copied? || t.stage.Waiting? ==>
      t.wake || (!t.trigger && t.stage.snapshot.revision == t.revision && t.stage.snapshot.interval == t.interval)
  }

  /** An invocation is on its way that does not wait for the timer. */
  predicate Due(t: Task) {
    t.trigger || (t.stage.Copied? && t.stage.snapshot.trigger) || t.stage.Ready?
  }

  /** An accepted trigger without an invocation since is still on its way. */
  ghost predicate TriggerOnItsWay(t: Task) {
    t.owed ==> Due(t) || t.stage.Returned?
  }

  ghost predicate Inv(t: Task) {
    && SnapshotCurrent(t) && TriggerOnItsWay(t)
    && (t.stage.Waiting? || t.stage.Ticked? ==> !t.stage.snapshot.trigger)
    && (t.stage.Returned? ==> t.stopped)
    && t.starts == t.ends + if t.stage.Invoking? then 1 else 0
  }

  lemma NextKeepsInv(t: Task, s: Step)
    requires Inv(t) && CanStep(t, s)
    ensures Inv(Next(t, s))
  {
  }

  /** A runner that waits with nothing in the channel misses nothing. */
  lemma WaitingMissesNothing(t: Task)
    requires Inv(t) && t.stage.Waiting? && !t.wake
    ensures !t.trigger && !t.owed
    ensures t.stage.snapshot.interval == t.interval && t.stage.snapshot.revision == t.revision
  {
  }

  // ---- Progress of an accepted trigger ----

  predicate ByRunner(s: Step) {
    !s.SetInterval? && !s.TriggerNow? && !s.Stop?
  }

  /** How far the runner is from the next invocation. */
  function Distance(t: Task): nat {
    match t.stage
    case Copied(snapshot) => if snapshot.trigger then 3 else 8
    case Waiting(_) => 7
    case Invoking => 6
    case Top => 5
    case Ticked(_) => 2
    case Ready => 1
    case Returned => 0
  }

  /** While an invocation is due and the task is not stopped, every step of the
      runner starts it or comes closer to it, and other steps do not set it back. */
  lemma TriggerProgress(t: Task, s: Step)
    requires Inv(t) && CanStep(t, s) && Due(t) && !t.stopped && !s.Stop?
    ensures var n := Next(t, s);
            if s.Invoke? then n.starts == t.starts + 1
            else
              && n.starts == t.starts && Due(n)
              && (if ByRunner(s) then Distance(n) < Distance(t) else Distance(n) == Distance(t))
  {
  }

  /** And the runner is never stuck on the way: while it waits, the wake-up is there. */
  lemma TriggerIsNotStuck(t: Task) returns (s: Step)
    requires Inv(t) && Due(t) && !t.stopped
    ensures ByRunner(s) && CanStep(t, s) && !s.Tick?
  {
    match t.stage
    case Top => s := CopyState;
    case Copied(_) => s := AfterCopy;
    case Waiting(_) => s := WakeUp;
    case Ticked(_) => s := AfterTick;
    case Ready => s := Invoke;
    case Invoking => s := Finish;
    case Returned =>
  }

  // ---- Every run ----

  predicate Runs(t: Task, steps: seq<Step>)
    decreases |steps|
  {
    steps == [] || (CanStep(t, steps[0]) && Runs(Next(t, steps[0]), steps[1..]))
  }

  function After(t: Task, steps: seq<Step>): Task
    requires Runs(t, steps)
    decreases |steps|
  {
    if steps == [] then t else After(Next(t, steps[0]), steps[1..])
  }

  lemma {:induction false} RunKeepsInv(t: Task, steps: seq<Step>)
    requires Inv(t) && Runs(t, steps)
    ensures Inv(After(t, steps))
    decreases |steps|
  {
    if steps != [] {
      NextKeepsInv(t, steps[0]);
      RunKeepsInv(Next(t, steps[0]), steps[1..]);
    }
  }

  function RunnerSteps(steps: seq<Step>): nat {
    if steps == [] then 0 else (if ByRunner(steps[0]) then 1 else 0) + RunnerSteps(steps[1..])
  }

  predicate NoStop(steps: seq<Step>) {
    forall i | 0 <= i < |steps| :: !steps[i].Stop?
  }

  /** An invocation that is due starts within as many steps of the runner as its
      distance, whatever else happens in between. */
  lemma {:induction false} TriggerIsServed(t: Task, steps: seq<Step>)
    requires Inv(t) && Due(t) && !t.stopped && Runs(t, steps) && NoStop(steps)
    requires RunnerSteps(steps) >= Distance(t)
    ensures After(t, steps).starts > t.starts
    decreases |steps|
  {
    assert Distance(t) > 0;
    var s, rest := steps[0], steps[1..];
    assert forall i | 0 <= i < |rest| :: rest[i] == steps[i + 1];
    TriggerProgress(t, s);
    NextKeepsInv(t, s);
    if s.Invoke? {
      StartsGrow(Next(t, s), rest);
    } else {
      TriggerIsServed(Next(t, s), rest);
    }
  }

  lemma {:induction false} StartsGrow(t: Task, steps: seq<Step>)
    requires Runs(t, steps)
    ensures After(t, steps).starts >= t.starts
    decreases |steps|
  {
    if steps != [] {
      StartsGrow(Next(t, steps[0]), steps[1..]);
    }
  }

  /** In every reachable state of a task that is not stopped, accepting a trigger
      leads to a new invocation within eight steps of the runner. */
  lemma NoTriggerIsLost(interval: int, before: seq<Step>, after: seq<Step>)
    requires Runs(NewTask(interval), before)
    requires var t := After(NewTask(interval), before);
             !t.stopped && Runs(Next(t, TriggerNow), after) && NoStop(after) && RunnerSteps(after) >= 8
    ensures var t := After(NewTask(interval), before);
            After(Next(t, TriggerNow), after).starts > t.starts
  {
    RunKeepsInv(NewTask(interval), before);
    var t := After(NewTask(interval), before);
    NextKeepsInv(t, TriggerNow);
    TriggerIsServed(Next(t, TriggerNow), after);
  }

  /** Triggers with nothing in between coalesce: the second changes nothing. */
  lemma TriggersCoalesce(t: Task)
    requires !t.stopped
    ensures Next(Next(t, TriggerNow), TriggerNow) == Next(t, TriggerNow)
  {
  }

  /** No trigger is accepted and no timer fires. */
  predicate Quiet(steps: seq<Step>) {
    forall i | 0 <= i < |steps| :: !steps[i].TriggerNow? && !steps[i].Tick?
  }

  lemma {:induction false} QuietStartsNothing(t: Task, steps: seq<Step>)
    requires Inv(t) && !Due(t) && !t.stage.Ticked? && Runs(t, steps) && Quiet(steps)
    ensures After(t, steps).starts == t.starts
    decreases |steps|
  {
    if steps != [] {
      var s, rest := steps[0], steps[1..];
      assert forall i | 0 <= i < |rest| :: rest[i] == steps[i + 1];
      NextKeepsInv(t, s);
      QuietStartsNothing(Next(t, s), rest);
    }
  }

  /** An invocation that starts leaves another one to do exactly when a trigger
      came after the runner had cleared the flag for it: then another starts
      within six steps of the runner, otherwise none without a trigger or a tick. */
  lemma OneMoreInvocation(t: Task, steps: seq<Step>)
    requires Inv(t) && t.stage.Ready? && !t.stopped && Runs(Next(t, Invoke), steps)
    ensures t.trigger && NoStop(steps) && RunnerSteps(steps) >= 6 ==>
              After(Next(t, Invoke), steps).starts >= t.starts + 2
    ensures !t.trigger && Quiet(steps) ==> After(Next(t, Invoke), steps).starts == t.starts + 1
  {
    var running := Next(t, Invoke);
    NextKeepsInv(t, Invoke);
    if t.trigger && NoStop(steps) && RunnerSteps(steps) >= 6 {
      TriggerIsServed(running, steps);
    } else if !t.trigger && Quiet(steps) {
      QuietStartsNothing(running, steps);
    }
  }

  /** So two triggers before the next invocation do not always coalesce: one
      before and one after the flag is cleared lead to two invocations. */
  lemma TwoTriggersTwoInvocations(interval: int) returns (steps: seq<Step>)
    ensures Runs(NewTask(interval), steps) && After(NewTask(interval), steps).starts == 2
    ensures forall i | 0 <= i < |steps| :: steps[i].Tick? || steps[i].TriggerNow? ==> i == 0 || i == 3
  {
    var t := NewTask(interval);
    OneMore(t, [], TriggerNow);
    OneMore(t, [TriggerNow], CopyState);
    OneMore(t, [TriggerNow, CopyState], AfterCopy);
    OneMore(t, [TriggerNow, CopyState, AfterCopy], TriggerNow);
    var ready := [TriggerNow, CopyState, AfterCopy, TriggerNow];
    OneMore(t, ready, Invoke);
    OneMore(t, ready + [Invoke], Finish);
    steps := OnceMore(t, ready + [Invoke] + [Finish]);
  }

  /** A runner at the top with a trigger set starts another invocation. */
  lemma OnceMore(t: Task, steps: seq<Step>) returns (more: seq<Step>)
    requires Runs(t, steps) && After(t, steps).stage.Top? && After(t, steps).trigger && !After(t, steps).stopped
    ensures more == steps + [CopyState] + [AfterCopy] + [Invoke]
    ensures Runs(t, more) && After(t, more).starts == After(t, steps).starts + 1
  {
    OneMore(t, steps, CopyState);
    OneMore(t, steps + [CopyState], AfterCopy);
    OneMore(t, steps + [CopyState] + [AfterCopy], Invoke);
    more := steps + [CopyState] + [AfterCopy] + [Invoke];
  }

  lemma {:induction false} OneMore(t: Task, steps: seq<Step>, s: Step)
    requires Runs(t, steps) && CanStep(After(t, steps), s)
    ensures Runs(t, steps + [s]) && After(t, steps + [s]) == Next(After(t, steps), s)
    decreases |steps|
  {
    hide CanStep, Next;
    if steps == [] {
      assert steps + [s] == [s] && [s][1..] == [];
    } else {
      OneMore(Next(t, steps[0]), steps[1..], s);
      assert (steps + [s])[1..] == steps[1..] + [s];
    }
  }

  /** When the timer fires without a trigger, an invocation follows exactly when the
      interval that was waited for is still the current one; otherwise the wait
      begins again, and the next copy is of the new interval. */
  lemma TimerInvocationIsCurrent(t: Task)
    requires Inv(t) && t.stage.Ticked? && !t.trigger
    ensures var n := Next(t, AfterTick);
            && (n.stage.Ready? <==> t.stage.snapshot.revision == t.revision)
            && (!n.stage.Ready? ==>
                  && n.stage.Top? && CanStep(n, CopyState)
                  && Next(n, CopyState).stage == Copied(Snapshot(t.interval, t.revision, false)))
  {
  }

  // ---- The handle and the runner ----

  datatype TaskError = InvalidTask | TaskStopped

  class ScheduledTask {
    var interval: int
    var revision: nat
    var trigger: bool
    var wake: bool
    var stopped: bool
    /** Where the runner's loop is, with what it copied. */
    var stage: Stage
    ghost var starts: nat
    ghost var ends: nat
    ghost var owed: bool

    ghost function View(): Task
      reads this
    {
      Task(interval, revision, trigger, wake, stopped, stage, starts, ends, owed)
    }

    /** What was copied is current or a wake-up waits, accepted triggers are on
        their way, and at most one invocation runs. */
    ghost predicate Valid()
      reads this
    {
      Inv(View())
    }

    constructor (interval: int)
      ensures View() == NewTask(interval) && Valid()
    {
      this.interval, revision, trigger, wake, stopped, stage := interval, 0, false, false, false, Top;
      starts, ends, owed := 0, 0, false;
    }

    /** A send into the channel of one, given up when it is full. */
    method Notify()
      modifies `wake
      ensures wake
    {
      if !wake {
        wake := true;
      }
    }

    method DrainWake()
      modifies `wake
      ensures !wake
    {
      if wake {
        wake := false;
      }
    }

    method SetInterval(newInterval: int) returns (r: Result<(), TaskError>)
      requires Valid()
      modifies this
      ensures Valid()
      ensures r.Ok? <==> newInterval > 0 && !stopped
      ensures r.Ok? ==> interval == newInterval && wake && revision > old(revision)
      ensures r.Ok? ==>
                && CanStep(old(View()), Step.SetInterval(newInterval))
                && View() == Next(old(View()), Step.SetInterval(newInterval))
      ensures r.Err? ==> View() == old(View()) && r.error == if newInterval <= 0 then InvalidTask else TaskStopped
    {
      if newInterval <= 0 { return Err(InvalidTask); }
      if stopped { return Err(TaskStopped); }
      interval := newInterval;
      revision := revision + 1;
      Notify();
      r := Ok(());
    }

    method TriggerNow() returns (r: Result<(), TaskError>)
      requires Valid()
      modifies this
      ensures Valid() && (r.Ok? ==> Due(View()) && owed)
      ensures r.Ok? <==> !stopped
      ensures r.Ok? ==> CanStep(old(View()), Step.TriggerNow) && View() == Next(old(View()), Step.TriggerNow)
      ensures r.Err? ==> View() == old(View()) && r.error == TaskStopped
    {
      if stopped { return Err(TaskStopped); }
      trigger := true;
      Notify();
      owed := true;
      r := Ok(());
    }

    method Stop()
      requires Valid()
      modifies `stopped
      ensures Valid()
      ensures View() == Next(old(View()), Step.Stop)
    {
      stopped := true;
    }

    /** The first critical section of the loop, then the look at the context. */
    method CopyState()
      requires Valid() && stage.Top?
      modifies this
      ensures Valid()
      ensures View() == Next(old(View()), Step.CopyState)
      ensures !wake && (old(trigger) ==> Due(View()))
    {
      stage := Copied(Snapshot(interval, revision, trigger));
      trigger := false;
      DrainWake();
    }

    method AfterCopy()
      requires Valid() && stage.Copied?
      modifies this
      ensures Valid()
      ensures View() == Next(old(View()), Step.AfterCopy)
    {
      if stopped {
        stage := Returned;
      } else if stage.snapshot.trigger {
        stage := Ready;
      } else {
        stage := Waiting(stage.snapshot);
      }
    }

    /** The select: the context ends, the wake-up is taken, or the timer fires. */
    method Await(choice: Step)
      requires Valid() && (choice.StopWaiting? || choice.WakeUp? || choice.Tick?) && CanStep(View(), choice)
      modifies this
      ensures Valid()
      ensures View() == Next(old(View()), choice)
    {
      if choice.StopWaiting? {
        stage := Returned;
      } else if choice.WakeUp? {
        wake := false;
        stage := Top;
      } else {
        stage := Ticked(stage.snapshot);
      }
    }

    /** The second critical section: a changed interval restarts the wait. */
    method AfterTick()
      requires Valid() && stage.Ticked?
      modifies this
      ensures Valid()
      ensures View() == Next(old(View()), Step.AfterTick)
      ensures old(trigger) ==> Due(View())
    {
      var changed := stage.snapshot.revision != revision && !trigger;
      trigger := false;
      DrainWake();
      stage := if changed then Top else Ready;
    }

    method Invoke()
      requires Valid() && stage.Ready?
      modifies this
      ensures Valid()
      ensures View() == Next(old(View()), Step.Invoke)
      ensures !stopped ==> starts == old(starts) + 1 == ends + 1
    {
      if stopped {
        stage := Returned;
      } else {
        stage := Invoking;
        starts := starts + 1;
        owed := false;
      }
    }

    method Finish()
      requires Valid() && stage.Invoking?
      modifies this
      ensures Valid()
      ensures View() == Next(old(View()), Step.Finish)
    {
      stage := Top;
      ends := ends + 1;
    }
  }
}
