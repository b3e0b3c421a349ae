/** The order in which the job queue hands out its jobs, against the history of
    what was sent, what arrived at the scheduler and what was asked for. */
module JobQueueOrder {
  import opened Wrappers
  import opened JobQueueSteps

  /** Jobs in the order they were sent to the workers' channel, delayed jobs in the
      order they were sent to the scheduler, and the time each dispatch asked for. */
  datatype History = History(sent: seq<JobId>, arrived: seq<JobId>, asked: map<JobId, Option<int>>)

  const NOTHING_YET := History([], [], map[])

  function Recorded(h: History, q: Queue, s: Step): History
    requires CanStep(q, s)
  {
    match s
    case Enter(job, readyAt) => h.(asked := h.asked[job := readyAt])
    case Submit(job) => h.(sent := h.sent + [job])
    case Deliver => h.(sent := h.sent + [q.promotion.item.job])
    case Schedule(job) => h.(arrived := h.arrived + [job])
    case _ => h
  }

  function Told(h: History, q: Queue, steps: seq<Step>): History
    requires Runs(q, steps)
    decreases |steps|
  {
    if steps == [] then h else Told(Recorded(h, q, steps[0]), Next(q, steps[0]), steps[1..])
  }

  /** The workers and their channel have what was sent, in that order. */
  ghost predicate InOrder(q: Queue, h: History) {
    q.handed + q.jobs == h.sent
  }

  /** A delayed job keeps the time it was dispatched for. */
  ghost predicate OnTime(h: History, job: JobId, at: int) {
    job in h.asked && h.asked[job] == Some(at)
  }

  /** It arrived at the scheduler as the n-th, counted from one. */
  ghost predicate Arrived(h: History, item: Scheduled) {
    && 1 <= item.sequence <= |h.arrived| && h.arrived[item.sequence - 1] == item.job
    && OnTime(h, item.job, item.readyAt)
  }

  ghost predicate ItemsArrived(h: History, items: seq<Scheduled>, sequence: nat) {
    forall i | 0 <= i < |items| :: items[i].sequence <= sequence && Arrived(h, items[i])
  }

  /** What the scheduler's channel still holds arrived last. */
  ghost predicate Waiting(q: Queue, h: History) {
    && q.sequence + |q.scheduled| == |h.arrived|
    && forall i | 0 <= i < |q.scheduled| ::
         q.scheduled[i].job == h.arrived[q.sequence + i] && OnTime(h, q.scheduled[i].job, q.scheduled[i].readyAt)
  }

  ghost predicate Numbered(q: Queue, h: History) {
    && ItemsArrived(h, q.heap, q.sequence) && ItemsArrived(h, q.drained, q.sequence)
    && (q.promotion.NoPromotion? || Arrived(h, q.promotion.item))
  }

  ghost predicate Dispatching(q: Queue, h: History) {
    && h.asked.Keys <= q.seen
    && (forall job | job in q.entered :: job in h.asked && h.asked[job] == q.entered[job])
    && forall job | job in q.holding :: OnTime(h, job, q.holding[job])
  }

  /** While it drains, the scheduler sends what it took off last. */
  ghost predicate SendsDrained(q: Queue) {
    !q.scheduler.Draining? || q.promotion.NoPromotion?
    || (q.drained != [] && q.drained[|q.drained| - 1] == q.promotion.item)
  }

  ghost predicate Ordered(q: Queue, h: History) {
    InOrder(q, h) && Waiting(q, h) && Numbered(q, h) && Dispatching(q, h) && SendsDrained(q)
  }

  // ---- Every step keeps the order ----

  lemma StepKeepsInOrder(q: Queue, h: History, s: Step)
    requires InOrder(q, h) && CanStep(q, s)
    ensures InOrder(Next(q, s), Recorded(h, q, s))
  {
    if s.Work? {
      assert q.jobs == [q.jobs[0]] + q.jobs[1..];
    }
  }

  predicate IsDispatch(s: Step) {
    s.Enter? || s.AcquireSlot? || s.Abandon? || s.Submit? || s.Schedule?
  }

  lemma DispatchOrdered(q: Queue, h: History, s: Step)
    requires Dispatching(q, h) && CanStep(q, s) && IsDispatch(s)
    ensures Dispatching(Next(q, s), Recorded(h, q, s))
  {
  }

  /** The other steps leave the dispatches and what they asked for alone. */
  lemma DispatchesStay(q: Queue, h: History, s: Step)
    requires CanStep(q, s) && !IsDispatch(s)
    ensures var n, k := Next(q, s), Recorded(h, q, s);
            n.entered == q.entered && n.holding == q.holding && n.seen == q.seen && k.asked == h.asked
  {
    hide Without, IsTop, Sooner;
    match s
    case Start =>
    case Receive =>
    case Fire(_, _) =>
    case Deliver =>
    case DrainPop(_) =>
    case Shutdown =>
    case _ =>
  }

  lemma StepKeepsDispatching(q: Queue, h: History, s: Step)
    requires Dispatching(q, h) && CanStep(q, s)
    ensures Dispatching(Next(q, s), Recorded(h, q, s))
  {
    hide Next, Recorded, CanStep;
    if IsDispatch(s) {
      DispatchOrdered(q, h, s);
    } else {
      DispatchesStay(q, h, s);
    }
  }

  lemma ArrivalOrdered(q: Queue, h: History, s: Step)
    requires Waiting(q, h) && Dispatching(q, h) && CanStep(q, s) && (s.Receive? || s.Schedule? || s.Enter?)
    ensures Waiting(Next(q, s), Recorded(h, q, s))
  {
  }

  lemma ArrivalsStay(q: Queue, h: History, s: Step)
    requires CanStep(q, s) && !s.Receive? && !s.Schedule? && !s.Enter?
    ensures var n, k := Next(q, s), Recorded(h, q, s);
            && n.scheduled == q.scheduled && n.sequence == q.sequence
            && k.asked == h.asked && k.arrived == h.arrived
  {
    hide Without, IsTop, Sooner;
    match s
    case Submit(_) =>
    case AcquireSlot(_) =>
    case Fire(_, _) =>
    case Deliver =>
    case DrainPop(_) =>
    case Shutdown =>
    case _ =>
  }

  lemma StepKeepsWaiting(q: Queue, h: History, s: Step)
    requires Waiting(q, h) && Dispatching(q, h) && CanStep(q, s)
    ensures Waiting(Next(q, s), Recorded(h, q, s))
  {
    hide Next, Recorded, CanStep;
    if s.Receive? || s.Schedule? || s.Enter? {
      ArrivalOrdered(q, h, s);
    } else {
      ArrivalsStay(q, h, s);
    }
  }

  /** New entries in the history do not change what is known of an item. */
  lemma StillArrived(q: Queue, h: History, s: Step, item: Scheduled)
    requires Arrived(h, item) && h.asked.Keys <= q.seen && CanStep(q, s)
    ensures Arrived(Recorded(h, q, s), item)
  {
  }

  lemma ItemsStillArrived(q: Queue, h: History, s: Step, items: seq<Scheduled>, sequence: nat)
    requires ItemsArrived(h, items, q.sequence) && h.asked.Keys <= q.seen && CanStep(q, s) && q.sequence <= sequence
    ensures ItemsArrived(Recorded(h, q, s), items, sequence)
  {
    hide Arrived;
    forall i | 0 <= i < |items|
      ensures Arrived(Recorded(h, q, s), items[i])
    {
      StillArrived(q, h, s, items[i]);
    }
  }

  lemma StepKeepsNumbered(q: Queue, h: History, s: Step)
    requires Numbered(q, h) && Waiting(q, h) && Dispatching(q, h) && CanStep(q, s)
    ensures Numbered(Next(q, s), Recorded(h, q, s))
  {
    var n, k := Next(q, s), Recorded(h, q, s);
    ItemsStillArrived(q, h, s, q.heap, n.sequence);
    ItemsStillArrived(q, h, s, q.drained, n.sequence);
    if !q.promotion.NoPromotion? { StillArrived(q, h, s, q.promotion.item); }
    if s.Fire? || s.DrainPop? {
      assert Arrived(k, q.heap[s.index]);
      forall i | 0 <= i < |n.heap|
        ensures n.heap[i].sequence <= n.sequence && Arrived(k, n.heap[i])
      {
        assert n.heap[i] == q.heap[if i < s.index then i else i + 1];
      }
    }
  }

  lemma StepKeepsDrained(q: Queue, s: Step)
    requires SendsDrained(q) && CanStep(q, s)
    ensures SendsDrained(Next(q, s))
  {
  }

  lemma StepKeepsOrdered(q: Queue, h: History, s: Step)
    requires Ordered(q, h) && CanStep(q, s)
    ensures Ordered(Next(q, s), Recorded(h, q, s))
  {
    StepKeepsInOrder(q, h, s);
    StepKeepsDispatching(q, h, s);
    StepKeepsWaiting(q, h, s);
    StepKeepsNumbered(q, h, s);
    StepKeepsDrained(q, s);
  }

  lemma {:induction false} RunKeepsOrdered(q: Queue, h: History, steps: seq<Step>)
    requires Ordered(q, h) && Runs(q, steps)
    ensures Ordered(After(q, steps), Told(h, q, steps))
    decreases |steps|
  {
    if steps != [] {
      StepKeepsOrdered(q, h, steps[0]);
      hide Ordered, Next, CanStep, Recorded;
      RunKeepsOrdered(Next(q, steps[0]), Recorded(h, q, steps[0]), steps[1..]);
    }
  }

  // ---- What every run promises ----

  /** Workers receive the jobs in the order in which they were sent. */
  lemma ReceivedInOrder(capacity: nat, workers: nat, steps: seq<Step>)
    requires Runs(NewQueue(capacity, workers), steps)
    ensures var q := After(NewQueue(capacity, workers), steps);
            var h := Told(NOTHING_YET, NewQueue(capacity, workers), steps);
            q.handed <= h.sent && q.handed + q.jobs == h.sent
  {
    RunKeepsOrdered(NewQueue(capacity, workers), NOTHING_YET, steps);
  }

  /** The first of two delayed jobs: asked for earlier, or for the same time and
      arrived earlier. */
  ghost predicate DueBefore(h: History, a: JobId, b: JobId) {
    && a in h.asked && h.asked[a].Some? && b in h.asked && h.asked[b].Some?
    && (h.asked[a].value < h.asked[b].value
        || (h.asked[a].value == h.asked[b].value
            && exists i, j | 0 <= i < j < |h.arrived| :: h.arrived[i] == a && h.arrived[j] == b))
  }

  lemma SoonerIsDueBefore(h: History, a: Scheduled, b: Scheduled)
    requires Arrived(h, a) && Arrived(h, b) && Sooner(a, b)
    ensures DueBefore(h, a.job, b.job)
  {
    if a.readyAt == b.readyAt {
      assert h.arrived[a.sequence - 1] == a.job && h.arrived[b.sequence - 1] == b.job;
    }
  }

  lemma DrainedBefore(q: Queue, h: History)
    requires Numbered(q, h) && DrainsInOrder(q)
    ensures forall i, j | 0 <= i < j < |q.drained| :: DueBefore(h, q.drained[i].job, q.drained[j].job)
    ensures forall i, k | 0 <= i < |q.drained| && 0 <= k < |q.heap| :: DueBefore(h, q.drained[i].job, q.heap[k].job)
  {
    hide Sooner, Arrived, DueBefore;
    forall i, j | 0 <= i < j < |q.drained|
      ensures DueBefore(h, q.drained[i].job, q.drained[j].job)
    {
      SoonerIsDueBefore(h, q.drained[i], q.drained[j]);
    }
    forall i, k | 0 <= i < |q.drained| && 0 <= k < |q.heap|
      ensures DueBefore(h, q.drained[i].job, q.heap[k].job)
    {
      SoonerIsDueBefore(h, q.drained[i], q.heap[k]);
    }
  }

  /** The drain takes the delayed jobs off, and sends them, in the order of the times
      that were asked for, and at one time in the order of their arrival. */
  lemma DrainedInOrder(capacity: nat, workers: nat, steps: seq<Step>)
    requires Runs(NewQueue(capacity, workers), steps)
    ensures var q := After(NewQueue(capacity, workers), steps);
            var h := Told(NOTHING_YET, NewQueue(capacity, workers), steps);
            && (forall i, j | 0 <= i < j < |q.drained| :: DueBefore(h, q.drained[i].job, q.drained[j].job))
            && (forall i, k | 0 <= i < |q.drained| && 0 <= k < |q.heap| ::
                  DueBefore(h, q.drained[i].job, q.heap[k].job))
            && (q.scheduler.Draining? && !q.promotion.NoPromotion? ==>
                  q.drained != [] && q.drained[|q.drained| - 1] == q.promotion.item)
  {
    var start := NewQueue(capacity, workers);
    RunKeepsOrdered(start, NOTHING_YET, steps);
    RunDrains(capacity, workers, steps);
    hide DueBefore, After, Told, Runs, Numbered, Dispatching, Waiting, InOrder, DrainsInOrder;
    DrainedBefore(After(start, steps), Told(NOTHING_YET, start, steps));
  }

  lemma RunDrains(capacity: nat, workers: nat, steps: seq<Step>)
    requires Runs(NewQueue(capacity, workers), steps)
    ensures DrainsInOrder(After(NewQueue(capacity, workers), steps))
  {
    NewInv(capacity, workers);
    hide Conserved, Apart, SlotsHeld, PhaseInv, WorkersInv, NumberedHeap, DrainsInOrder, After, Runs, NewQueue;
    RunKeepsInv(NewQueue(capacity, workers), steps);
  }

  /** And the job a timer takes off is due, and the first of those that wait. */
  lemma FiresInOrder(capacity: nat, workers: nat, steps: seq<Step>, index: nat, now: int)
    requires Runs(NewQueue(capacity, workers), steps)
    requires CanStep(After(NewQueue(capacity, workers), steps), Fire(index, now))
    ensures var q := After(NewQueue(capacity, workers), steps);
            var h := Told(NOTHING_YET, NewQueue(capacity, workers), steps);
            var taken := q.heap[index].job;
            && taken in h.asked && h.asked[taken].Some? && h.asked[taken].value <= now
            && forall k | 0 <= k < |q.heap| && k != index :: DueBefore(h, taken, q.heap[k].job)
  {
    RunKeepsOrdered(NewQueue(capacity, workers), NOTHING_YET, steps);
    var q, h := After(NewQueue(capacity, workers), steps), Told(NOTHING_YET, NewQueue(capacity, workers), steps);
    assert Arrived(h, q.heap[index]);
    forall k | 0 <= k < |q.heap| && k != index
      ensures DueBefore(h, q.heap[index].job, q.heap[k].job)
    {
      assert Arrived(h, q.heap[k]);
      SoonerIsDueBefore(h, q.heap[index], q.heap[k]);
    }
  }
}
