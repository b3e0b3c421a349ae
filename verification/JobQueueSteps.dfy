/** The in-memory job queue as a state machine: one step for each channel
    operation and critical section of dispatchers, scheduler, workers and
    shutdown. */
module JobQueueSteps {
  import opened Wrappers

  type JobId = nat

  datatype Phase = Collecting | Running | Stopping | Stopped

  /** A delayed job; the scheduler numbers arrivals from one. */
  datatype Scheduled = Scheduled(job: JobId, readyAt: int, sequence: nat)

  datatype Scheduler = Looping | Draining | Done

  /** The job between the heap and its slot: not yet sent, or sent. */
  datatype Promotion = NoPromotion | Sending(item: Scheduled) | Sent(item: Scheduled)

  datatype Queue = Queue(
    capacity: nat,
    workers: nat,
    phase: Phase,
    seen: set<JobId>,
    /** Dispatches inside DispatchJob or DispatchJobAt: with the time of a delayed
        one, before and after it has its slot. */
    entered: map<JobId, Option<int>>,
    holding: map<JobId, int>,
    /** Dispatches that returned nil. */
    accepted: set<JobId>,
    jobs: seq<JobId>,
    jobsClosed: bool,
    scheduled: seq<Scheduled>,
    slots: nat,
    scheduler: Scheduler,
    stopClosed: bool,
    heap: seq<Scheduled>,
    sequence: nat,
    promotion: Promotion,
    idle: nat,
    busy: nat,
    /** Jobs received by workers, in order. */
    handed: seq<JobId>,
    /** Jobs taken off the heap since the drain found the channel empty. */
    drained: seq<Scheduled>,
    signalled: bool)

  datatype Step =
    | Start
    | Enter(job: JobId, readyAt: Option<int>)
    | Abandon(job: JobId)
    | Submit(job: JobId)
    | AcquireSlot(job: JobId)
    | Schedule(job: JobId)
    | Receive
    | Fire(index: nat, now: int)
    | Deliver
    | ReleaseSlot
    | BeginDrain
    | DrainPop(index: nat)
    | EndDrain
    | Work
    | Finish
    | Exit
    | Shutdown
    | StopSchedule
    | CloseJobs
    | Signal

  function NewQueue(capacity: nat, workers: nat): Queue {
    Queue(capacity, workers, Collecting, {}, map[], map[], {}, [], false, [], 0, Looping, false, [], 0, NoPromotion, 0,
        0, [], [], false)
  }

  /** scheduledJobHeap.Less */
  predicate Sooner(a: Scheduled, b: Scheduled) {
    if a.readyAt == b.readyAt then a.sequence < b.sequence else a.readyAt < b.readyAt
  }

  /** heap.Pop gives the least element. */
  predicate IsTop(heap: seq<Scheduled>, index: nat) {
    index < |heap| && forall i | 0 <= i < |heap| && i != index :: Sooner(heap[index], heap[i])
  }

  predicate CanStep(q: Queue, s: Step) {
    match s
    case Start => q.phase == Collecting
    case Enter(job, _) => q.phase == Running && job !in q.seen
    case Abandon(job) => job in q.entered
    case Submit(job) => job in q.entered && q.entered[job].None? && |q.jobs| < q.capacity
    case AcquireSlot(job) => job in q.entered && q.entered[job].Some? && q.slots < q.capacity
    case Schedule(job) => job in q.holding
    case Receive => q.scheduler != Done && q.promotion.NoPromotion? && q.scheduled != []
    case Fire(index, now) =>
      q.scheduler == Looping && q.promotion.NoPromotion? && IsTop(q.heap, index) && q.heap[index].readyAt <= now
    case Deliver => q.promotion.Sending? && |q.jobs| < q.capacity
    case ReleaseSlot => q.promotion.Sent? && q.slots > 0
    case BeginDrain => q.scheduler == Looping && q.promotion.NoPromotion? && q.stopClosed
    case DrainPop(index) =>
      q.scheduler == Draining && q.promotion.NoPromotion? && q.scheduled == [] && IsTop(q.heap, index)
    case EndDrain => q.scheduler == Draining && q.promotion.NoPromotion? && q.scheduled == [] && q.heap == []
    case Work => q.idle > 0 && q.jobs != []
    case Finish => q.busy > 0
    case Exit => q.idle > 0 && q.jobsClosed && q.jobs == []
    case Shutdown => q.phase == Collecting || q.phase == Running
    case StopSchedule => q.phase == Stopping && !q.stopClosed && q.entered == map[] && q.holding == map[]
    case CloseJobs => q.phase == Stopping && q.scheduler == Done && !q.jobsClosed
    case Signal => q.phase == Stopping && q.jobsClosed && q.idle == 0 && q.busy == 0 && !q.signalled
  }

  function Without(heap: seq<Scheduled>, index: nat): seq<Scheduled>
    requires index < |heap|
  {
    heap[..index] + heap[index + 1..]
  }

  function Next(q: Queue, s: Step): Queue
    requires CanStep(q, s)
  {
    match s
    case Start => q.(phase := Running, idle := q.workers)
    case Enter(job, readyAt) => q.(seen := q.seen + {job}, entered := q.entered[job := readyAt])
    case Abandon(job) => q.(entered := q.entered - {job})
    case Submit(job) => q.(entered := q.entered - {job}, jobs := q.jobs + [job], accepted := q.accepted + {job})
    case AcquireSlot(job) =>
      q.(slots := q.slots + 1, holding := q.holding[job := q.entered[job].value], entered := q.entered - {job})
    case Schedule(job) =>
      q.(holding := q.holding - {job}, scheduled := q.scheduled + [Scheduled(job, q.holding[job], 0)],
         accepted := q.accepted + {job})
    case Receive =>
      q.(sequence := q.sequence + 1, scheduled := q.scheduled[1..],
         heap := q.heap + [q.scheduled[0].(sequence := q.sequence + 1)])
    case Fire(index, _) => q.(promotion := Sending(q.heap[index]), heap := Without(q.heap, index))
    case Deliver => q.(promotion := Sent(q.promotion.item), jobs := q.jobs + [q.promotion.item.job])
    case ReleaseSlot => q.(promotion := NoPromotion, slots := q.slots - 1)
    case BeginDrain => q.(scheduler := Draining)
    case DrainPop(index) =>
      q.(promotion := Sending(q.heap[index]), heap := Without(q.heap, index), drained := q.drained + [q.heap[index]])
    case EndDrain => q.(scheduler := Done)
    case Work => q.(jobs := q.jobs[1..], handed := q.handed + [q.jobs[0]], idle := q.idle - 1, busy := q.busy + 1)
    case Finish => q.(idle := q.idle + 1, busy := q.busy - 1)
    case Exit => q.(idle := q.idle - 1)
    case Shutdown =>
      if q.phase == Collecting then
        q.(phase := Stopped, stopClosed := true, scheduler := Done, jobsClosed := true, signalled := true)
      else q.(phase := Stopping)
    case StopSchedule => q.(stopClosed := true)
    case CloseJobs => q.(jobsClosed := true)
    case Signal => q.(phase := Stopped, signalled := true)
  }

  // ---- Conservation ----

  function JobsOf(items: seq<Scheduled>): (jobs: seq<JobId>)
    ensures |jobs| == |items|
  {
    seq(|items|, i requires 0 <= i < |items| => items[i].job)
  }

  function BeingSent(p: Promotion): multiset<JobId> {
    if p.Sending? then multiset{p.item.job} else multiset{}
  }

  function Places(handed: multiset<JobId>, jobs: multiset<JobId>, scheduled: multiset<JobId>, heap: multiset<JobId>,
                  sending: multiset<JobId>): multiset<JobId>
  {
    handed + jobs + scheduled + heap + sending
  }

  /** Every place an accepted job can be in. */
  function Held(q: Queue): multiset<JobId> {
    Places(multiset(q.handed), multiset(q.jobs), multiset(JobsOf(q.scheduled)), multiset(JobsOf(q.heap)),
           BeingSent(q.promotion))
  }

  lemma Moves(a: multiset<JobId>, b: multiset<JobId>, c: multiset<JobId>, d: multiset<JobId>, e: multiset<JobId>,
              x: multiset<JobId>)
    ensures Places(a, b, c + x, d, e) == Places(a, b, c, d, e) + x
    ensures Places(a + x, b, c, d, e) == Places(a, x + b, c, d, e)
    ensures Places(a, b, x + c, d, e) == Places(a, b, c, d + x, e)
  {
  }

  /** An accepted job is in one place, once, and no other job is in any. */
  ghost predicate Conserved(q: Queue) {
    Held(q) == multiset(q.accepted)
  }

  /** A dispatch is in progress or has been accepted, not both. */
  ghost predicate Apart(q: Queue) {
    && q.accepted <= q.seen && q.entered.Keys <= q.seen && q.holding.Keys <= q.seen
    && q.accepted !! q.entered.Keys && q.accepted !! q.holding.Keys && q.entered.Keys !! q.holding.Keys
  }

  lemma FirstOff<T>(s: seq<T>)
    requires s != []
    ensures multiset(s) == multiset{s[0]} + multiset(s[1..])
  {
    assert s == [s[0]] + s[1..];
  }

  lemma JobsOfAppend(items: seq<Scheduled>, item: Scheduled)
    ensures JobsOf(items + [item]) == JobsOf(items) + [item.job]
  {
  }

  lemma JobsOfTail(items: seq<Scheduled>)
    requires items != []
    ensures multiset(JobsOf(items)) == multiset{items[0].job} + multiset(JobsOf(items[1..]))
  {
    assert JobsOf(items)[1..] == JobsOf(items[1..]);
    FirstOff(JobsOf(items));
  }

  lemma JobsOfWithout(items: seq<Scheduled>, index: nat)
    requires index < |items|
    ensures multiset(JobsOf(items)) == multiset{items[index].job} + multiset(JobsOf(Without(items, index)))
  {
    var jobs := JobsOf(items);
    assert jobs == jobs[..index] + [jobs[index]] + jobs[index + 1..];
    assert JobsOf(Without(items, index)) == jobs[..index] + jobs[index + 1..];
  }

  lemma Appended<T>(s: seq<T>, x: T)
    ensures multiset(s + [x]) == multiset(s) + multiset{x}
  {
  }

  lemma ScheduleHeld(q: Queue, job: JobId)
    requires CanStep(q, Schedule(job))
    ensures Held(Next(q, Schedule(job))) == Held(q) + multiset{job}
  {
    hide Places;
    SchedulePlaces(multiset(q.handed), multiset(q.jobs), q.scheduled, multiset(JobsOf(q.heap)), BeingSent(q.promotion),
                   Scheduled(job, q.holding[job], 0));
  }

  lemma SchedulePlaces(a: multiset<JobId>, b: multiset<JobId>, scheduled: seq<Scheduled>, d: multiset<JobId>,
                       e: multiset<JobId>, item: Scheduled)
    ensures Places(a, b, multiset(JobsOf(scheduled + [item])), d, e) ==
            Places(a, b, multiset(JobsOf(scheduled)), d, e) + multiset{item.job}
  {
    JobsOfAppend(scheduled, item);
    Appended(JobsOf(scheduled), item.job);
    Moves(a, b, multiset(JobsOf(scheduled)), d, e, multiset{item.job});
  }

  lemma ReceiveHeld(q: Queue)
    requires CanStep(q, Receive)
    ensures Held(Next(q, Receive)) == Held(q)
  {
    hide Places;
    ReceivePlaces(multiset(q.handed), multiset(q.jobs), q.scheduled, q.heap, BeingSent(q.promotion), q.sequence + 1);
  }

  lemma ReceivePlaces(a: multiset<JobId>, b: multiset<JobId>, scheduled: seq<Scheduled>, heap: seq<Scheduled>,
                      e: multiset<JobId>, sequence: nat)
    requires scheduled != []
    ensures Places(a, b, multiset(JobsOf(scheduled[1..])),
              multiset(JobsOf(heap + [scheduled[0].(sequence := sequence)])), e) ==
            Places(a, b, multiset(JobsOf(scheduled)), multiset(JobsOf(heap)), e)
  {
    hide Places;
    JobsOfTail(scheduled);
    JobsOfAppend(heap, scheduled[0].(sequence := sequence));
    Appended(JobsOf(heap), scheduled[0].job);
    Moves(a, b, multiset(JobsOf(scheduled[1..])), multiset(JobsOf(heap)), e, multiset{scheduled[0].job});
  }

  lemma PopHeld(q: Queue, s: Step)
    requires CanStep(q, s) && (s.Fire? || s.DrainPop?)
    ensures Held(Next(q, s)) == Held(q)
  {
    JobsOfWithout(q.heap, s.index);
  }

  lemma DeliverHeld(q: Queue)
    requires CanStep(q, Deliver)
    ensures Held(Next(q, Deliver)) == Held(q)
  {
    Appended(q.jobs, q.promotion.item.job);
  }

  lemma WorkHeld(q: Queue)
    requires CanStep(q, Work)
    ensures Held(Next(q, Work)) == Held(q)
  {
    hide Places;
    WorkPlaces(q.handed, q.jobs, multiset(JobsOf(q.scheduled)), multiset(JobsOf(q.heap)), BeingSent(q.promotion));
  }

  lemma WorkPlaces(handed: seq<JobId>, jobs: seq<JobId>, c: multiset<JobId>, d: multiset<JobId>, e: multiset<JobId>)
    requires jobs != []
    ensures Places(multiset(handed + [jobs[0]]), multiset(jobs[1..]), c, d, e) ==
            Places(multiset(handed), multiset(jobs), c, d, e)
  {
    hide Places;
    FirstOff(jobs);
    Appended(handed, jobs[0]);
    Moves(multiset(handed), multiset(jobs[1..]), c, d, e, multiset{jobs[0]});
  }

  lemma SubmitHeld(q: Queue, job: JobId)
    requires CanStep(q, Submit(job))
    ensures Held(Next(q, Submit(job))) == Held(q) + multiset{job}
  {
    Appended(q.jobs, job);
  }

  /** Only a dispatch that succeeds adds a job, and nothing takes one away. */
  lemma NextHeld(q: Queue, s: Step)
    requires CanStep(q, s)
    ensures Held(Next(q, s)) == Held(q) + if s.Submit? || s.Schedule? then multiset{s.job} else multiset{}
  {
    hide Held, Next, CanStep;
    match s
    case Submit(job) => SubmitHeld(q, job);
    case Schedule(job) => ScheduleHeld(q, job);
    case Receive => ReceiveHeld(q);
    case Fire(_, _) => PopHeld(q, s);
    case DrainPop(_) => PopHeld(q, s);
    case Deliver => DeliverHeld(q);
    case Work => WorkHeld(q);
    case _ => OtherHeld(q, s);
  }

  lemma OtherHeld(q: Queue, s: Step)
    requires CanStep(q, s) && !s.Submit? && !s.Schedule? && !s.Receive? && !s.Fire? && !s.DrainPop? && !s.Deliver?
              && !s.Work?
    ensures Held(Next(q, s)) == Held(q)
  {
  }

  lemma OneMoreAccepted(accepted: set<JobId>, job: JobId)
    requires job !in accepted
    ensures multiset(accepted + {job}) == multiset(accepted) + multiset{job}
  {
  }

  lemma NextKeepsConserved(q: Queue, s: Step)
    requires Conserved(q) && Apart(q) && CanStep(q, s)
    ensures Conserved(Next(q, s))
  {
    hide Held;
    NextHeld(q, s);
    if s.Submit? || s.Schedule? {
      OneMoreAccepted(q.accepted, s.job);
    }
  }

  lemma NextKeepsApart(q: Queue, s: Step)
    requires Apart(q) && CanStep(q, s)
    ensures Apart(Next(q, s))
  {
  }

  // ---- Slots ----

  function InPromotion(p: Promotion): nat {
    if p.NoPromotion? then 0 else 1
  }

  /** A slot is held by a job being submitted, buffered, in the heap or being
      promoted, and by nothing else. */
  ghost predicate SlotsHeld(q: Queue) {
    && q.slots == |q.holding| + |q.scheduled| + |q.heap| + InPromotion(q.promotion)
    && q.slots <= q.capacity && |q.jobs| <= q.capacity
  }

  lemma MapSizes(holding: map<JobId, int>, job: JobId, at: int)
    ensures |holding[job := at]| == if job in holding then |holding| else |holding| + 1
    ensures job in holding ==> |holding - {job}| == |holding| - 1
  {
    assert holding[job := at].Keys == holding.Keys + {job};
    assert (holding - {job}).Keys == holding.Keys - {job};
  }

  lemma NextKeepsSlots(q: Queue, s: Step)
    requires SlotsHeld(q) && Apart(q) && CanStep(q, s)
    ensures SlotsHeld(Next(q, s))
  {
    match s
    case AcquireSlot(job) => MapSizes(q.holding, job, q.entered[job].value);
    case Schedule(job) => MapSizes(q.holding, job, 0);
    case Receive =>
    case Fire(_, _) =>
    case DrainPop(_) =>
    case Deliver =>
    case ReleaseSlot =>
    case Submit(_) =>
    case Work =>
    case _ =>
  }

  /** A dispatcher with a slot always finds room in the channel: the send to
      scheduled never blocks. */
  lemma ScheduleNeverBlocks(q: Queue, job: JobId)
    requires SlotsHeld(q) && (job in q.holding || CanStep(q, AcquireSlot(job)))
    ensures |q.scheduled| < q.capacity
  {
    MapSizes(q.holding, job, 0);
  }

  // ---- Shutdown ----

  ghost predicate PhaseInv(q: Queue) {
    && (q.phase == Collecting ==> q.entered == map[] && q.holding == map[] && !q.stopClosed)
    && (q.stopClosed ==> q.phase != Collecting && q.phase != Running && q.entered == map[] && q.holding == map[])
    && (q.scheduler != Looping ==> q.stopClosed)
    && (q.scheduler == Done ==> q.scheduled == [] && q.heap == [] && q.promotion.NoPromotion?)
    && (q.phase == Collecting ==> q.scheduled == [] && q.heap == [] && q.promotion.NoPromotion? && q.jobs == [])
    && (q.jobsClosed ==> q.scheduler == Done)
    && (q.signalled ==> q.jobsClosed && q.phase == Stopped)
  }

  /** Workers leave only when the channel is closed and empty. */
  ghost predicate WorkersInv(q: Queue) {
    && (q.phase == Collecting ==> q.idle == 0 && q.busy == 0)
    && (q.signalled ==> q.idle == 0 && q.busy == 0)
    && q.idle + q.busy <= q.workers
    && (q.phase != Collecting && q.idle + q.busy < q.workers ==> q.jobsClosed && q.jobs == [])
  }

  lemma NextKeepsPhase(q: Queue, s: Step)
    requires PhaseInv(q) && CanStep(q, s)
    ensures PhaseInv(Next(q, s))
  {
  }

  lemma NextKeepsWorkers(q: Queue, s: Step)
    requires PhaseInv(q) && WorkersInv(q) && CanStep(q, s)
    ensures WorkersInv(Next(q, s))
  {
  }

  /** Nothing is sent on the jobs channel once it is closed. */
  lemma NoSendAfterClose(q: Queue, s: Step)
    requires PhaseInv(q) && q.jobsClosed
    ensures !q.promotion.Sending? && q.entered == map[]
    ensures CanStep(q, s) ==> !s.Submit? && !s.Deliver?
  {
  }

  // ---- The order of the heap ----

  /** Arrival numbers tell the jobs in the heap apart. */
  ghost predicate NumberedHeap(heap: seq<Scheduled>, sequence: nat) {
    && (forall i | 0 <= i < |heap| :: heap[i].sequence <= sequence)
    && forall i, j | 0 <= i < j < |heap| :: heap[i].sequence != heap[j].sequence
  }

  /** The drain takes the jobs off in the order of time, then arrival. */
  ghost predicate DrainsInOrder(q: Queue) {
    && (q.drained != [] ==> q.scheduler != Looping && q.scheduled == [])
    && (forall i, j | 0 <= i < j < |q.drained| :: Sooner(q.drained[i], q.drained[j]))
    && forall i, k | 0 <= i < |q.drained| && 0 <= k < |q.heap| :: Sooner(q.drained[i], q.heap[k])
  }

  lemma WithoutKeepsNumbers(heap: seq<Scheduled>, index: nat, sequence: nat)
    requires index < |heap| && NumberedHeap(heap, sequence)
    ensures NumberedHeap(Without(heap, index), sequence)
  {
    var n := Without(heap, index);
    forall i | 0 <= i < |n|
      ensures n[i] == heap[if i < index then i else i + 1]
    {
    }
  }

  lemma NextKeepsNumbers(q: Queue, s: Step)
    requires NumberedHeap(q.heap, q.sequence) && CanStep(q, s)
    ensures NumberedHeap(Next(q, s).heap, Next(q, s).sequence)
  {
    if s.Fire? || s.DrainPop? {
      hide Without;
      WithoutKeepsNumbers(q.heap, s.index, q.sequence);
    }
  }

  lemma NextKeepsDrain(q: Queue, s: Step)
    requires DrainsInOrder(q) && PhaseInv(q) && CanStep(q, s)
    ensures DrainsInOrder(Next(q, s))
  {
    var n := Next(q, s);
    if s.Fire? || s.DrainPop? {
      forall k | 0 <= k < |n.heap|
        ensures n.heap[k] in q.heap && Sooner(q.heap[s.index], n.heap[k])
      {
        assert n.heap[k] == q.heap[if k < s.index then k else k + 1];
      }
    }
  }

  /** A heap that is not empty has a least element, so the drain never sticks. */
  lemma {:induction false} TopExists(heap: seq<Scheduled>) returns (index: nat)
    requires heap != [] && forall i, j | 0 <= i < j < |heap| :: heap[i].sequence != heap[j].sequence
    ensures IsTop(heap, index)
  {
    var last := |heap| - 1;
    index := last;
    if last > 0 {
      var top := TopExists(heap[..last]);
      assert forall i | 0 <= i < last :: heap[..last][i] == heap[i];
      if Sooner(heap[top], heap[last]) {
        index := top;
      } else {
        forall i | 0 <= i < last
          ensures Sooner(heap[last], heap[i])
        {
          assert i == top || Sooner(heap[top], heap[..last][i]);
        }
      }
    }
  }

  // ---- Every run ----

  ghost predicate Inv(q: Queue) {
    && Conserved(q) && Apart(q) && SlotsHeld(q) && PhaseInv(q) && WorkersInv(q)
    && NumberedHeap(q.heap, q.sequence) && DrainsInOrder(q)
  }

  lemma NewInv(capacity: nat, workers: nat)
    ensures Inv(NewQueue(capacity, workers))
  {
  }

  lemma NextKeepsInv(q: Queue, s: Step)
    requires Inv(q) && CanStep(q, s)
    ensures Inv(Next(q, s)) && Next(q, s).capacity == q.capacity && Next(q, s).workers == q.workers
  {
    NextKeepsConserved(q, s);
    NextKeepsApart(q, s);
    NextKeepsSlots(q, s);
    NextKeepsPhase(q, s);
    NextKeepsWorkers(q, s);
    NextKeepsNumbers(q, s);
    NextKeepsDrain(q, s);
  }

  predicate Runs(q: Queue, steps: seq<Step>)
    decreases |steps|
  {
    steps == [] || (CanStep(q, steps[0]) && Runs(Next(q, steps[0]), steps[1..]))
  }

  function After(q: Queue, steps: seq<Step>): Queue
    requires Runs(q, steps)
    decreases |steps|
  {
    if steps == [] then q else After(Next(q, steps[0]), steps[1..])
  }

  lemma {:induction false} RunKeepsInv(q: Queue, steps: seq<Step>)
    requires Inv(q) && Runs(q, steps)
    ensures Inv(After(q, steps)) && After(q, steps).capacity == q.capacity && After(q, steps).workers == q.workers
    decreases |steps|
  {
    if steps != [] {
      hide Inv, Next, CanStep;
      NextKeepsInv(q, steps[0]);
      RunKeepsInv(Next(q, steps[0]), steps[1..]);
    }
  }

  /** Before shutdown is signalled, every dispatch that returned nil was handed
      to a worker, exactly once. */
  lemma HandedBeforeSignal(q: Queue)
    requires Inv(q) && q.signalled && q.workers >= 1
    ensures multiset(q.handed) == multiset(q.accepted)
    ensures forall i, j | 0 <= i < j < |q.handed| :: q.handed[i] != q.handed[j]
    ensures forall job | job in q.accepted :: job in q.handed
  {
    assert q.jobs == [] && JobsOf(q.scheduled) == [] && JobsOf(q.heap) == [];
    assert multiset(q.handed) == Held(q);
    Unrepeated(q.handed, q.accepted);
    forall job | job in q.accepted
      ensures job in q.handed
    {
      assert job in multiset(q.handed);
    }
  }

  lemma Unrepeated(handed: seq<JobId>, accepted: set<JobId>)
    requires multiset(handed) == multiset(accepted)
    ensures forall i, j | 0 <= i < j < |handed| :: handed[i] != handed[j]
  {
    forall i, j | 0 <= i < j < |handed|
      ensures handed[i] != handed[j]
    {
      assert handed == handed[..i] + [handed[i]] + handed[i + 1..j] + [handed[j]] + handed[j + 1..];
      assert multiset(handed)[handed[i]] <= 1;
    }
  }

  // ---- What a step may rely on ----

  lemma RoomToSchedule(q: Queue, job: JobId)
    requires Inv(q) && (job in q.holding || CanStep(q, AcquireSlot(job)))
    ensures |q.scheduled| < q.capacity
  {
    ScheduleNeverBlocks(q, job);
  }

  lemma SendsWhileOpen(q: Queue, s: Step)
    requires Inv(q) && CanStep(q, s) && (s.Submit? || s.Deliver?)
    ensures !q.jobsClosed
  {
    if q.jobsClosed {
      NoSendAfterClose(q, s);
    }
  }

  lemma NoSendAfterDone(q: Queue)
    requires Inv(q) && CanStep(q, CloseJobs)
    ensures q.scheduled == [] && q.heap == [] && q.promotion.NoPromotion? && q.entered == map[]
  {
  }

  lemma NotAcceptedYet(q: Queue, job: JobId)
    requires Inv(q) && job in q.entered
    ensures job !in q.accepted
  {
  }

  lemma HeapIsNumbered(q: Queue)
    requires Inv(q)
    ensures NumberedHeap(q.heap, q.sequence)
  {
  }

  /** A dispatch that got in can go on as soon as there is room, and a delayed one
      keeps its time on the way. */
  lemma DispatchGoesOn(q: Queue, job: JobId, readyAt: Option<int>)
    requires CanStep(q, Enter(job, readyAt))
    ensures var n := Next(q, Enter(job, readyAt));
            && (readyAt.None? && |n.jobs| < n.capacity ==> CanStep(n, Submit(job)))
            && (readyAt.Some? && n.slots < n.capacity ==>
                  && CanStep(n, AcquireSlot(job))
                  && var held := Next(n, AcquireSlot(job));
                  && CanStep(held, Schedule(job))
                  && Next(held, Schedule(job)).scheduled == q.scheduled + [Scheduled(job, readyAt.value, 0)])
  {
  }

  /** Shutting down a queue that was never started is done at once. */
  lemma ShutdownBeforeStart(q: Queue)
    requires Inv(q) && q.phase == Collecting
    ensures CanStep(q, Shutdown) && Next(q, Shutdown).signalled && Next(q, Shutdown).phase == Stopped
    ensures Held(q) == multiset(q.handed) && q.jobs == []
  {
    assert JobsOf(q.scheduled) == [] && JobsOf(q.heap) == [];
  }

  // ---- Shutdown comes to an end ----

  function PromotionSteps(p: Promotion): nat {
    match p
    case NoPromotion => 0
    case Sending(_) => 4
    case Sent(_) => 1
  }

  function SchedulerSteps(s: Scheduler): nat {
    match s
    case Looping => 2
    case Draining => 1
    case Done => 0
  }

  function Closings(q: Queue): nat {
    (if q.stopClosed then 0 else 1) + (if q.jobsClosed then 0 else 1) + (if q.signalled then 0 else 1)
  }

  /** How many steps a queue that is stopping can still take, at most. */
  function StepsLeft(q: Queue): nat {
    8 * |q.entered| + 7 * |q.holding| + 6 * |q.scheduled| + 5 * |q.heap| + PromotionSteps(q.promotion)
    + 2 * |q.jobs| + 2 * q.busy + q.idle + SchedulerSteps(q.scheduler) + Closings(q)
  }

  lemma EnteredSizes(entered: map<JobId, Option<int>>, job: JobId)
    requires job in entered
    ensures |entered - {job}| == |entered| - 1
  {
    assert (entered - {job}).Keys == entered.Keys - {job};
  }

  lemma DispatchProgress(q: Queue, s: Step)
    requires CanStep(q, s) && (s.Abandon? || s.Submit? || s.AcquireSlot? || s.Schedule?)
    requires s.AcquireSlot? ==> s.job !in q.holding
    ensures StepsLeft(Next(q, s)) < StepsLeft(q) && Next(q, s).phase == q.phase
  {
    if s.Schedule? {
      MapSizes(q.holding, s.job, 0);
    } else {
      EnteredSizes(q.entered, s.job);
      if s.AcquireSlot? {
        MapSizes(q.holding, s.job, q.entered[s.job].value);
      }
    }
  }

  lemma SchedulerProgress(q: Queue, s: Step)
    requires CanStep(q, s) && (s.Receive? || s.Fire? || s.DrainPop? || s.Deliver? || s.ReleaseSlot? || s.BeginDrain?
              || s.EndDrain?)
    ensures StepsLeft(Next(q, s)) < StepsLeft(q) && Next(q, s).phase == q.phase
  {
  }

  lemma WorkerProgress(q: Queue, s: Step)
    requires CanStep(q, s) && (s.Work? || s.Finish? || s.Exit? || s.StopSchedule? || s.CloseJobs? || s.Signal?)
    ensures StepsLeft(Next(q, s)) < StepsLeft(q)
    ensures Next(q, s).phase == q.phase || Next(q, s).signalled
  {
  }

  /** Every step of a stopping queue, of whatever goroutine, brings the end closer. */
  lemma ShutdownProgress(q: Queue, s: Step)
    requires Inv(q) && q.phase == Stopping && CanStep(q, s)
    ensures StepsLeft(Next(q, s)) < StepsLeft(q)
    ensures Next(q, s).phase == Stopping || Next(q, s).signalled
  {
    assert s.AcquireSlot? ==> s.job !in q.holding;
    assert !s.Start? && !s.Enter? && !s.Shutdown?;
    hide Inv, CanStep, Next, StepsLeft;
    if s.Abandon? || s.Submit? || s.AcquireSlot? || s.Schedule? {
      DispatchProgress(q, s);
    } else if s.Work? || s.Finish? || s.Exit? || s.StopSchedule? || s.CloseJobs? || s.Signal? {
      WorkerProgress(q, s);
    } else {
      SchedulerProgress(q, s);
    }
  }

  /** A worker or the channel can always go on while jobs are buffered. */
  lemma WorkersNotStuck(q: Queue) returns (s: Step)
    requires Inv(q) && q.phase == Stopping && q.jobs != [] && q.workers >= 1
    ensures CanStep(q, s) && !s.Fire?
  {
    s := if q.idle > 0 then Work else Finish;
  }

  lemma SchedulerNotStuck(q: Queue) returns (s: Step)
    requires Inv(q) && q.phase == Stopping && q.stopClosed && q.scheduler != Done && q.workers >= 1 && q.capacity >= 1
    ensures CanStep(q, s) && !s.Fire?
  {
    if q.promotion.Sending? {
      if |q.jobs| < q.capacity {
        s := Deliver;
      } else {
        s := WorkersNotStuck(q);
      }
    } else if q.promotion.Sent? {
      s := ReleaseSlot;
    } else if q.scheduler == Looping {
      s := BeginDrain;
    } else if q.scheduled != [] {
      s := Receive;
    } else if q.heap != [] {
      var index := TopExists(q.heap);
      s := DrainPop(index);
    } else {
      s := EndDrain;
    }
  }

  /** And until the shutdown is signalled, some goroutine can take a step without
      waiting for a timer. */
  lemma ShutdownIsNotStuck(q: Queue) returns (s: Step)
    requires Inv(q) && q.phase == Stopping && q.workers >= 1 && q.capacity >= 1
    ensures CanStep(q, s) && !s.Fire?
  {
    if job :| job in q.entered {
      s := Abandon(job);
    } else if job :| job in q.holding {
      s := Schedule(job);
    } else if !q.stopClosed {
      s := StopSchedule;
    } else if q.scheduler != Done {
      s := SchedulerNotStuck(q);
    } else if !q.jobsClosed {
      s := CloseJobs;
    } else if q.jobs != [] {
      s := WorkersNotStuck(q);
    } else {
      s := if q.idle > 0 then Exit else if q.busy > 0 then Finish else Signal;
    }
  }

  /** Once shutdown is signalled nothing moves any more. */
  lemma SignalledIsFinal(q: Queue, s: Step)
    requires Inv(q) && q.signalled && q.workers >= 1
    ensures !CanStep(q, s)
  {
  }

  /** In every run a stopping queue takes at most so many steps, and when it can
      take no more, shutdown has been signalled. */
  lemma {:induction false} ShutdownEnds(q: Queue, steps: seq<Step>)
    requires Inv(q) && (q.phase == Stopping || q.signalled) && q.workers >= 1 && q.capacity >= 1 && Runs(q, steps)
    ensures |steps| <= StepsLeft(q)
    ensures (forall s :: !CanStep(After(q, steps), s)) <==> After(q, steps).signalled
    decreases |steps|
  {
    if steps == [] {
      if q.signalled {
        forall s ensures !CanStep(q, s) { SignalledIsFinal(q, s); }
      } else {
        var s := ShutdownIsNotStuck(q);
      }
    } else {
      if q.signalled {
        SignalledIsFinal(q, steps[0]);
      }
      ShutdownProgress(q, steps[0]);
      NextKeepsInv(q, steps[0]);
      ShutdownEnds(Next(q, steps[0]), steps[1..]);
    }
  }

  /** The promises of the queue in every reachable state. */
  lemma ShutdownConserves(capacity: nat, workers: nat, steps: seq<Step>, job: JobId)
    requires workers >= 1 && Runs(NewQueue(capacity, workers), steps)
    ensures var q := After(NewQueue(capacity, workers), steps);
            && Held(q) == multiset(q.accepted)
            && q.slots == |q.holding| + |q.scheduled| + |q.heap| + InPromotion(q.promotion)
            && (job in q.holding ==> |q.scheduled| < capacity)
            && (q.signalled ==> multiset(q.handed) == multiset(q.accepted))
  {
    NewInv(capacity, workers);
    RunKeepsInv(NewQueue(capacity, workers), steps);
    var q := After(NewQueue(capacity, workers), steps);
    if job in q.holding {
      ScheduleNeverBlocks(q, job);
    }
    if q.signalled {
      HandedBeforeSignal(q);
    }
  }
}
