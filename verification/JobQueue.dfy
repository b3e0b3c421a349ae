/** The in-memory job queue: its fields, and one method for each step of
    dispatchers, scheduler, workers and shutdown. A blocking channel operation is
    called when it can go on. */
module JobQueues {
  import opened Wrappers
  import opened JobQueueSteps

  datatype DispatchError = ContextDone | NotRunning | QueueStopped | HandlerNotFound

  class JobQueue {
    const capacity: nat
    const workers: nat
    var phase: Phase
    var jobs: seq<JobId>
    var jobsClosed: bool
    var scheduled: seq<Scheduled>
    var slots: nat
    var scheduler: Scheduler
    var stopClosed: bool
    var heap: seq<Scheduled>
    var sequence: nat
    var promotion: Promotion
    var idle: nat
    var busy: nat
    var signalled: bool
    /** The dispatches in progress (the dispatches wait group), and the history. */
    var entered: map<JobId, Option<int>>
    var holding: map<JobId, int>
    ghost var seen: set<JobId>
    ghost var accepted: set<JobId>
    ghost var handed: seq<JobId>
    ghost var drained: seq<Scheduled>

    ghost function View(): Queue
      reads this
    {
      Queue(capacity, workers, phase, seen, entered, holding, accepted, jobs, jobsClosed, scheduled, slots, scheduler,
            stopClosed, heap, sequence, promotion, idle, busy, handed, drained, signalled)
    }

    ghost predicate Valid()
      reads this
    {
      Inv(View())
    }

    constructor (capacity: nat, workers: nat)
      ensures View() == NewQueue(capacity, workers) && Valid()
    {
      this.capacity, this.workers := capacity, workers;
      phase, jobs, jobsClosed, scheduled, slots := Collecting, [], false, [], 0;
      scheduler, stopClosed, heap, sequence, promotion := Looping, false, [], 0, NoPromotion;
      idle, busy, signalled, entered, holding := 0, 0, false, map[], map[];
      seen, accepted, handed, drained := {}, {}, [], [];
      new;
      NewInv(capacity, workers);
    }

    method Start() returns (r: Result<(), DispatchError>)
      requires Valid()
      modifies this
      ensures Valid()
      ensures r.Ok? <==> old(phase) == Collecting || old(phase) == Running
      ensures View() == if old(phase) == Collecting then Next(old(View()), Step.Start) else old(View())
    {
      match phase
      case Running => r := Ok(());
      case Stopping => r := Err(QueueStopped);
      case Stopped => r := Err(QueueStopped);
      case Collecting =>
        NextKeepsInv(View(), Step.Start);
        hide Inv;
        phase := Running;
        idle := workers;
        r := Ok(());
    }

    /** The critical section at the start of every dispatch. */
    method PrepareJobDispatch(job: JobId, readyAt: Option<int>, contextDone: bool, registered: bool)
      returns (r: Result<(), DispatchError>)
      requires Valid() && job !in seen
      modifies this
      ensures Valid()
      ensures r.Ok? <==> !contextDone && old(phase) == Running && registered
      ensures r.Ok? ==> View() == Next(old(View()), Step.Enter(job, readyAt))
      ensures r.Err? ==> View() == old(View())
      ensures r.Err? ==> r.error == if contextDone then ContextDone else if phase == Collecting then NotRunning
                                    else if phase == Running then HandlerNotFound else QueueStopped
    {
      if contextDone { return Err(ContextDone); }
      match phase
      case Collecting => r := Err(NotRunning);
      case Stopping => r := Err(QueueStopped);
      case Stopped => r := Err(QueueStopped);
      case Running =>
        if !registered { return Err(HandlerNotFound); }
        NextKeepsInv(View(), Step.Enter(job, readyAt));
        hide Inv;
        entered := entered[job := readyAt];
        seen := seen + {job};
        r := Ok(());
    }

    /** The queue stops or the context ends while the dispatch waits. */
    method AbandonDispatch(job: JobId)
      requires Valid() && CanStep(View(), Step.Abandon(job))
      modifies this
      ensures Valid() && Held(View()) == old(Held(View()))
      ensures View() == Next(old(View()), Step.Abandon(job))
      ensures job !in accepted
    {
      hide Inv, Held;
      NotAcceptedYet(View(), job);
      NextKeepsInv(View(), Step.Abandon(job));
      NextHeld(View(), Step.Abandon(job));
      entered := entered - {job};
    }

    /** queue.jobs <- queued, and the dispatch returns nil. */
    method SubmitJob(job: JobId)
      requires Valid() && CanStep(View(), Step.Submit(job))
      modifies `jobs, `entered, `accepted
      ensures Valid()
      ensures View() == Next(old(View()), Step.Submit(job))
      ensures Held(View()) == old(Held(View())) + multiset{job}
      ensures !jobsClosed && |jobs| <= capacity
    {
      hide Inv, Held;
      NextKeepsInv(View(), Step.Submit(job));
      NextHeld(View(), Step.Submit(job));
      SendsWhileOpen(View(), Step.Submit(job));
      jobs := jobs + [job];
      entered := entered - {job};
      accepted := accepted + {job};
    }

    /** queue.delayedSlots <- struct{}{} */
    method AcquireSlot(job: JobId)
      requires Valid() && CanStep(View(), Step.AcquireSlot(job))
      modifies `slots, `holding, `entered
      ensures Valid() && Held(View()) == old(Held(View()))
      ensures View() == Next(old(View()), Step.AcquireSlot(job))
      ensures slots <= capacity && |scheduled| < capacity
    {
      hide Inv, Held;
      NextKeepsInv(View(), Step.AcquireSlot(job));
      NextHeld(View(), Step.AcquireSlot(job));
      RoomToSchedule(View(), job);
      slots := slots + 1;
      holding := holding[job := entered[job].value];
      entered := entered - {job};
    }

    /** queue.scheduled <- scheduledJob{...}, and the dispatch returns nil. */
    method ScheduleJob(job: JobId)
      requires Valid() && CanStep(View(), Step.Schedule(job))
      modifies `scheduled, `holding, `accepted
      ensures Valid()
      ensures View() == Next(old(View()), Step.Schedule(job))
      ensures Held(View()) == old(Held(View())) + multiset{job}
      ensures |scheduled| <= capacity
    {
      hide Inv, Held;
      NextKeepsInv(View(), Step.Schedule(job));
      NextHeld(View(), Step.Schedule(job));
      RoomToSchedule(View(), job);
      scheduled := scheduled + [Scheduled(job, holding[job], 0)];
      holding := holding - {job};
      accepted := accepted + {job};
    }

    /** The scheduler takes an arrival and pushes it on the heap. */
    method ReceiveScheduled()
      requires Valid() && CanStep(View(), Step.Receive)
      modifies `scheduled, `sequence, `heap
      ensures Valid() && Held(View()) == old(Held(View()))
      ensures View() == Next(old(View()), Step.Receive)
    {
      hide Inv, Held;
      NextKeepsInv(View(), Step.Receive);
      NextHeld(View(), Step.Receive);
      var item := scheduled[0];
      scheduled := scheduled[1..];
      sequence := sequence + 1;
      heap := heap + [item.(sequence := sequence)];
    }

    /** The index of the least element, which heap.Pop takes. */
    method Top() returns (index: nat)
      requires heap != [] && NumberedHeap(heap, sequence)
      ensures IsTop(heap, index)
    {
      index := 0;
      for i := 1 to |heap|
        invariant index < i && forall k | 0 <= k < i && k != index :: Sooner(heap[index], heap[k])
      {
        if Sooner(heap[i], heap[index]) {
          index := i;
        }
      }
    }

    method TakeOff(index: nat)
      requires index < |heap|
      modifies `heap, `promotion
      ensures View() == old(View()).(promotion := Sending(old(heap)[index]), heap := Without(old(heap), index))
    {
      promotion := Sending(heap[index]);
      heap := Without(heap, index);
    }

    /** The timer of the earliest delayed job fires: its job is taken off. */
    method FireTimer(now: int) returns (fired: bool)
      requires Valid() && scheduler == Looping && promotion.NoPromotion?
      modifies this
      ensures Valid() && Held(View()) == old(Held(View()))
      ensures !fired ==> View() == old(View()) && forall i | 0 <= i < |heap| :: heap[i].readyAt > now
      ensures fired ==> exists index :: CanStep(old(View()), Step.Fire(index, now))
                                        && View() == Next(old(View()), Step.Fire(index, now))
    {
      hide Inv, Held;
      if heap == [] { return false; }
      HeapIsNumbered(View());
      var index := Top();
      if heap[index].readyAt > now { return false; }
      assert CanStep(View(), Step.Fire(index, now));
      NextKeepsInv(View(), Step.Fire(index, now));
      NextHeld(View(), Step.Fire(index, now));
      TakeOff(index);
      fired := true;
      assert View() == Next(old(View()), Step.Fire(index, now));
    }

    /** promoteScheduledJob sends the job ... */
    method DeliverPromoted()
      requires Valid() && CanStep(View(), Step.Deliver)
      modifies this
      ensures Valid() && Held(View()) == old(Held(View()))
      ensures View() == Next(old(View()), Step.Deliver)
      ensures !jobsClosed && |jobs| <= capacity
    {
      hide Inv, Held;
      NextKeepsInv(View(), Step.Deliver);
      NextHeld(View(), Step.Deliver);
      SendsWhileOpen(View(), Step.Deliver);
      jobs := jobs + [promotion.item.job];
      promotion := Sent(promotion.item);
    }

    /** ... and then gives its slot back. */
    method ReleasePromoted()
      requires Valid() && CanStep(View(), Step.ReleaseSlot)
      modifies this
      ensures Valid() && Held(View()) == old(Held(View()))
      ensures View() == Next(old(View()), Step.ReleaseSlot)
      ensures slots + 1 == old(slots)
    {
      hide Inv, Held;
      NextKeepsInv(View(), Step.ReleaseSlot);
      NextHeld(View(), Step.ReleaseSlot);
      slots := slots - 1;
      promotion := NoPromotion;
    }

    /** The scheduler sees scheduleStop closed. */
    method BeginDrain()
      requires Valid() && CanStep(View(), Step.BeginDrain)
      modifies this
      ensures Valid() && Held(View()) == old(Held(View()))
      ensures View() == Next(old(View()), Step.BeginDrain)
    {
      hide Inv, Held;
      NextKeepsInv(View(), Step.BeginDrain);
      NextHeld(View(), Step.BeginDrain);
      scheduler := Draining;
    }

    method DrainNext() returns (popped: bool)
      requires Valid() && scheduler == Draining && promotion.NoPromotion? && scheduled == []
      modifies this
      ensures Valid() && Held(View()) == old(Held(View()))
      ensures !popped ==> CanStep(old(View()), Step.EndDrain) && View() == Next(old(View()), Step.EndDrain)
      ensures popped ==> exists index :: CanStep(old(View()), Step.DrainPop(index))
                                         && View() == Next(old(View()), Step.DrainPop(index))
    {
      hide Inv, Held;
      if heap == [] {
        NextKeepsInv(View(), Step.EndDrain);
        NextHeld(View(), Step.EndDrain);
        scheduler := Done;
        return false;
      }
      HeapIsNumbered(View());
      var index := Top();
      assert CanStep(View(), Step.DrainPop(index));
      NextKeepsInv(View(), Step.DrainPop(index));
      NextHeld(View(), Step.DrainPop(index));
      drained := drained + [heap[index]];
      TakeOff(index);
      popped := true;
      assert View() == Next(old(View()), Step.DrainPop(index));
    }

    /** A worker's range over the channel yields a job. */
    method WorkerReceives()
      requires Valid() && CanStep(View(), Step.Work)
      modifies `jobs, `handed, `idle, `busy
      ensures Valid() && Held(View()) == old(Held(View()))
      ensures View() == Next(old(View()), Step.Work)
      ensures handed == old(handed) + [old(jobs)[0]]
    {
      hide Inv, Held;
      NextKeepsInv(View(), Step.Work);
      NextHeld(View(), Step.Work);
      TakeJob();
      idle, busy := idle - 1, busy + 1;
    }

    method TakeJob()
      requires jobs != []
      modifies `jobs, `handed
      ensures View() == old(View()).(handed := old(handed) + [old(jobs)[0]], jobs := old(jobs)[1..])
    {
      handed := handed + [jobs[0]];
      jobs := jobs[1..];
    }

    method WorkerFinishes()
      requires Valid() && CanStep(View(), Step.Finish)
      modifies this
      ensures Valid() && Held(View()) == old(Held(View()))
      ensures View() == Next(old(View()), Step.Finish)
    {
      hide Inv, Held;
      NextKeepsInv(View(), Step.Finish);
      NextHeld(View(), Step.Finish);
      idle, busy := idle + 1, busy - 1;
    }

    /** The range ends on a closed and empty channel. */
    method WorkerExits()
      requires Valid() && CanStep(View(), Step.Exit)
      modifies this
      ensures Valid() && Held(View()) == old(Held(View()))
      ensures View() == Next(old(View()), Step.Exit)
    {
      hide Inv, Held;
      NextKeepsInv(View(), Step.Exit);
      NextHeld(View(), Step.Exit);
      idle := idle - 1;
    }

    /** The first part of Shutdown; a second caller only waits, and a caller whose
        context has ended starts nothing. */
    method BeginShutdown(contextDone: bool) returns (r: Result<bool, DispatchError>)
      requires Valid()
      modifies this
      ensures Valid()
      ensures r == if old(phase) == Stopped || old(phase) == Stopping then Ok(false)
                   else if contextDone then Err(ContextDone) else Ok(true)
      ensures r == Ok(true) ==> CanStep(old(View()), Step.Shutdown) && View() == Next(old(View()), Step.Shutdown)
      ensures r != Ok(true) ==> View() == old(View())
    {
      hide Inv;
      if phase == Stopped || phase == Stopping { return Ok(false); }
      if contextDone { return Err(ContextDone); }
      Stop();
      r := Ok(true);
    }

    method Stop()
      requires Valid() && CanStep(View(), Step.Shutdown)
      modifies this
      ensures Valid() && View() == Next(old(View()), Step.Shutdown)
    {
      hide Inv;
      NextKeepsInv(View(), Step.Shutdown);
      if phase == Collecting {
        StopCollecting();
      } else {
        phase := Stopping;
      }
    }

    method StopCollecting()
      modifies `phase, `stopClosed, `scheduler, `jobsClosed, `signalled
      ensures View() == old(View()).(phase := Stopped, stopClosed := true, scheduler := Done, jobsClosed := true,
                                     signalled := true)
    {
      CloseChannels();
      phase, signalled := Stopped, true;
    }

    method CloseChannels()
      modifies `stopClosed, `scheduler, `jobsClosed
      ensures View() == old(View()).(stopClosed := true, scheduler := Done, jobsClosed := true)
    {
      stopClosed, scheduler, jobsClosed := true, Done, true;
    }

    /** After dispatches.Wait. */
    method CloseScheduleStop()
      requires Valid() && CanStep(View(), Step.StopSchedule)
      modifies this
      ensures Valid() && Held(View()) == old(Held(View()))
      ensures View() == Next(old(View()), Step.StopSchedule)
    {
      hide Inv, Held;
      NextKeepsInv(View(), Step.StopSchedule);
      NextHeld(View(), Step.StopSchedule);
      stopClosed := true;
    }

    /** finishShutdown, after scheduleDone ... */
    method CloseJobsChannel()
      requires Valid() && CanStep(View(), Step.CloseJobs)
      modifies this
      ensures Valid() && Held(View()) == old(Held(View()))
      ensures View() == Next(old(View()), Step.CloseJobs)
      ensures scheduled == [] && heap == [] && promotion.NoPromotion? && entered == map[]
    {
      hide Inv, Held;
      NextKeepsInv(View(), Step.CloseJobs);
      NextHeld(View(), Step.CloseJobs);
      NoSendAfterDone(View());
      jobsClosed := true;
    }

    /** ... and after workers.Wait. */
    method SignalShutdown()
      requires Valid() && CanStep(View(), Step.Signal)
      modifies this
      ensures Valid() && Held(View()) == old(Held(View()))
      ensures View() == Next(old(View()), Step.Signal)
      ensures workers >= 1 ==> multiset(handed) == multiset(accepted)
    {
      hide Inv, Held;
      NextKeepsInv(View(), Step.Signal);
      NextHeld(View(), Step.Signal);
      if workers >= 1 { HandedBeforeSignal(Next(View(), Step.Signal)); }
      phase, signalled := Stopped, true;
    }
  }
}
