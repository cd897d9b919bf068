/**
 * The forwarder object. Each method is one atomic stretch of its coroutines and
 * refines one step of the forwarder's step system, so whatever holds of every
 * run of that system holds of every use of this object.
 */
module ForwarderObject {
  import opened Common
  import opened Messages
  import opened Queues
  import opened Upstream
  import opened Forwarder
  import A = Aggregation

  /** Where the worker coroutine is suspended; `overdue` when its wait has no time left. */
  datatype Position = AtGet(overdue: bool) | AtSend(final: bool) | Returned

  datatype SubmitOutcome = NotRunning | Ignored | Enqueued | Blocked | Refused

  class UpstreamForwarder {
    const cfg: Config
    const aggregator: A.WindowAggregator

    var queue: seq<Item>
    var blocked: seq<Received>
    var clock: nat
    var running: bool
    var stopper: Stopper
    var position: Position
    var encoded: Option<Frame>
    var backoff: real
    var readingsEnqueued: nat
    var upstreamMessages: nat
    var upstreamBytes: nat
    var sendFailures: nat
    var recordsAbandoned: nat
    var queueFullDrops: nat

    /** The readings the in-flight record stands for, and what became of the others. */
    ghost var covers: seq<Received>
    ghost var h: History

    ghost function WorkerView(): Worker
      reads this
    {
      match position
      case AtGet(overdue) => Waiting(overdue)
      case AtSend(final) =>
        if encoded.Some? then Sending(Parcel(encoded.value, covers), final, backoff)
        else Waiting(false)
      case Returned => Finished
    }

    ghost function Abstract(): State
      reads this, aggregator
    {
      State(queue, blocked, WorkerView(), stopper, aggregator.window, clock,
            Stats(readingsEnqueued, upstreamMessages, upstreamBytes, sendFailures,
                  recordsAbandoned, queueFullDrops), h)
    }

    /** The object's own consistency; the aggregator keeps its own. */
    ghost predicate Valid()
      reads this, aggregator
    {
      && ValidConfig(cfg) && aggregator.cfg == cfg.window
      && (running <==> stopper.Running?)
      && (position.AtSend? <==> encoded.Some?)
      && (cfg.mode.Raw? ==> aggregator.window == [])
      && AllReadings(blocked)
    }

    constructor (mode: Mode, capacity: nat, initial: real, maximum: real, windowSeconds: real)
      requires capacity >= 1 && 0.0 < initial <= maximum && windowSeconds > 0.0
      ensures Valid() && aggregator.Valid() && fresh(aggregator) && Abstract() == INITIAL
      ensures cfg == Config(mode, capacity, initial, maximum, A.ConfigFor(windowSeconds))
    {
      cfg := Config(mode, capacity, initial, maximum, A.ConfigFor(windowSeconds));
      aggregator := new A.WindowAggregator(windowSeconds);
      queue, blocked, clock, running, stopper := [], [], 0, true, Running;
      position, encoded, backoff := AtGet(false), None, initial;
      readingsEnqueued, upstreamMessages, upstreamBytes := 0, 0, 0;
      sendFailures, recordsAbandoned, queueFullDrops := 0, 0, 0;
      covers, h := [], INITIAL.h;
    }

    method PutNowait(r: Received)
      requires Valid() && r.message.Reading? && |queue| < cfg.capacity
      modifies `queue, `readingsEnqueued, `h
      ensures Valid() && Abstract() == Put(old(Abstract()), r)
    {
      ghost var was := Abstract();
      queue := queue + [Queued(r)];
      readingsEnqueued := readingsEnqueued + 1;
      h := Put(was, r).h;
    }

    /** Time passes; only the event loop's own clock moves. */
    method Tick(ns: nat)
      requires Valid() && clock <= ns
      modifies `clock
      ensures Valid() && Abstract() == old(Abstract()).(clock := ns)
    {
      clock := ns;
    }

    /** `submit` joins the blocked puts instead of dropping; heartbeats stay at the edge. */
    method Submit(r: Received) returns (o: SubmitOutcome)
      requires Valid()
      modifies `queue, `blocked, `readingsEnqueued, `h
      ensures Valid()
      ensures o == if !old(running) then NotRunning
                   else if !r.message.Reading? then Ignored
                   else if old(|queue|) < cfg.capacity then Enqueued else Blocked
      ensures Abstract() == if o == NotRunning || o == Ignored then old(Abstract())
                            else Called(cfg, old(Abstract()), r)
    {
      if !running {
        return NotRunning;
      }
      if !r.message.Reading? {
        return Ignored;
      }
      if |queue| >= cfg.capacity {
        blocked := blocked + [r];
        return Blocked;
      }
      PutNowait(r);
      o := Enqueued;
    }

    /** One blocked `submit` finds room and completes, whether or not `stop` has begun. */
    method ResumeSubmit(k: nat)
      requires Valid() && k < |blocked| && |queue| < cfg.capacity
      modifies `queue, `blocked, `readingsEnqueued, `h
      ensures Valid() && Abstract() == Resumed(old(Abstract()), k)
    {
      var r := blocked[k];
      assert r in blocked;
      blocked := blocked[..k] + blocked[k + 1..];
      PutNowait(r);
    }

    /** `try_submit` never waits: a full queue costs exactly one counted drop. */
    method TrySubmit(r: Received) returns (o: SubmitOutcome)
      requires Valid()
      modifies `queue, `readingsEnqueued, `queueFullDrops, `h
      ensures Valid()
      ensures o == if !old(running) then NotRunning
                   else if !r.message.Reading? then Ignored
                   else if old(|queue|) < cfg.capacity then Enqueued else Refused
      ensures Abstract() == if old(running) then Offered(cfg, old(Abstract()), r)
                            else old(Abstract())
    {
      if !running {
        return NotRunning;
      }
      if !r.message.Reading? {
        return Ignored;
      }
      if |queue| >= cfg.capacity {
        queueFullDrops := queueFullDrops + 1;
        h := h.(dropped := h.dropped + [r]);
        return Refused;
      }
      PutNowait(r);
      o := Enqueued;
    }

    /** The wait at the head of the loop has no time left when the deadline has passed. */
    method AggregationTimeout() returns (overdue: bool)
      requires aggregator.Valid()
      ensures overdue == (aggregator.window != [] && clock >= A.Deadline(aggregator.cfg, aggregator.window))
    {
      var deadline := aggregator.DeadlineNs();
      overdue := deadline.Some? && clock >= deadline.value;
    }

    method BeginSend(record: Record, size: nat, final: bool, ghost of: seq<Received>)
      requires position.AtGet?
      modifies `position, `encoded, `backoff, `covers
      ensures position == AtSend(final) && encoded == Some(Frame(record, size))
      ensures backoff == cfg.reconnectInitial && covers == of
    {
      encoded := Some(Frame(record, size));
      position, backoff, covers := AtSend(final), cfg.reconnectInitial, of;
    }

    /** The worker gets one item and runs to its next suspension point. */
    method TakeItem(nowMs: nat, endMs: nat, size: nat)
      requires Valid() && aggregator.Valid() && position.AtGet? && queue != []
      modifies `queue, `position, `encoded, `backoff, `covers, `h, aggregator
      ensures Valid() && aggregator.Valid()
      ensures Abstract() == Taken(cfg, old(Abstract()), nowMs, endMs, size)
    {
      var item := queue[0];
      queue := queue[1..];
      if item.Stop? {
        HandleStop(nowMs, endMs, size);
      } else {
        h := h.(taken := h.taken + [item.r]);
        HandleReading(item.r, nowMs, size);
      }
    }

    method HandleStop(nowMs: nat, endMs: nat, size: nat)
      requires Valid() && aggregator.Valid() && position.AtGet?
      modifies `position, `encoded, `backoff, `covers, aggregator
      ensures Valid() && aggregator.Valid()
      ensures Abstract() == TakeStop(cfg, old(Abstract()), nowMs, endMs, size)
    {
      ghost var window := aggregator.window;
      var summary := None;
      if cfg.mode.Aggregated? {
        summary := aggregator.Flush(true, Some(endMs));
      }
      if summary.Some? {
        BeginSend(AggregateRecordFor(summary.value, nowMs), size, true, window);
      } else {
        position := Returned;
      }
    }

    method HandleReading(r: Received, nowMs: nat, size: nat)
      requires Valid() && aggregator.Valid() && position.AtGet?
      modifies `position, `encoded, `backoff, `covers, aggregator
      ensures Valid() && aggregator.Valid()
      ensures Abstract() == TakeReading(cfg, old(Abstract()), r, nowMs, size)
    {
      if cfg.mode.Raw? {
        BeginSend(RawRecordFor(r, nowMs), size, false, [r]);
      } else {
        AggregateReading(r, nowMs, size);
      }
    }

    method AggregateReading(r: Received, nowMs: nat, size: nat)
      requires Valid() && aggregator.Valid() && position.AtGet? && cfg.mode.Aggregated?
      modifies `position, `encoded, `backoff, `covers, aggregator
      ensures Valid() && aggregator.Valid()
      ensures Abstract() == TakeReading(cfg, old(Abstract()), r, nowMs, size)
    {
      ghost var window := aggregator.window;
      var completed := aggregator.Add(r);
      if completed.Some? {
        BeginSend(AggregateRecordFor(completed.value, nowMs), size, false, window);
      } else {
        var overdue := AggregationTimeout();
        position := AtGet(overdue);
      }
    }

    /** The wait for the next item outlived the open window. */
    method ExpireWindow(nowMs: nat, size: nat)
      requires Valid() && aggregator.Valid() && position.AtGet? && Overdue(cfg, Abstract())
      modifies `position, `encoded, `backoff, `covers, `h, aggregator
      ensures Valid() && aggregator.Valid() && Abstract() == Expired(cfg, old(Abstract()), nowMs, size)
    {
      h := Expired(cfg, Abstract(), nowMs, size).h;
      ghost var window := aggregator.window;
      var summary := aggregator.Flush(false, None);
      if summary.Some? {
        BeginSend(AggregateRecordFor(summary.value, nowMs), size, false, window);
      }
    }

    method FailAttempt()
      requires Valid() && position.AtSend?
      modifies `sendFailures, `backoff
      ensures Valid() && Abstract() == Retried(cfg, old(Abstract()))
    {
      sendFailures := sendFailures + 1;
      backoff := if backoff * 2.0 < cfg.reconnectMax then backoff * 2.0 else cfg.reconnectMax;
    }

    method CompleteSend()
      requires Valid() && aggregator.Valid() && position.AtSend?
      modifies `upstreamMessages, `upstreamBytes, `position, `encoded, `h
      ensures Valid() && Abstract() == Delivered(cfg, old(Abstract()))
    {
      var overdue := AggregationTimeout();
      upstreamMessages := upstreamMessages + 1;
      upstreamBytes := upstreamBytes + encoded.value.size;
      h := h.(sent := h.sent + [Parcel(encoded.value, covers)]);
      position := if position.final then Returned else AtGet(overdue);
      encoded := None;
    }

    /** A second `stop` returns at once; the first one queues the STOP marker or waits to. */
    method BeginStop() returns (first: bool)
      requires Valid()
      modifies `running, `queue, `stopper
      ensures Valid() && first == old(running)
      ensures Abstract() == if first then StopBegun(cfg, old(Abstract())) else old(Abstract())
    {
      first := running;
      if !first {
        return;
      }
      running := false;
      if |queue| >= cfg.capacity {
        stopper := PuttingStop;
      } else {
        queue, stopper := queue + [Stop], AwaitingWorker;
      }
    }

    method ResumeStopPut()
      requires Valid() && stopper.PuttingStop? && |queue| < cfg.capacity
      modifies `queue, `stopper
      ensures Valid() && Abstract() == StopQueued(old(Abstract()))
    {
      queue, stopper := queue + [Stop], AwaitingWorker;
    }

    method TimeOutStop()
      requires Valid() && (stopper.PuttingStop? || stopper.AwaitingWorker?)
      modifies `stopper, `h
      ensures Valid() && Abstract() == TimedOut(old(Abstract()))
    {
      stopper, h := Cancelling, h.(forced := true, openAtTimeout := aggregator.window);
    }

    /** Cancellation abandons the record in flight; the open window dies with the worker. */
    method CancelWorker()
      requires Valid() && aggregator.Valid() && stopper.Cancelling? && !position.Returned?
      modifies `position, `encoded, `recordsAbandoned, `h, aggregator
      ensures Valid() && aggregator.Valid() && Abstract() == Cancelled(old(Abstract()))
    {
      h := h.(lostWindow := aggregator.window);
      if position.AtSend? {
        recordsAbandoned := recordsAbandoned + 1;
        h := h.(lostInFlight := [Parcel(encoded.value, covers)]);
      }
      position, encoded := Returned, None;
      var _ := aggregator.Flush(false, None);
    }

    /** The drain loop counts every queued reading and not the STOP marker. */
    method AbandonQueue()
      requires Valid() && stopper.Cancelling? && position.Returned?
      modifies `queue, `stopper, `recordsAbandoned, `h
      ensures Valid() && Abstract() == Emptied(old(Abstract()))
    {
      ghost var was := queue;
      while queue != []
        invariant recordsAbandoned + |Pending(queue)| == old(recordsAbandoned) + |Pending(was)|
        modifies `queue, `recordsAbandoned
        decreases |queue|
      {
        PendingCons(queue);
        var queued := queue[0];
        queue := queue[1..];
        if !queued.Stop? {
          recordsAbandoned := recordsAbandoned + 1;
        }
      }
      h := h.(lostQueue := Pending(was));
      stopper := Stopped;
    }

    method JoinWorker()
      requires Valid() && stopper.AwaitingWorker? && position.Returned?
      modifies `stopper
      ensures Valid() && Abstract() == old(Abstract()).(stopper := Stopped)
    {
      stopper := Stopped;
    }

    /** Whatever the event loop schedules next, if it can happen now. */
    method Perform(e: Event)
      requires Valid() && aggregator.Valid()
      modifies this, aggregator
      ensures Valid() && aggregator.Valid()
      ensures Abstract() == After(cfg, old(Abstract()), e)
    {
      if e.Took? || e.WindowExpired? || e.AttemptFailed? || e.Drained? {
        PerformWorker(e);
      } else if e.Ticked? || e.SubmitCalled? || e.SubmitResumed? || e.TrySubmitted? {
        PerformProducer(e);
      } else if e.CancelDelivered? || e.QueueAbandoned? {
        PerformForce(e);
      } else {
        PerformStop(e);
      }
    }

    method PerformWorker(e: Event)
      requires Valid() && aggregator.Valid()
      requires e.Took? || e.WindowExpired? || e.AttemptFailed? || e.Drained?
      modifies this, aggregator
      ensures Valid() && aggregator.Valid()
      ensures Abstract() == After(cfg, old(Abstract()), e)
    {
      if stopper.Cancelling? {
        return;
      }
      match e {
        case Took(nowMs, endMs, size) =>
          if position.AtGet? && !position.overdue && queue != [] { TakeItem(nowMs, endMs, size); }
        case WindowExpired(nowMs, size) =>
          var overdue := AggregationTimeout();
          if position.AtGet? && overdue { ExpireWindow(nowMs, size); }
        case AttemptFailed =>
          if position.AtSend? { FailAttempt(); }
        case Drained =>
          if position.AtSend? { CompleteSend(); }
      }
    }

    method PerformProducer(e: Event)
      requires Valid() && aggregator.Valid()
      requires e.Ticked? || e.SubmitCalled? || e.SubmitResumed? || e.TrySubmitted?
      modifies this
      ensures Valid() && aggregator.Valid()
      ensures Abstract() == After(cfg, old(Abstract()), e)
    {
      match e {
        case Ticked(ns) =>
          if clock <= ns { Tick(ns); }
        case SubmitCalled(r) =>
          var _ := Submit(r);
        case SubmitResumed(k) =>
          if k < |blocked| && |queue| < cfg.capacity { ResumeSubmit(k); }
        case TrySubmitted(r) =>
          var _ := TrySubmit(r);
      }
    }

    method PerformStop(e: Event)
      requires Valid() && (e.StopCalled? || e.StopPut? || e.StopTimedOut? || e.WorkerJoined?)
      modifies `running, `queue, `stopper, `h
      ensures Valid() && Abstract() == After(cfg, old(Abstract()), e)
    {
      match e {
        case StopCalled =>
          var _ := BeginStop();
        case StopPut =>
          if stopper.PuttingStop? && |queue| < cfg.capacity { ResumeStopPut(); }
        case StopTimedOut =>
          if stopper.PuttingStop? || stopper.AwaitingWorker? { TimeOutStop(); }
        case WorkerJoined =>
          if stopper.AwaitingWorker? && position.Returned? { JoinWorker(); }
      }
    }

    method PerformForce(e: Event)
      requires Valid() && aggregator.Valid() && (e.CancelDelivered? || e.QueueAbandoned?)
      modifies this, aggregator
      ensures Valid() && aggregator.Valid()
      ensures Abstract() == After(cfg, old(Abstract()), e)
    {
      if stopper.Cancelling? && e.CancelDelivered? && !position.Returned? {
        CancelWorker();
      } else if stopper.Cancelling? && e.QueueAbandoned? && position.Returned? {
        AbandonQueue();
      }
    }
  }

  /** A forwarder driven by any schedule is in the state the step system says. */
  method Drive(f: UpstreamForwarder, schedule: seq<Event>)
    requires f.Valid() && f.aggregator.Valid() && f.Abstract() == INITIAL
    modifies f, f.aggregator
    ensures f.Valid() && f.aggregator.Valid()
    ensures f.Abstract() == Run(f.cfg, schedule)
  {
    for i := 0 to |schedule|
      invariant f.Valid() && f.aggregator.Valid()
      invariant f.Abstract() == Run(f.cfg, schedule[..i])
    {
      RunSnoc(f.cfg, schedule[..i], schedule[i]);
      assert schedule[..i + 1] == schedule[..i] + [schedule[i]];
      f.Perform(schedule[i]);
    }
    assert schedule[..|schedule|] == schedule;
  }
}
