/**
 * The upstream forwarder as a step system. Code between two suspension points
 * of the event loop is one step; the environment chooses which step happens
 * next, which connections and writes fail, when a shutdown times out and where
 * the worker is cancelled.
 */
module Forwarder {
  import opened Common
  import opened Messages
  import opened Queues
  import opened Upstream
  import A = Aggregation

  datatype Mode = Raw | Aggregated

  datatype Config = Config(mode: Mode, capacity: nat, reconnectInitial: real, reconnectMax: real,
                           window: A.Config)

  predicate ValidConfig(cfg: Config) {
    cfg.capacity >= 1 && 0.0 < cfg.reconnectInitial <= cfg.reconnectMax
  }

  /** An encoded record together with the readings it stands for. */
  datatype Parcel = Parcel(frame: Frame, covers: seq<Received>)

  /**
   * `overdue` is whether, when the worker last began to wait, the deadline of its
   * open window had already passed: then the wait times out at once and takes
   * nothing from the queue.
   */
  datatype Worker =
    | Waiting(overdue: bool)
    | Sending(p: Parcel, final: bool, backoff: real)
    | Finished

  datatype Stopper = Running | PuttingStop | AwaitingWorker | Cancelling | Stopped

  datatype Stats = Stats(enqueued: nat, messages: nat, bytes: nat, sendFailures: nat,
                         abandoned: nat, drops: nat)

  /**
   * A window flushed by timeout: its deadline, how many readings had been taken
   * by then, and the readings that were still queued.
   */
  datatype Expiry = Expiry(deadline: nat, taken: nat, backlog: seq<Received>)

  /**
   * What really happened to each reading. `delayed` are the readings not enqueued
   * at their receive instant. `behind` and `after` are readings whose blocked
   * `submit` resumed behind the STOP marker, or after `stop` had returned.
   * `openAtTimeout` is the window that was open when `stop` timed out.
   */
  datatype History = History(
    accepted: seq<Received>, dropped: seq<Received>, delayed: seq<Received>,
    behind: seq<Received>, after: seq<Received>, taken: seq<Received>,
    sent: seq<Parcel>, expired: seq<Expiry>, lostInFlight: seq<Parcel>, lostWindow: seq<Received>,
    lostQueue: seq<Received>, forced: bool, openAtTimeout: seq<Received>)

  /** `blocked` are the readings whose `submit` is waiting for room; `clock` is monotonic time. */
  datatype State = State(queue: seq<Item>, blocked: seq<Received>, worker: Worker, stopper: Stopper,
                         window: seq<Received>, clock: nat, stats: Stats, h: History)

  const INITIAL := State([], [], Waiting(false), Running, [], 0, Stats(0, 0, 0, 0, 0, 0),
                         History([], [], [], [], [], [], [], [], [], [], [], false, []))

  datatype Event =
    | Ticked(ns: nat)
    | SubmitCalled(r: Received)
    | SubmitResumed(k: nat)
    | TrySubmitted(r: Received)
    | Took(nowMs: nat, endMs: nat, size: nat)
    | WindowExpired(nowMs: nat, size: nat)
    | AttemptFailed
    | Drained
    | StopCalled
    | StopPut
    | StopTimedOut
    | CancelDelivered
    | QueueAbandoned
    | WorkerJoined

  predicate Full(cfg: Config, s: State) {
    |s.queue| >= cfg.capacity
  }

  /** The open window's deadline has passed. */
  predicate Overdue(cfg: Config, s: State) {
    s.window != [] && s.clock >= A.Deadline(cfg.window, s.window)
  }

  predicate Enabled(cfg: Config, s: State, e: Event) {
    match e
    case Ticked(ns) => s.clock <= ns
    case SubmitCalled(r) => s.stopper.Running? && r.message.Reading?
    case SubmitResumed(k) => k < |s.blocked| && !Full(cfg, s)
    case TrySubmitted(r) => s.stopper.Running?
    case Took(_, _, _) =>
      s.worker.Waiting? && !s.worker.overdue && s.queue != [] && !s.stopper.Cancelling?
    case WindowExpired(_, _) => s.worker.Waiting? && Overdue(cfg, s) && !s.stopper.Cancelling?
    case AttemptFailed => s.worker.Sending? && !s.stopper.Cancelling?
    case Drained => s.worker.Sending? && !s.stopper.Cancelling?
    case StopCalled => s.stopper.Running?
    case StopPut => s.stopper.PuttingStop? && !Full(cfg, s)
    case StopTimedOut => s.stopper.PuttingStop? || s.stopper.AwaitingWorker?
    case CancelDelivered => s.stopper.Cancelling? && !s.worker.Finished?
    case QueueAbandoned => s.stopper.Cancelling? && s.worker.Finished?
    case WorkerJoined => s.stopper.AwaitingWorker? && s.worker.Finished?
  }

  function RawParcel(r: Received, nowMs: nat, size: nat): Parcel {
    Parcel(Frame(RawRecordFor(r, nowMs), size), [r])
  }

  function SummaryParcel(cfg: Config, w: seq<Received>, partial: bool, endMs: Option<nat>,
                         nowMs: nat, size: nat): Parcel {
    Parcel(Frame(AggregateRecordFor(A.Summarize(cfg.window, w, partial, endMs), nowMs), size), w)
  }

  function StartSending(cfg: Config, s: State, p: Parcel, final: bool): State {
    s.(worker := Sending(p, final, cfg.reconnectInitial))
  }

  /** The worker is back at the head of its loop. */
  function Await(cfg: Config, s: State): State {
    s.(worker := Waiting(Overdue(cfg, s)))
  }

  function Put(s: State, r: Received): State {
    s.(queue := s.queue + [Queued(r)],
       stats := s.stats.(enqueued := s.stats.enqueued + 1),
       h := s.h.(accepted := s.h.accepted + [r],
                 delayed := if r.monotonicNs == s.clock then s.h.delayed else s.h.delayed + [r],
                 behind := if s.stopper.AwaitingWorker? then s.h.behind + [r] else s.h.behind,
                 after := if s.stopper.Stopped? then s.h.after + [r] else s.h.after))
  }

  function Called(cfg: Config, s: State, r: Received): State {
    if Full(cfg, s) then s.(blocked := s.blocked + [r]) else Put(s, r)
  }

  function Unblocked(s: State, k: nat): State
    requires k < |s.blocked|
  {
    s.(blocked := s.blocked[..k] + s.blocked[k + 1..])
  }

  function Resumed(s: State, k: nat): State
    requires k < |s.blocked|
  {
    Put(Unblocked(s, k), s.blocked[k])
  }

  function TakeReading(cfg: Config, s: State, r: Received, nowMs: nat, size: nat): (s': State)
    ensures s'.queue == s.queue && s'.stopper == s.stopper && s'.stats == s.stats && s'.h == s.h
    ensures s'.blocked == s.blocked && s'.clock == s.clock
  {
    if cfg.mode.Raw? then
      StartSending(cfg, s, RawParcel(r, nowMs, size), false)
    else if !A.Counted(r) then
      Await(cfg, s)
    else if s.window != [] && r.monotonicNs >= A.Deadline(cfg.window, s.window) then
      StartSending(cfg, s.(window := [r]),
                   SummaryParcel(cfg, s.window, false, None, nowMs, size), false)
    else
      Await(cfg, s.(window := s.window + [r]))
  }

  function TakeStop(cfg: Config, s: State, nowMs: nat, endMs: nat, size: nat): (s': State)
    ensures s'.queue == s.queue && s'.stopper == s.stopper && s'.stats == s.stats && s'.h == s.h
    ensures s'.blocked == s.blocked && s'.clock == s.clock
  {
    if s.window == [] then s.(worker := Finished)
    else
      StartSending(cfg, s.(window := []),
                   SummaryParcel(cfg, s.window, true, Some(endMs), nowMs, size), true)
  }

  function Popped(s: State): State
    requires s.queue != []
  {
    var h := if s.queue[0].Queued? then s.h.(taken := s.h.taken + [s.queue[0].r]) else s.h;
    s.(queue := s.queue[1..], h := h)
  }

  function Offered(cfg: Config, s: State, r: Received): State {
    if !r.message.Reading? then s
    else if Full(cfg, s) then
      s.(stats := s.stats.(drops := s.stats.drops + 1), h := s.h.(dropped := s.h.dropped + [r]))
    else Put(s, r)
  }

  function Taken(cfg: Config, s: State, nowMs: nat, endMs: nat, size: nat): State
    requires s.queue != []
  {
    match s.queue[0]
    case Queued(r) => TakeReading(cfg, Popped(s), r, nowMs, size)
    case Stop => TakeStop(cfg, Popped(s), nowMs, endMs, size)
  }

  function Expired(cfg: Config, s: State, nowMs: nat, size: nat): State {
    var x := Expiry(A.Deadline(cfg.window, s.window), |s.h.taken|, Pending(s.queue));
    StartSending(cfg, s.(window := [], h := s.h.(expired := s.h.expired + [x])),
                 SummaryParcel(cfg, s.window, false, None, nowMs, size), false)
  }

  function Retried(cfg: Config, s: State): State
    requires s.worker.Sending?
  {
    s.(worker := s.worker.(backoff := Capped(s.worker.backoff * 2.0, cfg.reconnectMax)),
       stats := s.stats.(sendFailures := s.stats.sendFailures + 1))
  }

  function Delivered(cfg: Config, s: State): State
    requires s.worker.Sending?
  {
    s.(worker := if s.worker.final then Finished else Waiting(Overdue(cfg, s)),
       stats := s.stats.(messages := s.stats.messages + 1,
                         bytes := s.stats.bytes + s.worker.p.frame.size),
       h := s.h.(sent := s.h.sent + [s.worker.p]))
  }

  function StopQueued(s: State): State {
    s.(queue := s.queue + [Stop], stopper := AwaitingWorker)
  }

  function StopBegun(cfg: Config, s: State): State {
    if Full(cfg, s) then s.(stopper := PuttingStop) else StopQueued(s)
  }

  function TimedOut(s: State): State {
    s.(stopper := Cancelling, h := s.h.(forced := true, openAtTimeout := s.window))
  }

  function Cancelled(s: State): State {
    var lost := s.(worker := Finished, window := [], h := s.h.(lostWindow := s.window));
    if s.worker.Sending? then
      lost.(stats := s.stats.(abandoned := s.stats.abandoned + 1),
            h := lost.h.(lostInFlight := [s.worker.p]))
    else lost
  }

  function Emptied(s: State): State {
    s.(queue := [], stopper := Stopped,
       stats := s.stats.(abandoned := s.stats.abandoned + |Pending(s.queue)|),
       h := s.h.(lostQueue := Pending(s.queue)))
  }

  function Step(cfg: Config, s: State, e: Event): State
    requires Enabled(cfg, s, e)
  {
    match e
    case Ticked(ns) => s.(clock := ns)
    case SubmitCalled(r) => Called(cfg, s, r)
    case SubmitResumed(k) => Resumed(s, k)
    case TrySubmitted(r) => Offered(cfg, s, r)
    case Took(nowMs, endMs, size) => Taken(cfg, s, nowMs, endMs, size)
    case WindowExpired(nowMs, size) => Expired(cfg, s, nowMs, size)
    case AttemptFailed => Retried(cfg, s)
    case Drained => Delivered(cfg, s)
    case StopCalled => StopBegun(cfg, s)
    case StopPut => StopQueued(s)
    case StopTimedOut => TimedOut(s)
    case CancelDelivered => Cancelled(s)
    case QueueAbandoned => Emptied(s)
    case WorkerJoined => s.(stopper := Stopped)
  }

  /** What happens if `e` is scheduled next: an impossible event does not happen. */
  function After(cfg: Config, s: State, e: Event): State {
    if Enabled(cfg, s, e) then Step(cfg, s, e) else s
  }

  /** Any sequence of events; those not possible at their turn do not happen. */
  function Run(cfg: Config, es: seq<Event>): State {
    if es == [] then INITIAL else After(cfg, Run(cfg, es[..|es| - 1]), es[|es| - 1])
  }

  // ----- What every step keeps -----

  function Covered(ps: seq<Parcel>): seq<Received> {
    if ps == [] then [] else Covered(ps[..|ps| - 1]) + ps[|ps| - 1].covers
  }

  function Bytes(ps: seq<Parcel>): nat {
    if ps == [] then 0 else Bytes(ps[..|ps| - 1]) + ps[|ps| - 1].frame.size
  }

  function InFlight(w: Worker): seq<Parcel> {
    if w.Sending? then [w.p] else []
  }

  /** The readings the worker is answerable for: RAW forwards all, AGGREGATED counts some. */
  function Kept(mode: Mode, taken: seq<Received>): seq<Received> {
    if mode.Raw? then taken else A.CountedOnly(taken)
  }

  predicate CountersExact(cfg: Config, s: State) {
    && |s.queue| <= cfg.capacity
    && s.stats.enqueued == |s.h.accepted|
    && s.stats.messages == |s.h.sent|
    && s.stats.bytes == Bytes(s.h.sent)
    && s.stats.abandoned == |s.h.lostInFlight| + |s.h.lostQueue|
    && s.stats.drops == |s.h.dropped|
  }

  /** Nothing is lost before a timeout, and nothing moves after the worker ends. */
  predicate LossOnlyByForce(s: State) {
    && (!s.h.forced ==> s.h.lostInFlight == [] && s.h.lostWindow == [])
    && (s.h.lostQueue != [] ==> s.stopper.Stopped?)
    && (!s.worker.Finished? ==> s.h.lostInFlight == [] && s.h.lostWindow == [] && s.h.lostQueue == [])
    && (s.worker.Finished? || (s.worker.Sending? && s.worker.final) ==> s.window == [])
    && (s.stopper.Cancelling? ==> s.h.forced)
    && (s.h.forced ==> s.stopper.Cancelling? || s.stopper.Stopped?)
    && (s.h.lostQueue != [] ==> s.h.forced)
    && |s.h.lostInFlight| <= 1
    && (if !s.h.forced then s.h.openAtTimeout == []
        else if s.worker.Finished? then s.h.lostWindow == s.h.openAtTimeout
        else s.window == s.h.openAtTimeout)
  }

  /** First in, first out: accepted readings are taken in order, then abandoned in order. */
  predicate FirstInFirstOut(s: State) {
    s.h.accepted == s.h.taken + s.h.lostQueue + Pending(s.queue)
  }

  /** Every kept reading is in exactly one place, in order. */
  predicate EveryReadingPlaced(cfg: Config, s: State) {
    && Kept(cfg.mode, s.h.taken)
         == Covered(s.h.sent) + Covered(InFlight(s.worker)) + Covered(s.h.lostInFlight)
            + s.window + s.h.lostWindow
    && (cfg.mode.Raw? ==> s.window == [] && s.h.lostWindow == [])
  }

  ghost predicate GoodParcel(cfg: Config, p: Parcel) {
    && p.covers != []
    && (cfg.mode.Raw? ==> exists ms, z :: p == RawParcel(p.covers[0], ms, z))
    && (cfg.mode.Aggregated? ==>
          exists part, end, ms, z :: p == SummaryParcel(cfg, p.covers, part, end, ms, z))
  }

  ghost predicate ParcelsGood(cfg: Config, s: State) {
    && (forall p | p in s.h.sent :: GoodParcel(cfg, p))
    && (s.worker.Sending? ==>
          GoodParcel(cfg, s.worker.p) && cfg.reconnectInitial <= s.worker.backoff <= cfg.reconnectMax)
    && (forall p | p in s.h.lostInFlight :: GoodParcel(cfg, p))
    && (forall i | 0 <= i < |s.queue| :: s.queue[i].Queued? ==> s.queue[i].r.message.Reading?)
  }

  /** Where the STOP marker is, and exactly which readings are behind it. */
  predicate StopInPlace(s: State) {
    var ended := s.worker.Finished? || (s.worker.Sending? && s.worker.final);
    match s.stopper
    case Running => Stops(s.queue) == 0 && !ended && s.h.behind == [] && s.h.after == []
    case PuttingStop => Stops(s.queue) == 0 && !ended && s.h.behind == [] && s.h.after == []
    case AwaitingWorker =>
      && s.h.after == []
      && (if ended then Stops(s.queue) == 0 && Pending(s.queue) == s.h.behind
          else Stops(s.queue) == 1 && Pending(Behind(s.queue)) == s.h.behind)
    case Cancelling => s.h.after == []
    case Stopped =>
      && s.worker.Finished? && Stops(s.queue) == 0
      && Pending(s.queue) == (if s.h.forced then [] else s.h.behind) + s.h.after
  }

  predicate AllReadings(rs: seq<Received>) {
    forall r | r in rs :: r.message.Reading?
  }

  ghost predicate Inv(cfg: Config, s: State) {
    && CountersExact(cfg, s) && LossOnlyByForce(s) && FirstInFirstOut(s)
    && EveryReadingPlaced(cfg, s) && ParcelsGood(cfg, s) && StopInPlace(s)
    && AllReadings(s.blocked)
  }

  lemma CoveredSnoc(ps: seq<Parcel>, p: Parcel)
    ensures Covered(ps + [p]) == Covered(ps) + p.covers
    ensures Bytes(ps + [p]) == Bytes(ps) + p.frame.size
  {
    assert (ps + [p])[..|ps|] == ps;
  }

  lemma CoveredOne(p: Parcel)
    ensures Covered([p]) == p.covers && Covered([]) == []
  {
    CoveredSnoc([], p);
    assert [] + [p] == [p];
  }

  lemma KeepsCounters(cfg: Config, s: State, e: Event)
    requires CountersExact(cfg, s) && LossOnlyByForce(s) && StopInPlace(s) && Enabled(cfg, s, e)
    ensures CountersExact(cfg, Step(cfg, s, e))
  {
    if e.Drained? {
      CoveredSnoc(s.h.sent, s.worker.p);
    }
  }

  lemma KeepsLoss(cfg: Config, s: State, e: Event)
    requires LossOnlyByForce(s) && StopInPlace(s) && Enabled(cfg, s, e)
    ensures LossOnlyByForce(Step(cfg, s, e))
  {
  }

  lemma PutKeepsOrder(s: State, r: Received)
    requires FirstInFirstOut(s)
    ensures FirstInFirstOut(Put(s, r))
  {
    PendingSnoc(s.queue, Queued(r));
  }

  lemma PopKeepsOrder(s: State)
    requires FirstInFirstOut(s) && s.h.lostQueue == [] && s.queue != []
    ensures FirstInFirstOut(Popped(s))
  {
    PendingCons(s.queue);
  }

  lemma KeepsOrder(cfg: Config, s: State, e: Event)
    requires FirstInFirstOut(s) && LossOnlyByForce(s) && Enabled(cfg, s, e)
    ensures FirstInFirstOut(Step(cfg, s, e))
  {
    match e
    case SubmitCalled(r) => PutKeepsOrder(s, r);
    case SubmitResumed(k) => PutKeepsOrder(Unblocked(s, k), s.blocked[k]);
    case TrySubmitted(r) => PutKeepsOrder(s, r);
    case Took(_, _, _) => PopKeepsOrder(s);
    case StopCalled => PendingSnoc(s.queue, Stop);
    case StopPut => PendingSnoc(s.queue, Stop);
    case QueueAbandoned => assert Step(cfg, s, e).h.lostQueue == Pending(s.queue) && Pending([]) == [];
    case _ =>
  }

  /** Where the kept readings are, spelled out for a worker that is not cancelled. */
  function Places(s: State): seq<Received> {
    Covered(s.h.sent) + (if s.worker.Sending? then s.worker.p.covers else []) + s.window
  }

  lemma PlacesOf(cfg: Config, s: State)
    requires !s.worker.Finished? && LossOnlyByForce(s)
    ensures EveryReadingPlaced(cfg, s) <==>
              Kept(cfg.mode, s.h.taken) == Places(s) && (cfg.mode.Raw? ==> s.window == [])
  {
    if s.worker.Sending? {
      CoveredOne(s.worker.p);
    }
    var all := Covered(s.h.sent) + Covered(InFlight(s.worker)) + Covered(s.h.lostInFlight)
               + s.window + s.h.lostWindow;
    assert Covered(s.h.lostInFlight) == [];
    assert all == Places(s);
  }

  /** Placement survives a step that neither cancels the worker nor ends it. */
  lemma PlacesStep(cfg: Config, s: State, s': State, got: seq<Received>)
    requires EveryReadingPlaced(cfg, s) && LossOnlyByForce(s) && LossOnlyByForce(s')
    requires !s.worker.Finished? && !s'.worker.Finished?
    requires Kept(cfg.mode, s'.h.taken) == Kept(cfg.mode, s.h.taken) + got
    requires Places(s') == Places(s) + got
    requires cfg.mode.Raw? ==> s'.window == []
    ensures EveryReadingPlaced(cfg, s')
  {
    PlacesOf(cfg, s);
    PlacesOf(cfg, s');
  }

  lemma TakeReadingPlaces(cfg: Config, s: State, r: Received, nowMs: nat, size: nat)
    requires s.worker.Waiting? && (cfg.mode.Raw? ==> s.window == [])
    ensures Places(TakeReading(cfg, s, r, nowMs, size))
         == Places(s) + (if cfg.mode.Raw? || A.Counted(r) then [r] else [])
  {
  }

  lemma TakePlaces(cfg: Config, s: State, e: Event)
    requires EveryReadingPlaced(cfg, s) && LossOnlyByForce(s) && Enabled(cfg, s, e) && e.Took?
    requires LossOnlyByForce(Step(cfg, s, e))
    ensures EveryReadingPlaced(cfg, Step(cfg, s, e))
  {
    var s', rest := Step(cfg, s, e), Popped(s);
    if s.queue[0].Queued? {
      var r := s.queue[0].r;
      FilterSnoc(s.h.taken, r, (x: Received) => A.Counted(x));
      TakeReadingPlaces(cfg, rest, r, e.nowMs, e.size);
      PlacesStep(cfg, s, s', if cfg.mode.Raw? || A.Counted(r) then [r] else []);
    } else if s.window != [] {
      assert Places(s') == Places(s) + [];
      PlacesStep(cfg, s, s', []);
    }
  }

  lemma DrainedPlaces(cfg: Config, s: State)
    requires EveryReadingPlaced(cfg, s) && s.worker.Sending?
    ensures EveryReadingPlaced(cfg, Delivered(cfg, s))
  {
    CoveredSnoc(s.h.sent, s.worker.p);
    CoveredOne(s.worker.p);
    InFlightMoved(Covered(s.h.sent), s.worker.p.covers, Covered(s.h.lostInFlight), s.window,
                  s.h.lostWindow);
  }

  lemma InFlightMoved(sent: seq<Received>, p: seq<Received>, lost: seq<Received>, w: seq<Received>,
                      lw: seq<Received>)
    ensures sent + p + lost + w + lw == (sent + p) + [] + lost + w + lw
  {
    assert (sent + p) + [] == sent + p;
  }

  lemma CancelPlaces(cfg: Config, s: State, e: Event)
    requires EveryReadingPlaced(cfg, s) && LossOnlyByForce(s)
    requires Enabled(cfg, s, e) && e.CancelDelivered?
    ensures EveryReadingPlaced(cfg, Step(cfg, s, e))
  {
    var s' := Cancelled(s);
    assert Covered([]) == [] && Covered(InFlight(s'.worker)) == [] && s'.h.sent == s.h.sent;
    assert s'.h.lostInFlight == InFlight(s.worker) && s'.h.lostWindow == s.window && s'.window == [];
    InFlightLost(Covered(s.h.sent), Covered(InFlight(s.worker)), s.window);
  }

  lemma InFlightLost(sent: seq<Received>, p: seq<Received>, w: seq<Received>)
    ensures sent + p + [] + w + [] == sent + [] + p + [] + w
  {
    assert sent + [] == sent && (sent + p) + [] == sent + p && (sent + p + w) + [] == sent + p + w;
  }

  lemma ExpiredPlaces(cfg: Config, s: State, e: Event)
    requires EveryReadingPlaced(cfg, s) && LossOnlyByForce(s)
    requires Enabled(cfg, s, e) && LossOnlyByForce(Step(cfg, s, e)) && e.WindowExpired?
    ensures EveryReadingPlaced(cfg, Step(cfg, s, e))
  {
    assert Places(Step(cfg, s, e)) == Places(s) + [];
    PlacesStep(cfg, s, Step(cfg, s, e), []);
  }

  lemma KeepsPlaces(cfg: Config, s: State, e: Event)
    requires EveryReadingPlaced(cfg, s) && LossOnlyByForce(s)
    requires Enabled(cfg, s, e) && LossOnlyByForce(Step(cfg, s, e))
    ensures EveryReadingPlaced(cfg, Step(cfg, s, e))
  {
    match e
    case Took(_, _, _) => TakePlaces(cfg, s, e);
    case WindowExpired(_, _) => ExpiredPlaces(cfg, s, e);
    case Drained => DrainedPlaces(cfg, s);
    case CancelDelivered => CancelPlaces(cfg, s, e);
    case AttemptFailed => PlacesStep(cfg, s, Step(cfg, s, e), []);
    case _ =>
  }

  lemma NewParcels(cfg: Config, s: State, e: Event)
    requires Enabled(cfg, s, e) && (e.Took? || e.WindowExpired?)
    requires cfg.mode.Raw? ==> s.window == []
    ensures var w := Step(cfg, s, e).worker; w.Sending? ==>
              GoodParcel(cfg, w.p) && w.backoff == cfg.reconnectInitial
  {
    var w := Step(cfg, s, e).worker;
    if w.Sending? && cfg.mode.Raw? {
      assert w.p == RawParcel(w.p.covers[0], e.nowMs, e.size);
    } else if w.Sending? && e.Took? {
      assert w.p == SummaryParcel(cfg, w.p.covers, s.queue[0].Stop?,
                                  if s.queue[0].Stop? then Some(e.endMs) else None, e.nowMs, e.size);
    } else if w.Sending? {
      assert w.p == SummaryParcel(cfg, w.p.covers, false, None, e.nowMs, e.size);
    }
  }

  lemma QueueShrinks(cfg: Config, s: State, e: Event)
    requires Enabled(cfg, s, e) && (e.Took? || e.WindowExpired?)
    ensures var s' := Step(cfg, s, e);
      && (s'.queue == s.queue || s'.queue == s.queue[1..]) && s'.blocked == s.blocked
      && s'.h.sent == s.h.sent && s'.h.lostInFlight == s.h.lostInFlight
  {
  }

  lemma KeepsParcels(cfg: Config, s: State, e: Event)
    requires ValidConfig(cfg) && ParcelsGood(cfg, s) && Enabled(cfg, s, e)
    requires (cfg.mode.Raw? ==> s.window == []) && AllReadings(s.blocked)
    ensures ParcelsGood(cfg, Step(cfg, s, e)) && AllReadings(Step(cfg, s, e).blocked)
  {
    if e.Took? || e.WindowExpired? {
      NewParcels(cfg, s, e);
      QueueShrinks(cfg, s, e);
    } else if e.SubmitResumed? {
      assert s.blocked[e.k] in s.blocked;
    }
  }

  lemma PutKeepsStop(s: State, r: Received)
    requires StopInPlace(s)
    ensures StopInPlace(Put(s, r))
  {
    PutFacts(s.queue, r);
    if s.stopper.Stopped? {
      Assoc(if s.h.forced then [] else s.h.behind, s.h.after, [r]);
    }
  }

  lemma StopKeepsStop(s: State)
    requires StopInPlace(s) && (s.stopper.Running? || s.stopper.PuttingStop?) && !s.h.forced
    ensures StopInPlace(StopQueued(s))
  {
    StopsSnoc(s.queue, Stop);
    BehindSnoc(s.queue, Stop);
    NoneBehind(s.queue);
  }

  lemma TakeKeepsStop(cfg: Config, s: State, e: Event)
    requires StopInPlace(s) && LossOnlyByForce(s) && Enabled(cfg, s, e) && e.Took?
    ensures StopInPlace(Step(cfg, s, e))
  {
    StopsCons(s.queue);
  }

  lemma KeepsStop(cfg: Config, s: State, e: Event)
    requires StopInPlace(s) && LossOnlyByForce(s) && Enabled(cfg, s, e)
    ensures StopInPlace(Step(cfg, s, e))
  {
    match e
    case SubmitCalled(r) => PutKeepsStop(s, r);
    case SubmitResumed(k) => PutKeepsStop(Unblocked(s, k), s.blocked[k]);
    case TrySubmitted(r) => PutKeepsStop(s, r);
    case Took(_, _, _) => TakeKeepsStop(cfg, s, e);
    case StopCalled => StopKeepsStop(s);
    case StopPut => StopKeepsStop(s);
    case QueueAbandoned => assert Pending([]) == [] && Stops([]) == 0;
    case _ =>
  }

  lemma StepKeeps(cfg: Config, s: State, e: Event)
    requires ValidConfig(cfg) && Inv(cfg, s) && Enabled(cfg, s, e)
    ensures Inv(cfg, Step(cfg, s, e))
  {
    KeepsCounters(cfg, s, e);
    KeepsLoss(cfg, s, e);
    KeepsOrder(cfg, s, e);
    KeepsPlaces(cfg, s, e);
    KeepsParcels(cfg, s, e);
    KeepsStop(cfg, s, e);
  }

  lemma {:induction false} RunKeeps(cfg: Config, es: seq<Event>)
    requires ValidConfig(cfg)
    ensures Inv(cfg, Run(cfg, es))
  {
    if es != [] {
      var n := |es| - 1;
      RunKeeps(cfg, es[..n]);
      if Enabled(cfg, Run(cfg, es[..n]), es[n]) {
        StepKeeps(cfg, Run(cfg, es[..n]), es[n]);
      }
    }
  }

  lemma TakenFirst(s: State)
    requires FirstInFirstOut(s)
    ensures s.h.taken <= s.h.accepted
  {
    assert s.h.accepted == s.h.taken + (s.h.lostQueue + Pending(s.queue));
  }

  // ----- Conservation over whole runs -----

  function RawIdFor(r: Received): string {
    RawId(r.message.nodeId, r.message.sequence, r.monotonicNs)
  }

  /** RAW parcels stand for one reading each, and carry it under its own id. */
  lemma {:induction false} RawCovers(cfg: Config, ps: seq<Parcel>)
    requires cfg.mode.Raw? && forall p | p in ps :: GoodParcel(cfg, p)
    ensures |Covered(ps)| == |ps|
    ensures forall i | 0 <= i < |ps| ::
      ps[i].covers == [Covered(ps)[i]]
      && ps[i].frame.record.RawRecord? && ps[i].frame.record.received == Covered(ps)[i]
      && ps[i].frame.record.recordId == RawIdFor(Covered(ps)[i])
  {
    if ps != [] {
      var n := |ps| - 1;
      assert ps[n] in ps;
      RawCovers(cfg, ps[..n]);
    }
  }

  function ReadingCounts(ps: seq<Parcel>): nat {
    if ps == [] then 0
    else
      var n := |ps| - 1;
      var r := ps[n].frame.record;
      ReadingCounts(ps[..n]) + (if r.AggregateRecord? then r.summary.readingCount else 0)
  }

  lemma {:induction false} SummariesCountCovers(cfg: Config, ps: seq<Parcel>)
    requires cfg.mode.Aggregated? && forall p | p in ps :: GoodParcel(cfg, p)
    ensures |Covered(ps)| == ReadingCounts(ps)
  {
    if ps != [] {
      var n := |ps| - 1;
      assert ps[n] in ps;
      SummariesCountCovers(cfg, ps[..n]);
    }
  }

  /**
   * RAW conservation, in every reachable state: what was enqueued is what was
   * sent, abandoned, still queued or in flight, and the queue respects its bound.
   */
  lemma RawConservation(cfg: Config, es: seq<Event>)
    requires ValidConfig(cfg) && cfg.mode.Raw?
    ensures var s := Run(cfg, es);
      && s.stats.enqueued == s.stats.messages + s.stats.abandoned
                             + |Pending(s.queue)| + (if s.worker.Sending? then 1 else 0)
      && |s.queue| <= cfg.capacity
  {
    RunKeeps(cfg, es);
    var s := Run(cfg, es);
    RawCovers(cfg, s.h.sent);
    RawCovers(cfg, s.h.lostInFlight);
    RawCovers(cfg, InFlight(s.worker));
  }

  /** Offering a reading never waits: it is dropped if and only if the queue is at its bound. */
  lemma DropsIffFull(cfg: Config, es: seq<Event>, r: Received)
    requires ValidConfig(cfg) && Run(cfg, es).stopper.Running? && r.message.Reading?
    ensures var s, s' := Run(cfg, es), Run(cfg, es + [TrySubmitted(r)]);
      && (s'.stats.drops == s.stats.drops + 1 <==> |s.queue| == cfg.capacity)
      && (s'.stats.enqueued == s.stats.enqueued + 1 <==> |s.queue| < cfg.capacity)
      && s'.blocked == s.blocked
  {
    RunKeeps(cfg, es);
    RunSnoc(cfg, es, TrySubmitted(r));
  }

  /** A blocking submit waits if and only if the queue is at its bound. */
  lemma WaitsIffFull(cfg: Config, es: seq<Event>, r: Received)
    requires ValidConfig(cfg) && Run(cfg, es).stopper.Running? && r.message.Reading?
    ensures var s, s' := Run(cfg, es), Run(cfg, es + [SubmitCalled(r)]);
      && (s'.blocked == s.blocked + [r] <==> |s.queue| == cfg.capacity)
      && (s'.stats.enqueued == s.stats.enqueued + 1 <==> |s.queue| < cfg.capacity)
      && s'.stats.drops == s.stats.drops
  {
    RunKeeps(cfg, es);
    RunSnoc(cfg, es, SubmitCalled(r));
    assert |Run(cfg, es).blocked + [r]| != |Run(cfg, es).blocked|;
  }

  /**
   * Once `stop` has returned nothing is in flight, a stop that did not time out
   * abandoned nothing, and what remains queued is exactly the readings whose
   * blocked `submit` resumed after a timed-out drain, or behind the STOP marker
   * or later when there was no drain. The RAW account closes if and only if
   * there were none.
   */
  lemma StoppedIsQuiet(cfg: Config, es: seq<Event>)
    requires ValidConfig(cfg) && Run(cfg, es).stopper.Stopped?
    ensures var s := Run(cfg, es);
      && s.worker.Finished? && s.window == []
      && Stops(s.queue) == 0
      && Pending(s.queue) == (if s.h.forced then [] else s.h.behind) + s.h.after
      && (s.queue == [] <==> (s.h.forced || s.h.behind == []) && s.h.after == [])
      && (!s.h.forced ==> s.stats.abandoned == 0)
      && (cfg.mode.Raw? ==>
            (s.stats.enqueued == s.stats.messages + s.stats.abandoned <==> s.queue == []))
  {
    RunKeeps(cfg, es);
    PendingCount(Run(cfg, es).queue);
    if cfg.mode.Raw? {
      RawConservation(cfg, es);
    }
  }

  /**
   * A `submit` that resumes after `stop` has returned leaves its reading queued,
   * and counted neither sent nor abandoned, for ever.
   */
  lemma {:induction false} LateSubmissionIsStranded(cfg: Config, es: seq<Event>, k: nat,
                                                    more: seq<Event>)
    requires ValidConfig(cfg) && Run(cfg, es).stopper.Stopped?
    requires k < |Run(cfg, es).blocked| && !Full(cfg, Run(cfg, es))
    ensures var s, s' := Run(cfg, es), Run(cfg, es + [SubmitResumed(k)] + more);
      && s'.stopper.Stopped? && Queued(s.blocked[k]) in s'.queue
      && s'.stats.messages == s.stats.messages && s'.stats.abandoned == s.stats.abandoned
  {
    var s, begin := Run(cfg, es), es + [SubmitResumed(k)];
    if more == [] {
      RunSnoc(cfg, es, SubmitResumed(k));
      assert begin + more == begin;
      RunKeeps(cfg, es);
      assert Run(cfg, begin).queue[|s.queue|] == Queued(s.blocked[k]);
    } else {
      var n := |more| - 1;
      LateSubmissionIsStranded(cfg, es, k, more[..n]);
      RunKeeps(cfg, begin + more[..n]);
      RunSnoc(cfg, begin + more[..n], more[n]);
      assert begin + more == begin + more[..n] + [more[n]];
    }
  }

  /** `stop` is called after `es`, and then `more` happens. */
  function StoppedRun(cfg: Config, es: seq<Event>, more: seq<Event>): State {
    Run(cfg, es + [StopCalled] + more)
  }

  predicate NoneLate(s: State) {
    !s.stopper.Running? && s.blocked == [] && s.h.behind == [] && s.h.after == []
  }

  lemma StepNoneLate(cfg: Config, s: State, e: Event)
    requires NoneLate(s)
    ensures NoneLate(After(cfg, s, e))
  {
  }

  lemma NoneLateYet(cfg: Config, es: seq<Event>)
    requires ValidConfig(cfg) && Run(cfg, es).stopper.Running? && Run(cfg, es).blocked == []
    ensures NoneLate(Run(cfg, es + [StopCalled]))
  {
    RunKeeps(cfg, es);
    RunSnoc(cfg, es, StopCalled);
  }

  /** With no `submit` blocked when `stop` is called, none resumes later. */
  lemma {:induction false} NoneBlockedNoneLate(cfg: Config, es: seq<Event>, more: seq<Event>)
    requires ValidConfig(cfg) && Run(cfg, es).stopper.Running? && Run(cfg, es).blocked == []
    ensures NoneLate(StoppedRun(cfg, es, more))
  {
    var begin := es + [StopCalled];
    if more == [] {
      NoneLateYet(cfg, es);
      assert begin + more == begin;
    } else {
      var n := |more| - 1;
      NoneBlockedNoneLate(cfg, es, more[..n]);
      RunSnoc(cfg, begin + more[..n], more[n]);
      assert begin + more == begin + more[..n] + [more[n]];
      StepNoneLate(cfg, StoppedRun(cfg, es, more[..n]), more[n]);
    }
  }

  /** With a `submit` blocked when `stop` is called, a timed-out stop strands its reading. */
  lemma BlockedCanBeStranded(cfg: Config, es: seq<Event>) returns (more: seq<Event>)
    requires ValidConfig(cfg) && Run(cfg, es).stopper.Running? && Run(cfg, es).blocked != []
    ensures var s := StoppedRun(cfg, es, more);
      s.stopper.Stopped? && s.queue == [Queued(Run(cfg, es).blocked[0])]
  {
    var s, es1 := Run(cfg, es), es + [StopCalled];
    StopBeginsRunning(cfg, es);
    RunSnoc(cfg, es, StopCalled);
    RunSnoc(cfg, es1, StopTimedOut);
    var es2 := es1 + [StopTimedOut];
    assert Run(cfg, es2) == TimedOut(StopBegun(cfg, s));
    CancelAndDrain(cfg, es2);
    var es4 := es2 + [CancelDelivered] + [QueueAbandoned];
    RunSnoc(cfg, es4, SubmitResumed(0));
    more := [StopTimedOut, CancelDelivered, QueueAbandoned, SubmitResumed(0)];
    assert es1 + more == es4 + [SubmitResumed(0)];
    assert [] + [Queued(s.blocked[0])] == [Queued(s.blocked[0])];
  }

  lemma StopBeginsRunning(cfg: Config, es: seq<Event>)
    requires ValidConfig(cfg) && Run(cfg, es).stopper.Running?
    ensures !Run(cfg, es).worker.Finished?
  {
    RunKeeps(cfg, es);
  }

  lemma CancelAndDrain(cfg: Config, es: seq<Event>)
    requires Run(cfg, es).stopper.Cancelling? && !Run(cfg, es).worker.Finished?
    ensures var s := Run(cfg, es + [CancelDelivered] + [QueueAbandoned]);
      s.blocked == Run(cfg, es).blocked && s.queue == [] && s.stopper.Stopped?
  {
    RunSnoc(cfg, es, CancelDelivered);
    RunSnoc(cfg, es + [CancelDelivered], QueueAbandoned);
  }

  /**
   * The exact condition, checkable before the call: whatever the event loop does
   * after `stop` is called, the queue is empty once it has returned, if and only
   * if no `submit` is blocked when it is called.
   */
  lemma QuietIffNoneBlocked(cfg: Config, es: seq<Event>)
    requires ValidConfig(cfg) && Run(cfg, es).stopper.Running?
    ensures (forall more ::
               StoppedRun(cfg, es, more).stopper.Stopped? ==> StoppedRun(cfg, es, more).queue == [])
            <==> Run(cfg, es).blocked == []
  {
    if Run(cfg, es).blocked == [] {
      forall more | StoppedRun(cfg, es, more).stopper.Stopped?
        ensures StoppedRun(cfg, es, more).queue == []
      {
        NoneBlockedNoneLate(cfg, es, more);
        StoppedIsQuiet(cfg, es + [StopCalled] + more);
      }
    } else {
      var more := BlockedCanBeStranded(cfg, es);
      assert StoppedRun(cfg, es, more).queue != [];
    }
  }

  lemma RunSnoc(cfg: Config, es: seq<Event>, e: Event)
    ensures Run(cfg, es + [e]) == After(cfg, Run(cfg, es), e)
  {
    assert (es + [e])[..|es|] == es;
  }

  // ----- Retrying -----

  function RetriedTimes(cfg: Config, s: State, n: nat): (s': State)
    requires s.worker.Sending?
    ensures s'.worker.Sending?
  {
    if n == 0 then s else Retried(cfg, RetriedTimes(cfg, s, n - 1))
  }

  /** n failures in a row resend the same frame and leave a wait of min(initial * 2^n, maximum). */
  lemma {:induction false} RetriesDoubleUpToTheCap(cfg: Config, s: State, n: nat)
    requires ValidConfig(cfg) && s.worker.Sending? && s.worker.backoff == cfg.reconnectInitial
    ensures var s', d := RetriedTimes(cfg, s, n), DoubledDelay(cfg.reconnectInitial, n);
      && s'.worker.backoff == Capped(d, cfg.reconnectMax)
      && s'.worker.p == s.worker.p && s'.worker.final == s.worker.final
      && s'.stats == s.stats.(sendFailures := s.stats.sendFailures + n)
      && s'.h == s.h && s'.queue == s.queue && s'.window == s.window
  {
    if n > 0 {
      RetriesDoubleUpToTheCap(cfg, s, n - 1);
      RetryOnce(cfg, RetriedTimes(cfg, s, n - 1));
      DoubleOnce(cfg.reconnectInitial, n);
      CapTwice(DoubledDelay(cfg.reconnectInitial, n - 1), cfg.reconnectMax);
    } else {
      assert Power2(0) as real == 1.0;
    }
  }

  lemma RetryOnce(cfg: Config, s: State)
    requires s.worker.Sending?
    ensures var s', d := Retried(cfg, s), 2.0 * s.worker.backoff;
      && s'.worker == s.worker.(backoff := Capped(d, cfg.reconnectMax))
      && s'.stats == s.stats.(sendFailures := s.stats.sendFailures + 1)
      && s'.h == s.h && s'.queue == s.queue && s'.window == s.window
  {
  }

  function Capped(d: real, maximum: real): real {
    if d < maximum then d else maximum
  }

  /** initial * 2^n */
  function DoubledDelay(initial: real, n: nat): real {
    initial * Power2(n) as real
  }

  lemma DoubleOnce(initial: real, n: nat)
    requires n > 0
    ensures DoubledDelay(initial, n) == 2.0 * DoubledDelay(initial, n - 1)
  {
    assert Power2(n) as real == 2.0 * Power2(n - 1) as real;
  }

  /** Doubling a capped delay and capping again is capping the doubled delay. */
  lemma CapTwice(d: real, maximum: real)
    requires maximum > 0.0
    ensures Capped(2.0 * Capped(d, maximum), maximum) == Capped(2.0 * d, maximum)
  {
  }

  /** The readings an AGGREGATED worker took and did not count. */
  function Skipped(taken: seq<Received>): seq<Received> {
    Filter(taken, (r: Received) => !A.Counted(r))
  }

  /**
   * AGGREGATED conservation, in every reachable state: each enqueued reading is
   * summarized and sent, skipped, in flight, in the open window, queued, or lost
   * to a timed-out shutdown.
   */
  lemma AggregatedConservation(cfg: Config, es: seq<Event>)
    requires ValidConfig(cfg) && cfg.mode.Aggregated?
    ensures var s := Run(cfg, es);
      && s.stats.enqueued == ReadingCounts(s.h.sent) + |Skipped(s.h.taken)|
           + |Covered(InFlight(s.worker))| + |s.window| + |Pending(s.queue)|
           + |Covered(s.h.lostInFlight)| + |s.h.lostWindow| + |s.h.lostQueue|
      && (forall p | p in s.h.sent ::
            p.frame.record.AggregateRecord? && p.frame.record.summary.readingCount > 0)
  {
    RunKeeps(cfg, es);
    var s := Run(cfg, es);
    SummariesCountCovers(cfg, s.h.sent);
    FilterSplits(s.h.taken, (r: Received) => A.Counted(r), (r: Received) => !A.Counted(r));
  }

  /**
   * A graceful stop loses nothing: the summaries sent account for every reading
   * taken, and only readings that resumed behind STOP or later were not taken.
   */
  lemma GracefulStopAccountsForAll(cfg: Config, es: seq<Event>)
    requires ValidConfig(cfg) && cfg.mode.Aggregated?
    requires var s := Run(cfg, es); s.stopper.Stopped? && !s.h.forced
    ensures var s := Run(cfg, es);
      && s.h.accepted == s.h.taken + (s.h.behind + s.h.after)
      && Covered(s.h.sent) == A.CountedOnly(s.h.taken)
      && ReadingCounts(s.h.sent) + |Skipped(s.h.taken)| + |s.h.behind| + |s.h.after|
           == s.stats.enqueued
  {
    RunKeeps(cfg, es);
    AggregatedConservation(cfg, es);
    var s := Run(cfg, es);
    assert s.h.taken + [] == s.h.taken;
    assert Covered(s.h.sent) + [] == Covered(s.h.sent);
  }

  /** `stop` has timed out, with the window `w` open. */
  predicate TimedOutWith(s: State, w: seq<Received>) {
    s.h.forced && s.h.openAtTimeout == w
  }

  lemma StepTimedOutWith(cfg: Config, s: State, e: Event, w: seq<Received>)
    requires LossOnlyByForce(s) && TimedOutWith(s, w)
    ensures TimedOutWith(After(cfg, s, e), w)
  {
  }

  lemma {:induction false} StaysTimedOutWith(cfg: Config, es: seq<Event>, more: seq<Event>, w: seq<Received>)
    requires ValidConfig(cfg) && TimedOutWith(Run(cfg, es), w)
    ensures TimedOutWith(Run(cfg, es + more), w)
  {
    if more == [] {
      assert es + more == es;
    } else {
      var n := |more| - 1;
      StaysTimedOutWith(cfg, es, more[..n], w);
      RunKeeps(cfg, es + more[..n]);
      RunSnoc(cfg, es + more[..n], more[n]);
      assert es + more == es + more[..n] + [more[n]];
      StepTimedOutWith(cfg, Run(cfg, es + more[..n]), more[n], w);
    }
  }

  /**
   * What a timed-out stop costs is decided when it times out: whatever happens
   * afterwards, once `stop` has returned the window lost is the one open then.
   */
  lemma TimeoutDecidesLoss(cfg: Config, es: seq<Event>, more: seq<Event>)
    requires ValidConfig(cfg) && Enabled(cfg, Run(cfg, es), StopTimedOut)
    ensures var s := Run(cfg, es + [StopTimedOut] + more);
      && TimedOutWith(s, Run(cfg, es).window)
      && (s.stopper.Stopped? ==> s.h.lostWindow == Run(cfg, es).window)
  {
    RunSnoc(cfg, es, StopTimedOut);
    StaysTimedOutWith(cfg, es + [StopTimedOut], more, Run(cfg, es).window);
    RunKeeps(cfg, es + [StopTimedOut] + more);
  }
}
