/**
 * Raw persistence as a step system: producers fill a bounded queue with
 * backpressure, one worker appends batches to the evidence file from a helper
 * thread, and a STOP marker ends it.
 */
module Storage {
  import opened Common
  import opened Messages
  import opened Queues

  datatype Config = Config(capacity: nat, batchSize: nat, encode: Received -> string)

  predicate ValidConfig(cfg: Config) {
    cfg.capacity >= 1 && cfg.batchSize >= 1
  }

  /** `appended` says whether the helper thread has already written the batch. */
  datatype Worker = Waiting | Writing(batch: seq<Received>, last: bool, appended: bool) | Finished

  datatype Stopper = Running | PuttingStop | AwaitingWorker | Stopped

  datatype Stats = Stats(enqueued: nat, written: nat, bytes: nat)

  /** `behind` are messages whose blocked `submit` resumed after the STOP marker was queued. */
  datatype History = History(submitted: seq<Received>, appended: seq<Received>, behind: seq<Received>)

  /** `blocked` are the messages whose `submit` is waiting for room. */
  datatype State = State(queue: seq<Item>, blocked: seq<Received>, worker: Worker, stopper: Stopper,
                         file: string, stats: Stats, h: History)

  const INITIAL := State([], [], Waiting, Running, "", Stats(0, 0, 0), History([], [], []))

  datatype Event =
    | SubmitCalled(r: Received) | SubmitResumed(k: nat) | BatchTaken | Appended | Completed
    | StopCalled | StopPut | WorkerJoined

  predicate Full(cfg: Config, s: State) {
    |s.queue| >= cfg.capacity
  }

  predicate Enabled(cfg: Config, s: State, e: Event) {
    match e
    case SubmitCalled(r) => s.stopper.Running?
    case SubmitResumed(k) => k < |s.blocked| && !Full(cfg, s)
    case BatchTaken => s.worker.Waiting? && s.queue != []
    case Appended => s.worker.Writing? && !s.worker.appended
    case Completed => s.worker.Writing? && s.worker.appended
    case StopCalled => s.stopper.Running?
    case StopPut => s.stopper.PuttingStop? && !Full(cfg, s)
    case WorkerJoined => s.stopper.AwaitingWorker? && s.worker.Finished?
  }

  /** The text of a run of records: one line each, in order. */
  function Text(encode: Received -> string, rs: seq<Received>): string {
    if rs == [] then "" else Text(encode, rs[..|rs| - 1]) + encode(rs[|rs| - 1])
  }

  /** How many messages the drain loop collects: at most `limit`, and none past STOP. */
  function BatchLength(q: seq<Item>, limit: nat): (k: nat)
    ensures k <= limit && k <= |q|
    ensures forall i | 0 <= i < k :: q[i].Queued?
    ensures k < limit && k < |q| ==> q[k].Stop?
  {
    if limit == 0 || q == [] || q[0].Stop? then 0 else 1 + BatchLength(q[1..], limit - 1)
  }

  function Put(s: State, r: Received): State {
    s.(queue := s.queue + [Queued(r)], stats := s.stats.(enqueued := s.stats.enqueued + 1),
       h := s.h.(submitted := s.h.submitted + [r],
                 behind := if s.stopper.Running? || s.stopper.PuttingStop? then s.h.behind
                           else s.h.behind + [r]))
  }

  function Called(cfg: Config, s: State, r: Received): State {
    if Full(cfg, s) then s.(blocked := s.blocked + [r]) else Put(s, r)
  }

  function Unblocked(s: State, k: nat): State
    requires k < |s.blocked|
  {
    s.(blocked := s.blocked[..k] + s.blocked[k + 1..])
  }

  function Resumed(s: State, k: nat): State
    requires k < |s.blocked|
  {
    Put(Unblocked(s, k), s.blocked[k])
  }

  function Batched(cfg: Config, s: State): (s': State)
    requires s.queue != []
    ensures s'.h == s.h && s'.file == s.file && s'.stats == s.stats && s'.stopper == s.stopper
    ensures s'.blocked == s.blocked
  {
    var k := BatchLength(s.queue, cfg.batchSize);
    if k == 0 then s.(queue := s.queue[1..], worker := Finished)
    else
      var stop := k < cfg.batchSize && k < |s.queue|;
      s.(queue := s.queue[if stop then k + 1 else k..],
         worker := Writing(Pending(s.queue[..k]), stop, false))
  }

  function Written(cfg: Config, s: State): State
    requires s.worker.Writing?
  {
    s.(file := s.file + Text(cfg.encode, s.worker.batch), worker := s.worker.(appended := true),
       h := s.h.(appended := s.h.appended + s.worker.batch))
  }

  function Accounted(cfg: Config, s: State): State
    requires s.worker.Writing?
  {
    s.(stats := s.stats.(written := s.stats.written + |s.worker.batch|,
                         bytes := s.stats.bytes + |Text(cfg.encode, s.worker.batch)|),
       worker := if s.worker.last then Finished else Waiting)
  }

  function StopQueued(s: State): State {
    s.(queue := s.queue + [Stop], stopper := AwaitingWorker)
  }

  function Step(cfg: Config, s: State, e: Event): State
    requires Enabled(cfg, s, e)
  {
    match e
    case SubmitCalled(r) => Called(cfg, s, r)
    case SubmitResumed(k) => Resumed(s, k)
    case BatchTaken => Batched(cfg, s)
    case Appended => Written(cfg, s)
    case Completed => Accounted(cfg, s)
    case StopCalled => if Full(cfg, s) then s.(stopper := PuttingStop) else StopQueued(s)
    case StopPut => StopQueued(s)
    case WorkerJoined => s.(stopper := Stopped)
  }

  function Run(cfg: Config, es: seq<Event>): State {
    if es == [] then INITIAL
    else
      var s := Run(cfg, es[..|es| - 1]);
      if Enabled(cfg, s, es[|es| - 1]) then Step(cfg, s, es[|es| - 1]) else s
  }

  // ----- What every step keeps -----

  /** The batch that is taken but not yet in the file. */
  function InHand(w: Worker): seq<Received> {
    if w.Writing? && !w.appended then w.batch else []
  }

  /** The batch that is in the file but not yet counted. */
  function Uncounted(w: Worker): seq<Received> {
    if w.Writing? && w.appended then w.batch else []
  }

  /** Lossless and first-in-first-out: what was submitted is file, batch, queue, in order. */
  predicate InOrder(s: State) {
    s.h.submitted == s.h.appended + InHand(s.worker) + Pending(s.queue)
  }

  predicate CountersExact(cfg: Config, s: State) {
    && |s.queue| <= cfg.capacity
    && s.stats.enqueued == |s.h.submitted|
    && s.file == Text(cfg.encode, s.h.appended)
    && s.stats.written + |Uncounted(s.worker)| == |s.h.appended|
    && s.stats.bytes + |Text(cfg.encode, Uncounted(s.worker))| == |s.file|
    && (s.worker.Writing? ==> 1 <= |s.worker.batch| <= cfg.batchSize)
  }

  predicate StopInPlace(s: State) {
    var ended := s.worker.Finished? || (s.worker.Writing? && s.worker.last);
    match s.stopper
    case Running => Stops(s.queue) == 0 && !ended && s.h.behind == []
    case PuttingStop => Stops(s.queue) == 0 && !ended && s.h.behind == []
    case AwaitingWorker =>
      if ended then Stops(s.queue) == 0 && Pending(s.queue) == s.h.behind
      else Stops(s.queue) == 1 && Pending(Behind(s.queue)) == s.h.behind
    case Stopped => s.worker.Finished? && Stops(s.queue) == 0 && Pending(s.queue) == s.h.behind
  }

  predicate Inv(cfg: Config, s: State) {
    InOrder(s) && CountersExact(cfg, s) && StopInPlace(s)
  }

  lemma {:induction false} TextConcat(encode: Received -> string, a: seq<Received>, b: seq<Received>)
    ensures Text(encode, a + b) == Text(encode, a) + Text(encode, b)
  {
    if b == [] {
      assert a + b == a && Text(encode, a) + "" == Text(encode, a);
    } else {
      var n := |b| - 1;
      TextConcat(encode, a, b[..n]);
      TextSnoc(encode, a + b[..n], b[n], a + b);
      Assoc(Text(encode, a), Text(encode, b[..n]), encode(b[n]));
    }
  }

  lemma TextSnoc(encode: Received -> string, rs: seq<Received>, r: Received, all: seq<Received>)
    requires all == rs + [r]
    ensures Text(encode, all) == Text(encode, rs) + encode(r)
  {
    assert all[..|rs|] == rs;
  }

  lemma {:induction false} PendingConcat(a: seq<Item>, b: seq<Item>, all: seq<Item>)
    requires all == a + b
    ensures Pending(all) == Pending(a) + Pending(b)
  {
    if b == [] {
      assert all == a && Pending(b) == [] && Pending(a) + [] == Pending(a);
    } else {
      var n := |b| - 1;
      var front := a + b[..n];
      var last := if b[n].Queued? then [b[n].r] else [];
      PendingConcat(a, b[..n], front);
      assert all[..|all| - 1] == front && all[|all| - 1] == b[n];
      Assoc(Pending(a), Pending(b[..n]), last);
    }
  }

  /** Dropping messages from the front leaves the STOP marker and what is behind it. */
  lemma {:induction false} DropMessages(q: seq<Item>, k: nat)
    requires k <= |q| && forall i | 0 <= i < k :: q[i].Queued?
    ensures Stops(q[k..]) == Stops(q) && Behind(q[k..]) == Behind(q)
    ensures |Pending(q[..k])| == k
  {
    if k == 0 {
      assert q[0..] == q;
    } else {
      StopsCons(q);
      DropMessages(q[1..], k - 1);
      assert q[1..][k - 1..] == q[k..];
      assert q[..k][1..] == q[1..][..k - 1];
      PendingCons(q[..k]);
    }
  }

  /** The front of the queue up to a batch boundary, and what is left behind it. */
  lemma CutQueue(q: seq<Item>, k: nat)
    requires k <= |q| && forall i | 0 <= i < k :: q[i].Queued?
    ensures Pending(q) == Pending(q[..k]) + Pending(q[k..]) && |Pending(q[..k])| == k
    ensures Stops(q[k..]) == Stops(q) && Behind(q[k..]) == Behind(q)
    ensures k < |q| && q[k].Stop? ==>
              (Pending(q[k + 1..]) == Pending(q[k..])
               && Stops(q) == Stops(q[k + 1..]) + 1 && Behind(q) == q[k + 1..])
  {
    DropMessages(q, k);
    PendingConcat(q[..k], q[k..], q);
    if k < |q| && q[k].Stop? {
      StopFirst(q[k..], q[k + 1..]);
    }
  }

  lemma StopFirst(q: seq<Item>, rest: seq<Item>)
    requires q != [] && q[0].Stop? && rest == q[1..]
    ensures Pending(rest) == Pending(q) && Stops(q) == Stops(rest) + 1 && Behind(q) == rest
  {
    StopsCons(q);
    PendingCons(q);
    assert [] + Pending(rest) == Pending(rest);
  }

  /** A batch takes messages from the front of the queue, and perhaps the STOP after them. */
  lemma BatchFacts(cfg: Config, s: State)
    requires ValidConfig(cfg) && s.queue != []
    ensures var s' := Batched(cfg, s);
      && Pending(s.queue) == InHand(s'.worker) + Pending(s'.queue)
      && (s'.worker.Writing? ==> 1 <= |s'.worker.batch| <= cfg.batchSize)
      && (if s'.worker.Finished? || s'.worker.last
          then Stops(s.queue) == Stops(s'.queue) + 1 && Behind(s.queue) == s'.queue
          else Stops(s.queue) == Stops(s'.queue) && Behind(s.queue) == Behind(s'.queue))
  {
    var k := BatchLength(s.queue, cfg.batchSize);
    CutQueue(s.queue, k);
    if k == 0 {
      assert s.queue[0].Stop? && Pending(s.queue[..0]) == [];
    }
  }

  lemma BatchKeepsOrder(cfg: Config, s: State)
    requires ValidConfig(cfg) && InOrder(s) && s.worker.Waiting? && s.queue != []
    ensures InOrder(Batched(cfg, s))
  {
    BatchFacts(cfg, s);
    MoveKeepsOrder(s, Batched(cfg, s));
  }

  lemma MoveKeepsOrder(s: State, s': State)
    requires InOrder(s) && InHand(s.worker) == [] && s'.h == s.h
    requires Pending(s.queue) == InHand(s'.worker) + Pending(s'.queue)
    ensures InOrder(s')
  {
    assert s.h.appended + [] == s.h.appended;
  }

  lemma KeepsOrder(cfg: Config, s: State, e: Event)
    requires ValidConfig(cfg) && InOrder(s) && Enabled(cfg, s, e)
    ensures InOrder(Step(cfg, s, e))
  {
    match e
    case SubmitCalled(r) => PutKeepsOrder(s, r);
    case SubmitResumed(k) => PutKeepsOrder(Unblocked(s, k), s.blocked[k]);
    case BatchTaken => BatchKeepsOrder(cfg, s);
    case Appended => WrittenKeepsOrder(cfg, s);
    case StopCalled => StopKeepsOrder(s);
    case StopPut => StopKeepsOrder(s);
    case _ =>
  }

  lemma PutKeepsOrder(s: State, r: Received)
    requires InOrder(s)
    ensures InOrder(Put(s, r))
  {
    PendingSnoc(s.queue, Queued(r));
    Assoc(s.h.appended + InHand(s.worker), Pending(s.queue), [r]);
  }

  lemma StopKeepsOrder(s: State)
    requires InOrder(s)
    ensures InOrder(StopQueued(s))
  {
    PendingSnoc(s.queue, Stop);
    assert Pending(s.queue) + [] == Pending(s.queue);
  }

  lemma WrittenKeepsOrder(cfg: Config, s: State)
    requires InOrder(s) && s.worker.Writing? && !s.worker.appended
    ensures InOrder(Written(cfg, s))
  {
    assert (s.h.appended + s.worker.batch) + [] == s.h.appended + s.worker.batch;
  }

  lemma KeepsCounters(cfg: Config, s: State, e: Event)
    requires ValidConfig(cfg) && CountersExact(cfg, s) && Enabled(cfg, s, e)
    ensures CountersExact(cfg, Step(cfg, s, e))
  {
    match e
    case BatchTaken => BatchFacts(cfg, s);
    case Appended => TextConcat(cfg.encode, s.h.appended, s.worker.batch);
    case _ =>
  }

  lemma KeepsStop(cfg: Config, s: State, e: Event)
    requires ValidConfig(cfg) && StopInPlace(s) && Enabled(cfg, s, e)
    ensures StopInPlace(Step(cfg, s, e))
  {
    match e
    case SubmitCalled(r) => PutFacts(s.queue, r);
    case SubmitResumed(k) => PutFacts(s.queue, s.blocked[k]);
    case BatchTaken => BatchFacts(cfg, s);
    case StopCalled => StopFacts(s);
    case StopPut => StopFacts(s);
    case _ =>
  }

  lemma StepKeeps(cfg: Config, s: State, e: Event)
    requires ValidConfig(cfg) && Inv(cfg, s) && Enabled(cfg, s, e)
    ensures Inv(cfg, Step(cfg, s, e))
  {
    KeepsOrder(cfg, s, e);
    KeepsCounters(cfg, s, e);
    KeepsStop(cfg, s, e);
  }

  lemma StopFacts(s: State)
    requires Stops(s.queue) == 0
    ensures var q := s.queue + [Stop];
      Pending(q) == Pending(s.queue) && Stops(q) == 1 && Behind(q) == []
  {
    PendingSnoc(s.queue, Stop);
    StopsSnoc(s.queue, Stop);
    BehindSnoc(s.queue, Stop);
    NoneBehind(s.queue);
  }

  lemma {:induction false} RunKeeps(cfg: Config, es: seq<Event>)
    requires ValidConfig(cfg)
    ensures Inv(cfg, Run(cfg, es))
  {
    if es != [] {
      var n := |es| - 1;
      RunKeeps(cfg, es[..n]);
      if Enabled(cfg, Run(cfg, es[..n]), es[n]) {
        StepKeeps(cfg, Run(cfg, es[..n]), es[n]);
      }
    }
  }

  /**
   * The store is a lossless FIFO: once `stop` has returned, the file is exactly
   * the messages submitted before its marker, in order, and the counters are its
   * length in records and in bytes; what is missing from it is exactly the
   * messages whose blocked `submit` resumed behind the marker.
   */
  lemma StoppedFileIsComplete(cfg: Config, es: seq<Event>)
    requires ValidConfig(cfg) && Run(cfg, es).stopper.Stopped?
    ensures var s := Run(cfg, es);
      && s.h.submitted == s.h.appended + s.h.behind
      && s.file == Text(cfg.encode, s.h.appended) && s.stats.bytes == |s.file|
      && s.stats.written == |s.h.appended| && s.stats.enqueued == |s.h.submitted|
      && (s.stats.written == s.stats.enqueued <==> s.h.behind == [])
  {
    RunKeeps(cfg, es);
    StoppedIsComplete(cfg, Run(cfg, es));
  }

  lemma StoppedIsComplete(cfg: Config, s: State)
    requires Inv(cfg, s) && s.stopper.Stopped?
    ensures s.h.submitted == s.h.appended + s.h.behind
    ensures s.file == Text(cfg.encode, s.h.appended)
    ensures s.stats.written == |s.h.appended| && s.stats.bytes == |s.file|
    ensures s.stats.enqueued == |s.h.submitted|
  {
    assert s.h.appended + [] == s.h.appended;
    assert Text(cfg.encode, []) == "";
  }

  /** A submit waits, and is not yet counted, if and only if the queue is at its bound. */
  lemma WaitsIffFull(cfg: Config, es: seq<Event>, r: Received)
    requires ValidConfig(cfg) && Run(cfg, es).stopper.Running?
    ensures var s, s' := Run(cfg, es), Run(cfg, es + [SubmitCalled(r)]);
      && (s'.blocked == s.blocked + [r] <==> |s.queue| == cfg.capacity)
      && (s'.stats.enqueued == s.stats.enqueued + 1 <==> |s.queue| < cfg.capacity)
  {
    RunKeeps(cfg, es);
    RunSnoc(cfg, es, SubmitCalled(r));
    assert |Run(cfg, es).blocked + [r]| != |Run(cfg, es).blocked|;
  }

  // ----- Which stops lose nothing -----

  /** `stop` is called after `es`, and then `more` happens. */
  function StoppedRun(cfg: Config, es: seq<Event>, more: seq<Event>): State {
    Run(cfg, es + [StopCalled] + more)
  }

  predicate NoneLate(s: State) {
    !s.stopper.Running? && s.blocked == [] && s.h.behind == []
  }

  lemma {:induction false} NoneBlockedNoneLate(cfg: Config, es: seq<Event>, more: seq<Event>)
    requires ValidConfig(cfg) && Run(cfg, es).stopper.Running? && Run(cfg, es).blocked == []
    ensures NoneLate(StoppedRun(cfg, es, more))
  {
    var begin := es + [StopCalled];
    if more == [] {
      RunKeeps(cfg, es);
      RunSnoc(cfg, es, StopCalled);
      assert begin + more == begin;
    } else {
      var n := |more| - 1;
      NoneBlockedNoneLate(cfg, es, more[..n]);
      RunSnoc(cfg, begin + more[..n], more[n]);
      assert begin + more == begin + more[..n] + [more[n]];
    }
  }

  /** What the worker and `stop` do next, once `stop` has been called. */
  function NextEvent(s: State): Event {
    if s.worker.Writing? then (if s.worker.appended then Completed else Appended)
    else if s.worker.Finished? then WorkerJoined
    else if s.queue != [] then BatchTaken
    else StopPut
  }

  function Rank(w: Worker): nat {
    match w case Writing(_, _, appended) => (if appended then 1 else 2) case _ => 0
  }

  /** The worker always makes progress: there is a schedule on which `stop` returns. */
  lemma {:induction false} StopCanFinish(cfg: Config, es: seq<Event>) returns (more: seq<Event>)
    requires ValidConfig(cfg)
    requires var s := Run(cfg, es); s.stopper.PuttingStop? || s.stopper.AwaitingWorker?
    ensures var s := Run(cfg, es + more);
      s.stopper.Stopped? && s.blocked == Run(cfg, es).blocked && s.h.behind == Run(cfg, es).h.behind
    decreases var s := Run(cfg, es);
      if s.stopper.PuttingStop? then 1 else 0, |Run(cfg, es).queue|, Rank(Run(cfg, es).worker)
  {
    var s := Run(cfg, es);
    var e := NextEvent(s);
    RunKeeps(cfg, es);
    RunSnoc(cfg, es, e);
    Progress(cfg, s);
    if Step(cfg, s, e).stopper.Stopped? {
      more := [e];
    } else {
      var rest := StopCanFinish(cfg, es + [e]);
      more := [e] + rest;
      assert es + more == es + [e] + rest;
    }
  }

  lemma Progress(cfg: Config, s: State)
    requires ValidConfig(cfg) && Inv(cfg, s) && (s.stopper.PuttingStop? || s.stopper.AwaitingWorker?)
    ensures Enabled(cfg, s, NextEvent(s))
    ensures var s' := Step(cfg, s, NextEvent(s));
      && s'.blocked == s.blocked && s'.h.behind == s.h.behind
      && (s'.stopper.Stopped? || s'.stopper.PuttingStop? || s'.stopper.AwaitingWorker?)
      && (s'.stopper == s.stopper || !s'.stopper.PuttingStop?)
      && (s'.stopper == s.stopper ==>
            |s'.queue| < |s.queue| || (s'.queue == s.queue && Rank(s'.worker) < Rank(s.worker)))
  {
  }

  /**
   * The exact condition, checkable before the call: whatever the event loop does
   * after `stop` is called, the file is complete once it has returned, if and
   * only if no `submit` is blocked when it is called.
   */
  lemma CompleteIffNoneBlocked(cfg: Config, es: seq<Event>)
    requires ValidConfig(cfg) && Run(cfg, es).stopper.Running?
    ensures (forall more :: StoppedRun(cfg, es, more).stopper.Stopped? ==>
               StoppedRun(cfg, es, more).file
                 == Text(cfg.encode, StoppedRun(cfg, es, more).h.submitted)
               && StoppedRun(cfg, es, more).queue == [])
            <==> Run(cfg, es).blocked == []
  {
    if Run(cfg, es).blocked == [] {
      forall more | StoppedRun(cfg, es, more).stopper.Stopped?
        ensures var s := StoppedRun(cfg, es, more);
          s.file == Text(cfg.encode, s.h.submitted) && s.queue == []
      {
        var s := StoppedRun(cfg, es, more);
        NoneBlockedNoneLate(cfg, es, more);
        RunKeeps(cfg, es + [StopCalled] + more);
        StoppedIsComplete(cfg, s);
        PendingCount(s.queue);
        assert s.h.appended + [] == s.h.appended;
      }
    } else {
      var more := BlockedCanBeStranded(cfg, es);
      assert StoppedRun(cfg, es, more).queue != [];
    }
  }

  lemma BlockedCanBeStranded(cfg: Config, es: seq<Event>) returns (more: seq<Event>)
    requires ValidConfig(cfg) && Run(cfg, es).stopper.Running? && Run(cfg, es).blocked != []
    ensures var s := StoppedRun(cfg, es, more); s.stopper.Stopped? && s.queue != []
  {
    var begin := es + [StopCalled];
    RunKeeps(cfg, es);
    RunSnoc(cfg, es, StopCalled);
    var rest := StopCanFinish(cfg, begin);
    RunKeeps(cfg, begin + rest);
    PendingCount(Run(cfg, begin + rest).queue);
    RunSnoc(cfg, begin + rest, SubmitResumed(0));
    more := rest + [SubmitResumed(0)];
    assert begin + more == begin + rest + [SubmitResumed(0)];
  }

  class RawMessageStore {
    const cfg: Config
    var queue: seq<Item>
    var blocked: seq<Received>
    var running: bool
    var stopper: Stopper
    var worker: Worker
    var file: string
    var recordsEnqueued: nat
    var recordsWritten: nat
    var bytesWritten: nat
    ghost var h: History

    ghost function Abstract(): State
      reads this
    {
      State(queue, blocked, worker, stopper, file, Stats(recordsEnqueued, recordsWritten, bytesWritten), h)
    }

    ghost predicate Valid()
      reads this
    {
      ValidConfig(cfg) && (running <==> stopper.Running?)
    }

    constructor (capacity: nat, batchSize: nat, encode: Received -> string)
      requires capacity >= 1 && batchSize >= 1
      ensures Valid() && cfg == Config(capacity, batchSize, encode) && Abstract() == INITIAL
    {
      cfg := Config(capacity, batchSize, encode);
      queue, blocked, running, stopper, worker, file := [], [], true, Running, Waiting, "";
      recordsEnqueued, recordsWritten, bytesWritten := 0, 0, 0;
      h := History([], [], []);
    }

    method PutNowait(r: Received)
      requires Valid() && |queue| < cfg.capacity
      modifies `queue, `recordsEnqueued, `h
      ensures Valid() && Abstract() == Put(old(Abstract()), r)
    {
      h := Put(Abstract(), r).h;
      queue := queue + [Queued(r)];
      recordsEnqueued := recordsEnqueued + 1;
    }

    /** `submit` refuses only a stopped store; with no room it joins the blocked puts. */
    method Submit(r: Received) returns (accepted: bool)
      requires Valid()
      modifies `queue, `blocked, `recordsEnqueued, `h
      ensures Valid() && accepted == running
      ensures Abstract() == if accepted then Called(cfg, old(Abstract()), r) else old(Abstract())
    {
      accepted := running;
      if !accepted {
        return;
      }
      if |queue| >= cfg.capacity {
        blocked := blocked + [r];
      } else {
        PutNowait(r);
      }
    }

    method ResumeSubmit(k: nat)
      requires Valid() && k < |blocked| && |queue| < cfg.capacity
      modifies `queue, `blocked, `recordsEnqueued, `h
      ensures Valid() && Abstract() == Resumed(old(Abstract()), k)
    {
      var r := blocked[k];
      blocked := blocked[..k] + blocked[k + 1..];
      PutNowait(r);
    }

    /** One wait for an item, then everything already queued up to the batch size. */
    method TakeBatch()
      requires Valid() && worker.Waiting? && queue != []
      modifies `queue, `worker
      ensures Valid() && Abstract() == Batched(cfg, old(Abstract()))
    {
      ghost var was := queue;
      ghost var k := BatchLength(was, cfg.batchSize);
      var item := queue[0];
      queue := queue[1..];
      if item.Stop? {
        worker := Finished;
        return;
      }
      var batch := [item.r];
      var shouldStop := false;
      assert was[..1][..0] == [] && Pending(was[..1]) == batch;
      while |batch| < cfg.batchSize && queue != [] && !shouldStop
        invariant 1 <= |batch| <= k
        invariant |batch| <= |was| && (shouldStop ==> |batch| < |was|)
        invariant queue == was[if shouldStop then |batch| + 1 else |batch|..]
        invariant batch == Pending(was[..|batch|])
        invariant shouldStop ==> |batch| == k && k < cfg.batchSize
        decreases |queue|
        modifies `queue
      {
        var queued := queue[0];
        assert queue == was[|batch|..] && queued == was[|batch|];
        queue := queue[1..];
        if queued.Stop? {
          shouldStop := true;
        } else {
          assert was[..|batch| + 1][..|batch|] == was[..|batch|];
          batch := batch + [queued.r];
        }
      }
      worker := Writing(batch, shouldStop, false);
    }

    method AppendLines()
      requires Valid() && worker.Writing? && !worker.appended
      modifies `file, `worker, `h
      ensures Valid() && Abstract() == Written(cfg, old(Abstract()))
    {
      var text := "";
      for i := 0 to |worker.batch|
        invariant text == Text(cfg.encode, worker.batch[..i])
      {
        assert worker.batch[..i + 1][..i] == worker.batch[..i];
        text := text + cfg.encode(worker.batch[i]);
      }
      assert worker.batch[..|worker.batch|] == worker.batch;
      file := file + text;
      h := h.(appended := h.appended + worker.batch);
      worker := worker.(appended := true);
    }

    method CountBatch()
      requires Valid() && worker.Writing? && worker.appended
      modifies `recordsWritten, `bytesWritten, `worker
      ensures Valid() && Abstract() == Accounted(cfg, old(Abstract()))
    {
      recordsWritten := recordsWritten + |worker.batch|;
      bytesWritten := bytesWritten + |Text(cfg.encode, worker.batch)|;
      worker := if worker.last then Finished else Waiting;
    }

    method BeginStop() returns (first: bool)
      requires Valid()
      modifies `running, `queue, `stopper
      ensures Valid() && first == old(running)
      ensures Abstract() == if first then Step(cfg, old(Abstract()), StopCalled) else old(Abstract())
    {
      first := running;
      if !first {
        return;
      }
      running := false;
      if |queue| >= cfg.capacity {
        stopper := PuttingStop;
      } else {
        queue, stopper := queue + [Stop], AwaitingWorker;
      }
    }

    method ResumeStopPut()
      requires Valid() && stopper.PuttingStop? && |queue| < cfg.capacity
      modifies `queue, `stopper
      ensures Valid() && Abstract() == StopQueued(old(Abstract()))
    {
      queue, stopper := queue + [Stop], AwaitingWorker;
    }

    method JoinWorker()
      requires Valid() && stopper.AwaitingWorker? && worker.Finished?
      modifies `stopper
      ensures Valid() && Abstract() == old(Abstract()).(stopper := Stopped)
    {
      stopper := Stopped;
    }

    method Perform(e: Event)
      requires Valid()
      modifies this
      ensures Valid()
      ensures Abstract() == if Enabled(cfg, old(Abstract()), e) then Step(cfg, old(Abstract()), e)
                            else old(Abstract())
    {
      match e {
        case SubmitCalled(r) =>
          var _ := Submit(r);
        case SubmitResumed(k) =>
          if k < |blocked| && |queue| < cfg.capacity { ResumeSubmit(k); }
        case BatchTaken =>
          if worker.Waiting? && queue != [] { TakeBatch(); }
        case Appended =>
          if worker.Writing? && !worker.appended { AppendLines(); }
        case Completed =>
          if worker.Writing? && worker.appended { CountBatch(); }
        case StopCalled =>
          var _ := BeginStop();
        case StopPut =>
          if stopper.PuttingStop? && |queue| < cfg.capacity { ResumeStopPut(); }
        case WorkerJoined =>
          if stopper.AwaitingWorker? && worker.Finished? { JoinWorker(); }
      }
    }
  }

  lemma RunSnoc(cfg: Config, es: seq<Event>, e: Event)
    ensures var s := Run(cfg, es);
      Run(cfg, es + [e]) == if Enabled(cfg, s, e) then Step(cfg, s, e) else s
  {
    assert (es + [e])[..|es|] == es;
  }

  /** A store driven by any schedule is in the state the step system says. */
  method Drive(store: RawMessageStore, schedule: seq<Event>)
    requires store.Valid() && store.Abstract() == INITIAL
    modifies store
    ensures store.Valid() && store.Abstract() == Run(store.cfg, schedule)
  {
    for i := 0 to |schedule|
      invariant store.Valid() && store.Abstract() == Run(store.cfg, schedule[..i])
    {
      RunSnoc(store.cfg, schedule[..i], schedule[i]);
      assert schedule[..i + 1] == schedule[..i] + [schedule[i]];
      store.Perform(schedule[i]);
    }
    assert schedule[..|schedule|] == schedule;
  }
}
