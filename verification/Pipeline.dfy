/**
 * The whole gateway process: many client handlers feeding one registry, the raw
 * store (with backpressure) and the forwarder (without), and the shutdown order
 * gateway, forwarder, store.
 */
module Pipeline {
  import opened Common
  import opened Messages
  import opened Registry
  import opened Queues
  import G = GatewayFront
  import S = Storage
  import F = Forwarder
  import RegistryRuns
  import Upstream
  import Analysis
  import Evidence
  import Delivery
  import A = Aggregation
  import N = NodeProtocol
  import T = SequenceTracking

  datatype Config = Config(th: Thresholds, store: S.Config, fwd: F.Config)

  predicate ValidConfig(cfg: Config) {
    && cfg.th.suspectNs <= cfg.th.offlineNs
    && S.ValidConfig(cfg.store) && F.ValidConfig(cfg.fwd)
  }

  datatype Phase = Serving | Closing | Down

  /** A message and the handler that read it. */
  datatype Tagged = Tagged(id: nat, r: Received)

  /**
   * `received` lists every valid message, `heard` with its handler; `handed` lists
   * the messages handed to the store; the traces list each component's own steps.
   */
  datatype State = State(g: G.Front, store: S.State, fwd: F.State, phase: Phase,
                         received: seq<Received>, heard: seq<Tagged>, handed: seq<Tagged>,
                         frontTrace: seq<G.Event>,
                         storeTrace: seq<S.Event>, fwdTrace: seq<F.Event>)

  const INITIAL := State(G.INITIAL, S.INITIAL, F.INITIAL, Serving, [], [], [], [], [], [])

  function Untagged(ts: seq<Tagged>): seq<Received> {
    Mapped(ts, (t: Tagged) => t.r)
  }

  datatype Event =
    | Accepted
    | Heard(id: nat, m: Message, ms: nat, ns: nat, bytes: nat)
    | Resumed(id: nat, k: nat)
    | Rejected(id: nat, fault: G.Fault)
    | Ended(id: nat, ending: G.Ending)
    | Checked(ns: nat, ms: nat)
    | StoreStep(s: S.Event)
    | ForwarderStep(f: F.Event)
    | CloseCalled
    | AllClosed

  predicate StoreMay(s: State, e: S.Event) {
    match e
    case SubmitCalled(_) => false
    case SubmitResumed(_) => false
    case StopCalled => s.fwd.stopper.Stopped?
    case _ => true
  }

  predicate ForwarderMay(s: State, e: F.Event) {
    match e
    case SubmitCalled(_) => false
    case SubmitResumed(_) => false
    case TrySubmitted(_) => false
    case StopCalled => s.phase.Down?
    case _ => true
  }

  predicate Enabled(cfg: Config, s: State, e: Event) {
    match e
    case Accepted => !s.phase.Down?
    case Heard(id, m, ms, ns, bytes) => G.Listening(s.g, id) && s.fwd.clock <= ns && ValidMessage(m)
    case Resumed(id, k) =>
      && id < |s.g.handlers| && k < |s.store.blocked| && !S.Full(cfg.store, s.store)
      && s.g.handlers[id].pending == Some(s.store.blocked[k])
    case Rejected(id, fault) => G.Listening(s.g, id)
    case Ended(id, ending) => G.Listening(s.g, id)
    case Checked(ns, ms) => s.phase.Serving? && s.fwd.clock <= ns && WellFormed(s.g.registry)
    case StoreStep(e) => StoreMay(s, e) && S.Enabled(cfg.store, s.store, e)
    case ForwarderStep(e) => ForwarderMay(s, e) && F.Enabled(cfg.fwd, s.fwd, e)
    case CloseCalled => s.phase.Serving?
    case AllClosed => s.phase.Closing? && G.OpenCount(s.g.handlers) == 0
  }

  /** The second half of the message callback: offer the message upstream. */
  function Offer(cfg: Config, s: State, r: Received): State {
    s.(fwd := F.Offered(cfg.fwd, s.fwd, r), fwdTrace := s.fwdTrace + [F.TrySubmitted(r)])
  }

  function Tick(s: State, ns: nat): State {
    s.(fwd := s.fwd.(clock := ns), fwdTrace := s.fwdTrace + [F.Ticked(ns)])
  }

  function Annotate(s: State, m: Message, ms: nat, ns: nat, bytes: nat): Received {
    Received(m, ms, ns, bytes, StatusOf(s.g.registry, m))
  }

  function Hear(cfg: Config, s: State, id: nat, m: Message, ms: nat, ns: nat, bytes: nat): State
    requires id < |s.g.handlers|
  {
    var r := Annotate(s, m, ms, ns, bytes);
    var heard := Note(cfg, s, id, m, ms, ns, bytes);
    if S.Full(cfg.store, s.store) then
      heard.(g := G.Suspend(heard.g, id, Some(r)), frontTrace := heard.frontTrace + [G.Suspended(id, r)])
    else Offer(cfg, heard.(handed := heard.handed + [Tagged(id, r)]), r)
  }

  /** The handler's own bookkeeping. */
  function Read(s: State, id: nat, m: Message, ms: nat, ns: nat, bytes: nat): State
    requires id < |s.g.handlers|
  {
    var r := Annotate(s, m, ms, ns, bytes);
    Tick(s, ns).(g := G.Hear(s.g, id, m, ms, ns, bytes), received := s.received + [r],
                 heard := s.heard + [Tagged(id, r)],
                 frontTrace := s.frontTrace + [G.Heard(id, m, ms, ns, bytes)])
  }

  /** The handler's own bookkeeping and the call of the store's `submit`. */
  function Note(cfg: Config, s: State, id: nat, m: Message, ms: nat, ns: nat, bytes: nat): State
    requires id < |s.g.handlers|
  {
    var r := Annotate(s, m, ms, ns, bytes);
    Read(s, id, m, ms, ns, bytes).(store := S.Called(cfg.store, s.store, r),
                                   storeTrace := s.storeTrace + [S.SubmitCalled(r)])
  }

  /** The store found room for the message this handler was waiting on. */
  function Resume(s: State, id: nat, k: nat): State
    requires id < |s.g.handlers| && k < |s.store.blocked|
  {
    s.(g := G.Suspend(s.g, id, None), frontTrace := s.frontTrace + [G.Resumed(id)],
       handed := s.handed + [Tagged(id, s.store.blocked[k])],
       store := S.Resumed(s.store, k), storeTrace := s.storeTrace + [S.SubmitResumed(k)])
  }

  function Step(cfg: Config, s: State, e: Event): State
    requires Enabled(cfg, s, e)
  {
    match e
    case Accepted => s.(g := G.Accept(s.g), frontTrace := s.frontTrace + [G.Accepted])
    case Heard(id, m, ms, ns, bytes) => Hear(cfg, s, id, m, ms, ns, bytes)
    case Resumed(id, k) => Offer(cfg, Resume(s, id, k), s.store.blocked[k])
    case Rejected(id, fault) =>
      s.(g := G.Reject(s.g, fault), frontTrace := s.frontTrace + [G.Rejected(id, fault)])
    case Ended(id, ending) =>
      s.(g := G.Leave(s.g, id, ending), frontTrace := s.frontTrace + [G.Ended(id, ending)])
    case Checked(ns, ms) =>
      Tick(s, ns).(g := G.Check(s.g, cfg.th, ns, ms), frontTrace := s.frontTrace + [G.Checked(ns, ms)])
    case StoreStep(e) => s.(store := S.Step(cfg.store, s.store, e), storeTrace := s.storeTrace + [e])
    case ForwarderStep(e) => s.(fwd := F.Step(cfg.fwd, s.fwd, e), fwdTrace := s.fwdTrace + [e])
    case CloseCalled => s.(phase := Closing)
    case AllClosed => s.(phase := Down)
  }

  /** What happens if `e` is scheduled next: an impossible event does not happen. */
  function After(cfg: Config, s: State, e: Event): State {
    if Enabled(cfg, s, e) then Step(cfg, s, e) else s
  }

  function Run(cfg: Config, es: seq<Event>): State {
    if es == [] then INITIAL else After(cfg, Run(cfg, es[..|es| - 1]), es[|es| - 1])
  }

  lemma RunSnoc(cfg: Config, es: seq<Event>, e: Event)
    ensures Run(cfg, es + [e]) == After(cfg, Run(cfg, es), e)
  {
    assert (es + [e])[..|es|] == es;
  }

  // ----- Each component runs its own step system -----

  ghost predicate Traced(cfg: Config, s: State) {
    && s.store == S.Run(cfg.store, s.storeTrace)
    && s.fwd == F.Run(cfg.fwd, s.fwdTrace)
  }

  ghost predicate FrontTraced(cfg: Config, s: State) {
    s.g == G.Run(cfg.th, s.frontTrace)
  }

  // ----- Each handler hands its messages over in the order in which it read them -----

  function From(ts: seq<Tagged>, id: nat): seq<Received> {
    Untagged(Filter(ts, (t: Tagged) => t.id == id))
  }

  /** The message a handler is suspended on, if any. */
  function Held(hs: seq<G.Handler>, id: nat): seq<Received> {
    if id < |hs| && hs[id].pending.Some? then [hs[id].pending.value] else []
  }

  predicate InHandlerOrder(s: State, id: nat) {
    From(s.heard, id) == From(s.handed, id) + Held(s.g.handlers, id)
  }

  ghost predicate Tagging(s: State) {
    && Untagged(s.heard) == s.received && Untagged(s.handed) == s.store.h.submitted
    && forall id :: InHandlerOrder(s, id)
  }

  lemma FromSnoc(ts: seq<Tagged>, t: Tagged, id: nat)
    ensures From(ts + [t], id) == From(ts, id) + (if t.id == id then [t.r] else [])
  {
    FilterSnoc(ts, t, (t: Tagged) => t.id == id);
  }

  lemma UntaggedSnoc(ts: seq<Tagged>, t: Tagged)
    ensures Untagged(ts + [t]) == Untagged(ts) + [t.r]
  {
  }

  lemma HearInOrder(cfg: Config, s: State, id: nat, m: Message, ms: nat, ns: nat, bytes: nat, j: nat)
    requires InHandlerOrder(s, j) && G.Listening(s.g, id)
    ensures InHandlerOrder(Hear(cfg, s, id, m, ms, ns, bytes), j)
  {
    var t := Tagged(id, Annotate(s, m, ms, ns, bytes));
    FromSnoc(s.heard, t, j);
    FromSnoc(s.handed, t, j);
    HearTags(cfg, s, id, m, ms, ns, bytes, j);
    assert From(s.handed, j) + [] == From(s.handed, j);
  }

  lemma HearTags(cfg: Config, s: State, id: nat, m: Message, ms: nat, ns: nat, bytes: nat, j: nat)
    requires G.Listening(s.g, id)
    ensures var s', t := Hear(cfg, s, id, m, ms, ns, bytes), Tagged(id, Annotate(s, m, ms, ns, bytes));
      && s'.heard == s.heard + [t]
      && s'.handed == (if S.Full(cfg.store, s.store) then s.handed else s.handed + [t])
      && (j != id ==> Held(s'.g.handlers, j) == Held(s.g.handlers, j))
      && Held(s.g.handlers, id) == []
      && Held(s'.g.handlers, id) == (if S.Full(cfg.store, s.store) then [t.r] else [])
  {
  }

  lemma ResumeInOrder(cfg: Config, s: State, id: nat, k: nat, j: nat)
    requires InHandlerOrder(s, j) && id < |s.g.handlers| && k < |s.store.blocked|
    requires s.g.handlers[id].pending == Some(s.store.blocked[k])
    ensures InHandlerOrder(Offer(cfg, Resume(s, id, k), s.store.blocked[k]), j)
  {
    FromSnoc(s.handed, Tagged(id, s.store.blocked[k]), j);
  }

  lemma OtherInOrder(cfg: Config, s: State, e: Event, j: nat)
    requires InHandlerOrder(s, j) && Enabled(cfg, s, e) && !e.Heard? && !e.Resumed?
    ensures InHandlerOrder(Step(cfg, s, e), j)
  {
  }

  lemma StepTags(cfg: Config, s: State, e: Event)
    requires Enabled(cfg, s, e) && Tagging(s)
    ensures var s' := Step(cfg, s, e);
      Untagged(s'.heard) == s'.received && Untagged(s'.handed) == s'.store.h.submitted
  {
    match e
    case Heard(id, m, ms, ns, bytes) =>
      var t := Tagged(id, Annotate(s, m, ms, ns, bytes));
      UntaggedSnoc(s.heard, t);
      UntaggedSnoc(s.handed, t);
    case Resumed(id, k) => UntaggedSnoc(s.handed, Tagged(id, s.store.blocked[k]));
    case StoreStep(x) => StoreStepsSubmitNothing(cfg.store, s.store, x);
    case _ =>
  }

  lemma KeepsTagging(cfg: Config, s: State, e: Event)
    requires Enabled(cfg, s, e) && Tagging(s)
    ensures Tagging(Step(cfg, s, e))
  {
    StepTags(cfg, s, e);
    forall j
      ensures InHandlerOrder(Step(cfg, s, e), j)
    {
      match e
      case Heard(id, m, ms, ns, bytes) => HearInOrder(cfg, s, id, m, ms, ns, bytes, j);
      case Resumed(id, k) => ResumeInOrder(cfg, s, id, k, j);
      case _ => OtherInOrder(cfg, s, e, j);
    }
  }

  // ----- The registry counts what was heard -----

  /** The sequence numbers node `n` delivered, in the order in which they were read. */
  function SequencesFrom(rs: seq<Received>, n: string): seq<nat> {
    if rs == [] then []
    else
      var m := rs[|rs| - 1].message;
      SequencesFrom(rs[..|rs| - 1], n) + (if m.nodeId == n then [m.sequence] else [])
  }

  lemma SequencesSnoc(rs: seq<Received>, r: Received, n: string)
    ensures SequencesFrom(rs + [r], n)
         == SequencesFrom(rs, n) + (if r.message.nodeId == n then [r.message.sequence] else [])
  {
    assert (rs + [r])[..|rs|] == rs;
  }

  predicate Tallied(s: State, n: string) {
    RegistryRuns.TalliedFrom(s.g.registry, n, SequencesFrom(s.received, n))
  }

  lemma HearTallied(cfg: Config, s: State, id: nat, m: Message, ms: nat, ns: nat, bytes: nat, n: string)
    requires WellFormed(s.g.registry) && Tallied(s, n) && G.Listening(s.g, id)
    ensures Tallied(Hear(cfg, s, id, m, ms, ns, bytes), n)
  {
    var s' := Hear(cfg, s, id, m, ms, ns, bytes);
    SequencesSnoc(s.received, Annotate(s, m, ms, ns, bytes), n);
    HeardByTallied(s.g.registry, s.g.handlers[id].nodes, cfg.th, m, ms, ns, n,
                   SequencesFrom(s.received, n));
    assert s'.g.registry == G.HeardBy(s.g.registry, s.g.handlers[id].nodes, m, ms, ns);
  }

  lemma HeardByTallied(v: View, known: set<string>, th: Thresholds, m: Message, ms: nat, ns: nat,
                       n: string, vs: seq<nat>)
    requires WellFormed(v) && RegistryRuns.TalliedFrom(v, n, vs)
    ensures RegistryRuns.TalliedFrom(G.HeardBy(v, known, m, ms, ns), n,
                                     vs + (if m.nodeId == n then [m.sequence] else []))
  {
    RegistryRuns.StepTallies(v, th, RegistryRuns.Heard(m, ms, ns), n, vs);
  }

  lemma OtherTallied(cfg: Config, s: State, e: Event, n: string)
    requires WellFormed(s.g.registry) && Tallied(s, n) && Enabled(cfg, s, e) && !e.Heard?
    ensures Tallied(Step(cfg, s, e), n)
  {
  }

  lemma {:induction false} RunTallied(cfg: Config, es: seq<Event>, n: string)
    requires ValidConfig(cfg)
    ensures Tallied(Run(cfg, es), n)
  {
    if es != [] {
      var k := |es| - 1;
      var s, e := Run(cfg, es[..k]), es[k];
      RunTallied(cfg, es[..k], n);
      RunKeeps(cfg, es[..k]);
      if Enabled(cfg, s, e) {
        match e
        case Heard(id, m, ms, ns, bytes) => HearTallied(cfg, s, id, m, ms, ns, bytes, n);
        case _ => OtherTallied(cfg, s, e, n);
      }
    }
  }

  // ----- What messages and records carry -----

  /** The statuses carried by the messages of node `n`, in order. */
  function StatusesFrom(rs: seq<Received>, n: string): seq<SequenceStatus> {
    if rs == [] then []
    else
      var r := rs[|rs| - 1];
      StatusesFrom(rs[..|rs| - 1], n) + (if r.message.nodeId == n then [r.status] else [])
  }

  /** The last message read from node `n`. */
  function LastRead(rs: seq<Received>, n: string): Option<Received> {
    if rs == [] then None
    else
      var r := rs[|rs| - 1];
      if r.message.nodeId == n then Some(r) else LastRead(rs[..|rs| - 1], n)
  }

  predicate Followed(v: View, rs: seq<Received>, n: string) {
    && StatusesFrom(rs, n) == T.Statuses(SequencesFrom(rs, n))
    && (n in v.nodes <==> LastRead(rs, n).Some?)
    && (n in v.nodes ==>
          && v.nodes[n].lastSeenNs == LastRead(rs, n).value.monotonicNs
          && v.nodes[n].lastSeenMs == LastRead(rs, n).value.receivedAtMs)
  }

  lemma FollowedSnoc(rs: seq<Received>, r: Received, n: string)
    ensures StatusesFrom(rs + [r], n)
         == StatusesFrom(rs, n) + (if r.message.nodeId == n then [r.status] else [])
    ensures LastRead(rs + [r], n) == if r.message.nodeId == n then Some(r) else LastRead(rs, n)
  {
    assert (rs + [r])[..|rs|] == rs;
  }

  lemma HeardFollowed(v: View, known: set<string>, rs: seq<Received>, m: Message, ms: nat, ns: nat,
                      bytes: nat, n: string)
    requires Followed(v, rs, n) && RegistryRuns.TalliedFrom(v, n, SequencesFrom(rs, n))
    ensures Followed(G.HeardBy(v, known, m, ms, ns),
                     rs + [Received(m, ms, ns, bytes, StatusOf(v, m))], n)
  {
    var r := Received(m, ms, ns, bytes, StatusOf(v, m));
    FollowedSnoc(rs, r, n);
    StatusFollows(v, rs, r, n);
    HeardStamps(v, known, m, ms, ns);
  }

  lemma HeardStamps(v: View, known: set<string>, m: Message, ms: nat, ns: nat)
    ensures var nodes := G.HeardBy(v, known, m, ms, ns).nodes;
      && m.nodeId in nodes && nodes[m.nodeId].lastSeenNs == ns && nodes[m.nodeId].lastSeenMs == ms
      && forall n | n != m.nodeId :: (n in nodes <==> n in v.nodes) && (n in nodes ==> nodes[n] == v.nodes[n])
  {
  }

  lemma StatusFollows(v: View, rs: seq<Received>, r: Received, n: string)
    requires StatusesFrom(rs, n) == T.Statuses(SequencesFrom(rs, n)) && r.status == StatusOf(v, r.message)
    requires RegistryRuns.TalliedFrom(v, n, SequencesFrom(rs, n))
    ensures StatusesFrom(rs + [r], n) == T.Statuses(SequencesFrom(rs + [r], n))
  {
    FollowedSnoc(rs, r, n);
    SequencesSnoc(rs, r, n);
    if r.message.nodeId == n {
      RegistryRuns.OneMoreStatus(v, r.message, SequencesFrom(rs, n));
    } else {
      assert SequencesFrom(rs, n) + [] == SequencesFrom(rs, n);
      assert StatusesFrom(rs, n) + [] == StatusesFrom(rs, n);
    }
  }

  lemma OtherFollowed(cfg: Config, s: State, e: Event, n: string)
    requires WellFormed(s.g.registry) && Enabled(cfg, s, e) && !e.Heard?
    requires Followed(s.g.registry, s.received, n)
    ensures Followed(Step(cfg, s, e).g.registry, Step(cfg, s, e).received, n)
  {
  }

  lemma HearReads(cfg: Config, s: State, id: nat, m: Message, ms: nat, ns: nat, bytes: nat)
    requires id < |s.g.handlers|
    ensures var s' := Hear(cfg, s, id, m, ms, ns, bytes);
      && s'.g.registry == G.HeardBy(s.g.registry, s.g.handlers[id].nodes, m, ms, ns)
      && s'.received == s.received + [Received(m, ms, ns, bytes, StatusOf(s.g.registry, m))]
  {
  }

  lemma {:induction false} RunFollowed(cfg: Config, es: seq<Event>, n: string)
    requires ValidConfig(cfg)
    ensures Followed(Run(cfg, es).g.registry, Run(cfg, es).received, n)
  {
    if es != [] {
      var k := |es| - 1;
      var s, e := Run(cfg, es[..k]), es[k];
      RunFollowed(cfg, es[..k], n);
      RunTallied(cfg, es[..k], n);
      RunKeeps(cfg, es[..k]);
      if Enabled(cfg, s, e) {
        match e
        case Heard(id, m, ms, ns, bytes) =>
          HeardFollowed(s.g.registry, s.g.handlers[id].nodes, s.received, m, ms, ns, bytes, n);
          HearReads(cfg, s, id, m, ms, ns, bytes);
        case _ => OtherFollowed(cfg, s, e, n);
      }
    }
  }

  function WireBytes(rs: seq<Received>): nat {
    if rs == [] then 0 else WireBytes(rs[..|rs| - 1]) + rs[|rs| - 1].wireBytes
  }

  lemma WireBytesSnoc(rs: seq<Received>, r: Received)
    ensures WireBytes(rs + [r]) == WireBytes(rs) + r.wireBytes
  {
    assert (rs + [r])[..|rs|] == rs;
  }

  lemma OtherBytes(cfg: Config, s: State, e: Event)
    requires Enabled(cfg, s, e) && !e.Heard?
    ensures var s' := Step(cfg, s, e);
      s'.received == s.received && s'.g.stats.sensorBytes == s.g.stats.sensorBytes
  {
  }

  lemma HeardBytes(cfg: Config, s: State, e: Event)
    requires Enabled(cfg, s, e) && e.Heard?
    ensures var s' := Step(cfg, s, e);
      && s'.received == s.received + [Received(e.m, e.ms, e.ns, e.bytes, StatusOf(s.g.registry, e.m))]
      && s'.g.stats.sensorBytes == s.g.stats.sensorBytes + e.bytes
  {
  }

  /** sensor_bytes is the length on the wire of the valid messages, message by message. */
  lemma {:induction false} SensorBytesAreCarried(cfg: Config, es: seq<Event>)
    ensures Run(cfg, es).g.stats.sensorBytes == WireBytes(Run(cfg, es).received)
  {
    if es != [] {
      var k := |es| - 1;
      var s, e := Run(cfg, es[..k]), es[k];
      SensorBytesAreCarried(cfg, es[..k]);
      if Enabled(cfg, s, e) {
        if e.Heard? {
          HeardBytes(cfg, s, e);
          WireBytesSnoc(s.received, Received(e.m, e.ms, e.ns, e.bytes, StatusOf(s.g.registry, e.m)));
        } else {
          OtherBytes(cfg, s, e);
        }
      }
    }
  }

  // ----- Shutdown order -----

  /** Shutdown order: the forwarder outlives every handler, the store outlives the forwarder. */
  predicate Ordered(s: State) {
    && (s.fwd.stopper.Running? || s.phase.Down?)
    && (s.store.stopper.Running? || s.fwd.stopper.Stopped?)
    && (s.phase.Down? ==> G.OpenCount(s.g.handlers) == 0)
    && s.store.h.behind == [] && s.fwd.blocked == [] && s.fwd.h.behind == [] && s.fwd.h.after == []
  }

  lemma OfferTraced(cfg: Config, s: State, r: Received)
    requires Traced(cfg, s) && s.fwd.stopper.Running?
    ensures Traced(cfg, Offer(cfg, s, r))
  {
    F.RunSnoc(cfg.fwd, s.fwdTrace, F.TrySubmitted(r));
  }

  lemma TickTraced(cfg: Config, s: State, ns: nat)
    requires Traced(cfg, s) && s.fwd.clock <= ns
    ensures Traced(cfg, Tick(s, ns))
  {
    F.RunSnoc(cfg.fwd, s.fwdTrace, F.Ticked(ns));
  }

  lemma StoreStepTraced(cfg: Config, s: State, e: S.Event)
    requires Traced(cfg, s) && S.Enabled(cfg.store, s.store, e)
    ensures Traced(cfg, s.(store := S.Step(cfg.store, s.store, e), storeTrace := s.storeTrace + [e]))
  {
    S.RunSnoc(cfg.store, s.storeTrace, e);
  }

  lemma ForwarderStepTraced(cfg: Config, s: State, e: F.Event)
    requires Traced(cfg, s) && F.Enabled(cfg.fwd, s.fwd, e)
    ensures Traced(cfg, s.(fwd := F.Step(cfg.fwd, s.fwd, e), fwdTrace := s.fwdTrace + [e]))
  {
    F.RunSnoc(cfg.fwd, s.fwdTrace, e);
  }

  // ----- Accounting -----

  function Holds(h: G.Handler, r: Received): nat {
    if h.pending == Some(r) then 1 else 0
  }

  function Suspends(h: G.Handler): nat {
    if h.pending.Some? then 1 else 0
  }

  /** The blocked puts of the store are the messages its suspended handlers hold. */
  ghost predicate BlockedMatch(blocked: seq<Received>, hs: seq<G.Handler>) {
    && |blocked| == G.SumOver(hs, Suspends)
    && forall r :: HeldAlike(blocked, hs, r)
  }

  predicate HeldAlike(blocked: seq<Received>, hs: seq<G.Handler>, r: Received) {
    multiset(blocked)[r] == G.SumOver(hs, (h: G.Handler) => Holds(h, r))
  }

  function One(p: Option<Received>): multiset<Received> {
    if p.Some? then multiset{p.value} else multiset{}
  }

  /** One handler and the blocked puts change alike. */
  lemma MatchUpdate(blocked: seq<Received>, blocked': seq<Received>, hs: seq<G.Handler>, id: nat,
                    h: G.Handler)
    requires BlockedMatch(blocked, hs) && id < |hs|
    requires multiset(blocked') + One(hs[id].pending) == multiset(blocked) + One(h.pending)
    ensures BlockedMatch(blocked', hs[id := h])
  {
    G.SumUpdate(hs, id, h, Suspends);
    assert |multiset(blocked')| == |blocked'| && |multiset(blocked)| == |blocked|;
    assert |multiset(blocked') + One(hs[id].pending)| == |blocked'| + Suspends(hs[id]);
    assert |multiset(blocked) + One(h.pending)| == |blocked| + Suspends(h);
    var hs' := hs[id := h];
    forall r
      ensures HeldAlike(blocked', hs', r)
    {
      HeldUpdate(blocked, blocked', hs, id, h, r);
    }
  }

  lemma HeldUpdate(blocked: seq<Received>, blocked': seq<Received>, hs: seq<G.Handler>, id: nat,
                   h: G.Handler, r: Received)
    requires HeldAlike(blocked, hs, r) && id < |hs|
    requires multiset(blocked') + One(hs[id].pending) == multiset(blocked) + One(h.pending)
    ensures HeldAlike(blocked', hs[id := h], r)
  {
    G.SumUpdate(hs, id, h, (x: G.Handler) => Holds(x, r));
    assert (multiset(blocked') + One(hs[id].pending))[r] == multiset(blocked')[r] + Holds(hs[id], r);
    assert (multiset(blocked) + One(h.pending))[r] == multiset(blocked)[r] + Holds(h, r);
  }

  lemma MatchAccept(blocked: seq<Received>, hs: seq<G.Handler>, h: G.Handler)
    requires BlockedMatch(blocked, hs) && h.pending.None?
    ensures BlockedMatch(blocked, hs + [h])
  {
    var all := hs + [h];
    G.SumSnoc(hs, h, Suspends);
    forall r
      ensures HeldAlike(blocked, all, r)
    {
      assert HeldAlike(blocked, hs, r);
      G.SumSnoc(hs, h, (x: G.Handler) => Holds(x, r));
    }
  }

  lemma {:induction false} SuspendedAreOpen(hs: seq<G.Handler>)
    requires forall i | 0 <= i < |hs| && !hs[i].open :: hs[i] == G.CLOSED
    ensures G.SumOver(hs, Suspends) <= G.OpenCount(hs)
  {
    if hs != [] {
      SuspendedAreOpen(hs[..|hs| - 1]);
    }
  }

  /** A waiting message that is handed over moves from one term to the other. */
  lemma MoveOne(all: multiset<Received>, done: multiset<Received>, w: multiset<Received>,
                w': multiset<Received>, r: Received)
    requires all == done + w && w' + multiset{r} == w
    ensures all == (done + multiset{r}) + w'
  {
  }

  function SumMessages(nodes: map<string, NodeRecord>, order: seq<string>): nat {
    if order == [] then 0
    else
      var n := order[|order| - 1];
      SumMessages(nodes, order[..|order| - 1]) + (if n in nodes then nodes[n].messages else 0)
  }

  lemma {:induction false} SumSame(nodes: map<string, NodeRecord>, nodes': map<string, NodeRecord>,
                                   order: seq<string>)
    requires forall n | n in order :: n in nodes && n in nodes' && nodes[n].messages == nodes'[n].messages
    ensures SumMessages(nodes, order) == SumMessages(nodes', order)
  {
    if order != [] {
      assert order[|order| - 1] in order;
      SumSame(nodes, nodes', order[..|order| - 1]);
    }
  }

  lemma {:induction false} SumOneMore(nodes: map<string, NodeRecord>, order: seq<string>, n: string,
                                      r: NodeRecord)
    requires Distinct(order) && n in order && n in nodes && r.messages == nodes[n].messages + 1
    ensures SumMessages(nodes[n := r], order) == SumMessages(nodes, order) + 1
  {
    var k := |order| - 1;
    var front := order[..k];
    assert order == front + [order[k]];
    if order[k] == n {
      assert n !in front;
      SumOthers(nodes, front, n, r);
    } else {
      SumOneMore(nodes, front, n, r);
    }
  }

  lemma {:induction false} SumOthers(nodes: map<string, NodeRecord>, order: seq<string>, n: string,
                                     r: NodeRecord)
    requires n !in order
    ensures SumMessages(nodes[n := r], order) == SumMessages(nodes, order)
  {
    if order != [] {
      assert order[|order| - 1] in order;
      SumOthers(nodes, order[..|order| - 1], n, r);
    }
  }

  /** messages_received, summed over the registry. */
  function MessagesIn(v: View): nat {
    SumMessages(v.nodes, v.order)
  }

  lemma ObservedTotal(v: View, m: Message, ms: nat, ns: nat)
    requires WellFormed(v)
    ensures MessagesIn(Observed(v, m, ms, ns)) == MessagesIn(v) + 1
  {
    if m.nodeId in v.nodes {
      assert m.nodeId in Elements(v.order);
      SumOneMore(v.nodes, v.order, m.nodeId, SeenRecord(v.nodes[m.nodeId], m, ms, ns));
    } else {
      assert m.nodeId !in Elements(v.order);
      SumOthers(v.nodes, v.order, m.nodeId, NewRecord(m, ms, ns));
      assert (v.order + [m.nodeId])[..|v.order|] == v.order;
    }
  }

  lemma SameTotal(v: View, v': View)
    requires WellFormed(v) && v'.order == v.order && v'.nodes.Keys == v.nodes.Keys
    requires forall n | n in v.nodes :: v'.nodes[n].messages == v.nodes[n].messages
    ensures MessagesIn(v') == MessagesIn(v)
  {
    assert forall n | n in v.order :: n in Elements(v.order);
    SumSame(v.nodes, v'.nodes, v.order);
  }

  lemma OpenedTotal(v: View, n: string)
    requires WellFormed(v) && n in v.nodes
    ensures MessagesIn(Opened(v, n)) == MessagesIn(v)
  {
    SameTotal(v, Opened(v, n));
  }

  lemma HeardTotal(v: View, known: set<string>, m: Message, ms: nat, ns: nat)
    requires WellFormed(v)
    ensures MessagesIn(G.HeardBy(v, known, m, ms, ns)) == MessagesIn(v) + 1
  {
    ObservedTotal(v, m, ms, ns);
    if m.nodeId !in known {
      ObservedWellFormed(v, m, ms, ns);
      OpenedTotal(Observed(v, m, ms, ns), m.nodeId);
    }
  }

  function IsReading(r: Received): bool {
    r.message.Reading?
  }

  function ReadingsOf(rs: seq<Received>): seq<Received> {
    Filter(rs, IsReading)
  }

  /** Every valid message is stored or held by a handler; every stored reading was offered upstream. */
  ghost predicate Accounted(s: State) {
    && s.g.stats.valid == |s.received| == MessagesIn(s.g.registry)
    && multiset(s.received) == multiset(s.store.h.submitted) + multiset(s.store.blocked)
    && BlockedMatch(s.store.blocked, s.g.handlers)
    && multiset(ReadingsOf(s.store.h.submitted)) == multiset(s.fwd.h.accepted) + multiset(s.fwd.h.dropped)
  }

  lemma OfferAccounted(cfg: Config, s: State, submitted: seq<Received>, r: Received)
    requires s.fwd.stopper.Running? && s.store.h.submitted == submitted + [r]
    requires multiset(ReadingsOf(submitted)) == multiset(s.fwd.h.accepted) + multiset(s.fwd.h.dropped)
    ensures var s' := Offer(cfg, s, r);
      multiset(ReadingsOf(s'.store.h.submitted)) == multiset(s'.fwd.h.accepted) + multiset(s'.fwd.h.dropped)
  {
    FilterSnoc(submitted, r, IsReading);
  }

  // ----- What every step keeps -----

  ghost predicate Inv(cfg: Config, s: State) {
    && G.Inv(s.g, cfg.th, s.fwd.clock) && FrontTraced(cfg, s) && Traced(cfg, s) && Ordered(s) && Accounted(s)
    && AllValid(s.received) && Tagging(s)
  }

  predicate AllValid(rs: seq<Received>) {
    forall r | r in rs :: ValidMessage(r.message)
  }

  lemma KeepsValid(cfg: Config, s: State, e: Event)
    requires AllValid(s.received) && Enabled(cfg, s, e)
    ensures AllValid(Step(cfg, s, e).received)
  {
    if e.Heard? {
      assert Step(cfg, s, e).received == s.received + [Annotate(s, e.m, e.ms, e.ns, e.bytes)];
    }
  }

  lemma {:induction false} OpenMeansCounted(hs: seq<G.Handler>, id: nat)
    requires id < |hs| && hs[id].open
    ensures G.OpenCount(hs) > 0
  {
    G.OpenUpdate(hs, id, G.CLOSED);
  }

  lemma HearKeepsFront(cfg: Config, s: State, id: nat, m: Message, ms: nat, ns: nat, bytes: nat)
    requires ValidConfig(cfg) && G.Inv(s.g, cfg.th, s.fwd.clock) && G.Listening(s.g, id) && s.fwd.clock <= ns
    ensures var s' := Hear(cfg, s, id, m, ms, ns, bytes);
      G.Inv(s'.g, cfg.th, s'.fwd.clock)
  {
    var s', f := Hear(cfg, s, id, m, ms, ns, bytes), G.Hear(s.g, id, m, ms, ns, bytes);
    G.HearKeeps(s.g, id, m, ms, ns, bytes, cfg.th, s.fwd.clock);
    assert s'.fwd.clock == ns;
    if S.Full(cfg.store, s.store) {
      var r := Annotate(s, m, ms, ns, bytes);
      G.SuspendKeeps(f, id, Some(r), cfg.th, ns);
    }
  }

  lemma KeepsFront(cfg: Config, s: State, e: Event)
    requires ValidConfig(cfg) && G.Inv(s.g, cfg.th, s.fwd.clock) && Enabled(cfg, s, e)
    ensures var s' := Step(cfg, s, e); G.Inv(s'.g, cfg.th, s'.fwd.clock)
  {
    match e
    case Heard(id, m, ms, ns, bytes) => HearKeepsFront(cfg, s, id, m, ms, ns, bytes);
    case Accepted => G.AcceptKeeps(s.g, cfg.th, s.fwd.clock);
    case Resumed(id, k) => ResumeKeepsFront(cfg, s, id, k);
    case Rejected(id, fault) => G.RejectKeeps(s.g, fault, cfg.th, s.fwd.clock);
    case Ended(id, ending) => G.LeaveKeeps(s.g, id, ending, cfg.th, s.fwd.clock);
    case Checked(ns, ms) => G.CheckKeeps(s.g, cfg.th, s.fwd.clock, ns, ms);
    case ForwarderStep(x) => ForwarderKeepsFront(cfg, s, x);
    case _ =>
  }

  lemma ResumeKeepsFront(cfg: Config, s: State, id: nat, k: nat)
    requires G.Inv(s.g, cfg.th, s.fwd.clock) && Enabled(cfg, s, Resumed(id, k))
    ensures var s' := Step(cfg, s, Resumed(id, k)); G.Inv(s'.g, cfg.th, s'.fwd.clock)
  {
    G.SuspendKeeps(s.g, id, None, cfg.th, s.fwd.clock);
  }

  lemma ForwarderKeepsFront(cfg: Config, s: State, e: F.Event)
    requires ValidConfig(cfg) && G.Inv(s.g, cfg.th, s.fwd.clock) && F.Enabled(cfg.fwd, s.fwd, e)
    ensures G.Inv(s.g, cfg.th, F.Step(cfg.fwd, s.fwd, e).clock)
  {
    ClockAdvances(cfg.fwd, s.fwd, e);
    G.LaterKeeps(s.g, cfg.th, s.fwd.clock, F.Step(cfg.fwd, s.fwd, e).clock);
  }

  lemma ClockAdvances(cfg: F.Config, s: F.State, e: F.Event)
    requires F.Enabled(cfg, s, e)
    ensures F.Step(cfg, s, e).clock >= s.clock
  {
  }

  /** A handler that can act keeps the process up, so both components still accept. */
  lemma ActiveMeansUp(s: State, id: nat)
    requires Ordered(s) && id < |s.g.handlers| && s.g.handlers[id].open
    ensures !s.phase.Down? && s.fwd.stopper.Running? && s.store.stopper.Running?
  {
    OpenMeansCounted(s.g.handlers, id);
  }

  lemma KeepsTraces(cfg: Config, s: State, e: Event)
    requires Traced(cfg, s) && Ordered(s) && G.CountsMatch(s.g) && Enabled(cfg, s, e)
    ensures Traced(cfg, Step(cfg, s, e))
  {
    match e
    case Heard(id, m, ms, ns, bytes) =>
      ActiveMeansUp(s, id);
      NoteTraced(cfg, s, id, m, ms, ns, bytes);
      if !S.Full(cfg.store, s.store) {
        OfferTraced(cfg, Note(cfg, s, id, m, ms, ns, bytes), Annotate(s, m, ms, ns, bytes));
      }
    case Resumed(id, k) =>
      ActiveMeansUp(s, id);
      S.RunSnoc(cfg.store, s.storeTrace, S.SubmitResumed(k));
      OfferTraced(cfg, Resume(s, id, k), s.store.blocked[k]);
    case Checked(ns, ms) => TickTraced(cfg, s, ns);
    case StoreStep(x) => StoreStepTraced(cfg, s, x);
    case ForwarderStep(x) => ForwarderStepTraced(cfg, s, x);
    case _ =>
  }

  lemma HearFrontTrace(cfg: Config, s: State, id: nat, m: Message, ms: nat, ns: nat, bytes: nat)
    requires FrontTraced(cfg, s) && G.Listening(s.g, id)
    ensures FrontTraced(cfg, Hear(cfg, s, id, m, ms, ns, bytes))
  {
    var heard := G.Heard(id, m, ms, ns, bytes);
    var f := G.Hear(s.g, id, m, ms, ns, bytes);
    G.RunSnoc(cfg.th, s.frontTrace, heard);
    if S.Full(cfg.store, s.store) {
      assert G.Listening(f, id);
      G.RunSnoc(cfg.th, s.frontTrace + [heard], G.Suspended(id, Annotate(s, m, ms, ns, bytes)));
    }
  }

  lemma KeepsFrontTrace(cfg: Config, s: State, e: Event)
    requires FrontTraced(cfg, s) && Enabled(cfg, s, e)
    ensures FrontTraced(cfg, Step(cfg, s, e))
  {
    match e
    case Accepted => FrontStep(cfg, s, Step(cfg, s, e), G.Accepted);
    case Heard(id, m, ms, ns, bytes) => HearFrontTrace(cfg, s, id, m, ms, ns, bytes);
    case Resumed(id, k) => FrontStep(cfg, s, Step(cfg, s, e), G.Resumed(id));
    case Rejected(id, fault) => FrontStep(cfg, s, Step(cfg, s, e), G.Rejected(id, fault));
    case Ended(id, ending) => FrontStep(cfg, s, Step(cfg, s, e), G.Ended(id, ending));
    case Checked(ns, ms) => FrontStep(cfg, s, Step(cfg, s, e), G.Checked(ns, ms));
    case StoreStep(x) => assert Step(cfg, s, e).g == s.g;
    case ForwarderStep(x) => assert Step(cfg, s, e).g == s.g;
    case _ =>
  }

  lemma FrontStep(cfg: Config, s: State, s': State, e: G.Event)
    requires FrontTraced(cfg, s) && G.Enabled(s.g, e) && s'.g == G.Step(cfg.th, s.g, e)
    requires s'.frontTrace == s.frontTrace + [e]
    ensures FrontTraced(cfg, s')
  {
    G.RunSnoc(cfg.th, s.frontTrace, e);
  }

  lemma NoteTraced(cfg: Config, s: State, id: nat, m: Message, ms: nat, ns: nat, bytes: nat)
    requires Traced(cfg, s) && id < |s.g.handlers| && s.fwd.clock <= ns && s.store.stopper.Running?
    ensures Traced(cfg, Note(cfg, s, id, m, ms, ns, bytes))
  {
    TickTraced(cfg, s, ns);
    S.RunSnoc(cfg.store, s.storeTrace, S.SubmitCalled(Annotate(s, m, ms, ns, bytes)));
  }

  lemma KeepsOrdered(cfg: Config, s: State, e: Event)
    requires Ordered(s) && G.CountsMatch(s.g) && Enabled(cfg, s, e)
    ensures Ordered(Step(cfg, s, e))
  {
    match e
    case Heard(id, m, ms, ns, bytes) => MessageKeepsOrdered(cfg, s, e);
    case Resumed(id, k) => MessageKeepsOrdered(cfg, s, e);
    case Ended(id, ending) => ActiveMeansUp(s, id);
    case StoreStep(x) => StoreKeepsOrdered(cfg, s, x);
    case ForwarderStep(x) => ForwarderKeepsOrdered(cfg, s, x);
    case _ =>
  }

  lemma MessageKeepsOrdered(cfg: Config, s: State, e: Event)
    requires Ordered(s) && G.CountsMatch(s.g) && Enabled(cfg, s, e) && (e.Heard? || e.Resumed?)
    ensures Ordered(Step(cfg, s, e))
  {
    ActiveMeansUp(s, e.id);
  }

  lemma StoreKeepsOrdered(cfg: Config, s: State, x: S.Event)
    requires Ordered(s) && Enabled(cfg, s, StoreStep(x))
    ensures Ordered(Step(cfg, s, StoreStep(x)))
  {
    StoreStepsSubmitNothing(cfg.store, s.store, x);
  }

  lemma ForwarderKeepsOrdered(cfg: Config, s: State, x: F.Event)
    requires Ordered(s) && Enabled(cfg, s, ForwarderStep(x))
    ensures Ordered(Step(cfg, s, ForwarderStep(x)))
  {
    ForwarderStepsAcceptNothing(cfg.fwd, s.fwd, x);
  }

  lemma StoreStepsSubmitNothing(cfg: S.Config, s: S.State, e: S.Event)
    requires S.Enabled(cfg, s, e) && !e.SubmitCalled? && !e.SubmitResumed?
    ensures var s' := S.Step(cfg, s, e);
      && s'.h.submitted == s.h.submitted && s'.h.behind == s.h.behind && s'.blocked == s.blocked
      && (s.stopper.Running? && !e.StopCalled? ==> s'.stopper.Running?)
  {
  }

  lemma ForwarderStepsAcceptNothing(cfg: F.Config, s: F.State, e: F.Event)
    requires F.Enabled(cfg, s, e) && !e.SubmitCalled? && !e.SubmitResumed? && !e.TrySubmitted?
    ensures var s' := F.Step(cfg, s, e);
      && s'.h.accepted == s.h.accepted && s'.h.dropped == s.h.dropped && s'.h.delayed == s.h.delayed
      && s'.blocked == s.blocked && s'.h.behind == s.h.behind && s'.h.after == s.h.after
      && (s.stopper.Running? && !e.StopCalled? ==> s'.stopper.Running?)
      && (s.stopper.Stopped? ==> s'.stopper.Stopped?)
  {
  }

  lemma OneMore(all: multiset<Received>, done: multiset<Received>, w: multiset<Received>, r: Received)
    requires all == done + w
    ensures all + multiset{r} == done + (w + multiset{r})
    ensures all + multiset{r} == (done + multiset{r}) + w
  {
  }

  lemma NoteAccounted(cfg: Config, s: State, id: nat, m: Message, ms: nat, ns: nat, bytes: nat)
    requires Accounted(s) && WellFormed(s.g.registry) && G.Listening(s.g, id) && s.fwd.stopper.Running?
    ensures var s', r := Note(cfg, s, id, m, ms, ns, bytes), Annotate(s, m, ms, ns, bytes);
      && s'.g.stats.valid == |s'.received| == MessagesIn(s'.g.registry)
      && multiset(s'.received) == multiset(s'.store.h.submitted) + multiset(s'.store.blocked)
  {
    var r := Annotate(s, m, ms, ns, bytes);
    HeardTotal(s.g.registry, s.g.handlers[id].nodes, m, ms, ns);
    OneMore(multiset(s.received), multiset(s.store.h.submitted), multiset(s.store.blocked), r);
  }

  lemma HearAccounted(cfg: Config, s: State, id: nat, m: Message, ms: nat, ns: nat, bytes: nat)
    requires Accounted(s) && WellFormed(s.g.registry) && G.Listening(s.g, id) && s.fwd.stopper.Running?
    ensures Accounted(Hear(cfg, s, id, m, ms, ns, bytes))
  {
    NoteAccounted(cfg, s, id, m, ms, ns, bytes);
    HearMatches(s, id, m, ms, ns, bytes);
    if !S.Full(cfg.store, s.store) {
      OfferAccounted(cfg, Note(cfg, s, id, m, ms, ns, bytes), s.store.h.submitted,
                     Annotate(s, m, ms, ns, bytes));
    }
  }

  /** Reading a message suspends nobody; suspending on it blocks one more put. */
  lemma HearMatches(s: State, id: nat, m: Message, ms: nat, ns: nat, bytes: nat)
    requires BlockedMatch(s.store.blocked, s.g.handlers) && G.Listening(s.g, id)
    ensures var f, r := G.Hear(s.g, id, m, ms, ns, bytes), Annotate(s, m, ms, ns, bytes);
      && BlockedMatch(s.store.blocked, f.handlers)
      && BlockedMatch(s.store.blocked + [r], G.Suspend(f, id, Some(r)).handlers)
  {
    var h, r, b := s.g.handlers[id], Annotate(s, m, ms, ns, bytes), s.store.blocked;
    var f := G.Hear(s.g, id, m, ms, ns, bytes);
    MatchUpdate(b, b, s.g.handlers, id, h.(nodes := h.nodes + {m.nodeId}));
    assert multiset(b + [r]) + multiset{} == multiset(b) + multiset{r};
    MatchUpdate(b, b + [r], f.handlers, id, f.handlers[id].(pending := Some(r)));
  }

  lemma Without(rs: seq<Received>, k: nat)
    requires k < |rs|
    ensures multiset(rs[..k] + rs[k + 1..]) + multiset{rs[k]} == multiset(rs)
  {
    assert rs == rs[..k] + [rs[k]] + rs[k + 1..];
  }

  lemma ResumeAccounted(cfg: Config, s: State, id: nat, k: nat)
    requires Accounted(s) && id < |s.g.handlers| && k < |s.store.blocked|
    requires s.g.handlers[id].pending == Some(s.store.blocked[k]) && s.fwd.stopper.Running?
    ensures Accounted(Offer(cfg, Resume(s, id, k), s.store.blocked[k]))
  {
    var r, s' := s.store.blocked[k], Resume(s, id, k);
    Without(s.store.blocked, k);
    assert multiset(s.store.blocked) + multiset{} == multiset(s.store.blocked);
    MatchUpdate(s.store.blocked, s'.store.blocked, s.g.handlers, id,
                s.g.handlers[id].(pending := None));
    MoveOne(multiset(s.received), multiset(s.store.h.submitted), multiset(s.store.blocked),
            multiset(s'.store.blocked), r);
    OfferAccounted(cfg, s', s.store.h.submitted, r);
  }

  lemma EndAccounted(s: State, id: nat, ending: G.Ending)
    requires Accounted(s) && WellFormed(s.g.registry) && G.Listening(s.g, id)
    ensures Accounted(s.(g := G.Leave(s.g, id, ending), frontTrace := s.frontTrace + [G.Ended(id, ending)]))
  {
    MatchUpdate(s.store.blocked, s.store.blocked, s.g.handlers, id, G.CLOSED);
    CloseTotal(s.g.registry, s.g.handlers[id].nodes);
  }

  lemma CloseTotal(v: View, ns: set<string>)
    requires WellFormed(v)
    ensures MessagesIn(G.CloseAll(v, ns)) == MessagesIn(v)
  {
    SameTotal(v, G.CloseAll(v, ns));
  }

  lemma KeepsAccounts(cfg: Config, s: State, e: Event)
    requires Accounted(s) && Ordered(s) && WellFormed(s.g.registry) && G.CountsMatch(s.g)
    requires Enabled(cfg, s, e)
    ensures Accounted(Step(cfg, s, e))
  {
    match e
    case Accepted => MatchAccept(s.store.blocked, s.g.handlers, G.Handler(true, {}, None));
    case Heard(id, m, ms, ns, bytes) =>
      ActiveMeansUp(s, id);
      HearAccounted(cfg, s, id, m, ms, ns, bytes);
    case Resumed(id, k) =>
      ActiveMeansUp(s, id);
      ResumeAccounted(cfg, s, id, k);
    case Ended(id, ending) => EndAccounted(s, id, ending);
    case Checked(ns, ms) =>
      SameTotal(s.g.registry, Refreshed(s.g.registry, cfg.th, ns, ms));
    case StoreStep(x) => StoreStepsSubmitNothing(cfg.store, s.store, x);
    case ForwarderStep(x) => ForwarderStepsAcceptNothing(cfg.fwd, s.fwd, x);
    case _ =>
  }

  lemma StepKeeps(cfg: Config, s: State, e: Event)
    requires ValidConfig(cfg) && Inv(cfg, s) && Enabled(cfg, s, e)
    ensures Inv(cfg, Step(cfg, s, e))
  {
    KeepsFront(cfg, s, e);
    KeepsFrontTrace(cfg, s, e);
    KeepsTraces(cfg, s, e);
    KeepsOrdered(cfg, s, e);
    KeepsAccounts(cfg, s, e);
    KeepsValid(cfg, s, e);
    KeepsTagging(cfg, s, e);
  }

  lemma InitialInv(cfg: Config)
    requires ValidConfig(cfg)
    ensures Inv(cfg, INITIAL)
  {
    assert Elements(EMPTY.order) == {};
    assert RegistryRuns.Run(cfg.th, []) == EMPTY;
    RegistryRuns.RunKeeps(cfg.th, []);
    assert ReadingsOf([]) == [];
    assert forall id :: From([], id) == [];
  }

  lemma {:induction false} RunKeeps(cfg: Config, es: seq<Event>)
    requires ValidConfig(cfg)
    ensures Inv(cfg, Run(cfg, es))
  {
    if es == [] {
      InitialInv(cfg);
    } else {
      var n := |es| - 1;
      RunKeeps(cfg, es[..n]);
      if Enabled(cfg, Run(cfg, es[..n]), es[n]) {
        StepKeeps(cfg, Run(cfg, es[..n]), es[n]);
      }
    }
  }

  // ----- Whole-run results -----

  /**
   * Connection counting, for any interleaving of clients and node ids: a node's
   * count is the number of open handlers it has spoken through, `connected` is
   * whether that is positive, and a closing handler never hits the clamp at zero.
   */
  lemma ConnectionsAreCounted(cfg: Config, es: seq<Event>, n: string)
    requires ValidConfig(cfg) && n in Run(cfg, es).g.registry.nodes
    ensures var g := Run(cfg, es).g; var r := g.registry.nodes[n];
      && r.activeConnections == G.Holders(g.handlers, n)
      && (r.connected <==> G.Holders(g.handlers, n) > 0)
      && (forall id | 0 <= id < |g.handlers| && n in g.handlers[id].nodes :: r.activeConnections >= 1)
  {
    RunKeeps(cfg, es);
    var g := Run(cfg, es).g;
    forall id | 0 <= id < |g.handlers| && n in g.handlers[id].nodes
      ensures g.registry.nodes[n].activeConnections >= 1
    {
      G.ClampNeverActs(g, id, n);
    }
  }

  /** The health handler sees every transition once, in order, with its true cause. */
  lemma HealthEventsAreExact(cfg: Config, es: seq<Event>)
    requires ValidConfig(cfg)
    ensures G.HandledExactly(Run(cfg, es).g)
    ensures forall n | n in Run(cfg, es).g.registry.nodes ::
      RegistryRuns.OfNode(Run(cfg, es).g.registry.log, n) == Run(cfg, es).g.registry.nodes[n].transitions
  {
    RunKeeps(cfg, es);
  }

  /**
   * In the registry of the process each node's log is a linked path to its status
   * and the global log restricted to it, with at most three transitions per message.
   */
  lemma ProcessLogsAreLinkedPaths(cfg: Config, es: seq<Event>, n: string)
    requires ValidConfig(cfg) && n in Run(cfg, es).g.registry.nodes
    ensures var v := Run(cfg, es).g.registry; var r := v.nodes[n];
      && RegistryRuns.Path(r.transitions, r.health)
      && RegistryRuns.OfNode(v.log, n) == r.transitions
      && |r.transitions| <= 3 * r.messages
  {
    RunKeeps(cfg, es);
    LinkedPath(cfg, Run(cfg, es), n);
  }

  lemma LinkedPath(cfg: Config, s: State, n: string)
    requires G.Inv(s.g, cfg.th, s.fwd.clock) && n in s.g.registry.nodes
    ensures var v := s.g.registry; var r := v.nodes[n];
      && RegistryRuns.Path(r.transitions, r.health)
      && RegistryRuns.OfNode(v.log, n) == r.transitions
      && |r.transitions| <= 3 * r.messages
  {
    assert RegistryRuns.Sound(s.g.registry.nodes[n], cfg.th, s.fwd.clock);
  }

  /**
   * Its counters mean epochs of the numbers read from that node, whatever the
   * other clients do.
   */
  lemma ProcessCountersMeanEpochs(cfg: Config, es: seq<Event>, n: string)
    requires ValidConfig(cfg) && n in Run(cfg, es).g.registry.nodes
    ensures var s := Run(cfg, es);
      var r, vs := s.g.registry.nodes[n], SequencesFrom(s.received, n);
      && vs != [] && r.messages == |vs|
      && r.tally.last == T.Max(T.Epochs(vs)[|T.Epochs(vs)| - 1])
      && r.tally.resets == |T.Epochs(vs)| - 1
      && r.tally.missing - r.tally.outOfOrder <= T.TotalUnseen(T.Epochs(vs)) <= r.tally.missing
  {
    RunTallied(cfg, es, n);
    T.SpansAreCounted(SequencesFrom(Run(cfg, es).received, n));
    T.MissingIsSandwiched(SequencesFrom(Run(cfg, es).received, n));
  }

  /**
   * Every message carries the status its number has among the numbers read from
   * its node before it, whatever the other clients do.
   */
  lemma MessagesCarryTheirStatus(cfg: Config, es: seq<Event>, n: string)
    requires ValidConfig(cfg)
    ensures StatusesFrom(Run(cfg, es).received, n) == T.Statuses(SequencesFrom(Run(cfg, es).received, n))
  {
    RunFollowed(cfg, es, n);
  }

  /**
   * After a liveness pass of the process a node's status is decided by how long
   * before it the node was last read, against the two thresholds.
   */
  lemma PassMeansSilence(cfg: Config, es: seq<Event>, ns: nat, ms: nat, n: string)
    requires ValidConfig(cfg) && Enabled(cfg, Run(cfg, es), Checked(ns, ms))
    requires LastRead(Run(cfg, es).received, n).Some?
    ensures var d := ns - LastRead(Run(cfg, es).received, n).value.monotonicNs;
      var nodes := Run(cfg, es + [Checked(ns, ms)]).g.registry.nodes;
      && n in nodes
      && (nodes[n].health == Offline <==> d >= cfg.th.offlineNs)
      && (nodes[n].health == Suspect <==> cfg.th.suspectNs <= d < cfg.th.offlineNs)
      && (nodes[n].health == Online <==> d < cfg.th.suspectNs)
  {
    RunFollowed(cfg, es, n);
    RunSnoc(cfg, es, Checked(ns, ms));
  }

  /** A node is ONLINE once a message of it has been read. */
  lemma ReadingMeansOnline(cfg: Config, es: seq<Event>, e: Event)
    requires ValidConfig(cfg) && e.Heard? && Enabled(cfg, Run(cfg, es), e)
    ensures var nodes := Run(cfg, es + [e]).g.registry.nodes;
      e.m.nodeId in nodes && nodes[e.m.nodeId].health == Online
  {
    RunSnoc(cfg, es, e);
    HearReads(cfg, Run(cfg, es), e.id, e.m, e.ms, e.ns, e.bytes);
  }

  /** Any number of boots of a physical node, read by the process among any traffic, are exact. */
  lemma ProcessIsExactAcrossReboots(cfg: Config, es: seq<Event>, n: string,
                                    boots: seq<seq<N.Attempt>>)
    requires ValidConfig(cfg) && N.Heard(boots)
    requires SequencesFrom(Run(cfg, es).received, n) == Flatten(N.ArrivalsOf(boots))
    ensures n in Run(cfg, es).g.registry.nodes
    ensures N.BootsCounted(N.ArrivalsOf(boots), Run(cfg, es).g.registry.nodes[n].tally)
    ensures forall k, v | 0 <= k < |boots| && v in T.Unseen(N.ArrivalsOf(boots)[k]) ::
      N.LostEveryTime(boots[k], v)
  {
    RunTallied(cfg, es, n);
    N.RebootsAreExact(boots);
  }

  /** Before shutdown the store lags the valid-message count by at most one per live handler. */
  lemma StoreLagIsBounded(cfg: Config, es: seq<Event>)
    requires ValidConfig(cfg)
    ensures var s := Run(cfg, es);
      && s.g.stats.valid == MessagesIn(s.g.registry)
      && s.store.stats.enqueued <= s.g.stats.valid
                                <= s.store.stats.enqueued + G.OpenCount(s.g.handlers)
  {
    var s := Run(cfg, es);
    RunKeeps(cfg, es);
    S.RunKeeps(cfg.store, s.storeTrace);
    SuspendedAreOpen(s.g.handlers);
    assert |multiset(s.received)| == |s.received|;
  }

  lemma DownMeansHandedOver(cfg: Config, s: State)
    requires Inv(cfg, s) && s.phase.Down?
    ensures multiset(s.received) == multiset(s.store.h.submitted) && s.store.blocked == []
  {
    SuspendedAreOpen(s.g.handlers);
    assert |multiset(s.store.blocked)| == |s.store.blocked|;
  }

  lemma NobodyHolds(s: State)
    requires Tagging(s) && G.CountsMatch(s.g) && G.OpenCount(s.g.handlers) == 0
    ensures forall id :: From(s.handed, id) == From(s.heard, id)
  {
    forall id: nat
      ensures From(s.handed, id) == From(s.heard, id)
    {
      assert InHandlerOrder(s, id);
      if id < |s.g.handlers| && s.g.handlers[id].open {
        OpenMeansCounted(s.g.handlers, id);
      }
      assert Held(s.g.handlers, id) == [] && From(s.handed, id) + [] == From(s.handed, id);
    }
  }

  /**
   * Shutdown accounting: when gateway, forwarder and store have stopped in that
   * order, every valid message is counted in the registry and is in the file
   * exactly once, the messages of each handler in the order in which it read them,
   * and every valid reading was enqueued upstream or counted dropped.
   */
  lemma ShutdownAccounts(cfg: Config, es: seq<Event>)
    requires ValidConfig(cfg) && Run(cfg, es).store.stopper.Stopped?
    ensures var s := Run(cfg, es);
      && s.g.stats.valid == MessagesIn(s.g.registry) == s.store.stats.written
      && s.store.file == S.Text(cfg.store.encode, s.store.h.submitted)
      && s.store.stats.bytes == |s.store.file|
      && multiset(s.store.h.submitted) == multiset(s.received)
      && Untagged(s.handed) == s.store.h.submitted && Untagged(s.heard) == s.received
      && (forall id :: From(s.handed, id) == From(s.heard, id))
      && |ReadingsOf(s.received)| == s.fwd.stats.enqueued + s.fwd.stats.drops
      && s.fwd.stopper.Stopped? && s.fwd.queue == [] && s.store.queue == []
  {
    var s := Run(cfg, es);
    RunKeeps(cfg, es);
    S.RunKeeps(cfg.store, s.storeTrace);
    F.RunKeeps(cfg.fwd, s.fwdTrace);
    S.StoppedIsComplete(cfg.store, s.store);
    F.StoppedIsQuiet(cfg.fwd, s.fwdTrace);
    PendingCount(s.store.queue);
    DownMeansHandedOver(cfg, s);
    NobodyHolds(s);
    assert s.store.h.appended + [] == s.store.h.appended;
    assert |s.received| == |multiset(s.received)| == |multiset(s.store.h.submitted)|;
    FilterMultiset(s.received, s.store.h.submitted, IsReading);
    assert |ReadingsOf(s.received)| == |multiset(ReadingsOf(s.received))|;
  }

  // ----- End to end -----

  /** The counter gates of a scientific admission, over a run and a collector log. */
  predicate Admitted(s: State, log: seq<Analysis.Collected>) {
    && s.fwd.stats.drops == 0 && s.fwd.stats.abandoned == 0
    && s.store.stats.enqueued == s.store.stats.written
    && s.fwd.stats.messages == |log| && s.fwd.stats.bytes == Analysis.WireBytes(log)
  }

  /** The readings a RAW log carries. */
  function ReadingsIn(log: seq<Analysis.Collected>): seq<Received> {
    Mapped(Delivery.Frames(log), ReadingOfFrame)
  }

  function ReadingOfFrame(f: Upstream.Frame): Received {
    if f.record.RawRecord? then f.record.received
    else Received(Heartbeat("", Virtual, 0, 0), 0, 0, 0, First)
  }

  lemma InAccounts(s: State, r: Received)
    requires Accounted(s) && r in multiset(s.fwd.h.accepted)
    ensures r in s.received
  {
    assert r in multiset(ReadingsOf(s.store.h.submitted)) && r in Filter(s.store.h.submitted, IsReading);
    FilterMembers(s.store.h.submitted, IsReading);
    assert r in multiset(s.store.h.submitted);
    assert r in multiset(s.received);
  }

  lemma AcceptedAreValid(cfg: Config, s: State)
    requires Inv(cfg, s)
    ensures Delivery.ValidIds(s.fwd.h.accepted)
  {
    forall r | r in s.fwd.h.accepted
      ensures ValidNodeId(r.message.nodeId)
    {
      assert r in multiset(s.fwd.h.accepted);
      InAccounts(s, r);
    }
  }

  /** A stopped forwarder that abandoned nothing has taken every accepted reading. */
  lemma NothingAbandoned(cfg: F.Config, es: seq<F.Event>)
    requires F.ValidConfig(cfg)
    requires var s := F.Run(cfg, es); s.stopper.Stopped? && s.queue == [] && s.stats.abandoned == 0
    ensures var s := F.Run(cfg, es);
      && F.Kept(cfg.mode, s.h.accepted) == F.Covered(s.h.sent) + s.h.lostWindow
      && (forall p | p in s.h.sent :: F.GoodParcel(cfg, p))
      && s.h.lostWindow == s.h.openAtTimeout && (!s.h.forced ==> s.h.openAtTimeout == [])
      && s.stats.messages == |s.h.sent| && s.stats.drops == |s.h.dropped|
  {
    var s := F.Run(cfg, es);
    F.RunKeeps(cfg, es);
    assert Pending([]) == [] && s.h.taken + [] + [] == s.h.taken;
    assert F.Covered([]) == [] && F.Covered(s.h.sent) + [] + [] + [] == F.Covered(s.h.sent);
  }

  /** With no drops, the readings accepted upstream are the valid readings. */
  lemma AcceptedIsReceived(s: State)
    requires Accounted(s) && s.fwd.h.dropped == [] && multiset(s.received) == multiset(s.store.h.submitted)
    ensures multiset(s.fwd.h.accepted) == multiset(ReadingsOf(s.received))
  {
    FilterMultiset(s.received, s.store.h.submitted, IsReading);
    assert multiset(s.fwd.h.accepted) + multiset{} == multiset(s.fwd.h.accepted);
  }

  /**
   * End to end, for every run of both modes that shut down in order and every
   * collector log in which each drained write arrived. If the counter gates pass,
   * the log is exactly what was sent, the evidence file holds exactly the valid
   * messages, and every valid reading was accepted upstream; a RAW log holds
   * exactly the valid readings the gateway received, each once.
   */
  lemma AdmissionMeansExactlyOnce(cfg: Config, es: seq<Event>, log: seq<Analysis.Collected>)
    requires ValidConfig(cfg) && Run(cfg, es).store.stopper.Stopped?
    requires Admitted(Run(cfg, es), log) && Delivery.Arrived(Run(cfg, es).fwd, log)
    ensures var s := Run(cfg, es);
      && Delivery.ExactlyOnce(s.fwd, log)
      && (Analysis.DistinctIds(log) <==> Distinct(Delivery.IdsOf(s.fwd.h.sent)))
      && s.store.file == S.Text(cfg.store.encode, s.store.h.submitted)
      && multiset(s.store.h.submitted) == multiset(s.received)
      && multiset(s.fwd.h.accepted) == multiset(ReadingsOf(s.received))
      && (cfg.fwd.mode.Raw? ==> multiset(ReadingsIn(log)) == multiset(ReadingsOf(s.received)))
  {
    var s := Run(cfg, es);
    RunKeeps(cfg, es);
    ShutdownAccounts(cfg, es);
    NothingAbandoned(cfg.fwd, s.fwdTrace);
    Delivery.ParityMeansExactlyOnce(cfg.fwd, s.fwdTrace, log);
    AcceptedIsReceived(s);
    if cfg.fwd.mode.Raw? {
      RawLogIsAccepted(cfg.fwd, s.fwdTrace, log);
    }
  }

  /**
   * An admitted RAW log has unique ids if and only if no two valid readings share
   * node, sequence and receive instant.
   */
  lemma AdmittedIdsAreUnique(cfg: Config, es: seq<Event>, log: seq<Analysis.Collected>)
    requires ValidConfig(cfg) && cfg.fwd.mode.Raw? && Run(cfg, es).store.stopper.Stopped?
    requires Admitted(Run(cfg, es), log) && Delivery.Arrived(Run(cfg, es).fwd, log)
    ensures Analysis.DistinctIds(log) <==> Evidence.DistinctKeys(Run(cfg, es).fwd.h.accepted)
  {
    var s := Run(cfg, es);
    AdmissionMeansExactlyOnce(cfg, es, log);
    RunKeeps(cfg, es);
    ShutdownAccounts(cfg, es);
    AcceptedAreValid(cfg, s);
    NothingAbandoned(cfg.fwd, s.fwdTrace);
    F.RunKeeps(cfg.fwd, s.fwdTrace);
    assert F.Covered(s.fwd.h.sent) + [] == F.Covered(s.fwd.h.sent);
    Delivery.IdsDistinctIffKeys(cfg.fwd, s.fwd.h.sent);
  }

  lemma RawLogIsAccepted(cfg: F.Config, es: seq<F.Event>, log: seq<Analysis.Collected>)
    requires F.ValidConfig(cfg) && cfg.mode.Raw?
    requires var s := F.Run(cfg, es);
      && s.stopper.Stopped? && s.queue == [] && s.stats.abandoned == 0 && Delivery.ExactlyOnce(s, log)
    ensures multiset(ReadingsIn(log)) == multiset(F.Run(cfg, es).h.accepted)
  {
    var s := F.Run(cfg, es);
    F.RunKeeps(cfg, es);
    NothingAbandoned(cfg, es);
    F.RawCovers(cfg, s.h.sent);
    assert F.Covered(s.h.sent) + [] == F.Covered(s.h.sent);
    MappedMultiset(Delivery.Frames(log), Delivery.FramesOf(s.h.sent), ReadingOfFrame);
    assert Mapped(Delivery.FramesOf(s.h.sent), ReadingOfFrame) == s.h.accepted;
  }

  /**
   * End to end in AGGREGATED mode, for every run. If the gates pass, the log can
   * be read back, entry by entry, as windows `ps` whose summaries it holds; the
   * readings of these windows, with those of the window open when the stop timed
   * out, are exactly the non-duplicate valid readings. Reading counts and skipped
   * duplicates add up to the valid readings if and only if the stop did not time
   * out or no window was open when it did.
   */
  lemma AggregatedAdmission(cfg: Config, es: seq<Event>, log: seq<Analysis.Collected>)
    returns (ps: seq<F.Parcel>)
    requires ValidConfig(cfg) && cfg.fwd.mode.Aggregated? && Run(cfg, es).store.stopper.Stopped?
    requires Admitted(Run(cfg, es), log) && Delivery.Arrived(Run(cfg, es).fwd, log)
    ensures Delivery.FramesOf(ps) == Delivery.Frames(log)
    ensures forall p | p in ps :: F.GoodParcel(cfg.fwd, p)
    ensures var s := Run(cfg, es); var valid := ReadingsOf(s.received);
      && multiset(F.Covered(ps)) + multiset(s.fwd.h.openAtTimeout) == multiset(A.CountedOnly(valid))
      && (Delivery.LogReadings(log) + |F.Skipped(valid)| == |valid| <==>
            !s.fwd.h.forced || s.fwd.h.openAtTimeout == [])
  {
    var s := Run(cfg, es);
    var valid := ReadingsOf(s.received);
    AdmissionMeansExactlyOnce(cfg, es, log);
    RunKeeps(cfg, es);
    ShutdownAccounts(cfg, es);
    NothingAbandoned(cfg.fwd, s.fwdTrace);
    ps := Delivery.ReadBack(s.fwd.h.sent, log);
    FilterMultiset(s.fwd.h.accepted, valid, (r: Received) => A.Counted(r));
    assert multiset(F.Covered(ps) + s.fwd.h.openAtTimeout) == multiset(A.CountedOnly(valid));
    Delivery.LogReadingsAre(ps, log);
    F.SummariesCountCovers(cfg.fwd, ps);
    FilterSplits(valid, (r: Received) => A.Counted(r), (r: Received) => !A.Counted(r));
    assert |multiset(F.Covered(ps))| == |F.Covered(ps)|;
    assert |multiset(A.CountedOnly(valid))| == |A.CountedOnly(valid)|;
    assert |multiset(s.fwd.h.openAtTimeout)| == |s.fwd.h.openAtTimeout|;
  }

  // ----- When readings reach the forwarder at their receive instant -----

  lemma HearPrompt(cfg: Config, s: State, id: nat, m: Message, ms: nat, ns: nat, bytes: nat)
    requires id < |s.g.handlers|
    ensures Hear(cfg, s, id, m, ms, ns, bytes).fwd.h.delayed == s.fwd.h.delayed
  {
  }

  /** A run in which no handler had to wait for the store delays no reading. */
  lemma {:induction false} PromptWithoutBackpressure(cfg: Config, es: seq<Event>)
    requires ValidConfig(cfg) && forall e | e in es :: !e.Resumed?
    ensures Run(cfg, es).fwd.h.delayed == []
  {
    if es != [] {
      var n := |es| - 1;
      var s, e := Run(cfg, es[..n]), es[n];
      PromptWithoutBackpressure(cfg, es[..n]);
      assert e in es;
      if Enabled(cfg, s, e) {
        match e
        case Heard(id, m, ms, ns, bytes) => HearPrompt(cfg, s, id, m, ms, ns, bytes);
        case ForwarderStep(x) => ForwarderStepsAcceptNothing(cfg.fwd, s.fwd, x);
        case _ => OtherPrompt(cfg, s, e);
      }
    }
  }

  lemma OtherPrompt(cfg: Config, s: State, e: Event)
    requires Enabled(cfg, s, e) && !e.Heard? && !e.Resumed? && !e.ForwarderStep?
    ensures Step(cfg, s, e).fwd.h.delayed == s.fwd.h.delayed
  {
  }
}
