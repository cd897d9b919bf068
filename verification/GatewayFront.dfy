/**
 * The gateway's own bookkeeping, for any number of concurrent clients speaking
 * for any node ids: connection counts, sequence and health state, and the
 * transitions handed to the health-event handler.
 */
module GatewayFront {
  import opened Common
  import opened Messages
  import opened Registry
  import RegistryRuns

  /** One client handler; `pending` is the message it is suspended on, if any. */
  datatype Handler = Handler(open: bool, nodes: set<string>, pending: Option<Received>)

  const CLOSED := Handler(false, {}, None)

  datatype Stats = Stats(accepted: nat, active: int, valid: nat, sensorBytes: nat, malformed: nat,
                         schemaRejections: nat, rejectedReadings: nat, overlong: nat,
                         truncated: nat, idle: nat)

  datatype Reason = InitialMessage | ValidMessageRecovery | LivenessTimeout

  datatype HealthEvent = HealthEvent(transition: HealthTransition, reason: Reason)

  /** `causes` records why each transition was really made. */
  datatype Front = Front(handlers: seq<Handler>, registry: View, stats: Stats,
                         handled: seq<HealthEvent>, causes: seq<Reason>)

  const INITIAL := Front([], EMPTY, Stats(0, 0, 0, 0, 0, 0, 0, 0, 0, 0), [], [])

  datatype Fault = MalformedJson | SchemaRejected(reading: bool)

  datatype Ending = EndOfFile | Overlong | Truncated | Idle | Failed

  /** The label the handler computes from the transition alone. */
  function ReasonOf(t: HealthTransition): Reason {
    if t.previous.None? then InitialMessage
    else if t.current.Online? then ValidMessageRecovery
    else LivenessTimeout
  }

  function Handle(ts: seq<HealthTransition>): seq<HealthEvent> {
    Mapped(ts, (t: HealthTransition) => HealthEvent(t, ReasonOf(t)))
  }

  function Repeat(r: Reason, n: nat): (rs: seq<Reason>)
    ensures |rs| == n && forall i | 0 <= i < n :: rs[i] == r
  {
    seq(n, i => r)
  }

  // ----- Steps -----

  function Accept(f: Front): Front {
    f.(handlers := f.handlers + [Handler(true, {}, None)],
       stats := f.stats.(accepted := f.stats.accepted + 1, active := f.stats.active + 1))
  }

  /** The node's transitions beyond those it had before the message. */
  function NewTransitions(v: View, m: Message, ms: nat, ns: nat): seq<HealthTransition> {
    var count := if m.nodeId in v.nodes then |v.nodes[m.nodeId].transitions| else 0;
    var after := Observed(v, m, ms, ns).nodes[m.nodeId].transitions;
    if count <= |after| then after[count..] else []
  }

  /** The registry after a message from a handler that already speaks for `known`. */
  function HeardBy(v: View, known: set<string>, m: Message, ms: nat, ns: nat): View {
    var v' := Observed(v, m, ms, ns);
    if m.nodeId in known then v' else Opened(v', m.nodeId)
  }

  function Hear(f: Front, id: nat, m: Message, ms: nat, ns: nat, bytes: nat): Front
    requires id < |f.handlers|
  {
    var fresh' := NewTransitions(f.registry, m, ms, ns);
    var h := f.handlers[id];
    var cause := if m.nodeId in f.registry.nodes then ValidMessageRecovery else InitialMessage;
    Front(f.handlers[id := h.(nodes := h.nodes + {m.nodeId})],
          HeardBy(f.registry, h.nodes, m, ms, ns),
          f.stats.(valid := f.stats.valid + 1, sensorBytes := f.stats.sensorBytes + bytes),
          f.handled + Handle(fresh'), f.causes + Repeat(cause, |fresh'|))
  }

  function Check(f: Front, th: Thresholds, ns: nat, ms: nat): Front
    requires WellFormed(f.registry)
  {
    assert forall n | n in f.registry.order :: n in Elements(f.registry.order);
    var changed := Changes(f.registry.nodes, f.registry.order, th, ns, ms);
    f.(registry := Refreshed(f.registry, th, ns, ms), handled := f.handled + Handle(changed),
       causes := f.causes + Repeat(LivenessTimeout, |changed|))
  }

  function Reject(f: Front, fault: Fault): Front {
    match fault
    case MalformedJson => f.(stats := f.stats.(malformed := f.stats.malformed + 1))
    case SchemaRejected(reading) =>
      f.(stats := f.stats.(schemaRejections := f.stats.schemaRejections + 1,
                           rejectedReadings := f.stats.rejectedReadings + (if reading then 1 else 0)))
  }

  function CloseAll(v: View, ns: set<string>): View {
    v.(nodes := map n | n in v.nodes :: if n in ns then Disconnected(v.nodes[n]) else v.nodes[n])
  }

  function CountEnding(st: Stats, e: Ending): Stats {
    match e
    case EndOfFile => st
    case Overlong => st.(overlong := st.overlong + 1)
    case Truncated => st.(truncated := st.truncated + 1)
    case Idle => st.(idle := st.idle + 1)
    case Failed => st
  }

  function Leave(f: Front, id: nat, e: Ending): Front
    requires id < |f.handlers|
  {
    f.(handlers := f.handlers[id := CLOSED],
       registry := CloseAll(f.registry, f.handlers[id].nodes),
       stats := CountEnding(f.stats, e).(active := f.stats.active - 1))
  }

  function Suspend(f: Front, id: nat, pending: Option<Received>): Front
    requires id < |f.handlers|
  {
    f.(handlers := f.handlers[id := f.handlers[id].(pending := pending)])
  }

  /** The handler is waiting for its client's next line. */
  predicate Listening(f: Front, id: nat) {
    id < |f.handlers| && f.handlers[id].open && f.handlers[id].pending.None?
  }

  datatype Event =
    | Accepted
    | Heard(id: nat, m: Message, ms: nat, ns: nat, bytes: nat)
    | Suspended(id: nat, r: Received)
    | Resumed(id: nat)
    | Rejected(id: nat, fault: Fault)
    | Ended(id: nat, ending: Ending)
    | Checked(ns: nat, ms: nat)

  predicate Enabled(f: Front, e: Event) {
    match e
    case Accepted => true
    case Heard(id, _, _, _, _) => Listening(f, id)
    case Suspended(id, _) => Listening(f, id)
    case Resumed(id) => id < |f.handlers| && f.handlers[id].pending.Some?
    case Rejected(id, _) => Listening(f, id)
    case Ended(id, _) => Listening(f, id)
    case Checked(_, _) => WellFormed(f.registry)
  }

  function Step(th: Thresholds, f: Front, e: Event): Front
    requires Enabled(f, e)
  {
    match e
    case Accepted => Accept(f)
    case Heard(id, m, ms, ns, bytes) => Hear(f, id, m, ms, ns, bytes)
    case Suspended(id, r) => Suspend(f, id, Some(r))
    case Resumed(id) => Suspend(f, id, None)
    case Rejected(_, fault) => Reject(f, fault)
    case Ended(id, ending) => Leave(f, id, ending)
    case Checked(ns, ms) => Check(f, th, ns, ms)
  }

  function Run(th: Thresholds, es: seq<Event>): Front {
    if es == [] then INITIAL
    else
      var f := Run(th, es[..|es| - 1]);
      if Enabled(f, es[|es| - 1]) then Step(th, f, es[|es| - 1]) else f
  }

  lemma RunSnoc(th: Thresholds, es: seq<Event>, e: Event)
    ensures var f := Run(th, es); Run(th, es + [e]) == if Enabled(f, e) then Step(th, f, e) else f
  {
    assert (es + [e])[..|es|] == es;
  }

  // ----- Every line and every ending is counted once -----

  /** The events of a schedule that could happen at their turn. */
  function Happened(th: Thresholds, es: seq<Event>): seq<Event> {
    if es == [] then []
    else
      var k := |es| - 1;
      Happened(th, es[..k]) + (if Enabled(Run(th, es[..k]), es[k]) then [es[k]] else [])
  }

  function Count(es: seq<Event>, p: Event -> bool): nat {
    |Filter(es, p)|
  }

  function BytesHeard(es: seq<Event>): nat {
    if es == [] then 0
    else BytesHeard(es[..|es| - 1]) + (if es[|es| - 1].Heard? then es[|es| - 1].bytes else 0)
  }

  predicate LinesCounted(es: seq<Event>, st: Stats) {
    && st.valid == Count(es, (e: Event) => e.Heard?)
    && st.sensorBytes == BytesHeard(es)
    && st.malformed == Count(es, (e: Event) => e.Rejected? && e.fault.MalformedJson?)
    && st.schemaRejections == Count(es, (e: Event) => e.Rejected? && e.fault.SchemaRejected?)
    && st.rejectedReadings
         == Count(es, (e: Event) => e.Rejected? && e.fault.SchemaRejected? && e.fault.reading)
  }

  predicate EndingsCounted(es: seq<Event>, st: Stats) {
    && st.accepted == Count(es, (e: Event) => e.Accepted?)
    && st.active == st.accepted - Count(es, (e: Event) => e.Ended?)
    && st.overlong == Count(es, (e: Event) => e.Ended? && e.ending == Overlong)
    && st.truncated == Count(es, (e: Event) => e.Ended? && e.ending == Truncated)
    && st.idle == Count(es, (e: Event) => e.Ended? && e.ending == Idle)
  }

  lemma CountSnoc(es: seq<Event>, e: Event, p: Event -> bool)
    ensures Count(es + [e], p) == Count(es, p) + (if p(e) then 1 else 0)
  {
    FilterSnoc(es, e, p);
  }

  lemma StepCountsLines(th: Thresholds, f: Front, es: seq<Event>, e: Event)
    requires Enabled(f, e) && LinesCounted(es, f.stats)
    ensures LinesCounted(es + [e], Step(th, f, e).stats)
  {
    assert (es + [e])[..|es|] == es;
    CountSnoc(es, e, (e: Event) => e.Heard?);
    CountSnoc(es, e, (e: Event) => e.Rejected? && e.fault.MalformedJson?);
    CountSnoc(es, e, (e: Event) => e.Rejected? && e.fault.SchemaRejected?);
    CountSnoc(es, e, (e: Event) => e.Rejected? && e.fault.SchemaRejected? && e.fault.reading);
  }

  lemma StepCountsEndings(th: Thresholds, f: Front, es: seq<Event>, e: Event)
    requires Enabled(f, e) && EndingsCounted(es, f.stats)
    ensures EndingsCounted(es + [e], Step(th, f, e).stats)
  {
    CountSnoc(es, e, (e: Event) => e.Accepted?);
    CountSnoc(es, e, (e: Event) => e.Ended?);
    CountSnoc(es, e, (e: Event) => e.Ended? && e.ending == Overlong);
    CountSnoc(es, e, (e: Event) => e.Ended? && e.ending == Truncated);
    CountSnoc(es, e, (e: Event) => e.Ended? && e.ending == Idle);
  }

  /**
   * In every run each line that is read raises exactly the counters of its kind,
   * each connection is counted, and each ending raises the counter of its cause.
   */
  lemma {:induction false} LinesAndEndingsAreCounted(th: Thresholds, es: seq<Event>)
    ensures LinesCounted(Happened(th, es), Run(th, es).stats)
    ensures EndingsCounted(Happened(th, es), Run(th, es).stats)
  {
    if es != [] {
      var k := |es| - 1;
      var f, done := Run(th, es[..k]), Happened(th, es[..k]);
      LinesAndEndingsAreCounted(th, es[..k]);
      if Enabled(f, es[k]) {
        assert Happened(th, es) == done + [es[k]];
        StepCountsLines(th, f, done, es[k]);
        StepCountsEndings(th, f, done, es[k]);
      } else {
        assert Happened(th, es) == done + [] == done;
      }
    }
  }

  // ----- Counting over handlers -----

  function SumOver(hs: seq<Handler>, f: Handler -> nat): nat {
    if hs == [] then 0 else SumOver(hs[..|hs| - 1], f) + f(hs[|hs| - 1])
  }

  lemma SumSnoc(hs: seq<Handler>, h: Handler, f: Handler -> nat)
    ensures SumOver(hs + [h], f) == SumOver(hs, f) + f(h)
  {
    assert (hs + [h])[..|hs|] == hs;
  }

  lemma {:induction false} SumUpdate(hs: seq<Handler>, id: nat, h: Handler, f: Handler -> nat)
    requires id < |hs|
    ensures SumOver(hs[id := h], f) + f(hs[id]) == SumOver(hs, f) + f(h)
    ensures SumOver(hs, f) >= f(hs[id])
  {
    var n := |hs| - 1;
    if id < n {
      SumUpdate(hs[..n], id, h, f);
      assert hs[id := h][..n] == hs[..n][id := h];
    } else {
      assert hs[id := h][..n] == hs[..n];
    }
  }

  /** Open handlers through which node `n` has spoken. */
  function Holders(hs: seq<Handler>, n: string): nat {
    SumOver(hs, (h: Handler) => if n in h.nodes then 1 else 0)
  }

  function OpenCount(hs: seq<Handler>): nat {
    SumOver(hs, (h: Handler) => if h.open then 1 else 0)
  }

  // ----- What every step keeps -----

  predicate CountsMatch(f: Front) {
    && (forall n | n in f.registry.nodes ::
          var r := f.registry.nodes[n];
          r.activeConnections == Holders(f.handlers, n) && (r.connected <==> r.activeConnections > 0))
    && (forall i, n | 0 <= i < |f.handlers| && n in f.handlers[i].nodes :: n in f.registry.nodes)
    && (forall i | 0 <= i < |f.handlers| && !f.handlers[i].open :: f.handlers[i] == CLOSED)
    && f.stats.active == OpenCount(f.handlers)
  }

  /** Every transition was handed over once, in order, labelled with its true cause. */
  predicate HandledExactly(f: Front) {
    && |f.handled| == |f.causes| == |f.registry.log|
    && forall i | 0 <= i < |f.handled| ::
         f.handled[i].transition == f.registry.log[i] && f.handled[i].reason == f.causes[i]
  }

  ghost predicate Inv(f: Front, th: Thresholds, now: nat) {
    && RegistryRuns.Inv(f.registry, th, now)
    && CountsMatch(f) && HandledExactly(f)
  }

  lemma LaterKeeps(f: Front, th: Thresholds, now: nat, later: nat)
    requires Inv(f, th, now) && now <= later && th.suspectNs <= th.offlineNs
    ensures Inv(f, th, later)
  {
    forall n | n in f.registry.nodes
      ensures RegistryRuns.Sound(f.registry.nodes[n], th, later)
    {
      RegistryRuns.LaterTarget(th, f.registry.nodes[n], now, later);
    }
  }

  lemma HoldersUpdate(hs: seq<Handler>, id: nat, h: Handler, n: string)
    requires id < |hs|
    ensures Holders(hs[id := h], n) + (if n in hs[id].nodes then 1 else 0)
         == Holders(hs, n) + (if n in h.nodes then 1 else 0)
    ensures Holders(hs, n) >= (if n in hs[id].nodes then 1 else 0)
  {
    SumUpdate(hs, id, h, (x: Handler) => if n in x.nodes then 1 else 0);
  }

  lemma OpenUpdate(hs: seq<Handler>, id: nat, h: Handler)
    requires id < |hs|
    ensures OpenCount(hs[id := h]) + (if hs[id].open then 1 else 0)
         == OpenCount(hs) + (if h.open then 1 else 0)
  {
    SumUpdate(hs, id, h, (x: Handler) => if x.open then 1 else 0);
  }

  /** A node nobody has heard of is held by no handler. */
  lemma {:induction false} UnknownIsUnheld(hs: seq<Handler>, n: string)
    requires forall i | 0 <= i < |hs| :: n !in hs[i].nodes
    ensures Holders(hs, n) == 0
  {
    if hs != [] {
      UnknownIsUnheld(hs[..|hs| - 1], n);
    }
  }

  lemma AcceptKeeps(f: Front, th: Thresholds, now: nat)
    requires Inv(f, th, now)
    ensures Inv(Accept(f), th, now)
  {
    var h := Handler(true, {}, None);
    forall n
      ensures Holders(f.handlers + [h], n) == Holders(f.handlers, n)
    {
      SumSnoc(f.handlers, h, (x: Handler) => if n in x.nodes then 1 else 0);
    }
    SumSnoc(f.handlers, h, (x: Handler) => if x.open then 1 else 0);
  }

  /** The slice handed over after a message is exactly what the message added to the log. */
  lemma NewTransitionsAreLogged(v: View, m: Message, ms: nat, ns: nat)
    requires WellFormed(v)
    ensures var added := NewTransitions(v, m, ms, ns);
      && Observed(v, m, ms, ns).log == v.log + added
      && forall i | 0 <= i < |added| :: ReasonOf(added[i])
           == if m.nodeId in v.nodes then ValidMessageRecovery else InitialMessage
  {
    if m.nodeId in v.nodes {
      var r := v.nodes[m.nodeId];
      assert (r.transitions + Recovery(r, ms))[|r.transitions|..] == Recovery(r, ms);
    }
  }

  lemma HandleMore(f: Front, f': Front, added: seq<HealthTransition>, cause: Reason)
    requires HandledExactly(f)
    requires f'.registry.log == f.registry.log + added
    requires f'.handled == f.handled + Handle(added)
    requires f'.causes == f.causes + Repeat(cause, |added|)
    requires forall i | 0 <= i < |added| :: ReasonOf(added[i]) == cause
    ensures HandledExactly(f')
  {
  }

  lemma HearKeepsCounts(f: Front, id: nat, m: Message, ms: nat, ns: nat, bytes: nat)
    requires CountsMatch(f) && id < |f.handlers| && f.handlers[id].open
    ensures CountsMatch(Hear(f, id, m, ms, ns, bytes))
  {
    var f', h := Hear(f, id, m, ms, ns, bytes), f.handlers[id];
    var h' := h.(nodes := h.nodes + {m.nodeId});
    OpenUpdate(f.handlers, id, h');
    forall n | n in f'.registry.nodes
      ensures var r := f'.registry.nodes[n];
        r.activeConnections == Holders(f'.handlers, n) && (r.connected <==> r.activeConnections > 0)
    {
      HoldersUpdate(f.handlers, id, h', n);
      if n !in f.registry.nodes {
        UnknownIsUnheld(f.handlers, n);
      }
    }
  }

  lemma HearKeeps(f: Front, id: nat, m: Message, ms: nat, ns: nat, bytes: nat, th: Thresholds, now: nat)
    requires Inv(f, th, now) && now <= ns && th.suspectNs <= th.offlineNs
    requires id < |f.handlers| && f.handlers[id].open
    ensures Inv(Hear(f, id, m, ms, ns, bytes), th, ns)
  {
    HearKeepsCounts(f, id, m, ms, ns, bytes);
    HearKeepsHealth(f.registry, f.handlers[id].nodes, m, ms, ns, th, now);
    HearIsHandled(f, id, m, ms, ns, bytes);
  }

  lemma HearKeepsHealth(v: View, known: set<string>, m: Message, ms: nat, ns: nat, th: Thresholds, now: nat)
    requires RegistryRuns.Inv(v, th, now) && now <= ns && th.suspectNs <= th.offlineNs
    ensures RegistryRuns.Inv(HeardBy(v, known, m, ms, ns), th, ns)
  {
    RegistryRuns.HeardKeeps(v, th, now, m, ms, ns);
    if m.nodeId !in known {
      OpenKeepsHealth(Observed(v, m, ms, ns), m.nodeId, th, ns);
    }
  }

  lemma OpenKeepsHealth(v: View, n: string, th: Thresholds, now: nat)
    requires RegistryRuns.Inv(v, th, now) && n in v.nodes && th.suspectNs <= th.offlineNs
    ensures RegistryRuns.Inv(Opened(v, n), th, now)
  {
    RegistryRuns.StepKeeps(v, th, now, RegistryRuns.Attached(n));
  }

  lemma HearIsHandled(f: Front, id: nat, m: Message, ms: nat, ns: nat, bytes: nat)
    requires WellFormed(f.registry) && HandledExactly(f) && id < |f.handlers|
    ensures HandledExactly(Hear(f, id, m, ms, ns, bytes))
  {
    NewTransitionsAreLogged(f.registry, m, ms, ns);
    HandleMore(f, Hear(f, id, m, ms, ns, bytes), NewTransitions(f.registry, m, ms, ns),
               if m.nodeId in f.registry.nodes then ValidMessageRecovery else InitialMessage);
  }

  /** Liveness checks only ever report degradation, so their label is right. */
  lemma {:induction false} ChangesAreTimeouts(v: View, order: seq<string>, th: Thresholds, now: nat,
                                              ns: nat, ms: nat)
    requires RegistryRuns.Inv(v, th, now) && now <= ns && th.suspectNs <= th.offlineNs
    requires forall n | n in order :: n in v.nodes
    ensures forall t | t in Changes(v.nodes, order, th, ns, ms) :: ReasonOf(t) == LivenessTimeout
  {
    if order != [] {
      var k := |order| - 1;
      assert order[k] in order;
      ChangesAreTimeouts(v, order[..k], th, now, ns, ms);
      RegistryRuns.RefreshIsSound(v.nodes[order[k]], ns, ms, th, now);
    }
  }

  lemma CheckKeeps(f: Front, th: Thresholds, now: nat, ns: nat, ms: nat)
    requires Inv(f, th, now) && now <= ns && th.suspectNs <= th.offlineNs
    ensures Inv(Check(f, th, ns, ms), th, ns)
  {
    RegistryRuns.CheckKeeps(f.registry, th, now, ns, ms);
    CheckCounts(f, th, ns, ms);
    CheckIsHandled(f, th, now, ns, ms);
  }

  lemma CheckCounts(f: Front, th: Thresholds, ns: nat, ms: nat)
    requires WellFormed(f.registry) && CountsMatch(f)
    ensures CountsMatch(Check(f, th, ns, ms))
  {
  }

  lemma CheckIsHandled(f: Front, th: Thresholds, now: nat, ns: nat, ms: nat)
    requires RegistryRuns.Inv(f.registry, th, now) && HandledExactly(f)
    requires now <= ns && th.suspectNs <= th.offlineNs
    ensures HandledExactly(Check(f, th, ns, ms))
  {
    assert forall n | n in f.registry.order :: n in Elements(f.registry.order);
    var changed := Changes(f.registry.nodes, f.registry.order, th, ns, ms);
    ChangesAreTimeouts(f.registry, f.registry.order, th, now, ns, ms);
    assert forall i | 0 <= i < |changed| :: changed[i] in changed;
    HandleMore(f, Check(f, th, ns, ms), changed, LivenessTimeout);
  }

  /** The clamp at zero in connection_closed never takes effect. */
  lemma ClampNeverActs(f: Front, id: nat, n: string)
    requires CountsMatch(f) && id < |f.handlers| && n in f.handlers[id].nodes
    ensures n in f.registry.nodes && f.registry.nodes[n].activeConnections >= 1
  {
    HoldersUpdate(f.handlers, id, CLOSED, n);
  }

  lemma LeaveKeepsCounts(f: Front, id: nat, e: Ending)
    requires CountsMatch(f) && id < |f.handlers| && f.handlers[id].open
    ensures CountsMatch(Leave(f, id, e))
  {
    var f' := Leave(f, id, e);
    OpenUpdate(f.handlers, id, CLOSED);
    forall n | n in f'.registry.nodes
      ensures var r := f'.registry.nodes[n];
        r.activeConnections == Holders(f'.handlers, n) && (r.connected <==> r.activeConnections > 0)
    {
      HoldersUpdate(f.handlers, id, CLOSED, n);
    }
  }

  lemma LeaveKeeps(f: Front, id: nat, e: Ending, th: Thresholds, now: nat)
    requires Inv(f, th, now) && id < |f.handlers| && f.handlers[id].open
    ensures Inv(Leave(f, id, e), th, now)
  {
    LeaveKeepsCounts(f, id, e);
    RegistryRuns.HealthIgnoresConnections(f.registry, CloseAll(f.registry, f.handlers[id].nodes), th, now);
  }

  lemma RejectKeeps(f: Front, fault: Fault, th: Thresholds, now: nat)
    requires Inv(f, th, now)
    ensures Inv(Reject(f, fault), th, now)
  {
  }

  /** Suspending or resuming a handler changes no count. */
  lemma SuspendKeeps(f: Front, id: nat, pending: Option<Received>, th: Thresholds, now: nat)
    requires Inv(f, th, now) && id < |f.handlers| && f.handlers[id].open
    ensures Inv(Suspend(f, id, pending), th, now)
  {
    var h := f.handlers[id].(pending := pending);
    OpenUpdate(f.handlers, id, h);
    forall n
      ensures Holders(f.handlers[id := h], n) == Holders(f.handlers, n)
    {
      HoldersUpdate(f.handlers, id, h, n);
    }
  }

  // ----- The server object -----

  class GatewayServer {
    const registry: NodeRegistry
    var handlers: seq<Handler>
    var stats: Stats
    var handled: seq<HealthEvent>
    ghost var causes: seq<Reason>

    ghost function Abstract(): Front
      reads this, registry
    {
      Front(handlers, registry.Contents(), stats, handled, causes)
    }

    constructor (registry: NodeRegistry)
      requires registry.Contents() == EMPTY
      ensures this.registry == registry && Abstract() == INITIAL
    {
      this.registry := registry;
      handlers, stats, handled, causes := [], INITIAL.stats, [], [];
    }

    method AcceptClient() returns (id: nat)
      modifies `handlers, `stats
      ensures id == old(|handlers|) && Abstract() == Accept(old(Abstract()))
    {
      id := |handlers|;
      handlers := handlers + [Handler(true, {}, None)];
      stats := stats.(accepted := stats.accepted + 1, active := stats.active + 1);
    }

    method HandleTransitions(ts: seq<HealthTransition>, ghost cause: Reason)
      modifies `handled, `causes
      ensures handled == old(handled) + Handle(ts)
      ensures causes == old(causes) + Repeat(cause, |ts|)
    {
      for i := 0 to |ts|
        invariant handled == old(handled) + Handle(ts[..i])
        modifies `handled
      {
        var t := ts[i];
        var reason := if t.previous.None? then InitialMessage
                      else if t.current.Online? then ValidMessageRecovery
                      else LivenessTimeout;
        handled := handled + [HealthEvent(t, reason)];
        assert ts[..i + 1] == ts[..i] + [t];
      }
      assert ts[..|ts|] == ts;
      causes := causes + Repeat(cause, |ts|);
    }

    /** A valid line: everything up to the message callback. */
    method ReadValid(id: nat, m: Message, ms: nat, ns: nat, bytes: nat) returns (r: Received)
      requires registry.Valid() && id < |handlers|
      modifies `handlers, `stats, `handled, `causes, registry
      ensures registry.Valid() && Abstract() == Hear(old(Abstract()), id, m, ms, ns, bytes)
      ensures r == Received(m, ms, ns, bytes, StatusOf(old(registry.Contents()), m))
    {
      stats := stats.(valid := stats.valid + 1, sensorBytes := stats.sensorBytes + bytes);
      var status := ObserveMessage(m, ms, ns);
      NoteConnection(id, m.nodeId);
      r := Received(m, ms, ns, bytes, status);
    }

    method ObserveMessage(m: Message, ms: nat, ns: nat) returns (status: SequenceStatus)
      requires registry.Valid()
      modifies `handled, `causes, registry
      ensures registry.Valid() && registry.Contents() == Observed(old(registry.Contents()), m, ms, ns)
      ensures status == StatusOf(old(registry.Contents()), m)
      ensures var added := NewTransitions(old(registry.Contents()), m, ms, ns);
        && handled == old(handled) + Handle(added)
        && causes == old(causes) + Repeat(if m.nodeId in old(registry.nodes) then ValidMessageRecovery
                                          else InitialMessage, |added|)
    {
      var known := m.nodeId in registry.nodes;
      var count := if known then |registry.nodes[m.nodeId].transitions| else 0;
      status := registry.Observe(m, ms, ns);
      var after := registry.nodes[m.nodeId].transitions;
      HandleTransitions(if count <= |after| then after[count..] else [],
                        if known then ValidMessageRecovery else InitialMessage);
    }

    method NoteConnection(id: nat, nodeId: string)
      requires registry.Valid() && id < |handlers| && nodeId in registry.nodes
      modifies `handlers, registry
      ensures registry.Valid()
      ensures handlers == old(handlers)[id := old(handlers[id]).(nodes := old(handlers[id].nodes) + {nodeId})]
      ensures registry.Contents() == if nodeId in old(handlers[id].nodes) then old(registry.Contents())
                                     else Opened(old(registry.Contents()), nodeId)
    {
      var h := handlers[id];
      if nodeId !in h.nodes {
        handlers := handlers[id := h.(nodes := h.nodes + {nodeId})];
        registry.ConnectionOpened(nodeId);
      } else {
        assert h.nodes + {nodeId} == h.nodes;
      }
    }

    method SuspendHandler(id: nat, pending: Option<Received>)
      requires id < |handlers|
      modifies `handlers
      ensures Abstract() == Suspend(old(Abstract()), id, pending)
    {
      handlers := handlers[id := handlers[id].(pending := pending)];
    }

    /** Whatever the event loop schedules next, if it can happen now. */
    method Perform(e: Event)
      requires registry.Valid()
      modifies this, registry
      ensures registry.Valid()
      ensures Abstract() == if Enabled(old(Abstract()), e)
                            then Step(registry.thresholds, old(Abstract()), e) else old(Abstract())
    {
      match e {
        case Accepted => var _ := AcceptClient();
        case Heard(id, m, ms, ns, bytes) =>
          if Listens(id) { var _ := ReadValid(id, m, ms, ns, bytes); }
        case Suspended(id, r) =>
          if Listens(id) { SuspendHandler(id, Some(r)); }
        case Resumed(id) =>
          if id < |handlers| && handlers[id].pending.Some? { SuspendHandler(id, None); }
        case Rejected(id, fault) =>
          if Listens(id) { RejectLine(fault); }
        case Ended(id, ending) =>
          if Listens(id) { CloseClient(id, ending); }
        case Checked(ns, ms) => MonitorLiveness(ns, ms);
      }
    }

    predicate Listens(id: nat)
      reads this
    {
      id < |handlers| && handlers[id].open && handlers[id].pending.None?
    }

    method RejectLine(fault: Fault)
      modifies `stats
      ensures Abstract() == Reject(old(Abstract()), fault)
    {
      match fault {
        case MalformedJson => stats := stats.(malformed := stats.malformed + 1);
        case SchemaRejected(reading) =>
          stats := stats.(schemaRejections := stats.schemaRejections + 1);
          if reading {
            stats := stats.(rejectedReadings := stats.rejectedReadings + 1);
          }
      }
    }

    method MonitorLiveness(ns: nat, ms: nat)
      requires registry.Valid()
      modifies `handled, `causes, registry
      ensures registry.Valid() && Abstract() == Check(old(Abstract()), registry.thresholds, ns, ms)
    {
      assert forall n | n in registry.order :: n in Elements(registry.order);
      ghost var v := registry.Contents();
      var changed := registry.RefreshHealth(ns, ms);
      ghost var expected := Changes(v.nodes, v.order, registry.thresholds, ns, ms);
      assert v.log + changed == v.log + expected;
      assert changed == (v.log + changed)[|v.log|..] && expected == (v.log + expected)[|v.log|..];
      HandleTransitions(changed, LivenessTimeout);
    }

    /** The handler's exit path closes every node it spoke for, in any order. */
    method CloseClient(id: nat, e: Ending)
      requires registry.Valid() && id < |handlers|
      modifies `handlers, `stats, registry
      ensures registry.Valid() && Abstract() == Leave(old(Abstract()), id, e)
    {
      stats := CountEnding(stats, e);
      stats := stats.(active := stats.active - 1);
      var todo := handlers[id].nodes;
      ghost var was, all := registry.Contents(), todo;
      while todo != {}
        invariant registry.Valid() && todo <= all
        invariant registry.Contents() == CloseAll(was, all - todo)
        modifies registry
        decreases |todo|
      {
        var n :| n in todo;
        CloseOneMore(was, all - todo, n);
        registry.ConnectionClosed(n);
        assert all - todo + {n} == all - (todo - {n});
        todo := todo - {n};
      }
      assert all - {} == all;
      handlers := handlers[id := CLOSED];
    }
  }

  lemma CloseOneMore(v: View, done: set<string>, n: string)
    requires n !in done
    ensures Closed(CloseAll(v, done), n) == CloseAll(v, done + {n})
  {
    assert Closed(CloseAll(v, done), n).nodes == CloseAll(v, done + {n}).nodes;
  }

  /** A server driven by any schedule is in the state the steps say. */
  method Drive(server: GatewayServer, schedule: seq<Event>)
    requires server.registry.Valid() && server.Abstract() == INITIAL
    modifies server, server.registry
    ensures server.registry.Valid()
    ensures server.Abstract() == Run(server.registry.thresholds, schedule)
  {
    for i := 0 to |schedule|
      invariant server.registry.Valid()
      invariant server.Abstract() == Run(server.registry.thresholds, schedule[..i])
    {
      RunSnoc(server.registry.thresholds, schedule[..i], schedule[i]);
      assert schedule[..i + 1] == schedule[..i] + [schedule[i]];
      server.Perform(schedule[i]);
    }
    assert schedule[..|schedule|] == schedule;
  }
}
