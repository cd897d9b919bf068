/**
 * Whole runs of the registry, for every mix of messages, liveness checks and
 * connection changes: the ONLINE/SUSPECT/OFFLINE machine over a clock that never
 * goes back, and the sequence counters of each node among the others' traffic.
 */
module RegistryRuns {
  import opened Common
  import opened Messages
  import opened SequenceTracking
  import opened NodeProtocol
  import opened Registry

  datatype Event =
    | Heard(m: Message, ms: nat, ns: nat)
    | Checked(ns: nat, ms: nat)
    | Attached(nodeId: string)
    | Detached(nodeId: string)

  function Step(v: View, th: Thresholds, e: Event): View
    requires WellFormed(v)
  {
    match e
    case Heard(m, ms, ns) => Observed(v, m, ms, ns)
    case Checked(ns, ms) => Refreshed(v, th, ns, ms)
    case Attached(n) => if n in v.nodes then Opened(v, n) else v
    case Detached(n) => Closed(v, n)
  }

  lemma StepWellFormed(v: View, th: Thresholds, e: Event)
    requires WellFormed(v)
    ensures WellFormed(Step(v, th, e))
  {
    match e
    case Heard(m, ms, ns) => ObservedWellFormed(v, m, ms, ns);
    case Checked(ns, ms) => RefreshedWellFormed(v, th, ns, ms);
    case Attached(n) =>
    case Detached(n) =>
  }

  function Run(th: Thresholds, es: seq<Event>): (v: View)
    ensures WellFormed(v)
  {
    if es == [] then
      assert Elements(EMPTY.order) == {};
      EMPTY
    else
      var v := Run(th, es[..|es| - 1]);
      StepWellFormed(v, th, es[|es| - 1]);
      Step(v, th, es[|es| - 1])
  }

  function TimeOf(e: Event, otherwise: nat): nat {
    if e.Heard? || e.Checked? then e.ns else otherwise
  }

  /** The latest clock reading used so far. */
  function Now(es: seq<Event>): nat {
    if es == [] then 0 else TimeOf(es[|es| - 1], Now(es[..|es| - 1]))
  }

  predicate ClockNeverGoesBack(es: seq<Event>) {
    forall k | 0 <= k < |es| :: Now(es[..k]) <= TimeOf(es[k], Now(es[..k]))
  }

  function Severity(h: Health): nat {
    match h case Online => 0 case Suspect => 1 case Offline => 2
  }

  function OfNode(log: seq<HealthTransition>, n: string): seq<HealthTransition> {
    if log == [] then []
    else
      var t := log[|log| - 1];
      OfNode(log[..|log| - 1], n) + (if t.nodeId == n then [t] else [])
  }

  /** A linked path from registration to `end`, without self-loops. */
  predicate Path(log: seq<HealthTransition>, end: Health) {
    && log != []
    && log[0].previous == None && log[0].current == Online
    && (forall i | 1 <= i < |log| ::
          log[i].previous == Some(log[i - 1].current) && log[i].current != log[i - 1].current)
    && log[|log| - 1].current == end
  }

  lemma PathExtends(log: seq<HealthTransition>, end: Health, t: HealthTransition)
    requires Path(log, end) && t.previous == Some(end) && t.current != end
    ensures Path(log + [t], t.current)
  {
  }

  /** What holds of one node's record when the clock reads `now`. */
  predicate Sound(r: NodeRecord, th: Thresholds, now: nat) {
    && Path(r.transitions, r.health)
    && r.messages >= 1
    && r.lastSeenNs <= now
    && Severity(r.health) <= Severity(Target(th, now - r.lastSeenNs))
    && |r.transitions| + 2 <= 3 * r.messages + Severity(r.health)
  }

  ghost predicate Inv(v: View, th: Thresholds, now: nat) {
    && WellFormed(v)
    && (forall n | n in v.nodes :: Sound(v.nodes[n], th, now))
    && (forall n :: OfNode(v.log, n) == if n in v.nodes then v.nodes[n].transitions else [])
  }

  lemma LaterTarget(th: Thresholds, r: NodeRecord, now: nat, later: nat)
    requires Sound(r, th, now) && now <= later && th.suspectNs <= th.offlineNs
    ensures Sound(r, th, later)
  {
  }

  lemma SeenIsSound(r: NodeRecord, m: Message, ms: nat, ns: nat, th: Thresholds, now: nat)
    requires Sound(r, th, now) && now <= ns && m.nodeId == r.nodeId
    ensures Sound(SeenRecord(r, m, ms, ns), th, ns)
  {
    if r.health != Online {
      PathExtends(r.transitions, r.health, Recovery(r, ms)[0]);
    }
  }

  lemma RefreshIsSound(r: NodeRecord, ns: nat, ms: nat, th: Thresholds, now: nat)
    requires Sound(r, th, now) && now <= ns && th.suspectNs <= th.offlineNs
    ensures Sound(RefreshRecord(r, th, ns, ms), th, ns)
    ensures Severity(RefreshRecord(r, th, ns, ms).health) >= Severity(r.health)
  {
    LaterTarget(th, r, now, ns);
    var changed := Change(r, th, ns, ms);
    if changed != [] {
      PathExtends(r.transitions, r.health, changed[0]);
    }
  }

  /** A node's share of one liveness check is its own change. */
  lemma {:induction false} ChangesOfNode(nodes: map<string, NodeRecord>, order: seq<string>,
                                         th: Thresholds, ns: int, ms: nat, n: string)
    requires Distinct(order)
    requires forall k | k in order :: k in nodes
    requires forall k | k in nodes :: nodes[k].nodeId == k
    ensures OfNode(Changes(nodes, order, th, ns, ms), n)
         == if n in order then Change(nodes[n], th, ns, ms) else []
  {
    if order != [] {
      var front, id := order[..|order| - 1], order[|order| - 1];
      LastIsNew(order, n);
      ChangesOfNode(nodes, front, th, ns, ms, n);
      var before, change := Changes(nodes, front, th, ns, ms), Change(nodes[id], th, ns, ms);
      ChangesLast(nodes, order, th, ns, ms);
      ShareOfLast(before, change, Changes(nodes, order, th, ns, ms), id, n);
      if n == id {
        assert OfNode(before, n) == [];
      }
    }
  }

  lemma ChangesLast(nodes: map<string, NodeRecord>, order: seq<string>, th: Thresholds, ns: int, ms: nat)
    requires order != [] && forall k | k in order :: k in nodes
    ensures var front, id := order[..|order| - 1], order[|order| - 1];
      && id in nodes && (forall k | k in front :: k in nodes)
      && Changes(nodes, order, th, ns, ms) == Changes(nodes, front, th, ns, ms) + Change(nodes[id], th, ns, ms)
  {
    assert order[|order| - 1] in order;
  }

  lemma ShareOfLast(before: seq<HealthTransition>, change: seq<HealthTransition>,
                    all: seq<HealthTransition>, id: string, n: string)
    requires all == before + change && |change| <= 1 && forall t | t in change :: t.nodeId == id
    ensures n != id ==> OfNode(all, n) == OfNode(before, n)
    ensures n == id && OfNode(before, n) == [] ==> OfNode(all, n) == change
  {
    OneTransition(change, id, n);
    ShareOf(before, change, n);
  }

  lemma LastIsNew(order: seq<string>, n: string)
    requires Distinct(order) && order != []
    ensures var front, id := order[..|order| - 1], order[|order| - 1];
      && id in order && id !in front && Distinct(front)
      && (n in order <==> n in front || n == id)
      && (forall k | k in front :: k in order)
  {
    assert order == order[..|order| - 1] + [order[|order| - 1]];
  }

  lemma OneShare(a: seq<HealthTransition>, b: seq<HealthTransition>)
    ensures a == [] ==> a + b == b
    ensures b == [] ==> a + b == a
  {
  }

  lemma OneTransition(change: seq<HealthTransition>, id: string, n: string)
    requires |change| <= 1 && forall t | t in change :: t.nodeId == id
    ensures OfNode(change, n) == if n == id then change else []
  {
    if |change| == 1 {
      assert change[0] in change && change[..0] == [] && change == [] + [change[0]];
    }
  }

  lemma HeardSound(v: View, th: Thresholds, now: nat, m: Message, ms: nat, ns: nat, n: string)
    requires WellFormed(v) && now <= ns && th.suspectNs <= th.offlineNs
    requires n in v.nodes ==> Sound(v.nodes[n], th, now)
    requires n in Observed(v, m, ms, ns).nodes
    ensures Sound(Observed(v, m, ms, ns).nodes[n], th, ns)
  {
    if n != m.nodeId {
      LaterTarget(th, v.nodes[n], now, ns);
    } else if n in v.nodes {
      SeenIsSound(v.nodes[n], m, ms, ns, th, now);
    }
  }

  lemma HeardKeeps(v: View, th: Thresholds, now: nat, m: Message, ms: nat, ns: nat)
    requires Inv(v, th, now) && now <= ns && th.suspectNs <= th.offlineNs
    ensures Inv(Observed(v, m, ms, ns), th, ns)
  {
    var v' := Observed(v, m, ms, ns);
    ObservedWellFormed(v, m, ms, ns);
    forall n | n in v'.nodes
      ensures Sound(v'.nodes[n], th, ns)
    {
      HeardSound(v, th, now, m, ms, ns, n);
    }
    forall n
      ensures OfNode(v'.log, n) == if n in v'.nodes then v'.nodes[n].transitions else []
    {
      HeardLog(v, m, ms, ns, n);
    }
  }

  lemma HeardLog(v: View, m: Message, ms: nat, ns: nat, n: string)
    requires WellFormed(v)
    requires OfNode(v.log, n) == if n in v.nodes then v.nodes[n].transitions else []
    ensures var v' := Observed(v, m, ms, ns);
      OfNode(v'.log, n) == if n in v'.nodes then v'.nodes[n].transitions else []
  {
    var added := if m.nodeId in v.nodes then Recovery(v.nodes[m.nodeId], ms)
                 else NewRecord(m, ms, ns).transitions;
    OneTransition(added, m.nodeId, n);
    ShareOf(v.log, added, n);
  }

  /** What new transitions add to one node's log. */
  lemma ShareOf(log: seq<HealthTransition>, added: seq<HealthTransition>, n: string)
    ensures var share := OfNode(added, n);
      && OfNode(log + added, n) == OfNode(log, n) + share
      && (share == [] ==> OfNode(log + added, n) == OfNode(log, n))
      && (OfNode(log, n) == [] ==> OfNode(log + added, n) == share)
  {
    OfNodeConcat(log, added, n);
    OneShare(OfNode(log, n), OfNode(added, n));
  }

  lemma OfNodeSnoc(log: seq<HealthTransition>, t: HealthTransition, n: string, all: seq<HealthTransition>)
    requires all == log + [t]
    ensures OfNode(all, n) == OfNode(log, n) + (if t.nodeId == n then [t] else [])
  {
    assert all[..|log|] == log;
  }

  lemma {:induction false} OfNodeConcat(a: seq<HealthTransition>, b: seq<HealthTransition>, n: string)
    ensures OfNode(a + b, n) == OfNode(a, n) + OfNode(b, n)
  {
    if b == [] {
      assert a + b == a && OfNode(b, n) == [];
    } else {
      var front, t := b[..|b| - 1], b[|b| - 1];
      OfNodeConcat(a, front, n);
      OfNodeSnoc(a + front, t, n, a + b);
      OfNodeSnoc(front, t, n, b);
      Assoc(OfNode(a, n), OfNode(front, n), if t.nodeId == n then [t] else []);
    }
  }

  lemma CheckKeeps(v: View, th: Thresholds, now: nat, ns: nat, ms: nat)
    requires Inv(v, th, now) && now <= ns && th.suspectNs <= th.offlineNs
    ensures Inv(Refreshed(v, th, ns, ms), th, ns)
  {
    var v' := Refreshed(v, th, ns, ms);
    RefreshedWellFormed(v, th, ns, ms);
    forall n | n in v'.nodes
      ensures Sound(v'.nodes[n], th, ns)
    {
      RefreshIsSound(v.nodes[n], ns, ms, th, now);
    }
    forall n
      ensures OfNode(v'.log, n) == if n in v'.nodes then v'.nodes[n].transitions else []
    {
      CheckLog(v, th, ns, ms, n);
    }
  }

  lemma CheckLog(v: View, th: Thresholds, ns: nat, ms: nat, n: string)
    requires WellFormed(v)
    requires OfNode(v.log, n) == if n in v.nodes then v.nodes[n].transitions else []
    ensures var v' := Refreshed(v, th, ns, ms);
      OfNode(v'.log, n) == if n in v'.nodes then v'.nodes[n].transitions else []
  {
    assert forall k | k in v.order :: k in Elements(v.order);
    ChangesOfNode(v.nodes, v.order, th, ns, ms, n);
    ShareOf(v.log, Changes(v.nodes, v.order, th, ns, ms), n);
    assert n in v.nodes <==> n in Elements(v.order);
  }

  predicate SameButConnections(r: NodeRecord, r': NodeRecord) {
    r' == r.(activeConnections := r'.activeConnections, connected := r'.connected)
  }

  /** Connection fields play no part in health. */
  lemma HealthIgnoresConnections(v: View, v': View, th: Thresholds, now: nat)
    requires Inv(v, th, now)
    requires v'.order == v.order && v'.log == v.log && v'.nodes.Keys == v.nodes.Keys
    requires forall n | n in v.nodes :: SameButConnections(v.nodes[n], v'.nodes[n])
    ensures Inv(v', th, now)
  {
    forall n | n in v'.nodes
      ensures Sound(v'.nodes[n], th, now) && v'.nodes[n].nodeId == n
    {
      StillSound(v.nodes[n], v'.nodes[n], th, now);
    }
    assert forall n | n in v.nodes :: v'.nodes[n].transitions == v.nodes[n].transitions;
  }

  lemma StillSound(r: NodeRecord, r': NodeRecord, th: Thresholds, now: nat)
    requires Sound(r, th, now) && SameButConnections(r, r')
    ensures Sound(r', th, now) && r'.nodeId == r.nodeId && r'.transitions == r.transitions
  {
  }

  lemma StepKeeps(v: View, th: Thresholds, now: nat, e: Event)
    requires Inv(v, th, now) && now <= TimeOf(e, now) && th.suspectNs <= th.offlineNs
    ensures Inv(Step(v, th, e), th, TimeOf(e, now))
  {
    match e
    case Heard(m, ms, ns) => HeardKeeps(v, th, now, m, ms, ns);
    case Checked(ns, ms) => CheckKeeps(v, th, now, ns, ms);
    case Attached(n) => if n in v.nodes { AttachKeeps(v, th, now, n); }
    case Detached(n) => DetachKeeps(v, th, now, n);
  }

  lemma AttachKeeps(v: View, th: Thresholds, now: nat, n: string)
    requires Inv(v, th, now) && n in v.nodes
    ensures Inv(Opened(v, n), th, now)
  {
    var v' := Opened(v, n);
    assert forall k | k in v.nodes :: SameButConnections(v.nodes[k], v'.nodes[k]);
    HealthIgnoresConnections(v, v', th, now);
  }

  lemma DetachKeeps(v: View, th: Thresholds, now: nat, n: string)
    requires Inv(v, th, now)
    ensures Inv(Closed(v, n), th, now)
  {
    var v' := Closed(v, n);
    assert forall k | k in v.nodes :: SameButConnections(v.nodes[k], v'.nodes[k]);
    HealthIgnoresConnections(v, v', th, now);
  }

  lemma {:induction false} RunKeeps(th: Thresholds, es: seq<Event>)
    requires ClockNeverGoesBack(es) && th.suspectNs <= th.offlineNs
    ensures Inv(Run(th, es), th, Now(es))
  {
    if es != [] {
      var k := |es| - 1;
      assert forall i | 0 <= i < k :: es[..k][..i] == es[..i];
      RunKeeps(th, es[..k]);
      assert Now(es[..k]) <= TimeOf(es[k], Now(es[..k]));
      StepKeeps(Run(th, es[..k]), th, Now(es[..k]), es[k]);
    }
  }

  /**
   * In every run each node's own log is a linked path from its registration to
   * its current status, is the global log restricted to that node, and makes at
   * most three transitions per message received.
   */
  lemma LogsAreLinkedPaths(th: Thresholds, es: seq<Event>, n: string)
    requires ClockNeverGoesBack(es) && th.suspectNs <= th.offlineNs
    requires n in Run(th, es).nodes
    ensures var v := Run(th, es); var r := v.nodes[n];
      && Path(r.transitions, r.health)
      && OfNode(v.log, n) == r.transitions
      && |r.transitions| <= 3 * r.messages
  {
    RunKeeps(th, es);
  }

  /** A liveness check never moves a node toward ONLINE, and never reports ONLINE. */
  lemma ChecksOnlyDegrade(th: Thresholds, es: seq<Event>, ns: nat, ms: nat, n: string)
    requires ClockNeverGoesBack(es) && th.suspectNs <= th.offlineNs && Now(es) <= ns
    requires n in Run(th, es).nodes
    ensures var before, after := Run(th, es).nodes[n], Refreshed(Run(th, es), th, ns, ms).nodes[n];
      && Severity(after.health) >= Severity(before.health)
      && forall t | t in Change(before, th, ns, ms) :: t.current != Online
  {
    RunKeeps(th, es);
    RefreshIsSound(Run(th, es).nodes[n], ns, ms, th, Now(es));
  }

  // ----- What a record says about what was heard -----

  /** The last message heard from node `n`, and when. */
  function LastHeard(es: seq<Event>, n: string): Option<Event> {
    if es == [] then None
    else
      var e := es[|es| - 1];
      if e.Heard? && e.m.nodeId == n then Some(e) else LastHeard(es[..|es| - 1], n)
  }

  function FirstHeardMs(es: seq<Event>, n: string): Option<nat> {
    if es == [] then None
    else
      var e, earlier := es[|es| - 1], FirstHeardMs(es[..|es| - 1], n);
      if earlier.None? && e.Heard? && e.m.nodeId == n then Some(e.ms) else earlier
  }

  function LastReading(es: seq<Event>, n: string): Option<Message> {
    if es == [] then None
    else
      var e := es[|es| - 1];
      if e.Heard? && e.m.nodeId == n && e.m.Reading? then Some(e.m)
      else LastReading(es[..|es| - 1], n)
  }

  /** When liveness was last checked, if that was after node `n` was last heard. */
  function CheckedSince(es: seq<Event>, n: string): Option<nat> {
    if es == [] then None
    else
      var e := es[|es| - 1];
      if e.Checked? then Some(e.ns)
      else if e.Heard? && e.m.nodeId == n then None
      else CheckedSince(es[..|es| - 1], n)
  }

  predicate IsLatest(r: NodeRecord, es: seq<Event>, n: string) {
    var last, reading := LastHeard(es, n), LastReading(es, n);
    && last.Some? && last.value.Heard?
    && r.nodeId == n && r.kind == last.value.m.kind
    && r.lastSeenMs == last.value.ms && r.lastSeenNs == last.value.ns
    && FirstHeardMs(es, n) == Some(r.firstSeenMs)
    && r.values == (if reading.Some? && reading.value.Reading?
                    then Some(SensorValues(reading.value.temperature, reading.value.humidity,
                                           reading.value.pressure))
                    else None)
  }

  predicate Described(v: View, es: seq<Event>, n: string) {
    && (n in v.nodes <==> LastHeard(es, n).Some?)
    && (n !in v.nodes ==> FirstHeardMs(es, n) == None && LastReading(es, n) == None)
    && (n in v.nodes ==> IsLatest(v.nodes[n], es, n))
  }

  lemma StepDescribes(v: View, th: Thresholds, es: seq<Event>, e: Event, n: string)
    requires WellFormed(v) && Described(v, es, n)
    ensures Described(Step(v, th, e), es + [e], n)
  {
    assert (es + [e])[..|es|] == es;
  }

  /** A record holds the node's latest message, latest reading and first appearance. */
  lemma {:induction false} RecordIsLatest(th: Thresholds, es: seq<Event>, n: string)
    ensures n in Run(th, es).nodes <==> LastHeard(es, n).Some?
    ensures n in Run(th, es).nodes ==> IsLatest(Run(th, es).nodes[n], es, n)
    ensures Described(Run(th, es), es, n)
  {
    if es != [] {
      var k := |es| - 1;
      RecordIsLatest(th, es[..k], n);
      StepDescribes(Run(th, es[..k]), th, es[..k], es[k], n);
      assert es[..k] + [es[k]] == es;
    }
  }

  /** The verdict of a liveness check on a node silent for `d` nanoseconds. */
  predicate Verdict(h: Health, d: int, suspectNs: int, offlineNs: int) {
    && (h == Offline <==> d >= offlineNs)
    && (h == Suspect <==> suspectNs <= d < offlineNs)
    && (h == Online <==> d < suspectNs)
  }

  /** ONLINE if heard since the last check, else as that check found it. */
  predicate HealthSays(h: Health, es: seq<Event>, n: string, th: Thresholds) {
    && LastHeard(es, n).Some? && LastHeard(es, n).value.Heard?
    && (CheckedSince(es, n).None? ==> h == Online)
    && (CheckedSince(es, n).Some? ==>
          Verdict(h, CheckedSince(es, n).value - LastHeard(es, n).value.ns, th.suspectNs, th.offlineNs))
  }

  predicate HealthExplained(v: View, es: seq<Event>, n: string, th: Thresholds) {
    n in v.nodes ==> HealthSays(v.nodes[n].health, es, n, th)
  }

  lemma HeardHealth(v: View, th: Thresholds, es: seq<Event>, e: Event, n: string)
    requires e.Heard? && HealthExplained(v, es, n, th)
    ensures HealthExplained(Observed(v, e.m, e.ms, e.ns), es + [e], n, th)
  {
    assert (es + [e])[..|es|] == es;
  }

  lemma CheckedHealth(v: View, th: Thresholds, es: seq<Event>, e: Event, n: string)
    requires WellFormed(v) && e.Checked? && th.suspectNs <= th.offlineNs
    requires HealthExplained(v, es, n, th) && Described(v, es, n)
    ensures HealthExplained(Refreshed(v, th, e.ns, e.ms), es + [e], n, th)
  {
    assert (es + [e])[..|es|] == es;
    if n in v.nodes {
      var d := e.ns - v.nodes[n].lastSeenNs;
      assert Verdict(Refreshed(v, th, e.ns, e.ms).nodes[n].health, d, th.suspectNs, th.offlineNs);
    }
  }

  lemma ConnectionHealth(v: View, th: Thresholds, es: seq<Event>, e: Event, n: string)
    requires WellFormed(v) && (e.Attached? || e.Detached?) && HealthExplained(v, es, n, th)
    ensures HealthExplained(Step(v, th, e), es + [e], n, th)
  {
    assert (es + [e])[..|es|] == es;
  }

  lemma StepHealth(v: View, th: Thresholds, es: seq<Event>, e: Event, n: string)
    requires WellFormed(v) && th.suspectNs <= th.offlineNs
    requires HealthExplained(v, es, n, th) && Described(v, es, n)
    ensures HealthExplained(Step(v, th, e), es + [e], n, th)
  {
    match e
    case Heard(_, _, _) => HeardHealth(v, th, es, e, n);
    case Checked(_, _) => CheckedHealth(v, th, es, e, n);
    case _ => ConnectionHealth(v, th, es, e, n);
  }

  lemma {:induction false} RunHealth(th: Thresholds, es: seq<Event>, n: string)
    requires th.suspectNs <= th.offlineNs
    ensures HealthExplained(Run(th, es), es, n, th)
  {
    if es != [] {
      var k := |es| - 1;
      RunHealth(th, es[..k], n);
      RecordIsLatest(th, es[..k], n);
      StepHealth(Run(th, es[..k]), th, es[..k], es[k], n);
      assert es[..k] + [es[k]] == es;
    }
  }

  /**
   * Health, in every run: a node heard since the last liveness check is ONLINE;
   * otherwise its status is decided by how long before that check it was last
   * heard, against the two thresholds.
   */
  lemma HealthMeansSilence(th: Thresholds, es: seq<Event>, n: string)
    requires th.suspectNs <= th.offlineNs && n in Run(th, es).nodes
    ensures LastHeard(es, n).Some? && LastHeard(es, n).value.Heard?
    ensures var h, check := Run(th, es).nodes[n].health, CheckedSince(es, n);
      && (check.None? ==> h == Online)
      && (check.Some? ==>
            var d := check.value - LastHeard(es, n).value.ns;
            && (h == Offline <==> d >= th.offlineNs)
            && (h == Suspect <==> th.suspectNs <= d < th.offlineNs)
            && (h == Online <==> d < th.suspectNs))
  {
    RunHealth(th, es, n);
  }

  /** Every transition is stamped with the instant of the event that caused it. */
  lemma TransitionsAreStamped(th: Thresholds, es: seq<Event>, e: Event)
    ensures var before, after := Run(th, es).log, Run(th, es + [e]).log;
      && before <= after
      && (forall t | t in after[|before|..] :: (e.Heard? || e.Checked?) && t.timestampMs == e.ms)
  {
    RunSnoc(th, es, e);
    StepStamps(Run(th, es), th, e);
  }

  lemma StepStamps(v: View, th: Thresholds, e: Event)
    requires WellFormed(v)
    ensures var before, after := v.log, Step(v, th, e).log;
      && before <= after
      && (forall t | t in after[|before|..] :: (e.Heard? || e.Checked?) && t.timestampMs == e.ms)
  {
    if e.Checked? {
      CheckStamps(v, th, e.ns, e.ms);
    }
  }

  lemma CheckStamps(v: View, th: Thresholds, ns: nat, ms: nat)
    requires WellFormed(v)
    ensures var before, after := v.log, Refreshed(v, th, ns, ms).log;
      before <= after && forall t | t in after[|before|..] :: t.timestampMs == ms
  {
    assert forall n | n in v.order :: n in Elements(v.order);
    ChangesAreStamped(v.nodes, v.order, th, ns, ms);
    var added := Changes(v.nodes, v.order, th, ns, ms);
    assert (v.log + added)[|v.log|..] == added;
  }

  lemma {:induction false} ChangesAreStamped(nodes: map<string, NodeRecord>, order: seq<string>,
                                             th: Thresholds, ns: int, ms: nat)
    requires forall n | n in order :: n in nodes
    ensures forall t | t in Changes(nodes, order, th, ns, ms) :: t.timestampMs == ms
  {
    if order != [] {
      assert order[|order| - 1] in order;
      ChangesAreStamped(nodes, order[..|order| - 1], th, ns, ms);
    }
  }

  // ----- Nodes do not disturb each other -----

  /** The sequence numbers node `n` delivered, in order. */
  function SequencesOf(es: seq<Event>, n: string): seq<nat> {
    if es == [] then []
    else
      var e := es[|es| - 1];
      SequencesOf(es[..|es| - 1], n) + (if e.Heard? && e.m.nodeId == n then [e.m.sequence] else [])
  }

  predicate TalliedFrom(v: View, n: string, vs: seq<nat>) {
    && (n in v.nodes <==> vs != [])
    && (n in v.nodes ==> v.nodes[n].tally == TallyOf(vs) && v.nodes[n].messages == |vs|)
  }

  lemma StepTallies(v: View, th: Thresholds, e: Event, n: string, vs: seq<nat>)
    requires WellFormed(v) && TalliedFrom(v, n, vs)
    ensures TalliedFrom(Step(v, th, e), n,
                        vs + (if e.Heard? && e.m.nodeId == n then [e.m.sequence] else []))
  {
    if e.Heard? && e.m.nodeId == n {
      var vs' := vs + [e.m.sequence];
      if vs == [] {
        assert vs'[1..] == [];
      } else {
        TallySnoc(vs');
        assert vs'[..|vs|] == vs;
      }
    } else {
      assert vs + [] == vs;
    }
  }

  /**
   * A node's sequence counters depend on its own messages alone, whatever other
   * nodes send and whenever liveness is checked or connections change.
   */
  lemma {:induction false} CountersAreOwn(th: Thresholds, es: seq<Event>, n: string)
    ensures TalliedFrom(Run(th, es), n, SequencesOf(es, n))
  {
    if es != [] {
      var k := |es| - 1;
      CountersAreOwn(th, es[..k], n);
      StepTallies(Run(th, es[..k]), th, es[k], n, SequencesOf(es[..k], n));
    }
  }

  /** The statuses the registry reported for node `n`, in order. */
  function Reported(th: Thresholds, es: seq<Event>, n: string): seq<SequenceStatus> {
    if es == [] then []
    else
      var k := |es| - 1;
      Reported(th, es[..k], n)
      + (if es[k].Heard? && es[k].m.nodeId == n then [StatusOf(Run(th, es[..k]), es[k].m)] else [])
  }

  lemma OneMoreStatus(v: View, m: Message, vs: seq<nat>)
    requires TalliedFrom(v, m.nodeId, vs)
    ensures Statuses(vs + [m.sequence]) == Statuses(vs) + [StatusOf(v, m)]
  {
    var vs' := vs + [m.sequence];
    assert vs'[..|vs|] == vs;
  }

  /** The status reported for each message is its status among the node's own messages. */
  lemma {:induction false} ReportedAreStatuses(th: Thresholds, es: seq<Event>, n: string)
    ensures Reported(th, es, n) == Statuses(SequencesOf(es, n))
  {
    if es != [] {
      var k := |es| - 1;
      ReportedAreStatuses(th, es[..k], n);
      CountersAreOwn(th, es[..k], n);
      if es[k].Heard? && es[k].m.nodeId == n {
        OneMoreStatus(Run(th, es[..k]), es[k].m, SequencesOf(es[..k], n));
      } else {
        assert SequencesOf(es[..k], n) + [] == SequencesOf(es[..k], n);
      }
    }
  }

  /** For any arrival order of any node, among any traffic, the registry's counters mean epochs. */
  lemma RegistryCountersMeanEpochs(th: Thresholds, es: seq<Event>, n: string)
    requires n in Run(th, es).nodes
    ensures var t, vs := Run(th, es).nodes[n].tally, SequencesOf(es, n);
      && vs != []
      && t.last == Max(Epochs(vs)[|Epochs(vs)| - 1]) && t.resets == |Epochs(vs)| - 1
      && t.missing - t.outOfOrder <= TotalUnseen(Epochs(vs)) <= t.missing
  {
    CountersAreOwn(th, es, n);
    SpansAreCounted(SequencesOf(es, n));
    MissingIsSandwiched(SequencesOf(es, n));
  }

  /** One boot of a physical node, heard among any other traffic, is accounted exactly. */
  lemma RegistryIsExactForOneBoot(th: Thresholds, es: seq<Event>, n: string, attempts: seq<Attempt>)
    requires SequencesOf(es, n) == Arrivals(attempts) != []
    ensures n in Run(th, es).nodes
    ensures var t, vs := Run(th, es).nodes[n].tally, Arrivals(attempts);
      && t.outOfOrder == 0 && t.resets == 0
      && t.missing == |Unseen(vs)| && t.duplicates == RepeatsIn(vs)
      && (forall v | v in Unseen(vs) :: LostEveryTime(attempts, v))
  {
    CountersAreOwn(th, es, n);
    BootIsExact(attempts);
    ArrivalsOrdered(attempts);
    OrderedExact(Arrivals(attempts));
  }

  /** Any number of boots of a physical node, heard among any other traffic, are accounted exactly. */
  lemma RegistryIsExactAcrossReboots(th: Thresholds, es: seq<Event>, n: string,
                                     boots: seq<seq<Attempt>>)
    requires NodeProtocol.Heard(boots) && SequencesOf(es, n) == Flatten(ArrivalsOf(boots))
    ensures n in Run(th, es).nodes
    ensures BootsCounted(ArrivalsOf(boots), Run(th, es).nodes[n].tally)
    ensures forall k, v | 0 <= k < |boots| && v in Unseen(ArrivalsOf(boots)[k]) ::
      LostEveryTime(boots[k], v)
  {
    CountersAreOwn(th, es, n);
    RebootsAreExact(boots);
  }

  // ----- The registry object -----

  method Perform(registry: NodeRegistry, e: Event)
    requires registry.Valid()
    modifies registry
    ensures registry.Valid()
    ensures registry.Contents() == Step(old(registry.Contents()), registry.thresholds, e)
  {
    match e {
      case Heard(m, ms, ns) => var _ := registry.Observe(m, ms, ns);
      case Checked(ns, ms) => var _ := registry.RefreshHealth(ns, ms);
      case Attached(n) =>
        if n in registry.nodes {
          registry.ConnectionOpened(n);
        }
      case Detached(n) => registry.ConnectionClosed(n);
    }
  }

  lemma RunSnoc(th: Thresholds, es: seq<Event>, e: Event)
    ensures Run(th, es + [e]) == Step(Run(th, es), th, e)
  {
    assert (es + [e])[..|es|] == es;
  }

  /** A registry driven by any events is in the state the runs describe. */
  method Drive(registry: NodeRegistry, events: seq<Event>)
    requires registry.Valid() && registry.Contents() == EMPTY
    modifies registry
    ensures registry.Valid() && registry.Contents() == Run(registry.thresholds, events)
  {
    for i := 0 to |events|
      invariant registry.Valid() && registry.Contents() == Run(registry.thresholds, events[..i])
    {
      RunSnoc(registry.thresholds, events[..i], events[i]);
      assert events[..i + 1] == events[..i] + [events[i]];
      Perform(registry, events[i]);
    }
    assert events[..|events|] == events;
  }
}
