/** Per-node sequence, connection and liveness state of the edge gateway. */
module Registry {
  import opened Common
  import opened Messages
  import opened SequenceTracking

  datatype Health = Online | Suspect | Offline

  datatype HealthTransition =
    HealthTransition(nodeId: string, previous: Option<Health>, current: Health, timestampMs: nat)

  datatype SensorValues = SensorValues(temperature: real, humidity: real, pressure: real)

  datatype NodeRecord = NodeRecord(
    nodeId: string, kind: NodeKind, connected: bool, activeConnections: nat,
    firstSeenMs: nat, lastSeenMs: nat, lastSeenNs: nat, tally: Tally, messages: nat,
    values: Option<SensorValues>, health: Health, transitions: seq<HealthTransition>)

  datatype Thresholds = Thresholds(suspectNs: int, offlineNs: int)

  /** The registry as a value; `order` is the dictionary's insertion order. */
  datatype View = View(nodes: map<string, NodeRecord>, order: seq<string>, log: seq<HealthTransition>)

  const EMPTY := View(map[], [], [])

  predicate WellFormed(v: View) {
    && Distinct(v.order) && Elements(v.order) == v.nodes.Keys
    && forall n | n in v.nodes :: v.nodes[n].nodeId == n
  }

  function ValuesOf(m: Message): Option<SensorValues> {
    if m.Reading? then Some(SensorValues(m.temperature, m.humidity, m.pressure)) else None
  }

  function Target(th: Thresholds, elapsedNs: int): Health {
    if elapsedNs >= th.offlineNs then Offline
    else if elapsedNs >= th.suspectNs then Suspect
    else Online
  }

  // ----- What each operation does to the registry -----

  function NewRecord(m: Message, ms: nat, ns: nat): NodeRecord {
    NodeRecord(m.nodeId, m.kind, false, 0, ms, ms, ns, Fresh(m.sequence), 1, ValuesOf(m), Online,
               [HealthTransition(m.nodeId, None, Online, ms)])
  }

  function SeenRecord(r: NodeRecord, m: Message, ms: nat, ns: nat): NodeRecord {
    var values := ValuesOf(m);
    r.(tally := Classify(r.tally, m.sequence).0, messages := r.messages + 1, kind := m.kind,
       lastSeenMs := ms, lastSeenNs := ns, values := if values.Some? then values else r.values,
       health := Online, transitions := r.transitions + Recovery(r, ms))
  }

  function Recovery(r: NodeRecord, ms: nat): seq<HealthTransition> {
    if r.health == Online then [] else [HealthTransition(r.nodeId, Some(r.health), Online, ms)]
  }

  function Observed(v: View, m: Message, ms: nat, ns: nat): View {
    if m.nodeId in v.nodes then
      var r := v.nodes[m.nodeId];
      v.(nodes := v.nodes[m.nodeId := SeenRecord(r, m, ms, ns)], log := v.log + Recovery(r, ms))
    else
      var r := NewRecord(m, ms, ns);
      View(v.nodes[m.nodeId := r], v.order + [m.nodeId], v.log + r.transitions)
  }

  function StatusOf(v: View, m: Message): SequenceStatus {
    if m.nodeId in v.nodes then Classify(v.nodes[m.nodeId].tally, m.sequence).1 else First
  }

  /** The transition a liveness check makes for one node, if any. */
  function Change(r: NodeRecord, th: Thresholds, ns: int, ms: nat): seq<HealthTransition> {
    var target := Target(th, ns - r.lastSeenNs);
    if target == r.health then [] else [HealthTransition(r.nodeId, Some(r.health), target, ms)]
  }

  function RefreshRecord(r: NodeRecord, th: Thresholds, ns: int, ms: nat): NodeRecord {
    r.(health := Target(th, ns - r.lastSeenNs), transitions := r.transitions + Change(r, th, ns, ms))
  }

  function Changes(nodes: map<string, NodeRecord>, order: seq<string>, th: Thresholds,
                   ns: int, ms: nat): seq<HealthTransition>
    requires forall n | n in order :: n in nodes
  {
    if order == [] then []
    else
      var k := |order| - 1;
      assert order[k] in order;
      Changes(nodes, order[..k], th, ns, ms) + Change(nodes[order[k]], th, ns, ms)
  }

  function Refreshed(v: View, th: Thresholds, ns: int, ms: nat): View
    requires WellFormed(v)
  {
    assert forall n | n in v.order :: n in Elements(v.order);
    View(map n | n in v.nodes :: RefreshRecord(v.nodes[n], th, ns, ms), v.order,
         v.log + Changes(v.nodes, v.order, th, ns, ms))
  }

  function Opened(v: View, n: string): View
    requires n in v.nodes
  {
    var r := v.nodes[n];
    v.(nodes := v.nodes[n := r.(activeConnections := r.activeConnections + 1, connected := true)])
  }

  function Disconnected(r: NodeRecord): NodeRecord {
    var left := if r.activeConnections > 0 then r.activeConnections - 1 else 0;
    r.(activeConnections := left, connected := left > 0)
  }

  function Closed(v: View, n: string): View {
    if n !in v.nodes then v else v.(nodes := v.nodes[n := Disconnected(v.nodes[n])])
  }

  // ----- The dictionary's keys and its iteration order stay in step -----

  lemma ObservedWellFormed(v: View, m: Message, ms: nat, ns: nat)
    requires WellFormed(v)
    ensures WellFormed(Observed(v, m, ms, ns))
  {
    assert Elements(v.order + [m.nodeId]) == Elements(v.order) + {m.nodeId};
    if m.nodeId !in v.nodes {
      assert m.nodeId !in Elements(v.order);
      assert forall i | 0 <= i < |v.order| :: v.order[i] in Elements(v.order);
    }
  }

  lemma RefreshedWellFormed(v: View, th: Thresholds, ns: int, ms: nat)
    requires WellFormed(v)
    ensures WellFormed(Refreshed(v, th, ns, ms))
  {
  }

  /** The nodes in `done` have been checked, the others not yet. */
  predicate Checked(was: map<string, NodeRecord>, now: map<string, NodeRecord>, done: set<string>,
                    th: Thresholds, ns: int, ms: nat) {
    && now.Keys == was.Keys
    && forall n | n in was ::
         now[n] == if n in done then RefreshRecord(was[n], th, ns, ms) else was[n]
  }

  class NodeRegistry {
    const thresholds: Thresholds
    var nodes: map<string, NodeRecord>
    var order: seq<string>
    var transitions: seq<HealthTransition>

    ghost function Contents(): View
      reads this
    {
      View(nodes, order, transitions)
    }

    ghost predicate Valid()
      reads this
    {
      WellFormed(Contents()) && thresholds.suspectNs <= thresholds.offlineNs
    }

    constructor (expectedInterval: real, suspectAfter: real, offlineAfter: real)
      requires expectedInterval > 0.0 && 0.0 < suspectAfter < offlineAfter
      ensures Valid() && Contents() == EMPTY
      ensures thresholds.suspectNs == (expectedInterval * suspectAfter * 1000000000.0).Floor
      ensures thresholds.offlineNs == (expectedInterval * offlineAfter * 1000000000.0).Floor
    {
      ThresholdOrder(expectedInterval, suspectAfter, offlineAfter);
      thresholds := Thresholds((expectedInterval * suspectAfter * 1000000000.0).Floor,
                               (expectedInterval * offlineAfter * 1000000000.0).Floor);
      nodes, order, transitions := map[], [], [];
    }

    static lemma ThresholdOrder(e: real, s: real, o: real)
      requires e > 0.0 && s < o
      ensures (e * s * 1000000000.0).Floor <= (e * o * 1000000000.0).Floor
    {
      assert e * o - e * s == e * (o - s) > 0.0;
    }

    method Observe(m: Message, ms: nat, ns: nat) returns (status: SequenceStatus)
      requires Valid()
      modifies this
      ensures Valid()
      ensures Contents() == Observed(old(Contents()), m, ms, ns)
      ensures status == StatusOf(old(Contents()), m)
    {
      ObservedWellFormed(Contents(), m, ms, ns);
      if m.nodeId !in nodes {
        var record := NodeRecord(m.nodeId, m.kind, false, 0, ms, ms, ns, Fresh(m.sequence), 1,
                                 ValuesOf(m), Online, []);
        nodes := nodes[m.nodeId := record];
        order := order + [m.nodeId];
        var t := Transition(m.nodeId, Online, ms, true);
        assert [] + [t] == [t];
        assert nodes == old(nodes)[m.nodeId := NewRecord(m, ms, ns)];
        status := First;
      } else {
        status := ObserveKnown(m, ms, ns);
      }
    }

    method ObserveKnown(m: Message, ms: nat, ns: nat) returns (status: SequenceStatus)
      requires m.nodeId in nodes
      modifies `nodes, `transitions
      ensures Contents() == Observed(old(Contents()), m, ms, ns)
      ensures status == StatusOf(old(Contents()), m)
    {
      var previousHealth := nodes[m.nodeId].health;
      status := ClassifySequence(m.nodeId, m.sequence);
      var record := nodes[m.nodeId];
      record := record.(messages := record.messages + 1, kind := m.kind,
                        lastSeenMs := ms, lastSeenNs := ns);
      var values := ValuesOf(m);
      if values.Some? {
        record := record.(values := values);
      }
      nodes := nodes[m.nodeId := record];
      if previousHealth != Online {
        var _ := Transition(m.nodeId, Online, ms, false);
      } else {
        assert record.transitions + [] == record.transitions;
        assert transitions + [] == transitions;
      }
      assert nodes == old(nodes)[m.nodeId := SeenRecord(old(nodes[m.nodeId]), m, ms, ns)];
    }

    method ClassifySequence(nodeId: string, sequence: nat) returns (status: SequenceStatus)
      requires nodeId in nodes
      modifies `nodes
      ensures var (tally, s) := Classify(old(nodes[nodeId].tally), sequence);
        status == s && nodes == old(nodes)[nodeId := old(nodes[nodeId]).(tally := tally)]
    {
      var record := nodes[nodeId];
      var tally := record.tally;
      if sequence == tally.last {
        tally := tally.(duplicates := tally.duplicates + 1);
        status := Duplicate;
      } else if sequence > tally.last {
        var missing := sequence - tally.last - 1;
        tally := tally.(last := sequence);
        if missing != 0 {
          tally := tally.(missing := tally.missing + missing);
          status := Gap;
        } else {
          status := InOrder;
        }
      } else if sequence == 0 {
        tally := tally.(resets := tally.resets + 1);
        tally := tally.(last := sequence);
        status := Reset;
      } else {
        tally := tally.(outOfOrder := tally.outOfOrder + 1);
        status := OutOfOrder;
      }
      nodes := nodes[nodeId := record.(tally := tally)];
    }

    method Transition(nodeId: string, current: Health, ms: nat, initial: bool)
      returns (t: HealthTransition)
      requires nodeId in nodes
      modifies `nodes, `transitions
      ensures var r := old(nodes[nodeId]);
        && t == HealthTransition(r.nodeId, if initial then None else Some(r.health), current, ms)
        && nodes == old(nodes)[nodeId := r.(health := current, transitions := r.transitions + [t])]
        && transitions == old(transitions) + [t]
    {
      var record := nodes[nodeId];
      t := HealthTransition(record.nodeId, if initial then None else Some(record.health), current, ms);
      nodes := nodes[nodeId := record.(health := current, transitions := record.transitions + [t])];
      transitions := transitions + [t];
    }

    method ConnectionOpened(nodeId: string)
      requires Valid() && nodeId in nodes
      modifies `nodes
      ensures Valid() && Contents() == Opened(old(Contents()), nodeId)
    {
      var record := nodes[nodeId];
      nodes := nodes[nodeId := record.(activeConnections := record.activeConnections + 1,
                                       connected := true)];
    }

    method ConnectionClosed(nodeId: string)
      requires Valid()
      modifies `nodes
      ensures Valid() && Contents() == Closed(old(Contents()), nodeId)
    {
      if nodeId !in nodes {
        return;
      }
      var record := nodes[nodeId];
      var left: nat := if record.activeConnections > 0 then record.activeConnections - 1 else 0;
      nodes := nodes[nodeId := record.(activeConnections := left, connected := left > 0)];
    }

    /** One iteration of the liveness check. */
    method RefreshNode(nodeId: string, ns: int, ms: nat) returns (change: seq<HealthTransition>)
      requires nodeId in nodes
      modifies `nodes, `transitions
      ensures change == Change(old(nodes[nodeId]), thresholds, ns, ms)
      ensures nodes == old(nodes)[nodeId := RefreshRecord(old(nodes[nodeId]), thresholds, ns, ms)]
      ensures transitions == old(transitions) + change
    {
      var record := nodes[nodeId];
      var elapsed := ns - record.lastSeenNs;
      var target := if elapsed >= thresholds.offlineNs then Offline
                    else if elapsed >= thresholds.suspectNs then Suspect
                    else Online;
      change := [];
      if target != record.health {
        var t := Transition(nodeId, target, ms, false);
        change := [t];
      } else {
        assert RefreshRecord(record, thresholds, ns, ms) == record;
      }
    }

    /** Every node is checked once against the same instant, in insertion order. */
    method RefreshHealth(ns: int, ms: nat) returns (changed: seq<HealthTransition>)
      requires Valid()
      modifies `nodes, `transitions
      ensures Valid()
      ensures Contents() == Refreshed(old(Contents()), thresholds, ns, ms)
      ensures transitions == old(transitions) + changed
    {
      ghost var was := Contents();
      RefreshedWellFormed(was, thresholds, ns, ms);
      assert forall n | n in order :: n in Elements(order);
      changed := CheckAll(ns, ms);
      assert nodes == Refreshed(was, thresholds, ns, ms).nodes;
    }

    method CheckAll(ns: int, ms: nat) returns (changed: seq<HealthTransition>)
      requires Distinct(order) && forall n | n in order :: n in nodes
      modifies `nodes, `transitions
      ensures Checked(old(nodes), nodes, Elements(order), thresholds, ns, ms)
      ensures changed == Changes(old(nodes), order, thresholds, ns, ms)
      ensures transitions == old(transitions) + changed
    {
      var ids := order;
      ghost var was, log := nodes, transitions;
      changed := [];
      var i := 0;
      while i < |ids|
        invariant i <= |ids| && order == ids
        invariant Checked(was, nodes, Elements(ids[..i]), thresholds, ns, ms)
        invariant changed == Changes(was, ids[..i], thresholds, ns, ms)
        invariant transitions == log + changed
      {
        NextInOrder(ids, i);
        ghost var before := nodes;
        var change := RefreshNode(ids[i], ns, ms);
        changed := changed + change;
        CheckedStep(was, before, nodes, Elements(ids[..i]), ids[i], thresholds, ns, ms);
        i := i + 1;
      }
      assert ids[..|ids|] == ids;
    }
  }

  lemma NextInOrder(order: seq<string>, i: nat)
    requires Distinct(order) && i < |order|
    ensures order[i] in Elements(order) && order[i] !in Elements(order[..i])
    ensures Elements(order[..i + 1]) == Elements(order[..i]) + {order[i]}
    ensures order[..i + 1][..i] == order[..i]
  {
    assert order[..i + 1] == order[..i] + [order[i]];
  }

  lemma CheckedStep(was: map<string, NodeRecord>, before: map<string, NodeRecord>,
                    now: map<string, NodeRecord>, done: set<string>, n: string,
                    th: Thresholds, ns: int, ms: nat)
    requires Checked(was, before, done, th, ns, ms) && n in was && n !in done
    requires now == before[n := RefreshRecord(before[n], th, ns, ms)]
    ensures Checked(was, now, done + {n}, th, ns, ms)
  {
  }
}
