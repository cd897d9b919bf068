/**
 * Generator-side accounting of virtual nodes: counters of every incarnation are
 * summed at two instants and subtracted to give the measured interval.
 */
module Generator {
  import opened Common

  datatype Counters = Counters(samples: nat, attempts: nat, sent: nat, drops: nat)

  const ZERO := Counters(0, 0, 0, 0)

  function Plus(a: Counters, b: Counters): Counters {
    Counters(a.samples + b.samples, a.attempts + b.attempts, a.sent + b.sent, a.drops + b.drops)
  }

  function SumOf(cs: seq<Counters>): Counters {
    if cs == [] then ZERO else Plus(SumOf(cs[..|cs| - 1]), cs[|cs| - 1])
  }

  /** A subtraction of totals, which the code does without checking its sign. */
  datatype Difference = Difference(samples: int, attempts: int, sent: int, drops: int)

  function Minus(a: Counters, b: Counters): Difference {
    Difference(a.samples - b.samples, a.attempts - b.attempts, a.sent - b.sent, a.drops - b.drops)
  }

  /** A running incarnation; `writing` while one message is between attempt and drain. */
  datatype Live = Live(c: Counters, writing: bool)

  /** One node id: ended incarnations, the running one, and writes that never finished. */
  datatype State = State(ended: seq<Counters>, live: Option<Live>, lost: nat)

  const INITIAL := State([], Some(Live(ZERO, false)), 0)

  datatype Event = Sampled(dropped: bool) | WriteDone | WriteFailed | Failed | Recovered

  predicate Enabled(s: State, e: Event) {
    match e
    case Sampled(_) => s.live.Some? && !s.live.value.writing
    case WriteDone => s.live.Some? && s.live.value.writing
    case WriteFailed => s.live.Some? && s.live.value.writing
    case Failed => s.live.Some?
    case Recovered => s.live.None?
  }

  function Sampling(c: Counters, dropped: bool): Counters {
    var c' := c.(samples := c.samples + 1);
    if dropped then c'.(drops := c.drops + 1) else c'.(attempts := c.attempts + 1)
  }

  function Step(s: State, e: Event): State
    requires Enabled(s, e)
  {
    match e
    case Sampled(dropped) => s.(live := Some(Live(Sampling(s.live.value.c, dropped), !dropped)))
    case WriteDone =>
      var c := s.live.value.c;
      s.(live := Some(Live(c.(sent := c.sent + 1), false)))
    case WriteFailed => s.(live := Some(Live(s.live.value.c, false)), lost := s.lost + 1)
    case Failed =>
      State(s.ended + [s.live.value.c], None, s.lost + (if s.live.value.writing then 1 else 0))
    case Recovered => s.(live := Some(Live(ZERO, false)))
  }

  function RunFrom(s: State, es: seq<Event>): State {
    if es == [] then s
    else
      var s' := RunFrom(s, es[..|es| - 1]);
      if Enabled(s', es[|es| - 1]) then Step(s', es[|es| - 1]) else s'
  }

  function Totals(s: State): Counters {
    if s.live.Some? then Plus(SumOf(s.ended), s.live.value.c) else SumOf(s.ended)
  }

  function InFlight(s: State): nat {
    if s.live.Some? && s.live.value.writing then 1 else 0
  }

  predicate Balanced(s: State) {
    var t := Totals(s);
    t.samples == t.attempts + t.drops && t.attempts == t.sent + s.lost + InFlight(s)
  }

  predicate NotBelow(a: Counters, b: Counters) {
    a.samples >= b.samples && a.attempts >= b.attempts && a.sent >= b.sent && a.drops >= b.drops
  }

  lemma StepBalances(s: State, e: Event)
    requires Balanced(s) && Enabled(s, e)
    ensures Balanced(Step(s, e)) && NotBelow(Totals(Step(s, e)), Totals(s)) && Step(s, e).lost >= s.lost
  {
    if e.Failed? {
      assert (s.ended + [s.live.value.c])[..|s.ended|] == s.ended;
    }
  }

  lemma {:induction false} RunBalances(s: State, es: seq<Event>)
    requires Balanced(s)
    ensures Balanced(RunFrom(s, es)) && NotBelow(Totals(RunFrom(s, es)), Totals(s))
    ensures RunFrom(s, es).lost >= s.lost
  {
    if es != [] {
      var n := |es| - 1;
      RunBalances(s, es[..n]);
      if Enabled(RunFrom(s, es[..n]), es[n]) {
        StepBalances(RunFrom(s, es[..n]), es[n]);
      }
    }
  }

  /** Two snapshots and what the measured interval between them amounts to. */
  predicate Measured(base: State, end: State) {
    var d := Minus(Totals(end), Totals(base));
    && d.samples >= 0 && d.attempts >= 0 && d.sent >= 0 && d.drops >= 0
    && d.samples == d.attempts + d.drops
    && d.sent <= d.attempts + InFlight(base) && InFlight(base) <= 1
    && d.attempts - d.sent == (end.lost - base.lost) + InFlight(end) - InFlight(base)
  }

  lemma MeasuredFrom(base: State, during: seq<Event>)
    requires Balanced(base)
    ensures Measured(base, RunFrom(base, during))
  {
    RunBalances(base, during);
  }

  /**
   * Whatever fails and recovers, in the interval between two snapshots every
   * sample was attempted or dropped, no difference is negative, and successful
   * writes exceed attempts by at most the one write in flight at the baseline.
   */
  lemma MeasuredInterval(before: seq<Event>, during: seq<Event>)
    ensures Measured(RunFrom(INITIAL, before), RunFrom(RunFrom(INITIAL, before), during))
  {
    RunBalances(INITIAL, before);
    MeasuredFrom(RunFrom(INITIAL, before), during);
  }

  class VirtualNode {
    var sequence: nat
    var samplesGenerated: nat
    var sendAttempts: nat
    var messagesSent: nat
    var applicationDrops: nat

    function Values(): Counters
      reads this
    {
      Counters(samplesGenerated, sendAttempts, messagesSent, applicationDrops)
    }

    /** Sequence numbers are spent on generation, so a dropped sample leaves a gap. */
    ghost predicate Valid()
      reads this
    {
      && sequence == samplesGenerated == sendAttempts + applicationDrops
      && messagesSent <= sendAttempts
    }

    constructor ()
      ensures Valid() && Values() == ZERO
    {
      sequence, samplesGenerated, sendAttempts, messagesSent, applicationDrops := 0, 0, 0, 0, 0;
    }

    /** One turn of the send loop up to its first suspension. */
    method Sample(dropped: bool) returns (sent: Option<nat>)
      requires Valid()
      modifies this
      ensures Valid() && Values() == Sampling(old(Values()), dropped)
      ensures sent == (if dropped then None else Some(old(sequence)))
      ensures sequence == old(sequence) + 1
    {
      var s := sequence;
      sequence := sequence + 1;
      samplesGenerated := samplesGenerated + 1;
      if dropped {
        applicationDrops := applicationDrops + 1;
        sent := None;
      } else {
        sendAttempts := sendAttempts + 1;
        sent := Some(s);
      }
    }

    method CompleteWrite()
      requires Valid() && messagesSent < sendAttempts
      modifies `messagesSent
      ensures Valid() && Values() == old(Values()).(sent := old(messagesSent) + 1)
    {
      messagesSent := messagesSent + 1;
    }
  }

  function AllValues(nodes: seq<VirtualNode>): seq<Counters>
    reads nodes
  {
    if nodes == [] then [] else AllValues(nodes[..|nodes| - 1]) + [nodes[|nodes| - 1].Values()]
  }

  method SumIncarnations(nodes: seq<VirtualNode>) returns (total: Counters)
    ensures total == SumOf(AllValues(nodes))
  {
    total := ZERO;
    for i := 0 to |nodes|
      invariant total == SumOf(AllValues(nodes[..i]))
    {
      var node := nodes[i];
      assert nodes[..i + 1][..i] == nodes[..i];
      ghost var was := AllValues(nodes[..i]);
      assert (was + [node.Values()])[..|was|] == was;
      total := Counters(total.samples + node.samplesGenerated, total.attempts + node.sendAttempts,
                        total.sent + node.messagesSent, total.drops + node.applicationDrops);
    }
    assert nodes[..|nodes|] == nodes;
  }

  // ----- A node id and its incarnations -----

  /** The incarnations of one node id hold the counters of `s`. */
  ghost predicate Matches(nodes: seq<VirtualNode>, running: bool, writing: bool, s: State)
    reads nodes
  {
    && nodes != [] && Distinct(nodes) && (forall i | 0 <= i < |nodes| :: nodes[i].Valid())
    && (running <==> s.live.Some?) && (writing <==> InFlight(s) == 1)
    && (running ==>
          && nodes[|nodes| - 1].Values() == s.live.value.c
          && AllValues(nodes[..|nodes| - 1]) == s.ended)
    && (writing ==> nodes[|nodes| - 1].messagesSent < nodes[|nodes| - 1].sendAttempts)
    && (!running ==> AllValues(nodes) == s.ended)
  }

  /** Changing one incarnation leaves the counters of the others. */
  twostate lemma {:induction false} OthersUnchanged(nodes: seq<VirtualNode>)
    requires forall i | 0 <= i < |nodes| :: unchanged(nodes[i])
    ensures AllValues(nodes) == old(AllValues(nodes))
  {
    if nodes != [] {
      OthersUnchanged(nodes[..|nodes| - 1]);
    }
  }

  lemma AllValuesSnoc(nodes: seq<VirtualNode>, node: VirtualNode)
    ensures AllValues(nodes + [node]) == AllValues(nodes) + [node.Values()]
  {
    assert (nodes + [node])[..|nodes|] == nodes;
  }

  method Perform(nodes: seq<VirtualNode>, running: bool, writing: bool, e: Event, ghost s: State)
    returns (nodes': seq<VirtualNode>, running': bool, writing': bool)
    requires Matches(nodes, running, writing, s)
    modifies nodes
    ensures Matches(nodes', running', writing', if Enabled(s, e) then Step(s, e) else s)
    ensures forall i | 0 <= i < |nodes'| :: nodes'[i] in nodes || fresh(nodes'[i])
  {
    nodes', running', writing' := nodes, running, writing;
    var last := nodes[|nodes| - 1];
    ghost var front := nodes[..|nodes| - 1];
    assert nodes == front + [last];
    match e {
      case Sampled(dropped) =>
        if running && !writing {
          var _ := last.Sample(dropped);
          writing' := !dropped;
          OthersUnchanged(front);
        }
      case WriteDone =>
        if running && writing {
          last.CompleteWrite();
          writing' := false;
          OthersUnchanged(front);
        }
      case WriteFailed =>
        if running && writing {
          writing' := false;
        }
      case Failed =>
        if running {
          running', writing' := false, false;
          AllValuesSnoc(front, last);
        }
      case Recovered =>
        if !running {
          var node := new VirtualNode();
          OthersUnchanged(nodes);
          nodes', running' := nodes + [node], true;
          assert nodes'[..|nodes|] == nodes;
        }
    }
  }

  lemma RunSnoc(s: State, es: seq<Event>, e: Event)
    ensures var s' := RunFrom(s, es);
      RunFrom(s, es + [e]) == if Enabled(s', e) then Step(s', e) else s'
  {
    assert (es + [e])[..|es|] == es;
  }

  /** The totals of a node id after any schedule of samples, writes, failures and recoveries. */
  method Drive(schedule: seq<Event>) returns (total: Counters)
    ensures total == Totals(RunFrom(INITIAL, schedule))
  {
    var first := new VirtualNode();
    var nodes, running, writing := [first], true, false;
    assert nodes[..0] == [];
    for i := 0 to |schedule|
      invariant Matches(nodes, running, writing, RunFrom(INITIAL, schedule[..i]))
      invariant forall k | 0 <= k < |nodes| :: fresh(nodes[k])
    {
      ghost var s := RunFrom(INITIAL, schedule[..i]);
      RunSnoc(INITIAL, schedule[..i], schedule[i]);
      assert schedule[..i + 1] == schedule[..i] + [schedule[i]];
      nodes, running, writing := Perform(nodes, running, writing, schedule[i], s);
    }
    assert schedule[..|schedule|] == schedule;
    total := SumIncarnations(nodes);
    MatchingTotals(nodes, running, writing, RunFrom(INITIAL, schedule));
  }

  lemma MatchingTotals(nodes: seq<VirtualNode>, running: bool, writing: bool, s: State)
    requires Matches(nodes, running, writing, s)
    ensures SumOf(AllValues(nodes)) == Totals(s)
  {
    if running {
      var front, last := nodes[..|nodes| - 1], nodes[|nodes| - 1];
      AllValuesSnoc(front, last);
      assert nodes == front + [last];
      assert (s.ended + [last.Values()])[..|s.ended|] == s.ended;
    }
  }
}
