/** Gateway-to-collector records and their textual identities. */
module Upstream {
  import opened Messages
  import opened Aggregation

  datatype Record =
    | RawRecord(recordId: string, forwardedAtMs: nat, received: Received)
    | AggregateRecord(recordId: string, forwardedAtMs: nat, summary: WindowSummary)

  /** A record encoded once; every retry resends these same bytes. */
  datatype Frame = Frame(record: Record, size: nat)

  function Digit(d: nat): char
    requires d < 10
  {
    '0' + d as char
  }

  function Decimal(n: nat): (s: string)
    ensures s != [] && forall i | 0 <= i < |s| :: '0' <= s[i] <= '9'
  {
    if n < 10 then [Digit(n)] else Decimal(n / 10) + [Digit(n % 10)]
  }

  /** The number a digit string denotes. */
  function Number(s: string): int {
    if s == [] then 0 else 10 * Number(s[..|s| - 1]) + (s[|s| - 1] as int - '0' as int)
  }

  lemma {:induction false} NumberOfDecimal(n: nat)
    ensures Number(Decimal(n)) == n
  {
    if n < 10 {
      assert Decimal(n)[..0] == [];
    } else {
      NumberOfDecimal(n / 10);
      assert Decimal(n)[..|Decimal(n)| - 1] == Decimal(n / 10);
    }
  }

  lemma DecimalIsInjective(m: nat, n: nat)
    requires Decimal(m) == Decimal(n)
    ensures m == n
  {
    NumberOfDecimal(m);
    NumberOfDecimal(n);
  }

  /** A separator that neither prefix contains splits both strings at the same place. */
  lemma SplitAtColon(a: string, x: string, b: string, y: string)
    requires a + ":" + x == b + ":" + y
    requires ':' !in a && ':' !in b
    ensures a == b && x == y
  {
    var s := a + ":" + x;
    assert s[|a|] == ':' && s[|b|] == ':';
    assert |a| == |b|;
    assert a == s[..|a|] && b == s[..|b|];
    assert x == s[|a| + 1..] && y == s[|b| + 1..];
  }

  function RawId(nodeId: string, sequence: nat, monotonicNs: nat): string {
    "raw:" + (nodeId + ":" + (Decimal(sequence) + ":" + Decimal(monotonicNs)))
  }

  function AggregateId(startMs: nat, endMs: nat): string {
    "aggregate:" + (Decimal(startMs) + ":" + Decimal(endMs))
  }

  /** Where the first colon is; the length if there is none. */
  function Colon(s: string): (i: nat)
    ensures i <= |s| && (forall j | 0 <= j < i :: s[j] != ':') && (i < |s| ==> s[i] == ':')
  {
    if s == [] || s[0] == ':' then 0 else 1 + Colon(s[1..])
  }

  /** The fields of an id, cut at its colons. */
  function Fields(s: string): seq<string>
    decreases |s|
  {
    var i := Colon(s);
    if i == |s| then [s] else [s[..i]] + Fields(s[i + 1..])
  }

  lemma FirstField(a: string, rest: string, s: string)
    requires ':' !in a && s == a + ":" + rest
    ensures Fields(s) == [a] + Fields(rest)
  {
    assert s[|a|] == ':' && s[..|a|] == a && s[|a| + 1..] == rest;
    FirstColon(a, s);
  }

  lemma FirstColon(a: string, s: string)
    requires ':' !in a && |a| < |s| && s[..|a|] == a && s[|a|] == ':'
    ensures Colon(s) == |a|
  {
    assert forall j | 0 <= j < |a| :: s[..|a|][j] in a && s[j] == a[j];
  }

  lemma LastField(a: string)
    requires ':' !in a
    ensures Fields(a) == [a]
  {
    assert forall j | 0 <= j < |a| :: a[j] in a;
    assert Colon(a) == |a|;
  }

  lemma TwoFields(a: string, b: string, s: string)
    requires ':' !in a && ':' !in b && s == a + ":" + b
    ensures Fields(s) == [a, b]
  {
    FirstField(a, b, s);
    LastField(b);
  }

  /** A RAW id names its kind, node, sequence number and receive instant, field by field. */
  lemma RawIdFields(nodeId: string, sequence: nat, monotonicNs: nat)
    requires ValidNodeId(nodeId)
    ensures Fields(RawId(nodeId, sequence, monotonicNs))
         == ["raw", nodeId, Decimal(sequence), Decimal(monotonicNs)]
  {
    var numbers := Decimal(sequence) + ":" + Decimal(monotonicNs);
    TwoFields(Decimal(sequence), Decimal(monotonicNs), numbers);
    NodeFields(nodeId, numbers, Decimal(sequence), Decimal(monotonicNs));
    KindField("raw", "raw:", nodeId + ":" + numbers);
  }

  lemma NodeFields(nodeId: string, numbers: string, x: string, y: string)
    requires ValidNodeId(nodeId) && Fields(numbers) == [x, y]
    ensures Fields(nodeId + ":" + numbers) == [nodeId, x, y]
  {
    FirstField(nodeId, numbers, nodeId + ":" + numbers);
    assert [nodeId] + [x, y] == [nodeId, x, y];
  }

  lemma KindField(kind: string, prefix: string, rest: string)
    requires ':' !in kind && prefix == kind + ":"
    ensures Fields(prefix + rest) == [kind] + Fields(rest)
  {
    FirstField(kind, rest, prefix + rest);
  }

  /** An AGGREGATED id names its kind and the window's bounds. */
  lemma AggregateIdFields(startMs: nat, endMs: nat)
    ensures Fields(AggregateId(startMs, endMs)) == ["aggregate", Decimal(startMs), Decimal(endMs)]
  {
    var bounds := Decimal(startMs) + ":" + Decimal(endMs);
    TwoFields(Decimal(startMs), Decimal(endMs), bounds);
    KindField("aggregate", "aggregate:", bounds);
  }

  /** RAW and AGGREGATED records never share an id. */
  lemma ModesNeverShareAnId(nodeId: string, sequence: nat, monotonicNs: nat, startMs: nat, endMs: nat)
    ensures RawId(nodeId, sequence, monotonicNs) != AggregateId(startMs, endMs)
  {
    assert RawId(nodeId, sequence, monotonicNs)[0] == 'r' && AggregateId(startMs, endMs)[0] == 'a';
  }

  /** Two RAW ids agree only for the same node, sequence and receive instant. */
  lemma RawIdIsInjective(n1: string, s1: nat, t1: nat, n2: string, s2: nat, t2: nat)
    requires ValidNodeId(n1) && ValidNodeId(n2)
    requires RawId(n1, s1, t1) == RawId(n2, s2, t2)
    ensures n1 == n2 && s1 == s2 && t1 == t2
  {
    var r1, r2 := Decimal(s1) + ":" + Decimal(t1), Decimal(s2) + ":" + Decimal(t2);
    assert n1 + ":" + r1 == RawId(n1, s1, t1)[4..] && n2 + ":" + r2 == RawId(n2, s2, t2)[4..];
    SplitAtColon(n1, r1, n2, r2);
    SplitAtColon(Decimal(s1), Decimal(t1), Decimal(s2), Decimal(t2));
    DecimalIsInjective(s1, s2);
    DecimalIsInjective(t1, t2);
  }

  lemma {:induction false} DecimalLength(n: nat, bound: nat, digits: nat)
    requires n < bound && digits >= 1 && bound <= PowerOfTen(digits)
    ensures |Decimal(n)| <= digits
  {
    if n >= 10 {
      assert PowerOfTen(1) == 10;
      DecimalLength(n / 10, PowerOfTen(digits - 1), digits - 1);
    }
  }

  function PowerOfTen(k: nat): nat {
    if k == 0 then 1 else 10 * PowerOfTen(k - 1)
  }

  /** With 64-bit sequence numbers and clocks a RAW id always fits the record's 160 characters. */
  lemma RawIdFits(nodeId: string, sequence: nat, monotonicNs: nat)
    requires ValidNodeId(nodeId)
    requires sequence < 0x1_0000_0000_0000_0000 && monotonicNs < 0x1_0000_0000_0000_0000
    ensures |RawId(nodeId, sequence, monotonicNs)| <= 110
  {
    assert PowerOfTen(5) == 100000;
    assert PowerOfTen(10) == 100000 * 100000;
    assert PowerOfTen(15) == 100000 * 100000 * 100000;
    assert PowerOfTen(20) == 100000 * 100000 * 100000 * 100000;
    DecimalLength(sequence, 0x1_0000_0000_0000_0000, 20);
    DecimalLength(monotonicNs, 0x1_0000_0000_0000_0000, 20);
  }

  lemma AggregateIdIsInjective(s1: nat, e1: nat, s2: nat, e2: nat)
    requires AggregateId(s1, e1) == AggregateId(s2, e2)
    ensures s1 == s2 && e1 == e2
  {
    assert Decimal(s1) + ":" + Decimal(e1) == AggregateId(s1, e1)[10..];
    assert Decimal(s2) + ":" + Decimal(e2) == AggregateId(s2, e2)[10..];
    SplitAtColon(Decimal(s1), Decimal(e1), Decimal(s2), Decimal(e2));
    DecimalIsInjective(s1, s2);
    DecimalIsInjective(e1, e2);
  }

  function RawRecordFor(r: Received, nowMs: nat): Record {
    RawRecord(RawId(r.message.nodeId, r.message.sequence, r.monotonicNs), nowMs, r)
  }

  function AggregateRecordFor(s: WindowSummary, nowMs: nat): Record {
    AggregateRecord(AggregateId(s.startMs, s.endMs), nowMs, s)
  }
}
