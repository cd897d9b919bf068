/** Time-window aggregation: an incremental accumulator against its batch meaning. */
module Aggregation {
  import opened Common
  import opened Messages

  datatype Channel = Temperature | Humidity | Pressure

  /** A message's value on one channel; heartbeats carry none and never reach a window. */
  function ValueOf(r: Received, c: Channel): real {
    if r.message.Heartbeat? then 0.0
    else match c
    case Temperature => r.message.temperature
    case Humidity => r.message.humidity
    case Pressure => r.message.pressure
  }

  datatype ChannelSummary = ChannelSummary(mean: real, min: real, max: real)

  datatype WindowSummary = WindowSummary(
    startMs: nat, endMs: nat, windowSeconds: real, partial: bool, readingCount: nat, nodeCount: nat,
    temperature: ChannelSummary, humidity: ChannelSummary, pressure: ChannelSummary)

  datatype Config = Config(windowSeconds: real, windowNs: nat, windowMs: nat)

  /** Round to the nearest integer, ties to even, as the runtime's `round` does. */
  function RoundHalfEven(x: real): int {
    var f := x.Floor;
    var rest := x - f as real;
    if rest < 0.5 || (rest == 0.5 && f % 2 == 0) then f else f + 1
  }

  function ConfigFor(windowSeconds: real): Config
    requires windowSeconds > 0.0
  {
    Config(windowSeconds, (windowSeconds * 1000000000.0).Floor, RoundHalfEven(windowSeconds * 1000.0))
  }

  /**
   * The window lasts the whole nanoseconds in `windowSeconds`, and its planned end
   * is that many milliseconds on, rounded to the nearest, ties to even.
   */
  lemma WindowLengths(windowSeconds: real)
    requires windowSeconds > 0.0
    ensures var cfg := ConfigFor(windowSeconds);
      && cfg.windowSeconds == windowSeconds
      && cfg.windowNs as real <= windowSeconds * 1000000000.0 < cfg.windowNs as real + 1.0
      && -0.5 <= cfg.windowMs as real - windowSeconds * 1000.0 <= 0.5
      && (cfg.windowMs as real - windowSeconds * 1000.0 in {-0.5, 0.5} ==> cfg.windowMs % 2 == 0)
  {
    RoundsToNearest(windowSeconds * 1000.0);
  }

  lemma RoundsToNearest(x: real)
    ensures -0.5 <= RoundHalfEven(x) as real - x <= 0.5
    ensures RoundHalfEven(x) as real - x in {-0.5, 0.5} ==> RoundHalfEven(x) % 2 == 0
  {
    var f := x.Floor;
    assert f as real <= x < f as real + 1.0 && (f + 1) as real == f as real + 1.0;
  }

  // ----- Batch meaning of one window -----

  function Sum(w: seq<Received>, c: Channel): real {
    if w == [] then 0.0 else Sum(w[..|w| - 1], c) + ValueOf(w[|w| - 1], c)
  }

  function Least(w: seq<Received>, c: Channel): real {
    var n := |w| - 1;
    if w == [] then 0.0
    else if n == 0 then ValueOf(w[0], c)
    else
      var x := Least(w[..n], c);
      if ValueOf(w[n], c) < x then ValueOf(w[n], c) else x
  }

  function Greatest(w: seq<Received>, c: Channel): real {
    var n := |w| - 1;
    if w == [] then 0.0
    else if n == 0 then ValueOf(w[0], c)
    else
      var x := Greatest(w[..n], c);
      if ValueOf(w[n], c) > x then ValueOf(w[n], c) else x
  }

  /** The extremes are attained in the window and bound every value in it. */
  lemma {:induction false} ExtremesBound(w: seq<Received>, c: Channel)
    requires w != []
    ensures exists i | 0 <= i < |w| :: ValueOf(w[i], c) == Least(w, c)
    ensures exists i | 0 <= i < |w| :: ValueOf(w[i], c) == Greatest(w, c)
    ensures forall i | 0 <= i < |w| :: Least(w, c) <= ValueOf(w[i], c) <= Greatest(w, c)
  {
    var n := |w| - 1;
    if n > 0 {
      ExtremesBound(w[..n], c);
      var i :| 0 <= i < n && ValueOf(w[..n][i], c) == Least(w[..n], c);
      var j :| 0 <= j < n && ValueOf(w[..n][j], c) == Greatest(w[..n], c);
      assert ValueOf(w[i], c) == Least(w[..n], c) && ValueOf(w[j], c) == Greatest(w[..n], c);
      assert ValueOf(w[n], c) == ValueOf(w[n], c);
      forall k | 0 <= k < |w|
        ensures Least(w, c) <= ValueOf(w[k], c) <= Greatest(w, c)
      {
        if k < n {
          assert w[..n][k] == w[k];
        }
      }
    } else {
      assert ValueOf(w[0], c) == Least(w, c);
    }
  }

  function NodesOf(w: seq<Received>): set<string> {
    set r | r in w :: r.message.nodeId
  }

  function ChannelOf(w: seq<Received>, c: Channel): ChannelSummary {
    ChannelSummary(if w == [] then 0.0 else Sum(w, c) / |w| as real, Least(w, c), Greatest(w, c))
  }

  /** The summary of a closed window, computed from the whole window at once. */
  function Summarize(cfg: Config, w: seq<Received>, partial: bool, endMs: Option<nat>): WindowSummary {
    var startMs := if w == [] then 0 else w[0].receivedAtMs;
    WindowSummary(startMs, if endMs.Some? then endMs.value else startMs + cfg.windowMs,
                  cfg.windowSeconds, partial, |w|, |NodesOf(w)|,
                  ChannelOf(w, Temperature), ChannelOf(w, Humidity), ChannelOf(w, Pressure))
  }

  lemma SumOne(r: Received, c: Channel)
    ensures Sum([r], c) == ValueOf(r, c) && Sum([], c) == 0.0
  {
    assert [r][..0] == [];
  }

  lemma SumSnoc(w: seq<Received>, r: Received, c: Channel)
    ensures Sum(w + [r], c) == Sum(w, c) + ValueOf(r, c)
  {
    assert (w + [r])[..|w|] == w;
  }

  lemma {:induction false} SumConcat(a: seq<Received>, b: seq<Received>, c: Channel)
    ensures Sum(a + b, c) == Sum(a, c) + Sum(b, c)
  {
    if b == [] {
      assert a + b == a;
    } else {
      var n := |b| - 1;
      SumConcat(a, b[..n], c);
      SumSnoc(a + b[..n], b[n], c);
      assert a + b == (a + b[..n]) + [b[n]];
    }
  }

  lemma {:induction false} SumReordered(a: seq<Received>, b: seq<Received>, c: Channel)
    requires multiset(a) == multiset(b)
    ensures Sum(a, c) == Sum(b, c)
  {
    assert |a| == |multiset(a)| == |multiset(b)| == |b|;
    if a != [] {
      var front, x := a[..|a| - 1], a[|a| - 1];
      assert a == front + [x];
      var k, rest := RemoveOne(b, x);
      assert multiset(front) == multiset(rest);
      SumReordered(front, rest, c);
      SumSnoc(front, x, c);
      SumAround(b[..k], x, b[k + 1..], rest, b, c);
    }
  }

  lemma SumAround(a: seq<Received>, r: Received, b: seq<Received>, without: seq<Received>,
                  all: seq<Received>, c: Channel)
    requires without == a + b && all == a + [r] + b
    ensures Sum(all, c) == Sum(without, c) + ValueOf(r, c)
  {
    SumConcat(a, b, c);
    SumSnoc(a, r, c);
    SumConcat(a + [r], b, c);
  }

  /** The sum of a window, independent of how it is cut and in which order it is read. */
  lemma SumLaws(w: seq<Received>, c: Channel)
    ensures |w| == 1 ==> Sum(w, c) == ValueOf(w[0], c)
    ensures forall a, b | w == a + b :: Sum(w, c) == Sum(a, c) + Sum(b, c)
    ensures forall v | multiset(v) == multiset(w) :: Sum(v, c) == Sum(w, c)
  {
    if |w| == 1 {
      SumOne(w[0], c);
      assert w == [w[0]];
    }
    forall a, b | w == a + b
      ensures Sum(w, c) == Sum(a, c) + Sum(b, c)
    {
      SumConcat(a, b, c);
    }
    forall v | multiset(v) == multiset(w)
      ensures Sum(v, c) == Sum(w, c)
    {
      SumReordered(v, w, c);
    }
  }

  /** The part of a summary that describes one channel. */
  function ChannelIn(s: WindowSummary, c: Channel): ChannelSummary {
    match c
    case Temperature => s.temperature
    case Humidity => s.humidity
    case Pressure => s.pressure
  }

  function Times(x: real, n: nat): real {
    x * n as real
  }

  /** `lo` and `hi` are values of the window and bound all of them. */
  predicate Extremes(w: seq<Received>, c: Channel, lo: real, hi: real) {
    && (forall i | 0 <= i < |w| :: lo <= ValueOf(w[i], c) <= hi)
    && (exists i | 0 <= i < |w| :: ValueOf(w[i], c) == lo)
    && (exists i | 0 <= i < |w| :: ValueOf(w[i], c) == hi)
  }

  /**
   * What a summary says of its window: where it starts and ends, and, channel by
   * channel, that the mean times the count is the sum of the values and that the
   * extremes are values of the window and bound all of them.
   */
  lemma SummaryMeaning(cfg: Config, w: seq<Received>, partial: bool, endMs: Option<nat>, c: Channel)
    requires w != []
    ensures var s := Summarize(cfg, w, partial, endMs);
      && s.readingCount == |w| && s.partial == partial && s.windowSeconds == cfg.windowSeconds
      && s.startMs == w[0].receivedAtMs
      && s.endMs == (if endMs.Some? then endMs.value else w[0].receivedAtMs + cfg.windowMs)
      && Times(ChannelIn(s, c).mean, s.readingCount) == Sum(w, c)
      && Extremes(w, c, ChannelIn(s, c).min, ChannelIn(s, c).max)
  {
    ChannelOfSummary(cfg, w, partial, endMs, c);
    ExtremesBound(w, c);
    MeanTimesCount(w, c);
  }

  lemma ChannelOfSummary(cfg: Config, w: seq<Received>, partial: bool, endMs: Option<nat>, c: Channel)
    ensures ChannelIn(Summarize(cfg, w, partial, endMs), c) == ChannelOf(w, c)
  {
  }

  lemma MeanTimesCount(w: seq<Received>, c: Channel)
    requires w != []
    ensures Times(ChannelOf(w, c).mean, |w|) == Sum(w, c)
  {
    Undivided(Sum(w, c), |w| as real);
  }

  lemma Undivided(sum: real, n: real)
    requires n > 0.0
    ensures sum / n * n == sum
  {
  }

  /** node_count is the length of the list of the window's node ids, each listed once. */
  lemma NodeCountIsDistinct(cfg: Config, w: seq<Received>, partial: bool, endMs: Option<nat>)
    returns (ids: seq<string>)
    ensures Distinct(ids) && |ids| == Summarize(cfg, w, partial, endMs).nodeCount
    ensures forall id :: id in ids <==> exists i | 0 <= i < |w| :: w[i].message.nodeId == id
  {
    ids := NodesOnce(w);
    assert forall id :: id in ids <==> Speaks(w, id);
  }

  predicate Speaks(w: seq<Received>, id: string) {
    exists i | 0 <= i < |w| :: w[i].message.nodeId == id
  }

  lemma {:induction false} NodesOnce(w: seq<Received>) returns (ids: seq<string>)
    ensures Distinct(ids) && |ids| == |NodesOf(w)|
    ensures forall id :: id in ids <==> Speaks(w, id)
  {
    if w == [] {
      assert NodesOf(w) == {};
      ids := [];
    } else {
      var front, r := w[..|w| - 1], w[|w| - 1];
      assert w == front + [r];
      ids := NodesOnce(front);
      OneMoreNode(front, r, ids);
      if r.message.nodeId !in ids {
        ids := ids + [r.message.nodeId];
      }
    }
  }

  lemma OneMoreNode(w: seq<Received>, r: Received, ids: seq<string>)
    requires forall id :: id in ids <==> Speaks(w, id)
    ensures forall id :: Speaks(w + [r], id) <==> id in ids || id == r.message.nodeId
    ensures |NodesOf(w + [r])| == |NodesOf(w)| + (if r.message.nodeId in ids then 0 else 1)
  {
    forall id
      ensures Speaks(w + [r], id) <==> Speaks(w, id) || id == r.message.nodeId
    {
      SpeaksSnoc(w, r, id);
    }
    SpeaksIsNode(w, r.message.nodeId);
    NodesSnoc(w, r);
    if r.message.nodeId in NodesOf(w) {
      assert NodesOf(w + [r]) == NodesOf(w);
    }
  }

  lemma SpeaksSnoc(w: seq<Received>, r: Received, id: string)
    ensures Speaks(w + [r], id) <==> Speaks(w, id) || id == r.message.nodeId
  {
    var all := w + [r];
    if Speaks(w, id) {
      var i :| 0 <= i < |w| && w[i].message.nodeId == id;
      assert all[i].message.nodeId == id;
    }
    assert all[|w|] == r;
  }

  lemma SpeaksIsNode(w: seq<Received>, id: string)
    ensures Speaks(w, id) <==> id in NodesOf(w)
  {
    if id in NodesOf(w) {
      var r :| r in w && r.message.nodeId == id;
      var i :| 0 <= i < |w| && w[i] == r;
      assert w[i].message.nodeId == id;
    }
  }

  lemma {:induction false} SumBounds(w: seq<Received>, c: Channel, lo: real, hi: real)
    requires forall i | 0 <= i < |w| :: lo <= ValueOf(w[i], c) <= hi
    ensures Times(lo, |w|) <= Sum(w, c) <= Times(hi, |w|)
  {
    if w != [] {
      var n := |w| - 1;
      assert lo <= ValueOf(w[n], c) <= hi;
      assert |w[..n]| == n;
      SumBounds(w[..n], c, lo, hi);
      OneMore(lo, n);
      OneMore(hi, n);
    } else {
      assert Times(lo, 0) == 0.0 && Times(hi, 0) == 0.0;
    }
  }

  lemma OneMore(x: real, n: nat)
    ensures Times(x, n + 1) == Times(x, n) + x
  {
    assert (n + 1) as real == n as real + 1.0;
  }

  lemma Quotient(lo: real, hi: real, sum: real, n: real)
    requires n > 0.0 && lo * n <= sum <= hi * n
    ensures lo <= sum / n <= hi
  {
    assert sum / n * n == sum;
    assert (sum / n - lo) * n >= 0.0 && (hi - sum / n) * n >= 0.0;
  }

  /** A mean lies between its minimum and its maximum. */
  lemma MeanIsBetween(w: seq<Received>, c: Channel)
    requires w != []
    ensures var s := ChannelOf(w, c); s.min <= s.mean <= s.max
  {
    var lo, hi, sum := Least(w, c), Greatest(w, c), Sum(w, c);
    ExtremesBound(w, c);
    assert lo * |w| as real <= sum <= hi * |w| as real by {
      SumBounds(w, c, lo, hi);
    }
    Quotient(lo, hi, sum, |w| as real);
  }

  lemma InRange(w: seq<Received>, c: Channel, lo: real, hi: real)
    requires w != [] && forall r | r in w :: lo <= ValueOf(r, c) <= hi
    ensures lo <= Least(w, c) && Greatest(w, c) <= hi
  {
    ExtremesBound(w, c);
    var i :| 0 <= i < |w| && ValueOf(w[i], c) == Least(w, c);
    var j :| 0 <= j < |w| && ValueOf(w[j], c) == Greatest(w, c);
    assert w[i] in w && w[j] in w;
  }

  /** Summaries of valid readings stay inside the protocol's own ranges. */
  lemma SummaryInRange(cfg: Config, w: seq<Received>, partial: bool, endMs: Option<nat>)
    requires w != [] && forall r | r in w :: r.message.Reading? && ValidMessage(r.message)
    ensures var s := Summarize(cfg, w, partial, endMs);
      && -100.0 <= s.temperature.min <= s.temperature.mean <= s.temperature.max <= 100.0
      && 0.0 <= s.humidity.min <= s.humidity.mean <= s.humidity.max <= 100.0
      && 0.0 < s.pressure.min <= s.pressure.mean <= s.pressure.max <= 1200.0
      && 1 <= s.nodeCount <= s.readingCount
  {
    MeanIsBetween(w, Temperature);
    MeanIsBetween(w, Humidity);
    MeanIsBetween(w, Pressure);
    InRange(w, Temperature, -100.0, 100.0);
    InRange(w, Humidity, 0.0, 100.0);
    InRange(w, Pressure, 0.0, 1200.0);
    NodeCountBounds(w);
    ExtremesBound(w, Pressure);
    var i :| 0 <= i < |w| && ValueOf(w[i], Pressure) == Least(w, Pressure);
    assert w[i] in w;
  }

  lemma {:induction false} NodeCountBounds(w: seq<Received>)
    requires w != []
    ensures 1 <= |NodesOf(w)| <= |w|
  {
    var n := |w| - 1;
    NodesSnoc(w[..n], w[n]);
    assert w == w[..n] + [w[n]];
    if n > 0 {
      NodeCountBounds(w[..n]);
    } else {
      assert NodesOf(w[..0]) == {};
    }
  }

  lemma NodesSnoc(w: seq<Received>, r: Received)
    ensures NodesOf(w + [r]) == NodesOf(w) + {r.message.nodeId}
  {
    var all := w + [r];
    forall id
      ensures id in NodesOf(all) <==> id in NodesOf(w) || id == r.message.nodeId
    {
      if id in NodesOf(w) {
        var x :| x in w && x.message.nodeId == id;
        assert x in all;
      }
      if id == r.message.nodeId {
        assert all[|w|] in all;
      }
    }
  }

  // ----- Batch meaning of a stream: the greedy deadline partition -----

  /** The aggregator skips heartbeats and DUPLICATE readings. */
  predicate Counted(r: Received) {
    r.message.Reading? && r.status != Duplicate
  }

  function CountedOnly(stream: seq<Received>): seq<Received> {
    Filter(stream, (r: Received) => Counted(r))
  }

  function Deadline(cfg: Config, w: seq<Received>): nat {
    if w == [] then 0 else w[0].monotonicNs + cfg.windowNs
  }

  /**
   * `ws` is `s` cut into nonempty windows, each running to the first reading
   * received at or after its own deadline.
   */
  predicate IsDeadlinePartition(cfg: Config, s: seq<Received>, ws: seq<seq<Received>>) {
    && Flatten(ws) == s
    && (forall i | 0 <= i < |ws| :: ws[i] != [])
    && (forall i, j | 0 <= i < |ws| && 1 <= j < |ws[i]| ::
          ws[i][j].monotonicNs < ws[i][0].monotonicNs + cfg.windowNs)
    && (forall i | 1 <= i < |ws| ::
          ws[i][0].monotonicNs >= ws[i - 1][0].monotonicNs + cfg.windowNs)
  }

  /** One more reading joins the last window or opens a new one. */
  function Extend(cfg: Config, ws: seq<seq<Received>>, r: Received): seq<seq<Received>> {
    var k := |ws| - 1;
    if ws == [] || r.monotonicNs >= Deadline(cfg, ws[k]) then ws + [[r]]
    else ws[..k] + [ws[k] + [r]]
  }

  function Partition(cfg: Config, s: seq<Received>): seq<seq<Received>> {
    if s == [] then [] else Extend(cfg, Partition(cfg, s[..|s| - 1]), s[|s| - 1])
  }

  lemma FlattenReplaceLast<T>(ws: seq<seq<T>>, w: seq<T>)
    requires ws != []
    ensures Flatten(ws) == Flatten(ws[..|ws| - 1]) + ws[|ws| - 1]
    ensures Flatten(ws[..|ws| - 1] + [w]) == Flatten(ws[..|ws| - 1]) + w
  {
    FlattenSnoc(ws[..|ws| - 1], w);
  }

  lemma NewWindowKeeps(cfg: Config, s: seq<Received>, ws: seq<seq<Received>>, r: Received)
    requires IsDeadlinePartition(cfg, s, ws)
    requires ws == [] || r.monotonicNs >= Deadline(cfg, ws[|ws| - 1])
    ensures IsDeadlinePartition(cfg, s + [r], ws + [[r]])
  {
    FlattenSnoc(ws, [r]);
    var ws' := ws + [[r]];
    assert forall i | 0 <= i < |ws| :: ws'[i] == ws[i];
  }

  lemma LongerWindowKeeps(cfg: Config, s: seq<Received>, ws: seq<seq<Received>>, r: Received)
    requires IsDeadlinePartition(cfg, s, ws) && ws != []
    requires r.monotonicNs < Deadline(cfg, ws[|ws| - 1])
    ensures IsDeadlinePartition(cfg, s + [r], ws[..|ws| - 1] + [ws[|ws| - 1] + [r]])
  {
    var k := |ws| - 1;
    var w := ws[k] + [r];
    var ws' := ws[..k] + [w];
    FlattenReplaceLast(ws, w);
    assert Flatten(ws') == s + [r];
    assert w[0] == ws[k][0] && ws'[k] == w;
    assert forall i | 0 <= i < k :: ws'[i] == ws[i];
    forall i, j | 0 <= i < |ws'| && 1 <= j < |ws'[i]|
      ensures ws'[i][j].monotonicNs < ws'[i][0].monotonicNs + cfg.windowNs
    {
      if i == k && j < |ws[k]| {
        assert ws'[i][j] == ws[k][j];
      }
    }
    forall i | 1 <= i < |ws'|
      ensures ws'[i][0].monotonicNs >= ws'[i - 1][0].monotonicNs + cfg.windowNs
    {
      assert ws'[i][0] == ws[i][0] && ws'[i - 1] == ws[i - 1];
    }
  }

  lemma ExtendKeeps(cfg: Config, s: seq<Received>, ws: seq<seq<Received>>, r: Received)
    requires IsDeadlinePartition(cfg, s, ws)
    ensures IsDeadlinePartition(cfg, s + [r], Extend(cfg, ws, r))
  {
    if ws == [] || r.monotonicNs >= Deadline(cfg, ws[|ws| - 1]) {
      NewWindowKeeps(cfg, s, ws, r);
    } else {
      LongerWindowKeeps(cfg, s, ws, r);
    }
  }

  lemma {:induction false} PartitionIsDeadlinePartition(cfg: Config, s: seq<Received>)
    ensures IsDeadlinePartition(cfg, s, Partition(cfg, s))
  {
    if s != [] {
      var n := |s| - 1;
      PartitionIsDeadlinePartition(cfg, s[..n]);
      ExtendKeeps(cfg, s[..n], Partition(cfg, s[..n]), s[n]);
      assert s == s[..n] + [s[n]];
    }
  }

  /** The last reading of a partition is the last of its last window. */
  lemma LastOfLast(cfg: Config, s: seq<Received>, ws: seq<seq<Received>>)
    requires IsDeadlinePartition(cfg, s, ws) && s != []
    ensures ws != [] && ws[|ws| - 1] != []
    ensures var w := ws[|ws| - 1]; var m := |w| - 1;
      s[|s| - 1] == w[m] && s[..|s| - 1] == Flatten(ws[..|ws| - 1]) + w[..m]
  {
    var w := ws[|ws| - 1];
    var m := |w| - 1;
    FlattenReplaceLast(ws, w[..m]);
    assert w == w[..m] + [w[m]];
  }

  lemma DropWindow(cfg: Config, s: seq<Received>, ws: seq<seq<Received>>)
    requires IsDeadlinePartition(cfg, s, ws) && s != [] && ws != [] && |ws[|ws| - 1]| == 1
    ensures IsDeadlinePartition(cfg, s[..|s| - 1], ws[..|ws| - 1])
    ensures ws == Extend(cfg, ws[..|ws| - 1], s[|s| - 1])
  {
    LastOfLast(cfg, s, ws);
    var k := |ws| - 1;
    var ws', r := ws[..k], s[|s| - 1];
    assert ws[k][..0] == [] && Flatten(ws') + [] == Flatten(ws');
    assert forall i | 0 <= i < k :: ws'[i] == ws[i];
    assert ws[k] == [r] && ws == ws' + [[r]];
    if k > 0 {
      assert ws[k][0].monotonicNs >= Deadline(cfg, ws[k - 1]);
    }
  }

  /** Cutting readings off the end of the last window breaks no deadline. */
  lemma ShorterIsPartition(cfg: Config, s: seq<Received>, ws: seq<seq<Received>>, m: nat)
    requires IsDeadlinePartition(cfg, s, ws) && ws != [] && 1 <= m <= |ws[|ws| - 1]|
    ensures var k := |ws| - 1; var ws' := ws[..k] + [ws[k][..m]];
      IsDeadlinePartition(cfg, Flatten(ws[..k]) + ws[k][..m], ws')
  {
    var k := |ws| - 1;
    var w := ws[k][..m];
    var ws' := ws[..k] + [w];
    FlattenReplaceLast(ws, w);
    assert w[0] == ws[k][0] && Deadline(cfg, w) == Deadline(cfg, ws[k]);
    assert forall i | 0 <= i < k :: ws'[i] == ws[i];
    forall i, j | 0 <= i < |ws'| && 1 <= j < |ws'[i]|
      ensures ws'[i][j].monotonicNs < Deadline(cfg, ws'[i])
    {
      assert ws'[i][j] == ws[i][j];
    }
  }

  lemma Rejoin(cfg: Config, ws: seq<seq<Received>>, m: nat)
    requires ws != [] && |ws[|ws| - 1]| == m + 1 && m >= 1
    requires ws[|ws| - 1][m].monotonicNs < Deadline(cfg, ws[|ws| - 1])
    ensures var k := |ws| - 1;
      Extend(cfg, ws[..k] + [ws[k][..m]], ws[k][m]) == ws
  {
    var k := |ws| - 1;
    var w := ws[k];
    var ws' := ws[..k] + [w[..m]];
    assert ws'[k] == w[..m] && Deadline(cfg, w[..m]) == Deadline(cfg, w);
    assert w[..m] + [w[m]] == w && ws'[..k] == ws[..k];
    assert ws[..k] + [w] == ws;
  }

  lemma ShortenWindow(cfg: Config, s: seq<Received>, ws: seq<seq<Received>>)
    requires IsDeadlinePartition(cfg, s, ws) && s != [] && ws != [] && |ws[|ws| - 1]| > 1
    ensures var w := ws[|ws| - 1]; var ws' := ws[..|ws| - 1] + [w[..|w| - 1]];
      IsDeadlinePartition(cfg, s[..|s| - 1], ws') && ws == Extend(cfg, ws', s[|s| - 1])
  {
    LastOfLast(cfg, s, ws);
    var m := |ws[|ws| - 1]| - 1;
    ShorterIsPartition(cfg, s, ws, m);
    Rejoin(cfg, ws, m);
  }

  /** Undo the last reading of a deadline partition. */
  lemma Unextend(cfg: Config, s: seq<Received>, ws: seq<seq<Received>>) returns (ws': seq<seq<Received>>)
    requires IsDeadlinePartition(cfg, s, ws) && s != []
    ensures IsDeadlinePartition(cfg, s[..|s| - 1], ws')
    ensures ws == Extend(cfg, ws', s[|s| - 1])
  {
    LastOfLast(cfg, s, ws);
    var w := ws[|ws| - 1];
    if |w| == 1 {
      ws' := ws[..|ws| - 1];
      DropWindow(cfg, s, ws);
    } else {
      ws' := ws[..|ws| - 1] + [w[..|w| - 1]];
      ShortenWindow(cfg, s, ws);
    }
  }

  /** There is only one deadline partition of a stream. */
  lemma {:induction false} DeadlinePartitionIsUnique(cfg: Config, s: seq<Received>, ws: seq<seq<Received>>)
    requires IsDeadlinePartition(cfg, s, ws)
    ensures ws == Partition(cfg, s)
  {
    if s != [] {
      var ws' := Unextend(cfg, s, ws);
      DeadlinePartitionIsUnique(cfg, s[..|s| - 1], ws');
    }
  }

  // ----- The incremental aggregator -----

  /** A float that may still hold the accumulator's initial infinity. */
  datatype Extended = NegativeInfinity | Finite(value: real) | PositiveInfinity

  function MinWith(x: Extended, v: real): Extended {
    match x
    case NegativeInfinity => NegativeInfinity
    case Finite(y) => if v < y then Finite(v) else x
    case PositiveInfinity => Finite(v)
  }

  function MaxWith(x: Extended, v: real): Extended {
    match x
    case NegativeInfinity => Finite(v)
    case Finite(y) => if v > y then Finite(v) else x
    case PositiveInfinity => PositiveInfinity
  }

  datatype Running = Running(sum: real, min: Extended, max: Extended)

  datatype Accumulator = Accumulator(
    startMs: nat, startNs: nat, deadlineNs: nat, nodes: set<string>, count: nat,
    temperature: Running, humidity: Running, pressure: Running)

  function Include(x: Running, v: real): Running {
    Running(x.sum + v, MinWith(x.min, v), MaxWith(x.max, v))
  }

  /** What a channel holds after the readings `w`. */
  function RunningOf(w: seq<Received>, c: Channel): Running {
    if w == [] then Running(0.0, PositiveInfinity, NegativeInfinity)
    else Running(Sum(w, c), Finite(Least(w, c)), Finite(Greatest(w, c)))
  }

  lemma RunningSnoc(w: seq<Received>, r: Received, c: Channel)
    ensures Include(RunningOf(w, c), ValueOf(r, c)) == RunningOf(w + [r], c)
  {
    var all := w + [r];
    assert all[..|w|] == w && all[|w|] == r;
    assert Sum(all, c) == Sum(w, c) + ValueOf(r, c);
    if w == [] {
      assert Sum(w, c) == 0.0;
      assert Least(all, c) == Greatest(all, c) == ValueOf(r, c);
    }
  }

  /** The accumulator of the readings `w`, opened by `first`. */
  function AccumulatorOf(cfg: Config, first: Received, w: seq<Received>): Accumulator {
    Accumulator(first.receivedAtMs, first.monotonicNs, first.monotonicNs + cfg.windowNs,
                NodesOf(w), |w|, RunningOf(w, Temperature), RunningOf(w, Humidity),
                RunningOf(w, Pressure))
  }

  class WindowAggregator {
    const cfg: Config
    var current: Option<Accumulator>

    /** The readings of the open window; empty when there is none. */
    ghost var window: seq<Received>

    ghost predicate Valid()
      reads this
    {
      current == if window == [] then None else Some(AccumulatorOf(cfg, window[0], window))
    }

    constructor (windowSeconds: real)
      requires windowSeconds > 0.0
      ensures Valid() && window == []
      ensures cfg == ConfigFor(windowSeconds)
    {
      cfg := ConfigFor(windowSeconds);
      current, window := None, [];
    }

    method DeadlineNs() returns (deadline: Option<nat>)
      requires Valid()
      ensures deadline == if window == [] then None else Some(Deadline(cfg, window))
    {
      deadline := if current.None? then None else Some(current.value.deadlineNs);
    }

    /** A boundary-crossing reading closes the open window and opens the next. */
    method Add(r: Received) returns (completed: Option<WindowSummary>)
      requires Valid()
      modifies this
      ensures Valid()
      ensures !Counted(r) ==> window == old(window) && completed == None
      ensures Counted(r) ==>
                if old(window) != [] && r.monotonicNs >= Deadline(cfg, old(window))
                then window == [r] && completed == Some(Summarize(cfg, old(window), false, None))
                else window == old(window) + [r] && completed == None
    {
      completed := None;
      if !r.message.Reading? {
        return;
      }
      if r.status == Duplicate {
        return;
      }
      if current.None? {
        current, window := Some(NewAccumulator(r)), [];
      } else if r.monotonicNs >= current.value.deadlineNs {
        var s := SummarizeCurrent(false, None);
        completed := Some(s);
        current, window := Some(NewAccumulator(r)), [];
      }
      Accumulate(r);
    }

    /** Return and clear the open window. */
    method Flush(partial: bool, endMs: Option<nat>) returns (summary: Option<WindowSummary>)
      requires Valid()
      modifies this
      ensures Valid() && window == []
      ensures summary == if old(window) == [] then None
                         else Some(Summarize(cfg, old(window), partial, endMs))
    {
      if current.None? || current.value.count == 0 {
        current, summary := None, None;
        return;
      }
      var s := SummarizeCurrent(partial, endMs);
      summary := Some(s);
      current, window := None, [];
    }

    function NewAccumulator(r: Received): (acc: Accumulator)
      ensures acc == AccumulatorOf(cfg, r, [])
    {
      var empty := Running(0.0, PositiveInfinity, NegativeInfinity);
      assert NodesOf([]) == {};
      Accumulator(r.receivedAtMs, r.monotonicNs, r.monotonicNs + cfg.windowNs, {}, 0, empty, empty, empty)
    }

    method Accumulate(r: Received)
      requires r.message.Reading?
      requires current == Some(AccumulatorOf(cfg, if window == [] then r else window[0], window))
      modifies this
      ensures Valid() && window == old(window) + [r]
    {
      var acc := current.value;
      RunningSnoc(window, r, Temperature);
      RunningSnoc(window, r, Humidity);
      RunningSnoc(window, r, Pressure);
      NodesSnoc(window, r);
      acc := acc.(nodes := acc.nodes + {r.message.nodeId}, count := acc.count + 1);
      acc := acc.(temperature := Include(acc.temperature, r.message.temperature));
      acc := acc.(humidity := Include(acc.humidity, r.message.humidity));
      acc := acc.(pressure := Include(acc.pressure, r.message.pressure));
      current, window := Some(acc), window + [r];
    }

    method SummarizeCurrent(partial: bool, endMs: Option<nat>) returns (s: WindowSummary)
      requires Valid() && current.Some?
      ensures s == Summarize(cfg, window, partial, endMs)
    {
      var acc := current.value;
      var n := acc.count as real;
      s := WindowSummary(
        acc.startMs, if endMs.Some? then endMs.value else acc.startMs + cfg.windowMs,
        cfg.windowSeconds, partial, acc.count, |acc.nodes|,
        ChannelSummary(acc.temperature.sum / n, acc.temperature.min.value, acc.temperature.max.value),
        ChannelSummary(acc.humidity.sum / n, acc.humidity.min.value, acc.humidity.max.value),
        ChannelSummary(acc.pressure.sum / n, acc.pressure.min.value, acc.pressure.max.value));
    }
  }

  /** The summaries a batch computation gives: the last window is flushed partial. */
  function BatchSummaries(cfg: Config, ws: seq<seq<Received>>, endMs: nat): seq<WindowSummary> {
    seq(|ws|, i requires 0 <= i < |ws| =>
      if i < |ws| - 1 then Summarize(cfg, ws[i], false, None)
      else Summarize(cfg, ws[i], true, Some(endMs)))
  }

  /** Mean times count, summed over summaries. */
  function Weighted(ss: seq<WindowSummary>, c: Channel): real {
    if ss == [] then 0.0
    else
      var s := ss[|ss| - 1];
      Weighted(ss[..|ss| - 1], c) + Times(ChannelIn(s, c).mean, s.readingCount)
  }

  function ReadingsIn(ss: seq<WindowSummary>): nat {
    if ss == [] then 0 else ReadingsIn(ss[..|ss| - 1]) + ss[|ss| - 1].readingCount
  }

  /** A summary of this window, complete or partial. */
  ghost predicate Describes(cfg: Config, s: WindowSummary, w: seq<Received>) {
    w != [] && exists partial, endMs :: s == Summarize(cfg, w, partial, endMs)
  }

  lemma {:induction false} WeightedSum(cfg: Config, ss: seq<WindowSummary>, ws: seq<seq<Received>>, c: Channel)
    requires |ss| == |ws| && forall i | 0 <= i < |ws| :: Describes(cfg, ss[i], ws[i])
    ensures Weighted(ss, c) == Sum(Flatten(ws), c)
    ensures ReadingsIn(ss) == |Flatten(ws)|
  {
    if ws != [] {
      var n := |ws| - 1;
      var s, w := ss[n], ws[n];
      WeightedSum(cfg, ss[..n], ws[..n], c);
      assert Describes(cfg, s, w);
      Weighs(cfg, s, w, c);
      FlattenLast(ws, Flatten(ws[..n]), c);
      WeightedLast(ss, c);
    }
  }

  lemma WeightedLast(ss: seq<WindowSummary>, c: Channel)
    requires ss != []
    ensures var front, s := ss[..|ss| - 1], ss[|ss| - 1];
      && Weighted(ss, c) == Weighted(front, c) + Times(ChannelIn(s, c).mean, s.readingCount)
      && ReadingsIn(ss) == ReadingsIn(front) + s.readingCount
  {
  }

  lemma Weighs(cfg: Config, s: WindowSummary, w: seq<Received>, c: Channel)
    requires Describes(cfg, s, w)
    ensures Times(ChannelIn(s, c).mean, s.readingCount) == Sum(w, c) && s.readingCount == |w|
  {
    var partial, endMs :| s == Summarize(cfg, w, partial, endMs);
    SummaryMeaning(cfg, w, partial, endMs, c);
  }

  lemma FlattenLast(ws: seq<seq<Received>>, front: seq<Received>, c: Channel)
    requires ws != [] && front == Flatten(ws[..|ws| - 1])
    ensures Sum(Flatten(ws), c) == Sum(front, c) + Sum(ws[|ws| - 1], c)
    ensures |Flatten(ws)| == |front| + |ws[|ws| - 1]|
  {
    SumConcat(front, ws[|ws| - 1], c);
  }

  /** The readings that are no duplicates. */
  function NonDuplicates(stream: seq<Received>): seq<Received> {
    Filter(stream, (r: Received) => r.message.Reading? && r.status != Duplicate)
  }

  lemma BatchDescribes(cfg: Config, ws: seq<seq<Received>>, endMs: nat)
    requires forall i | 0 <= i < |ws| :: ws[i] != []
    ensures forall i | 0 <= i < |ws| :: Describes(cfg, BatchSummaries(cfg, ws, endMs)[i], ws[i])
  {
  }

  /**
   * Nothing is lost or weighed twice: over the whole stream the means, weighted by
   * their counts, add up to the values of the readings that are no duplicates.
   */
  lemma StreamIsWeighed(cfg: Config, stream: seq<Received>, endMs: nat, c: Channel)
    ensures var ss := BatchSummaries(cfg, Partition(cfg, CountedOnly(stream)), endMs);
      Weighted(ss, c) == Sum(NonDuplicates(stream), c) && ReadingsIn(ss) == |NonDuplicates(stream)|
  {
    var ws := Partition(cfg, CountedOnly(stream));
    PartitionIsDeadlinePartition(cfg, CountedOnly(stream));
    BatchDescribes(cfg, ws, endMs);
    WeightedSum(cfg, BatchSummaries(cfg, ws, endMs), ws, c);
    FilterSame(stream, (r: Received) => Counted(r),
               (r: Received) => r.message.Reading? && r.status != Duplicate);
  }

  /**
   * Streaming refines batch: feeding a stream reading by reading and flushing at
   * the end gives exactly the batch summaries of the deadline partition of its
   * non-duplicate readings.
   */
  method AggregateStream(windowSeconds: real, stream: seq<Received>, endMs: nat)
    returns (summaries: seq<WindowSummary>)
    requires windowSeconds > 0.0
    ensures var cfg := ConfigFor(windowSeconds);
      summaries == BatchSummaries(cfg, Partition(cfg, CountedOnly(stream)), endMs)
    ensures ReadingsIn(summaries) == |NonDuplicates(stream)|
    ensures forall c :: Weighted(summaries, c) == Sum(NonDuplicates(stream), c)
  {
    var agg := new WindowAggregator(windowSeconds);
    ghost var cfg := agg.cfg;
    ghost var ws: seq<seq<Received>> := [];
    summaries := [];
    for i := 0 to |stream|
      invariant agg.Valid() && agg.cfg == cfg
      invariant ws == Partition(cfg, CountedOnly(stream[..i]))
      invariant Progress(cfg, ws, agg.window, summaries)
    {
      var r := stream[i];
      PartitionNext(cfg, stream, i);
      if Counted(r) {
        ProgressAdd(cfg, ws, agg.window, summaries, r);
        ws := Extend(cfg, ws, r);
      }
      var completed := agg.Add(r);
      if completed.Some? {
        summaries := summaries + [completed.value];
      }
    }
    assert stream[..|stream|] == stream;
    ProgressFlush(cfg, ws, agg.window, summaries, endMs);
    var last := agg.Flush(true, Some(endMs));
    if last.Some? {
      summaries := summaries + [last.value];
    }
    StreamIsWeighedThroughout(cfg, stream, endMs, summaries);
  }

  lemma StreamIsWeighedThroughout(cfg: Config, stream: seq<Received>, endMs: nat, ss: seq<WindowSummary>)
    requires ss == BatchSummaries(cfg, Partition(cfg, CountedOnly(stream)), endMs)
    ensures ReadingsIn(ss) == |NonDuplicates(stream)|
    ensures forall c :: Weighted(ss, c) == Sum(NonDuplicates(stream), c)
  {
    StreamIsWeighed(cfg, stream, endMs, Temperature);
    StreamIsWeighed(cfg, stream, endMs, Humidity);
    StreamIsWeighed(cfg, stream, endMs, Pressure);
    forall c
      ensures Weighted(ss, c) == Sum(NonDuplicates(stream), c)
    {
      match c case Temperature => case Humidity => case Pressure =>
    }
  }

  /** Every window but the last has been summarized; the last one is open. */
  ghost predicate Progress(cfg: Config, ws: seq<seq<Received>>, open: seq<Received>, done: seq<WindowSummary>) {
    if ws == [] then open == [] && done == []
    else
      && open == ws[|ws| - 1] != [] && |done| == |ws| - 1
      && forall k | 0 <= k < |done| :: done[k] == Summarize(cfg, ws[k], false, None)
  }

  lemma ProgressAdd(cfg: Config, ws: seq<seq<Received>>, open: seq<Received>, done: seq<WindowSummary>, r: Received)
    requires Progress(cfg, ws, open, done)
    ensures if open != [] && r.monotonicNs >= Deadline(cfg, open)
            then Progress(cfg, Extend(cfg, ws, r), [r], done + [Summarize(cfg, open, false, None)])
            else Progress(cfg, Extend(cfg, ws, r), open + [r], done)
  {
  }

  lemma ProgressFlush(cfg: Config, ws: seq<seq<Received>>, open: seq<Received>, done: seq<WindowSummary>, endMs: nat)
    requires Progress(cfg, ws, open, done)
    ensures BatchSummaries(cfg, ws, endMs)
         == done + (if open == [] then [] else [Summarize(cfg, open, true, Some(endMs))])
  {
  }

  lemma PartitionNext(cfg: Config, stream: seq<Received>, i: nat)
    requires i < |stream|
    ensures Partition(cfg, CountedOnly(stream[..i + 1]))
         == var ws := Partition(cfg, CountedOnly(stream[..i]));
            if Counted(stream[i]) then Extend(cfg, ws, stream[i]) else ws
  {
    assert stream[..i + 1] == stream[..i] + [stream[i]];
    FilterSnoc(stream[..i], stream[i], (r: Received) => Counted(r));
    if Counted(stream[i]) {
      var front := CountedOnly(stream[..i]);
      assert (front + [stream[i]])[..|front|] == front;
    }
  }
}
