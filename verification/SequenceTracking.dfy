/**
 * The gateway's per-node sequence classifier and what its counters mean,
 * for every order in which sequence numbers can arrive.
 */
module SequenceTracking {
  import opened Messages

  /** The counters of one node record that the classifier reads and updates. */
  datatype Tally = Tally(last: nat, missing: nat, duplicates: nat, outOfOrder: nat, resets: nat)

  function Fresh(v: nat): Tally {
    Tally(v, 0, 0, 0, 0)
  }

  function Classify(t: Tally, v: nat): (Tally, SequenceStatus) {
    if v == t.last then
      (t.(duplicates := t.duplicates + 1), Duplicate)
    else if v > t.last then
      var missing := v - t.last - 1;
      var t' := t.(last := v);
      if missing > 0 then (t'.(missing := t.missing + missing), Gap) else (t', InOrder)
    else if v == 0 then
      (t.(resets := t.resets + 1, last := v), Reset)
    else
      (t.(outOfOrder := t.outOfOrder + 1), OutOfOrder)
  }

  /** The tally after further arrivals `vs`. */
  function TallyFrom(t: Tally, vs: seq<nat>): Tally {
    if vs == [] then t else Classify(TallyFrom(t, vs[..|vs| - 1]), vs[|vs| - 1]).0
  }

  /** The tally of a node whose arrivals, from registration on, are `vs`. */
  function TallyOf(vs: seq<nat>): Tally
    requires vs != []
  {
    TallyFrom(Fresh(vs[0]), vs[1..])
  }

  /** The classification returned for each arrival. */
  function Statuses(vs: seq<nat>): seq<SequenceStatus> {
    if vs == [] then []
    else if |vs| == 1 then [First]
    else
      var n := |vs| - 1;
      Statuses(vs[..n]) + [Classify(TallyOf(vs[..n]), vs[n]).1]
  }

  lemma TallySnoc(vs: seq<nat>)
    requires |vs| > 1
    ensures var n := |vs| - 1; TallyOf(vs) == Classify(TallyOf(vs[..n]), vs[n]).0
  {
    var n := |vs| - 1;
    assert vs[1..][..n - 1] == vs[..n][1..];
  }

  lemma {:induction false} TallyConcat(t: Tally, a: seq<nat>, b: seq<nat>)
    ensures TallyFrom(t, a + b) == TallyFrom(TallyFrom(t, a), b)
  {
    if b == [] {
      assert a + b == a;
    } else {
      var n := |b| - 1;
      TallyConcat(t, a, b[..n]);
      assert (a + b)[..|a + b| - 1] == a + b[..n];
    }
  }

  function Occurrences(s: seq<SequenceStatus>, x: SequenceStatus): nat {
    multiset(s)[x]
  }

  // ----- Epochs: a reference view that never looks at the classifier -----

  function Max(s: seq<nat>): nat
    requires s != []
  {
    if |s| == 1 then s[0]
    else
      var m, x := Max(s[..|s| - 1]), s[|s| - 1];
      if x > m then x else m
  }

  lemma {:induction false} MaxBounds(s: seq<nat>)
    requires s != []
    ensures Max(s) in s && forall i | 0 <= i < |s| :: s[i] <= Max(s)
  {
    var n := |s| - 1;
    if n > 0 {
      MaxBounds(s[..n]);
      assert s == s[..n] + [s[n]];
      forall i | 0 <= i < |s|
        ensures s[i] <= Max(s)
      {
        if i < n {
          assert s[..n][i] == s[i];
        }
      }
    }
  }

  /** What arrived between two restarts; never empty. */
  type Epoch = e: seq<nat> | e != [] witness [0]

  /**
   * A node's arrivals split into epochs. A new epoch opens when 0 arrives in an
   * epoch that has already seen something larger.
   */
  function Epochs(vs: seq<nat>): (es: seq<Epoch>)
    ensures vs != [] ==> es != []
  {
    if vs == [] then []
    else if |vs| == 1 then [vs]
    else
      var n := |vs| - 1;
      var done := Epochs(vs[..n]);
      var k := |done| - 1;
      if vs[n] == 0 && Max(done[k]) > 0 then done + [[0]]
      else done[..k] + [done[k] + [vs[n]]]
  }

  /** How far an epoch's numbers advanced beyond where it started. */
  function Span(e: Epoch): nat {
    MaxBounds(e);
    Max(e) - e[0]
  }

  function Interval(lo: nat, hi: nat): (r: set<nat>)
    ensures forall v: nat :: v in r <==> lo <= v < hi
    ensures lo <= hi ==> |r| == hi - lo
    decreases hi
  {
    if lo >= hi then {} else Interval(lo, hi - 1) + {hi - 1}
  }

  /** Numbers inside the epoch's span that never arrived in it. */
  function Unseen(e: Epoch): set<nat> {
    set v | v in Interval(e[0], Max(e) + 1) && v !in e
  }

  function TotalSpan(es: seq<Epoch>): nat {
    if es == [] then 0 else TotalSpan(es[..|es| - 1]) + Span(es[|es| - 1])
  }

  function TotalUnseen(es: seq<Epoch>): nat {
    if es == [] then 0 else TotalUnseen(es[..|es| - 1]) + |Unseen(es[|es| - 1])|
  }

  lemma MaxSnoc(e: Epoch, v: nat)
    ensures Max(e + [v]) == if v > Max(e) then v else Max(e)
  {
    assert (e + [v])[..|e|] == e;
  }

  lemma UnseenMember(e: Epoch, x: nat)
    ensures x in Unseen(e) <==> e[0] <= x <= Max(e) && x !in e
  {
  }

  /** An arrival at or below the maximum fills at most one hole. */
  lemma UnseenBelow(e: Epoch, v: nat)
    requires v <= Max(e)
    ensures |Unseen(e + [v])| <= |Unseen(e)| <= |Unseen(e + [v])| + 1
    ensures v == Max(e) ==> Unseen(e + [v]) == Unseen(e)
  {
    MaxSnoc(e, v);
    MaxBounds(e);
    var a, b := Unseen(e), Unseen(e + [v]);
    forall x: nat
      ensures x in b <==> x in a && x != v
    {
      UnseenMember(e, x);
      UnseenMember(e + [v], x);
      assert x in e + [v] <==> x in e || x == v;
    }
    assert b == a - {v};
  }

  /** An arrival above the maximum opens one hole per number it jumps over. */
  lemma UnseenAbove(e: Epoch, v: nat)
    requires v > Max(e)
    ensures |Unseen(e + [v])| == |Unseen(e)| + (v - Max(e) - 1)
  {
    var whole, a, b := Unseen(e + [v]), Unseen(e), Interval(Max(e) + 1, v);
    forall x: nat
      ensures Splits(whole, a, b, x)
    {
      JumpMember(e, v, x);
    }
    SplitCard(whole, a, b);
  }

  /** `x` is in `whole` exactly when it is in one of the parts, and never in both. */
  predicate Splits(whole: set<nat>, a: set<nat>, b: set<nat>, x: nat) {
    (x in whole <==> x in a || x in b) && !(x in a && x in b)
  }

  lemma SplitCard(whole: set<nat>, a: set<nat>, b: set<nat>)
    requires forall x: nat :: Splits(whole, a, b, x)
    ensures |whole| == |a| + |b|
  {
    forall x: nat
      ensures x in whole <==> x in a + b
    {
      assert Splits(whole, a, b, x);
    }
    forall x | x in a
      ensures x !in b
    {
      assert Splits(whole, a, b, x);
    }
    assert whole == a + b;
  }

  lemma JumpMember(e: Epoch, v: nat, x: nat)
    requires v > Max(e)
    ensures x in Unseen(e + [v]) <==> x in Unseen(e) || Max(e) < x < v
    ensures x in Unseen(e) ==> x <= Max(e)
  {
    MaxSnoc(e, v);
    MaxBounds(e);
    UnseenMember(e, x);
    UnseenMember(e + [v], x);
    assert x in e + [v] <==> x in e || x == v;
    if x in e {
      var i :| 0 <= i < |e| && e[i] == x;
    }
  }

  lemma UnseenSingleton(v: nat)
    ensures Max([v]) == v && Span([v]) == 0 && Unseen([v]) == {}
  {
  }

  lemma SnocTotals(es: seq<Epoch>, e: Epoch)
    ensures TotalSpan(es + [e]) == TotalSpan(es) + Span(e)
    ensures TotalUnseen(es + [e]) == TotalUnseen(es) + |Unseen(e)|
  {
    assert (es + [e])[..|es|] == es;
  }

  /**
   * Epoch accounting. For every arrival order: the high-water mark is the
   * current epoch's maximum, every epoch but the first was opened by one RESET,
   * and the advance of all epochs is split exactly between arrivals that moved
   * the mark and numbers estimated missing.
   */
  ghost predicate EpochAccounting(vs: seq<nat>)
    requires vs != []
  {
    var t, ss, es := TallyOf(vs), Statuses(vs), Epochs(vs);
    && t.last == Max(es[|es| - 1])
    && t.resets == |es| - 1
    && TotalSpan(es) == t.missing + Occurrences(ss, InOrder) + Occurrences(ss, Gap)
  }

  /**
   * The sandwich: the numbers truly never seen in their epoch are at most the
   * estimate, and at least the estimate less the out-of-order arrivals.
   */
  ghost predicate MissingSandwich(vs: seq<nat>)
    requires vs != []
  {
    var t, unseen := TallyOf(vs), TotalUnseen(Epochs(vs));
    t.missing - t.outOfOrder <= unseen <= t.missing
  }

  /** Each status counter counts its own arrivals and together they count all. */
  ghost predicate StatusCounts(vs: seq<nat>)
    requires vs != []
  {
    var t, ss := TallyOf(vs), Statuses(vs);
    && |ss| == |vs| && ss[0] == First && Occurrences(ss, First) == 1
    && t.duplicates == Occurrences(ss, Duplicate)
    && t.outOfOrder == Occurrences(ss, OutOfOrder)
    && t.resets == Occurrences(ss, Reset)
    && |vs| == 1 + Occurrences(ss, InOrder) + Occurrences(ss, Gap)
                 + t.duplicates + t.outOfOrder + t.resets
  }

  /** How one more arrival changes the epochs' totals. */
  lemma EpochStep(vs: seq<nat>)
    requires |vs| > 1
    ensures var n := |vs| - 1;
      var es, es', v := Epochs(vs[..n]), Epochs(vs), vs[n];
      var cur := es[|es| - 1];
      && Max(es'[|es'| - 1]) == (if v > Max(cur) || (v == 0 && Max(cur) > 0) then v else Max(cur))
      && |es'| == |es| + (if v == 0 && Max(cur) > 0 then 1 else 0)
      && TotalSpan(es') == TotalSpan(es) + (if v > Max(cur) then v - Max(cur) else 0)
      && (v > Max(cur) ==> TotalUnseen(es') == TotalUnseen(es) + (v - Max(cur) - 1))
      && ((v == 0 && Max(cur) > 0) || v == Max(cur) ==> TotalUnseen(es') == TotalUnseen(es))
      && (0 < v < Max(cur) ==> TotalUnseen(es') <= TotalUnseen(es) <= TotalUnseen(es') + 1)
  {
    var n := |vs| - 1;
    var es, v := Epochs(vs[..n]), vs[n];
    var k := |es| - 1;
    if v == 0 && Max(es[k]) > 0 {
      UnseenSingleton(0);
      SnocTotals(es, [0]);
    } else {
      GrowEpoch(es, v, Epochs(vs));
    }
  }

  /** One more arrival in the current epoch. */
  lemma GrowEpoch(es: seq<Epoch>, v: nat, es': seq<Epoch>)
    requires es != [] && es' == es[..|es| - 1] + [es[|es| - 1] + [v]]
    ensures var cur := es[|es| - 1];
      && Max(es'[|es'| - 1]) == (if v > Max(cur) then v else Max(cur))
      && TotalSpan(es') == TotalSpan(es) + (if v > Max(cur) then v - Max(cur) else 0)
      && (v > Max(cur) ==> TotalUnseen(es') == TotalUnseen(es) + (v - Max(cur) - 1))
      && (v == Max(cur) ==> TotalUnseen(es') == TotalUnseen(es))
      && (v < Max(cur) ==> TotalUnseen(es') <= TotalUnseen(es) <= TotalUnseen(es') + 1)
  {
    var k := |es| - 1;
    assert es == es[..k] + [es[k]];
    SnocTotals(es[..k], es[k]);
    SnocTotals(es[..k], es[k] + [v]);
    MaxSnoc(es[k], v);
    if v > Max(es[k]) {
      UnseenAbove(es[k], v);
    } else {
      UnseenBelow(es[k], v);
    }
  }

  lemma StatusSnoc(vs: seq<nat>, x: SequenceStatus)
    requires |vs| > 1
    ensures var n := |vs| - 1; var st := Classify(TallyOf(vs[..n]), vs[n]).1;
      Occurrences(Statuses(vs), x) == Occurrences(Statuses(vs[..n]), x) + (if st == x then 1 else 0)
  {
  }

  lemma {:induction false} SpansAreCounted(vs: seq<nat>)
    requires vs != []
    ensures EpochAccounting(vs)
  {
    if |vs| == 1 {
      assert vs == [vs[0]];
      UnseenSingleton(vs[0]);
      SnocTotals([], vs);
    } else {
      SpansAreCounted(vs[..|vs| - 1]);
      TallySnoc(vs);
      StatusSnoc(vs, InOrder);
      StatusSnoc(vs, Gap);
      EpochStep(vs);
    }
  }

  lemma {:induction false} MissingIsSandwiched(vs: seq<nat>)
    requires vs != []
    ensures MissingSandwich(vs)
  {
    if |vs| == 1 {
      assert vs == [vs[0]];
      UnseenSingleton(vs[0]);
      SnocTotals([], vs);
    } else {
      MissingIsSandwiched(vs[..|vs| - 1]);
      SpansAreCounted(vs[..|vs| - 1]);
      TallySnoc(vs);
      EpochStep(vs);
    }
  }

  /** Every status is one of six, so the six counts add up. */
  lemma {:induction false} SixCounts(ss: seq<SequenceStatus>)
    ensures |ss| == Occurrences(ss, First) + Occurrences(ss, InOrder) + Occurrences(ss, Gap)
                    + Occurrences(ss, Duplicate) + Occurrences(ss, OutOfOrder) + Occurrences(ss, Reset)
  {
    if ss != [] {
      var n := |ss| - 1;
      SixCounts(ss[..n]);
      assert multiset(ss) == multiset(ss[..n]) + multiset{ss[n]} by {
        assert ss == ss[..n] + [ss[n]];
      }
      match ss[n]
      case First => case InOrder => case Gap => case Duplicate => case OutOfOrder => case Reset =>
    }
  }

  lemma {:induction false} CountersFollowStatuses(vs: seq<nat>)
    requires vs != []
    ensures var t, ss := TallyOf(vs), Statuses(vs);
      && |ss| == |vs| && ss[0] == First && Occurrences(ss, First) == 1
      && t.duplicates == Occurrences(ss, Duplicate)
      && t.outOfOrder == Occurrences(ss, OutOfOrder)
      && t.resets == Occurrences(ss, Reset)
  {
    if |vs| > 1 {
      CountersFollowStatuses(vs[..|vs| - 1]);
      TallySnoc(vs);
      AllStatusSnoc(vs);
    }
  }

  lemma CountersCountStatuses(vs: seq<nat>)
    requires vs != []
    ensures StatusCounts(vs)
  {
    CountersFollowStatuses(vs);
    SixCounts(Statuses(vs));
  }

  /** One more arrival adds one to exactly one status count, the one its class says. */
  lemma AllStatusSnoc(vs: seq<nat>)
    requires |vs| > 1
    ensures var n := |vs| - 1;
      var st, a, b := Classify(TallyOf(vs[..n]), vs[n]).1, Statuses(vs[..n]), Statuses(vs);
      && Occurrences(b, InOrder) == Occurrences(a, InOrder) + (if st == InOrder then 1 else 0)
      && Occurrences(b, Gap) == Occurrences(a, Gap) + (if st == Gap then 1 else 0)
      && Occurrences(b, Duplicate) == Occurrences(a, Duplicate) + (if st == Duplicate then 1 else 0)
      && Occurrences(b, OutOfOrder) == Occurrences(a, OutOfOrder) + (if st == OutOfOrder then 1 else 0)
      && Occurrences(b, Reset) == Occurrences(a, Reset) + (if st == Reset then 1 else 0)
      && Occurrences(b, First) == Occurrences(a, First) && |b| == |a| + 1 && (a != [] ==> b[0] == a[0])
  {
    StatusSnoc(vs, First);
    StatusSnoc(vs, InOrder);
    StatusSnoc(vs, Gap);
    StatusSnoc(vs, Duplicate);
    StatusSnoc(vs, OutOfOrder);
    StatusSnoc(vs, Reset);
  }

  // ----- What each status says about where a number falls -----

  lemma StatusOfLast(vs: seq<nat>)
    requires |vs| > 1
    ensures var n := |vs| - 1;
      |Statuses(vs)| == |vs| && Statuses(vs)[n] == Classify(TallyOf(vs[..n]), vs[n]).1
  {
    CountersFollowStatuses(vs);
    CountersFollowStatuses(vs[..|vs| - 1]);
  }

  /**
   * The status of an arrival says where its number falls against the highest
   * number of the current epoch: just above it, further above, on it, back to
   * zero, or below it.
   */
  lemma StatusMeansPosition(vs: seq<nat>)
    requires |vs| > 1
    ensures |Statuses(vs)| == |vs|
    ensures var n := |vs| - 1;
      var es := Epochs(vs[..n]);
      var m, v, status := Max(es[|es| - 1]), vs[n], Statuses(vs)[n];
      && (status == InOrder <==> v == m + 1)
      && (status == Gap <==> v > m + 1)
      && (status == Duplicate <==> v == m)
      && (status == Reset <==> v == 0 < m)
      && (status == OutOfOrder <==> 0 < v < m)
  {
    StatusOfLast(vs);
    SpansAreCounted(vs[..|vs| - 1]);
  }

  /** Numbers are estimated missing exactly when some arrival was a GAP. */
  lemma {:induction false} MissingIffGap(vs: seq<nat>)
    requires vs != []
    ensures TallyOf(vs).missing == 0 <==> Gap !in Statuses(vs)
  {
    if |vs| > 1 {
      var n := |vs| - 1;
      MissingIffGap(vs[..n]);
      TallySnoc(vs);
      assert Statuses(vs) == Statuses(vs[..n]) + [Classify(TallyOf(vs[..n]), vs[n]).1];
    }
  }
}
