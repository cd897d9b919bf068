/**
 * The two-party protocol between one physical node and the gateway: the
 * firmware reuses a sequence number until a write is judged successful, the
 * channel may lose any message but keeps order, and the gateway classifies
 * what arrives.
 */
module NodeProtocol {
  import opened Common
  import opened Messages
  import opened SequenceTracking

  const MAX_SEQUENCE: nat := 0xFFFF_FFFF_FFFF_FFFF

  /** One transmission: whether the gateway got it, and what the node believed. */
  datatype Attempt = Attempt(delivered: bool, judgedOk: bool)

  /** SequenceCounter: advance on a write judged successful, saturating at 64 bits. */
  function NextSequence(value: nat, judgedOk: bool): nat {
    if judgedOk && value != MAX_SEQUENCE then value + 1 else value
  }

  /** The node's counter after `attempts`, starting a boot at 0. */
  function Counter(attempts: seq<Attempt>): nat {
    if attempts == [] then 0
    else
      var n := |attempts| - 1;
      NextSequence(Counter(attempts[..n]), attempts[n].judgedOk)
  }

  function Successes(attempts: seq<Attempt>): nat {
    |Filter(attempts, (a: Attempt) => a.judgedOk)|
  }

  /**
   * The node counts its successes: after any attempts its counter is the number of
   * writes judged successful, capped at the largest 64-bit number.
   */
  lemma {:induction false} CounterIsSuccesses(attempts: seq<Attempt>)
    ensures Counter(attempts)
         == if Successes(attempts) < 0xFFFF_FFFF_FFFF_FFFF then Successes(attempts)
            else 0xFFFF_FFFF_FFFF_FFFF
  {
    if attempts != [] {
      var n := |attempts| - 1;
      CounterIsSuccesses(attempts[..n]);
      assert attempts == attempts[..n] + [attempts[n]];
      FilterSnoc(attempts[..n], attempts[n], (a: Attempt) => a.judgedOk);
    }
  }

  /**
   * Attempt `i` transmits the number of successes before it, and a success moves
   * the next attempt to the next number, below the 64-bit limit.
   */
  lemma EachSuccessSpendsANumber(attempts: seq<Attempt>, i: nat)
    requires i < |attempts| && Successes(attempts[..i]) < 0xFFFF_FFFF_FFFF_FFFF
    ensures Transmits(attempts, i, Successes(attempts[..i]))
    ensures Counter(attempts[..i + 1])
         == Successes(attempts[..i]) + (if attempts[i].judgedOk then 1 else 0)
  {
    CounterIsSuccesses(attempts[..i]);
    CounterIsSuccesses(attempts[..i + 1]);
    assert attempts[..i + 1] == attempts[..i] + [attempts[i]];
    FilterSnoc(attempts[..i], attempts[i], (a: Attempt) => a.judgedOk);
  }

  /** The sequence numbers that reach the gateway, in order. */
  function Arrivals(attempts: seq<Attempt>): seq<nat> {
    if attempts == [] then []
    else
      var n := |attempts| - 1;
      Arrivals(attempts[..n]) + (if attempts[n].delivered then [Counter(attempts[..n])] else [])
  }

  /** Attempt `i` transmitted the number `v`. */
  predicate Transmits(attempts: seq<Attempt>, i: int, v: nat) {
    0 <= i < |attempts| && Counter(attempts[..i]) == v
  }

  predicate Nondecreasing(vs: seq<nat>) {
    forall i, j | 0 <= i < j < |vs| :: vs[i] <= vs[j]
  }

  lemma {:induction false} ArrivalsOrdered(attempts: seq<Attempt>)
    ensures Nondecreasing(Arrivals(attempts))
    ensures forall v | v in Arrivals(attempts) :: v <= Counter(attempts)
  {
    if attempts != [] {
      var front := attempts[..|attempts| - 1];
      ArrivalsOrdered(front);
      assert forall i | 0 <= i < |Arrivals(front)| :: Arrivals(front)[i] in Arrivals(front);
    }
  }

  /** The counter never skips: every number below it was sent and judged successful. */
  lemma {:induction false} NothingSkipped(attempts: seq<Attempt>, v: nat)
    requires v < Counter(attempts)
    ensures exists i :: Transmits(attempts, i, v) && attempts[i].judgedOk
  {
    var n := |attempts| - 1;
    var front := attempts[..n];
    if v < Counter(front) {
      NothingSkipped(front, v);
      var i :| Transmits(front, i, v) && front[i].judgedOk;
      assert front[..i] == attempts[..i];
      assert Transmits(attempts, i, v) && attempts[i].judgedOk;
    } else {
      assert Transmits(attempts, n, v) && attempts[n].judgedOk;
    }
  }

  lemma {:induction false} DeliveredArrives(attempts: seq<Attempt>, i: nat)
    requires i < |attempts| && attempts[i].delivered
    ensures Counter(attempts[..i]) in Arrivals(attempts)
  {
    var n := |attempts| - 1;
    if i < n {
      DeliveredArrives(attempts[..n], i);
      assert attempts[..n][..i] == attempts[..i];
    }
  }

  // ----- One ordered stream, classified from any starting tally -----

  function LastOf(last: nat, w: seq<nat>): nat {
    if w == [] then last else w[|w| - 1]
  }

  /** Numbers jumped over between `last` and the end of `w`. */
  function Skipped(last: nat, w: seq<nat>): set<nat> {
    set v | v in Interval(last + 1, LastOf(last, w)) && v !in w
  }

  predicate OrderedAfter(last: nat, w: seq<nat>) {
    Nondecreasing(w) && forall v | v in w :: last <= v
  }

  lemma OrderedAfterFront(last: nat, w: seq<nat>)
    requires OrderedAfter(last, w) && w != []
    ensures var front := w[..|w| - 1]; var m := LastOf(last, front);
      && OrderedAfter(last, front) && last <= m <= w[|w| - 1]
      && (forall x | x in front :: x <= m) && (m == last || m in front)
  {
    var front := w[..|w| - 1];
    assert forall x | x in front :: x in w;
    assert w[|w| - 1] in w;
    if front != [] {
      assert front[|front| - 1] in front;
    }
  }

  lemma {:induction false} OrderedMissing(t: Tally, w: seq<nat>)
    requires OrderedAfter(t.last, w)
    ensures var t' := TallyFrom(t, w);
      && t'.last == LastOf(t.last, w)
      && t'.outOfOrder == t.outOfOrder && t'.resets == t.resets
      && t'.missing == t.missing + |Skipped(t.last, w)|
  {
    if w == [] {
      assert Skipped(t.last, w) == {};
    } else {
      var front, v := w[..|w| - 1], w[|w| - 1];
      OrderedAfterFront(t.last, w);
      OrderedMissing(t, front);
      assert w == front + [v];
      if v == LastOf(t.last, front) {
        RepeatSkipsNothing(t.last, front, v);
      } else {
        SkippedJump(t.last, front, v);
      }
    }
  }

  lemma {:induction false} OrderedDuplicates(t: Tally, w: seq<nat>)
    requires OrderedAfter(t.last, w)
    ensures TallyFrom(t, w).duplicates + |Elements(w) - {t.last}| == t.duplicates + |w|
  {
    if w == [] {
      assert Elements(w) - {t.last} == {};
    } else {
      var front, v := w[..|w| - 1], w[|w| - 1];
      OrderedAfterFront(t.last, w);
      OrderedMissing(t, front);
      OrderedDuplicates(t, front);
      DuplicateStep(TallyFrom(t, front), t.last, front, v, t.duplicates);
      assert w == front + [v];
    }
  }

  lemma DuplicateStep(t: Tally, last: nat, front: seq<nat>, v: nat, before: nat)
    requires (forall x | x in front :: x <= LastOf(last, front)) && last <= LastOf(last, front) <= v
    requires t.last == LastOf(last, front)
    requires t.duplicates + |Elements(front) - {last}| == before + |front|
    ensures Classify(t, v).0.duplicates + |Elements(front + [v]) - {last}| == before + |front| + 1
  {
    DistinctStep(last, front, v);
  }

  /** The next number of an ordered stream is either the last one again or new. */
  lemma DistinctStep(last: nat, front: seq<nat>, v: nat)
    requires (forall x | x in front :: x <= LastOf(last, front)) && last <= LastOf(last, front) <= v
    ensures |Elements(front + [v]) - {last}|
         == |Elements(front) - {last}| + (if v == LastOf(last, front) then 0 else 1)
  {
    if v == LastOf(last, front) {
      RepeatSkipsNothing(last, front, v);
    } else {
      NewElement(last, front, v);
    }
  }

  lemma RepeatSkipsNothing(last: nat, front: seq<nat>, v: nat)
    requires v == LastOf(last, front)
    ensures Elements(front + [v]) - {last} == Elements(front) - {last}
    ensures Skipped(last, front + [v]) == Skipped(last, front)
  {
    assert v == last || v in front;
    ElementsSnoc(front, v);
    assert forall x: nat :: x in front + [v] <==> x in front || x == v;
  }

  lemma NewElement(last: nat, front: seq<nat>, v: nat)
    requires v !in front && v != last
    ensures |Elements(front + [v]) - {last}| == |Elements(front) - {last}| + 1
  {
    ElementsSnoc(front, v);
    var rest := Elements(front) - {last};
    assert Elements(front + [v]) - {last} == rest + {v};
    assert v !in rest;
  }

  lemma SkippedJump(last: nat, front: seq<nat>, v: nat)
    requires LastOf(last, front) < v && last <= LastOf(last, front)
    requires forall x | x in front :: x <= LastOf(last, front)
    ensures |Skipped(last, front + [v])| == |Skipped(last, front)| + (v - LastOf(last, front) - 1)
  {
    var jumped := Interval(LastOf(last, front) + 1, v);
    var a, b := Skipped(last, front), Skipped(last, front + [v]);
    forall x: nat
      ensures x in b <==> x in a || x in jumped
      ensures !(x in a && x in jumped)
    {
      SkippedMember(last, front, v, x);
    }
    assert b == a + jumped && a !! jumped;
  }

  lemma SkippedMember(last: nat, front: seq<nat>, v: nat, x: nat)
    requires LastOf(last, front) < v && last <= LastOf(last, front)
    requires forall y | y in front :: y <= LastOf(last, front)
    ensures var jumped := Interval(LastOf(last, front) + 1, v);
      && (x in Skipped(last, front + [v]) <==> x in Skipped(last, front) || x in jumped)
      && !(x in Skipped(last, front) && x in jumped)
  {
    var m := LastOf(last, front);
    assert m == last || m in front;
    assert x in front + [v] <==> x in front || x == v;
    assert LastOf(last, front + [v]) == v;
  }

  /** Deliveries beyond the first of each number. */
  function RepeatsIn(vs: seq<nat>): nat {
    ElementsCard(vs);
    |vs| - |Elements(vs)|
  }

  // ----- One boot -----

  lemma OrderedMax(vs: seq<nat>)
    requires vs != [] && Nondecreasing(vs)
    ensures Max(vs) == vs[|vs| - 1] && forall v | v in vs :: vs[0] <= v
  {
    MaxBounds(vs);
  }

  lemma OrderedExact(vs: seq<nat>)
    requires vs != [] && Nondecreasing(vs)
    ensures var t := TallyOf(vs);
      && t.outOfOrder == 0 && t.resets == 0
      && t.missing == |Unseen(vs)|
      && t.duplicates == RepeatsIn(vs)
      && t.last == vs[|vs| - 1]
  {
    RestOfBoot(Fresh(vs[0]), vs);
  }

  /** The head of an ordered stream accounts for one element and no hole. */
  lemma HeadAndTail(vs: seq<nat>)
    requires vs != [] && Nondecreasing(vs)
    ensures Skipped(vs[0], vs[1..]) == Unseen(vs)
    ensures |Elements(vs)| == |Elements(vs[1..]) - {vs[0]}| + 1
    ensures LastOf(vs[0], vs[1..]) == vs[|vs| - 1]
    ensures OrderedAfter(vs[0], vs[1..])
  {
    OrderedMax(vs);
    HeadSkips(vs);
    HeadElement(vs);
    TailOrdered(vs);
  }

  lemma TailOrdered(vs: seq<nat>)
    requires vs != [] && Nondecreasing(vs)
    ensures LastOf(vs[0], vs[1..]) == vs[|vs| - 1] && OrderedAfter(vs[0], vs[1..])
  {
    var rest := vs[1..];
    assert forall i | 0 <= i < |rest| :: rest[i] == vs[i + 1];
  }

  lemma HeadElement(vs: seq<nat>)
    requires vs != []
    ensures |Elements(vs)| == |Elements(vs[1..]) - {vs[0]}| + 1
  {
    ElementsCons(vs);
    var rest := Elements(vs[1..]) - {vs[0]};
    assert {vs[0]} + Elements(vs[1..]) == rest + {vs[0]};
    assert vs[0] !in rest;
  }

  lemma HeadSkips(vs: seq<nat>)
    requires vs != [] && Max(vs) == vs[|vs| - 1]
    ensures Skipped(vs[0], vs[1..]) == Unseen(vs)
  {
    var lo, hi := vs[0], vs[|vs| - 1];
    var inner, outer := Interval(lo + 1, hi), Interval(lo, hi + 1);
    assert LastOf(lo, vs[1..]) == hi;
    assert lo in vs && hi in vs;
    forall v: nat
      ensures v in inner && v !in vs[1..] <==> v in outer && v !in vs
    {
      InTail(vs, v);
    }
  }

  lemma InTail(vs: seq<nat>, v: nat)
    requires vs != []
    ensures v in vs <==> v == vs[0] || v in vs[1..]
  {
    assert vs == [vs[0]] + vs[1..];
  }

  /**
   * One boot, any loss pattern, any misjudged write: the gateway reports only
   * FIRST, IN_ORDER, GAP and DUPLICATE; its missing count is exact; each number
   * it counts missing was transmitted, believed delivered, and lost every time;
   * and its duplicate count is deliveries less distinct numbers.
   */
  lemma BootIsExact(attempts: seq<Attempt>)
    requires Arrivals(attempts) != []
    ensures var vs := Arrivals(attempts); var t := TallyOf(vs);
      && (forall s | s in Statuses(vs) :: s in {First, InOrder, Gap, Duplicate})
      && t.missing == |Unseen(vs)|
      && t.duplicates == RepeatsIn(vs)
    ensures forall v | v in Unseen(Arrivals(attempts)) :: LostEveryTime(attempts, v)
  {
    var vs := Arrivals(attempts);
    ArrivalsOrdered(attempts);
    OrderedExact(vs);
    CountersCountStatuses(vs);
    var ss := Statuses(vs);
    assert multiset(ss)[OutOfOrder] == 0 && multiset(ss)[Reset] == 0;
    forall s | s in ss
      ensures s in {First, InOrder, Gap, Duplicate}
    {
      assert multiset(ss)[s] > 0;
      assert s != OutOfOrder && s != Reset;
    }
    forall v | v in Unseen(vs)
      ensures LostEveryTime(attempts, v)
    {
      HoleWasLost(attempts, v);
    }
  }

  /** `v` was sent and believed delivered, and no transmission of it arrived. */
  predicate LostEveryTime(attempts: seq<Attempt>, v: nat) {
    && (exists i | 0 <= i < |attempts| :: Transmits(attempts, i, v) && attempts[i].judgedOk)
    && (forall i | 0 <= i < |attempts| && Transmits(attempts, i, v) :: !attempts[i].delivered)
  }

  lemma HoleWasLost(attempts: seq<Attempt>, v: nat)
    requires Arrivals(attempts) != [] && v in Unseen(Arrivals(attempts))
    ensures LostEveryTime(attempts, v)
  {
    var vs := Arrivals(attempts);
    ArrivalsOrdered(attempts);
    MaxBounds(vs);
    assert v < Max(vs) <= Counter(attempts);
    NothingSkipped(attempts, v);
    forall i | 0 <= i < |attempts| && Transmits(attempts, i, v)
      ensures !attempts[i].delivered
    {
      if attempts[i].delivered {
        DeliveredArrives(attempts, i);
      }
    }
  }

  // ----- Reboots -----

  /** The arrivals of each boot; every later boot's 0 got through. */
  predicate Boots(bs: seq<Epoch>) {
    && bs != []
    && Nondecreasing(bs[|bs| - 1])
    && (|bs| > 1 ==> bs[|bs| - 1][0] == 0 && Boots(bs[..|bs| - 1]))
  }

  /** Restarts of a boot that had got past 0. */
  function Wakes(bs: seq<Epoch>): nat {
    if |bs| <= 1 then 0
    else
      var prev := bs[|bs| - 2];
      Wakes(bs[..|bs| - 1]) + (if prev[|prev| - 1] > 0 then 1 else 0)
  }

  function Repeats(bs: seq<Epoch>): nat {
    if bs == [] then 0 else Repeats(bs[..|bs| - 1]) + RepeatsIn(bs[|bs| - 1])
  }

  /** How a boot whose 0 arrived moves the counters from `t` to `t'`. */
  predicate AfterBoot(t: Tally, b: Epoch, t': Tally) {
    && t'.last == b[|b| - 1] && t'.outOfOrder == t.outOfOrder
    && t'.missing == t.missing + |Unseen(b)|
    && t'.resets == t.resets + (if t.last > 0 then 1 else 0)
    && t'.duplicates == t.duplicates + RepeatsIn(b) + (if t.last > 0 then 0 else 1)
  }

  /** One reboot, from any earlier tally. */
  lemma RebootStep(t: Tally, b: Epoch)
    requires Nondecreasing(b) && b[0] == 0
    ensures AfterBoot(t, b, TallyFrom(t, b))
  {
    var t1 := Classify(t, 0).0;
    TallyUncons(t, b);
    RestOfBoot(t1, b);
  }

  lemma TallyUncons(t: Tally, b: Epoch)
    ensures TallyFrom(t, b) == TallyFrom(Classify(t, b[0]).0, b[1..])
  {
    assert b == [b[0]] + b[1..];
    TallyConcat(t, [b[0]], b[1..]);
    assert TallyFrom(t, [b[0]][..0]) == t;
    assert TallyFrom(t, [b[0]]) == Classify(t, b[0]).0;
  }

  lemma RestOfBoot(t1: Tally, b: Epoch)
    requires Nondecreasing(b) && b[0] == t1.last
    ensures var t' := TallyFrom(t1, b[1..]);
      && t'.last == b[|b| - 1] && t'.outOfOrder == t1.outOfOrder && t'.resets == t1.resets
      && t'.missing == t1.missing + |Unseen(b)|
      && t'.duplicates == t1.duplicates + RepeatsIn(b)
  {
    HeadAndTail(b);
    OrderedMissing(t1, b[1..]);
    OrderedDuplicates(t1, b[1..]);
  }

  /** What the gateway's counters `t` say about the boots `bs`. */
  predicate BootsCounted(bs: seq<Epoch>, t: Tally)
    requires bs != []
  {
    var last := bs[|bs| - 1];
    && t.last == last[|last| - 1]
    && t.outOfOrder == 0
    && t.missing == TotalUnseen(bs)
    && t.resets == Wakes(bs)
    && t.duplicates == Repeats(bs) + (|bs| - 1 - Wakes(bs))
  }

  lemma OneMoreBoot(bs: seq<Epoch>, t: Tally, t': Tally)
    requires |bs| > 1 && BootsCounted(bs[..|bs| - 1], t) && AfterBoot(t, bs[|bs| - 1], t')
    ensures BootsCounted(bs, t')
  {
    BootsSnoc(bs);
  }

  lemma FirstBoot(bs: seq<Epoch>, t: Tally)
    requires |bs| == 1 && t.last == bs[0][|bs[0]| - 1] && t.outOfOrder == 0 && t.resets == 0
    requires t.missing == |Unseen(bs[0])| && t.duplicates == RepeatsIn(bs[0])
    ensures BootsCounted(bs, t)
  {
    assert TotalUnseen(bs[..0]) == 0 && Repeats(bs[..0]) == 0;
  }

  lemma OnlyBoot(bs: seq<Epoch>, all: seq<nat>)
    requires |bs| == 1 && Boots(bs) && all == Flatten(bs)
    ensures all != [] && BootsCounted(bs, TallyOf(all))
  {
    FlattenOne(bs);
    OrderedExact(bs[0]);
    FirstBoot(bs, TallyOf(bs[0]));
  }

  lemma AnotherBoot(bs: seq<Epoch>)
    requires |bs| > 1 && Boots(bs) && Flatten(bs[..|bs| - 1]) != []
    requires BootsCounted(bs[..|bs| - 1], TallyOf(Flatten(bs[..|bs| - 1])))
    ensures Flatten(bs) != [] && BootsCounted(bs, TallyOf(Flatten(bs)))
  {
    var front, b := bs[..|bs| - 1], bs[|bs| - 1];
    var t := TallyOf(Flatten(front));
    assert Flatten(bs) == Flatten(front) + b;
    TallyAppend(Flatten(front), b);
    RebootStep(t, b);
    OneMoreBoot(bs, t, TallyFrom(t, b));
  }

  /**
   * Any number of boots: missing is the sum of each boot's own holes, each
   * restart costs exactly one RESET, or one DUPLICATE when the earlier boot
   * never got past 0, and nothing is ever called out of order.
   */
  lemma {:induction false} OrderedBootsAreExact(bs: seq<Epoch>)
    requires Boots(bs)
    ensures Flatten(bs) != [] && BootsCounted(bs, TallyOf(Flatten(bs)))
  {
    if |bs| == 1 {
      OnlyBoot(bs, Flatten(bs));
    } else {
      OrderedBootsAreExact(bs[..|bs| - 1]);
      AnotherBoot(bs);
    }
  }

  /** Every boot was heard, and every boot after the first from its 0 on. */
  predicate Heard(boots: seq<seq<Attempt>>) {
    && boots != []
    && (forall k | 0 <= k < |boots| :: Arrivals(boots[k]) != [])
    && (forall k | 1 <= k < |boots| :: 0 in Arrivals(boots[k]))
  }

  /** What arrived of each boot. */
  function ArrivalsOf(boots: seq<seq<Attempt>>): (bs: seq<Epoch>)
    requires Heard(boots)
    ensures |bs| == |boots| && forall k | 0 <= k < |boots| :: bs[k] == Arrivals(boots[k])
  {
    seq(|boots|, k requires 0 <= k < |boots| => Arrivals(boots[k]))
  }

  lemma {:induction false} HeardBoots(boots: seq<seq<Attempt>>)
    requires Heard(boots)
    ensures Boots(ArrivalsOf(boots))
  {
    var n := |boots| - 1;
    var vs := Arrivals(boots[n]);
    ArrivalsOrdered(boots[n]);
    if n > 0 {
      var i :| 0 <= i < |vs| && vs[i] == 0;
      assert vs[0] <= vs[i];
      HeardBoots(boots[..n]);
      assert ArrivalsOf(boots)[..n] == ArrivalsOf(boots[..n]);
    }
  }

  /**
   * A node that reboots any number of times, under any loss and any misjudged
   * write, each later boot heard from its 0 on: the gateway's counters are exact,
   * and every number it counts missing was lost every time it was sent.
   */
  lemma RebootsAreExact(boots: seq<seq<Attempt>>)
    requires Heard(boots)
    ensures var bs := ArrivalsOf(boots); Flatten(bs) != [] && BootsCounted(bs, TallyOf(Flatten(bs)))
    ensures forall k, v | 0 <= k < |boots| && v in Unseen(ArrivalsOf(boots)[k]) ::
      LostEveryTime(boots[k], v)
  {
    HeardBoots(boots);
    OrderedBootsAreExact(ArrivalsOf(boots));
    forall k, v | 0 <= k < |boots| && v in Unseen(ArrivalsOf(boots)[k])
      ensures LostEveryTime(boots[k], v)
    {
      HoleWasLost(boots[k], v);
    }
  }

  lemma BootsSnoc(bs: seq<Epoch>)
    requires |bs| > 1
    ensures var n := |bs| - 1; var front, b, prev := bs[..n], bs[n], bs[n - 1];
      && front[n - 1] == prev
      && TotalUnseen(bs) == TotalUnseen(front) + |Unseen(b)|
      && Repeats(bs) == Repeats(front) + RepeatsIn(b)
      && Wakes(bs) == Wakes(front) + (if prev[|prev| - 1] > 0 then 1 else 0)
  {
  }

  lemma FlattenOne(bs: seq<Epoch>)
    requires |bs| == 1
    ensures Flatten(bs) == bs[0]
  {
    assert Flatten(bs[..0]) == [];
    assert Flatten(bs) == [] + bs[0];
  }

  lemma TallyAppend(a: seq<nat>, b: seq<nat>)
    requires a != []
    ensures TallyOf(a + b) == TallyFrom(TallyOf(a), b)
  {
    assert (a + b)[1..] == a[1..] + b;
    TallyConcat(Fresh(a[0]), a[1..], b);
  }

  /** A restart is noticed exactly when its 0 arrives after a larger number. */
  lemma RebootNoticed(t: Tally, b: seq<nat>)
    requires b != [] && Nondecreasing(b)
    ensures TallyFrom(t, b).resets == t.resets + (if b[0] == 0 && t.last > 0 then 1 else 0)
  {
    if b[0] == 0 {
      RebootStep(t, b);
    } else {
      NoZeroNoReset(t, b);
    }
  }

  lemma {:induction false} NoZeroNoReset(t: Tally, b: seq<nat>)
    requires 0 !in b
    ensures TallyFrom(t, b).resets == t.resets
  {
    if b != [] {
      var n := |b| - 1;
      assert b[n] in b;
      NoZeroNoReset(t, b[..n]);
    }
  }
}
