/**
 * From the forwarder to the analysed log: at-least-once delivery, undone by
 * deduplication, and what counter parity proves about the collector's log.
 */
module Delivery {
  import opened Common
  import opened Messages
  import opened Queues
  import opened Upstream
  import opened Forwarder
  import opened Analysis
  import Evidence
  import AggregatedRuns
  import A = Aggregation

  /** Every record the worker ever tried to send, oldest first. */
  function Attempted(s: State): seq<Parcel> {
    s.h.sent + InFlight(s.worker) + s.h.lostInFlight
  }

  function FrameOf(w: Collected): Frame {
    Frame(w.record, w.wireBytes)
  }

  function FramesOf(ps: seq<Parcel>): seq<Frame> {
    Mapped(ps, (p: Parcel) => p.frame)
  }

  function Frames(log: seq<Collected>): seq<Frame> {
    Mapped(log, FrameOf)
  }

  function IdsOf(ps: seq<Parcel>): seq<string> {
    Mapped(ps, (p: Parcel) => p.frame.record.recordId)
  }

  /**
   * What TCP is assumed to do. A drained write is delivered at least once; a
   * failed attempt may deliver copies too; nothing else reaches the log, in
   * whatever order connections are read.
   */
  ghost predicate Carries(s: State, log: seq<Collected>) {
    && (forall p | p in s.h.sent :: p.frame in Frames(log))
    && (forall f | f in Frames(log) :: f in FramesOf(Attempted(s)))
  }

  predicate ValidIds(rs: seq<Received>) {
    forall r | r in rs :: ValidNodeId(r.message.nodeId)
  }

  // ----- RAW identities -----

  lemma {:induction false} CoveredConcat(a: seq<Parcel>, b: seq<Parcel>)
    ensures Covered(a + b) == Covered(a) + Covered(b)
  {
    if b == [] {
      assert a + b == a;
    } else {
      var front, p := b[..|b| - 1], b[|b| - 1];
      CoveredConcat(a, front);
      CoveredSnoc(a + front, p);
      CoveredSnoc(front, p);
      assert b == front + [p] && a + b == (a + front) + [p];
      Assoc(Covered(a), Covered(front), p.covers);
    }
  }

  /** In RAW mode the attempted records are the taken readings, one for one and in order. */
  lemma AttemptedIsTaken(cfg: Config, es: seq<Event>)
    requires ValidConfig(cfg) && cfg.mode.Raw?
    ensures var s := Run(cfg, es);
      && Covered(Attempted(s)) == s.h.taken && s.h.taken <= s.h.accepted
      && (forall p | p in Attempted(s) :: GoodParcel(cfg, p))
      && |InFlight(s.worker)| + |s.h.lostInFlight| <= 1
  {
    RunKeeps(cfg, es);
    var s := Run(cfg, es);
    AttemptedCovers(cfg, s);
    TakenFirst(s);
  }

  lemma AttemptedCovers(cfg: Config, s: State)
    requires EveryReadingPlaced(cfg, s) && cfg.mode.Raw?
    ensures Covered(Attempted(s)) == s.h.taken
  {
    CoveredConcat(s.h.sent, InFlight(s.worker));
    CoveredConcat(s.h.sent + InFlight(s.worker), s.h.lostInFlight);
    var all := Covered(Attempted(s));
    assert all + [] + [] == all;
  }

  /** Ids repeat exactly when keys do. */
  lemma IdsDistinctIffKeys(cfg: Config, ps: seq<Parcel>)
    requires cfg.mode.Raw? && (forall p | p in ps :: GoodParcel(cfg, p)) && ValidIds(Covered(ps))
    ensures Distinct(IdsOf(ps)) <==> Evidence.DistinctKeys(Covered(ps))
  {
    RawCovers(cfg, ps);
    var rs, ids := Covered(ps), IdsOf(ps);
    assert |ids| == |rs| && forall i | 0 <= i < |ps| :: ids[i] == RawIdFor(rs[i]);
    forall i, j | 0 <= i < j < |ps|
      ensures ids[i] == ids[j] <==> Evidence.KeyOf(rs[i]) == Evidence.KeyOf(rs[j])
    {
      assert rs[i] in rs && rs[j] in rs;
      if ids[i] == ids[j] {
        RawIdIsInjective(rs[i].message.nodeId, rs[i].message.sequence, rs[i].monotonicNs,
                         rs[j].message.nodeId, rs[j].message.sequence, rs[j].monotonicNs);
      }
    }
    if Distinct(ids) {
      forall i, j | 0 <= i < j < |rs|
        ensures Evidence.KeyOf(rs[i]) != Evidence.KeyOf(rs[j])
      {
        assert ids[i] != ids[j];
      }
    }
    if Evidence.DistinctKeys(rs) {
      forall i, j | 0 <= i < j < |ids|
        ensures ids[i] != ids[j]
      {
        assert Evidence.KeyOf(rs[i]) != Evidence.KeyOf(rs[j]);
      }
    }
  }

  lemma PrefixKeys(taken: seq<Received>, accepted: seq<Received>)
    requires taken <= accepted && Evidence.DistinctKeys(accepted) && ValidIds(accepted)
    ensures Evidence.DistinctKeys(taken) && ValidIds(taken)
  {
    forall i, j | 0 <= i < j < |taken|
      ensures Evidence.KeyOf(taken[i]) != Evidence.KeyOf(taken[j])
    {
      assert taken[i] == accepted[i] && taken[j] == accepted[j];
      assert Evidence.KeyOf(accepted[i]) != Evidence.KeyOf(accepted[j]);
    }
    forall r | r in taken
      ensures ValidNodeId(r.message.nodeId)
    {
      assert r in accepted;
    }
  }

  lemma RunHasDistinctIds(cfg: Config, es: seq<Event>)
    requires ValidConfig(cfg) && cfg.mode.Raw?
    requires var s := Run(cfg, es); Evidence.DistinctKeys(s.h.accepted) && ValidIds(s.h.accepted)
    ensures Distinct(IdsOf(Attempted(Run(cfg, es))))
  {
    var s := Run(cfg, es);
    AttemptedIsTaken(cfg, es);
    PrefixKeys(s.h.taken, s.h.accepted);
    IdsDistinctIffKeys(cfg, Attempted(s));
  }

  // ----- Any log carried by distinct-id parcels -----

  /** Each entry is a copy of one attempted frame. */
  lemma EntryIsFrame(ps: seq<Parcel>, log: seq<Collected>, k: nat) returns (i: nat)
    requires k < |log| && forall f | f in Frames(log) :: f in FramesOf(ps)
    ensures i < |ps| && ps[i].frame == FrameOf(log[k])
  {
    assert Frames(log)[k] in Frames(log);
    i :| 0 <= i < |FramesOf(ps)| && FramesOf(ps)[i] == Frames(log)[k];
  }

  lemma DistinctIdsNoConflict(ps: seq<Parcel>, log: seq<Collected>)
    requires Distinct(IdsOf(ps)) && forall f | f in Frames(log) :: f in FramesOf(ps)
    ensures !HasConflict(log)
  {
    forall i, j | 0 <= i < j < |log| && IdOf(log[i]) == IdOf(log[j])
      ensures log[i].record == log[j].record
    {
      var a := EntryIsFrame(ps, log, i);
      var b := EntryIsFrame(ps, log, j);
      assert IdsOf(ps)[a] == IdsOf(ps)[b];
    }
  }

  lemma SentIdsLogged(s: State, log: seq<Collected>)
    requires Carries(s, log)
    ensures Elements(IdsOf(s.h.sent)) <= Ids(log) <= Elements(IdsOf(Attempted(s)))
  {
    forall id | id in Elements(IdsOf(s.h.sent))
      ensures id in Ids(log)
    {
      var i :| 0 <= i < |IdsOf(s.h.sent)| && IdsOf(s.h.sent)[i] == id;
      assert s.h.sent[i] in s.h.sent && s.h.sent[i].frame in Frames(log);
      var k :| 0 <= k < |Frames(log)| && Frames(log)[k] == s.h.sent[i].frame;
      assert IdOf(log[k]) == id;
    }
    forall id | id in Ids(log)
      ensures id in Elements(IdsOf(Attempted(s)))
    {
      var k :| 0 <= k < |log| && IdOf(log[k]) == id;
      var a := EntryIsFrame(Attempted(s), log, k);
      assert IdsOf(Attempted(s))[a] == id;
    }
  }

  /** The deduplicated log holds this record, and only once. */
  predicate HeldOnce(unique: seq<Collected>, r: Record) {
    exists k | 0 <= k < |unique| ::
      && unique[k].record == r
      && forall m | 0 <= m < |unique| && m != k :: unique[m].record.recordId != r.recordId
  }

  lemma SameIdSameRecord(log: seq<Collected>, i: nat, j: nat)
    requires !HasConflict(log) && i < |log| && j < |log| && IdOf(log[i]) == IdOf(log[j])
    ensures log[i].record == log[j].record
  {
  }

  lemma SentIsHeldOnce(s: State, log: seq<Collected>, p: Parcel)
    requires Carries(s, log) && !HasConflict(log) && p in s.h.sent
    ensures HeldOnce(Unique(log), p.frame.record)
  {
    var i :| 0 <= i < |Frames(log)| && Frames(log)[i] == p.frame;
    assert log[i].record == p.frame.record;
    LoggedIsHeldOnce(log, i);
  }

  lemma LoggedIsHeldOnce(log: seq<Collected>, i: nat)
    requires !HasConflict(log) && i < |log|
    ensures HeldOnce(Unique(log), log[i].record)
  {
    var unique, id := Unique(log), IdOf(log[i]);
    UniqueHasEachIdOnce(log);
    assert id in Ids(unique);
    var k :| 0 <= k < |unique| && IdOf(unique[k]) == id;
    assert unique[k] in log;
    var j :| 0 <= j < |log| && log[j] == unique[k];
    SameIdSameRecord(log, i, j);
    forall m | 0 <= m < |unique| && m != k
      ensures unique[m].record.recordId != id
    {
      assert IdOf(unique[m]) != IdOf(unique[k]);
    }
  }

  /**
   * At-least-once, undone: deduplication finds no conflict, holds each record
   * counted in upstream_messages exactly once, and holds at most one more, the
   * record in flight or abandoned in flight.
   */
  ghost predicate Undone(s: State, log: seq<Collected>) {
    && !HasConflict(log)
    && (forall p | p in s.h.sent :: HeldOnce(Unique(log), p.frame.record))
    && s.stats.messages <= |Unique(log)| <= s.stats.messages + |InFlight(s.worker)| + |s.h.lostInFlight|
    && |InFlight(s.worker)| + |s.h.lostInFlight| <= 1
  }

  /** In either mode, ids that do not repeat are all that deduplication needs. */
  lemma DistinctIdsUndone(cfg: Config, es: seq<Event>, log: seq<Collected>)
    requires ValidConfig(cfg) && Carries(Run(cfg, es), log)
    requires Distinct(IdsOf(Attempted(Run(cfg, es))))
    ensures Undone(Run(cfg, es), log)
  {
    var s := Run(cfg, es);
    RunKeeps(cfg, es);
    DistinctIdsNoConflict(Attempted(s), log);
    forall p | p in s.h.sent
      ensures HeldOnce(Unique(log), p.frame.record)
    {
      SentIsHeldOnce(s, log, p);
    }
    SentIdsLogged(s, log);
    UniqueHasEachIdOnce(log);
    SentIdsDistinct(s);
    ElementsCard(IdsOf(s.h.sent));
    ElementsCard(IdsOf(Attempted(s)));
    SubsetCard(Elements(IdsOf(s.h.sent)), Ids(log));
    SubsetCard(Ids(log), Elements(IdsOf(Attempted(s))));
  }

  lemma SentIdsDistinct(s: State)
    requires Distinct(IdsOf(Attempted(s)))
    ensures Distinct(IdsOf(s.h.sent))
  {
    DistinctFront(IdsOf(Attempted(s)), |s.h.sent|);
    assert IdsOf(s.h.sent) == IdsOf(Attempted(s))[..|s.h.sent|];
  }

  /** For every RAW run and every log its frames can leave, retries are undone. */
  lemma DedupUndoesRetries(cfg: Config, es: seq<Event>, log: seq<Collected>)
    requires ValidConfig(cfg) && cfg.mode.Raw? && Carries(Run(cfg, es), log)
    requires var s := Run(cfg, es); Evidence.DistinctKeys(s.h.accepted) && ValidIds(s.h.accepted)
    ensures Undone(Run(cfg, es), log)
  {
    RunHasDistinctIds(cfg, es);
    DistinctIdsUndone(cfg, es, log);
  }

  lemma DistinctFront<T>(s: seq<T>, n: nat)
    requires n <= |s| && Distinct(s)
    ensures Distinct(s[..n])
  {
  }

  /** One entry per record sent, and no conflict. */
  predicate DedupIsExact(s: State, log: seq<Collected>) {
    !HasConflict(log) && |Unique(log)| == s.stats.messages
  }

  /** When nothing is or was lost in flight, deduplication is exact iff no id was sent twice. */
  lemma ExactIffIdsDistinct(cfg: Config, es: seq<Event>, log: seq<Collected>)
    requires ValidConfig(cfg) && Carries(Run(cfg, es), log)
    requires Attempted(Run(cfg, es)) == Run(cfg, es).h.sent
    ensures DedupIsExact(Run(cfg, es), log) <==> Distinct(IdsOf(Run(cfg, es).h.sent))
  {
    var s := Run(cfg, es);
    RunKeeps(cfg, es);
    SentIdsLogged(s, log);
    UniqueHasEachIdOnce(log);
    ElementsCard(IdsOf(s.h.sent));
    assert Ids(log) == Elements(IdsOf(s.h.sent));
    if Distinct(IdsOf(s.h.sent)) {
      DistinctIdsNoConflict(s.h.sent, log);
    }
  }

  /**
   * The exact condition in RAW mode: no two sent readings share node, sequence
   * and receive instant.
   */
  lemma ExactIffKeysDistinct(cfg: Config, es: seq<Event>, log: seq<Collected>)
    requires ValidConfig(cfg) && cfg.mode.Raw? && Carries(Run(cfg, es), log)
    requires var s := Run(cfg, es); Attempted(s) == s.h.sent && ValidIds(Covered(s.h.sent))
    ensures DedupIsExact(Run(cfg, es), log) <==> Evidence.DistinctKeys(Covered(Run(cfg, es).h.sent))
  {
    RunKeeps(cfg, es);
    IdsDistinctIffKeys(cfg, Run(cfg, es).h.sent);
    ExactIffIdsDistinct(cfg, es, log);
  }

  // ----- AGGREGATED identities -----

  /** No two parcels summarize windows with the same start and end millisecond. */
  predicate DistinctWindows(ps: seq<Parcel>) {
    forall i, j | 0 <= i < j < |ps| :: WindowMs(ps[i]) != WindowMs(ps[j])
  }

  function WindowMs(p: Parcel): (nat, nat) {
    if p.frame.record.RawRecord? then (0, 0)
    else (p.frame.record.summary.startMs, p.frame.record.summary.endMs)
  }

  lemma SummaryIdentity(cfg: Config, p: Parcel)
    requires cfg.mode.Aggregated? && GoodParcel(cfg, p)
    ensures p.frame.record.AggregateRecord? && p.covers != []
    ensures p.frame.record.recordId == AggregateId(WindowMs(p).0, WindowMs(p).1)
    ensures WindowMs(p).0 == p.covers[0].receivedAtMs
  {
  }

  lemma IdsDistinctIffWindows(cfg: Config, ps: seq<Parcel>)
    requires cfg.mode.Aggregated? && (forall p | p in ps :: GoodParcel(cfg, p))
    ensures Distinct(IdsOf(ps)) <==> DistinctWindows(ps)
  {
    var ids := IdsOf(ps);
    forall i, j | 0 <= i < j < |ps|
      ensures ids[i] == ids[j] <==> WindowMs(ps[i]) == WindowMs(ps[j])
    {
      SummaryIdentity(cfg, ps[i]);
      SummaryIdentity(cfg, ps[j]);
      if ids[i] == ids[j] {
        AggregateIdIsInjective(WindowMs(ps[i]).0, WindowMs(ps[i]).1, WindowMs(ps[j]).0, WindowMs(ps[j]).1);
      }
    }
    if Distinct(ids) {
      forall i, j | 0 <= i < j < |ps|
        ensures WindowMs(ps[i]) != WindowMs(ps[j])
      {
        assert ids[i] != ids[j];
      }
    }
  }

  /**
   * The exact condition in AGGREGATED mode: no two sent windows share their start
   * and end millisecond.
   */
  lemma ExactIffWindowsDistinct(cfg: Config, es: seq<Event>, log: seq<Collected>)
    requires ValidConfig(cfg) && cfg.mode.Aggregated? && Carries(Run(cfg, es), log)
    requires Attempted(Run(cfg, es)) == Run(cfg, es).h.sent
    ensures DedupIsExact(Run(cfg, es), log) <==> DistinctWindows(Run(cfg, es).h.sent)
  {
    RunKeeps(cfg, es);
    IdsDistinctIffWindows(cfg, Run(cfg, es).h.sent);
    ExactIffIdsDistinct(cfg, es, log);
  }

  /** A window later on the monotonic clock is at least a millisecond later on the wall clock. */
  predicate WallClockFollows(rs: seq<Received>, windowNs: nat) {
    forall a, b | a in rs && b in rs && a.monotonicNs + windowNs <= b.monotonicNs ::
      a.receivedAtMs < b.receivedAtMs
  }

  /** It does so when the two clocks keep their offset and a window lasts a millisecond or more. */
  lemma SteadyClockFollows(rs: seq<Received>, windowNs: nat, offsetNs: nat)
    requires windowNs >= 1000000
    requires forall r | r in rs :: r.receivedAtMs == (r.monotonicNs + offsetNs) / 1000000
    ensures WallClockFollows(rs, windowNs)
  {
  }

  /** The next reading after every timeout flush was timely, on a wall clock that follows. */
  predicate Undisturbed(cfg: Config, s: State) {
    AggregatedRuns.AllTimely(s) && WallClockFollows(s.h.accepted, cfg.window.windowNs)
  }

  lemma {:induction false} CoversInCovered(ps: seq<Parcel>, i: nat)
    requires i < |ps|
    ensures forall r | r in ps[i].covers :: r in Covered(ps)
  {
    var n := |ps| - 1;
    if i < n {
      CoversInCovered(ps[..n], i);
      assert ps[..n][i] == ps[i];
    }
  }

  lemma StartsWith(ps: seq<Parcel>, w: Worker)
    ensures AggregatedRuns.StartsOf(ps + InFlight(w))
         == AggregatedRuns.StartsOf(ps) + AggregatedRuns.StartsOf(InFlight(w))
  {
    if w.Sending? {
      AggregatedRuns.StartsSnoc(ps, w.p);
    } else {
      NothingStarts(ps, InFlight(w));
    }
  }

  lemma NothingStarts(ps: seq<Parcel>, none: seq<Parcel>)
    requires none == []
    ensures AggregatedRuns.StartsOf(ps + none)
         == AggregatedRuns.StartsOf(ps) + AggregatedRuns.StartsOf(none)
  {
    assert ps + none == ps;
  }

  /** The windows attempted are an initial part of all windows opened. */
  lemma AttemptedStarts(s: State)
    requires LossOnlyByForce(s)
    ensures AggregatedRuns.StartsOf(Attempted(s)) <= AggregatedRuns.Starts(s)
  {
    var lost, tried := s.h.lostInFlight, s.h.sent + InFlight(s.worker);
    StartsWith(s.h.sent, s.worker);
    if lost == [] {
      NothingStarts(tried, lost);
    } else {
      AggregatedRuns.StartsSnoc(tried, lost[0]);
      assert lost == [lost[0]];
    }
    Assoc(AggregatedRuns.StartsOf(Attempted(s)), AggregatedRuns.StartOf(s.window),
          AggregatedRuns.StartOf(s.h.lostWindow));
  }

  /** What was attempted covers only readings that were accepted. */
  lemma AttemptedAccepted(cfg: Config, s: State)
    requires EveryReadingPlaced(cfg, s) && FirstInFirstOut(s)
    ensures forall r | r in Covered(Attempted(s)) :: r in s.h.accepted
  {
    CoveredConcat(s.h.sent, InFlight(s.worker));
    CoveredConcat(s.h.sent + InFlight(s.worker), s.h.lostInFlight);
    TakenFirst(s);
    FilterMembers(s.h.taken, (r: Received) => A.Counted(r));
    forall r | r in Covered(Attempted(s))
      ensures r in s.h.accepted
    {
      assert r in Kept(cfg.mode, s.h.taken);
      assert r in s.h.taken;
    }
  }

  lemma GoodAttempted(cfg: Config, s: State)
    requires ParcelsGood(cfg, s)
    ensures forall p | p in Attempted(s) :: GoodParcel(cfg, p)
  {
  }

  lemma UndisturbedIdsDistinct(cfg: Config, es: seq<Event>)
    requires ValidConfig(cfg) && cfg.mode.Aggregated? && Undisturbed(cfg, Run(cfg, es))
    ensures Distinct(IdsOf(Attempted(Run(cfg, es))))
  {
    var s := Run(cfg, es);
    var ps := Attempted(s);
    RunKeeps(cfg, es);
    GoodAttempted(cfg, s);
    AggregatedRuns.SpacedIffTimely(cfg, es);
    AttemptedStarts(s);
    AttemptedAccepted(cfg, s);
    AggregatedRuns.StartsAre(cfg, ps);
    forall i, j | 0 <= i < j < |ps|
      ensures WindowMs(ps[i]) != WindowMs(ps[j])
    {
      AggregatedRuns.SpacedPair(AggregatedRuns.Starts(s), cfg.window.windowNs, i, j);
      SpacedWindowsDiffer(cfg, ps, s.h.accepted, i, j);
    }
    IdsDistinctIffWindows(cfg, ps);
  }

  lemma SpacedWindowsDiffer(cfg: Config, ps: seq<Parcel>, accepted: seq<Received>, i: nat, j: nat)
    requires cfg.mode.Aggregated? && i < j < |ps| && WallClockFollows(accepted, cfg.window.windowNs)
    requires GoodParcel(cfg, ps[i]) && GoodParcel(cfg, ps[j])
    requires forall r | r in Covered(ps) :: r in accepted
    requires ps[i].covers[0].monotonicNs + cfg.window.windowNs <= ps[j].covers[0].monotonicNs
    ensures WindowMs(ps[i]) != WindowMs(ps[j])
  {
    CoversInCovered(ps, i);
    CoversInCovered(ps, j);
    assert ps[i].covers[0] in accepted && ps[j].covers[0] in accepted;
    SummaryIdentity(cfg, ps[i]);
    SummaryIdentity(cfg, ps[j]);
  }

  /**
   * For every AGGREGATED run whose windows nothing disturbed, and every log its
   * frames can leave, retries are undone.
   */
  lemma AggregatedDedupUndoesRetries(cfg: Config, es: seq<Event>, log: seq<Collected>)
    requires ValidConfig(cfg) && cfg.mode.Aggregated? && Carries(Run(cfg, es), log)
    requires Undisturbed(cfg, Run(cfg, es))
    ensures Undone(Run(cfg, es), log)
  {
    UndisturbedIdsDistinct(cfg, es);
    DistinctIdsUndone(cfg, es, log);
  }

  // ----- Counter parity -----

  lemma {:induction false} BytesOfFrames(ps: seq<Parcel>)
    ensures Bytes(ps) == Total(Mapped(FramesOf(ps), (f: Frame) => f.size))
  {
    if ps != [] {
      var n := |ps| - 1;
      BytesOfFrames(ps[..n]);
      var sizes := Mapped(FramesOf(ps), (f: Frame) => f.size);
      assert sizes[..n] == Mapped(FramesOf(ps[..n]), (f: Frame) => f.size);
    }
  }

  lemma {:induction false} BytesOfLog(log: seq<Collected>)
    ensures WireBytes(log) == Total(Mapped(Frames(log), (f: Frame) => f.size))
  {
    if log != [] {
      var n := |log| - 1;
      BytesOfLog(log[..n]);
      var sizes := Mapped(Frames(log), (f: Frame) => f.size);
      assert sizes[..n] == Mapped(Frames(log[..n]), (f: Frame) => f.size);
    }
  }

  /** Every record sent was received exactly once, and nothing else was. */
  ghost predicate ExactlyOnce(s: State, log: seq<Collected>) {
    multiset(Frames(log)) == multiset(FramesOf(s.h.sent))
  }

  /** Every drained write arrived at least once, counted write by write. */
  ghost predicate Arrived(s: State, log: seq<Collected>) {
    multiset(FramesOf(s.h.sent)) <= multiset(Frames(log))
  }

  /**
   * Parity admission, for every run of both modes. Given that each drained write
   * arrived, the collector's message count equals the forwarder's if and only if
   * the log is exactly what was sent; then byte parity follows, and the log's ids
   * are unique if and only if no id was sent twice.
   */
  lemma ParityMeansExactlyOnce(cfg: Config, es: seq<Event>, log: seq<Collected>)
    requires ValidConfig(cfg) && Arrived(Run(cfg, es), log)
    ensures var s := Run(cfg, es);
      && (|log| == s.stats.messages <==> ExactlyOnce(s, log))
      && (ExactlyOnce(s, log) ==>
            && WireBytes(log) == s.stats.bytes
            && (DistinctIds(log) <==> Distinct(IdsOf(s.h.sent))))
  {
    var s := Run(cfg, es);
    RunKeeps(cfg, es);
    assert |multiset(Frames(log))| == |log| && |multiset(FramesOf(s.h.sent))| == |s.h.sent|;
    if |log| == |s.h.sent| {
      SameSizeSame(multiset(FramesOf(s.h.sent)), multiset(Frames(log)));
      PermutedBytes(s, log);
      PermutedIds(s, log);
    }
  }

  lemma SameSizeSame(a: multiset<Frame>, b: multiset<Frame>)
    requires a <= b && |a| == |b|
    ensures a == b
  {
    assert b == a + (b - a);
    assert |b| == |a| + |b - a|;
  }

  lemma PermutedBytes(s: State, log: seq<Collected>)
    requires ExactlyOnce(s, log)
    ensures WireBytes(log) == Bytes(s.h.sent)
  {
    var size := (f: Frame) => f.size;
    BytesOfLog(log);
    BytesOfFrames(s.h.sent);
    MappedMultiset(Frames(log), FramesOf(s.h.sent), size);
    TotalMultiset(Mapped(Frames(log), size), Mapped(FramesOf(s.h.sent), size));
  }

  lemma PermutedIds(s: State, log: seq<Collected>)
    requires ExactlyOnce(s, log)
    ensures DistinctIds(log) <==> Distinct(IdsOf(s.h.sent))
  {
    var id := (f: Frame) => f.record.recordId;
    MappedMultiset(Frames(log), FramesOf(s.h.sent), id);
    assert Mapped(FramesOf(s.h.sent), id) == IdsOf(s.h.sent);
    DistinctMultiset(Mapped(Frames(log), id), IdsOf(s.h.sent));
    IdsOfLog(log);
  }

  lemma IdsOfLog(log: seq<Collected>)
    ensures DistinctIds(log) <==> Distinct(Mapped(Frames(log), (f: Frame) => f.record.recordId))
  {
    var ids := Mapped(Frames(log), (f: Frame) => f.record.recordId);
    assert forall i | 0 <= i < |log| :: ids[i] == IdOf(log[i]);
    if Distinct(ids) {
      forall i, j | 0 <= i < j < |log|
        ensures IdOf(log[i]) != IdOf(log[j])
      {
        assert ids[i] != ids[j];
      }
    }
    if DistinctIds(log) {
      forall i, j | 0 <= i < j < |ids|
        ensures ids[i] != ids[j]
      {
        assert IdOf(log[i]) != IdOf(log[j]);
      }
    }
  }

  // ----- Reading a log back as parcels -----

  lemma CoveredAround(a: seq<Parcel>, p: Parcel, b: seq<Parcel>)
    ensures multiset(Covered(a + [p] + b)) == multiset(Covered(a + b)) + multiset(p.covers)
  {
    CoveredConcat(a, b);
    CoveredSnoc(a, p);
    CoveredConcat(a + [p], b);
  }

  lemma FramesAround(a: seq<Parcel>, p: Parcel, b: seq<Parcel>)
    ensures multiset(FramesOf(a + [p] + b)) == multiset(FramesOf(a + b)) + multiset{p.frame}
  {
    MappedRemove(a, p, b, (p: Parcel) => p.frame);
  }

  /** `qs` reads the log back as parcels from `ps`, with all their readings. */
  ghost predicate ReadsBack(ps: seq<Parcel>, log: seq<Collected>, qs: seq<Parcel>) {
    && FramesOf(qs) == Frames(log) && (forall p | p in qs :: p in ps)
    && multiset(Covered(qs)) == multiset(Covered(ps))
  }

  lemma ReadsOneMore(ps: seq<Parcel>, k: nat, log: seq<Collected>, front: seq<Parcel>)
    requires k < |ps| && log != [] && ps[k].frame == Frames(log)[|log| - 1]
    requires ReadsBack(ps[..k] + ps[k + 1..], log[..|log| - 1], front)
    requires multiset(Covered(ps)) == multiset(Covered(ps[..k] + ps[k + 1..])) + multiset(ps[k].covers)
    ensures ReadsBack(ps, log, front + [ps[k]])
  {
    CoveredSnoc(front, ps[k]);
    FramesSnoc(front, ps[k]);
    LogFrames(log);
    RestIn(ps, k);
  }

  lemma FramesSnoc(ps: seq<Parcel>, p: Parcel)
    ensures FramesOf(ps + [p]) == FramesOf(ps) + [p.frame]
  {
  }

  lemma LogFrames(log: seq<Collected>)
    requires log != []
    ensures Frames(log) == Frames(log[..|log| - 1]) + [FrameOf(log[|log| - 1])]
  {
  }

  lemma RestIn(ps: seq<Parcel>, k: nat)
    requires k < |ps|
    ensures ps[k] in ps && forall x | x in ps[..k] + ps[k + 1..] :: x in ps
  {
  }

  /** A log that holds every frame exactly once lists the parcels in some order. */
  lemma {:induction false} ReadBack(ps: seq<Parcel>, log: seq<Collected>) returns (qs: seq<Parcel>)
    requires multiset(FramesOf(ps)) == multiset(Frames(log))
    ensures ReadsBack(ps, log, qs)
  {
    assert |ps| == |multiset(FramesOf(ps))| == |multiset(Frames(log))| == |log|;
    if log == [] {
      qs := [];
    } else {
      var n := |log| - 1;
      assert Frames(log)[n] in multiset(FramesOf(ps));
      var k :| 0 <= k < |ps| && FramesOf(ps)[k] == Frames(log)[n];
      WithoutOne(ps, k, log);
      var front := ReadBack(ps[..k] + ps[k + 1..], log[..n]);
      ReadsOneMore(ps, k, log, front);
      qs := front + [ps[k]];
    }
  }

  lemma WithoutOne(ps: seq<Parcel>, k: nat, log: seq<Collected>)
    requires multiset(FramesOf(ps)) == multiset(Frames(log)) && k < |ps| && log != []
    requires FramesOf(ps)[k] == Frames(log)[|log| - 1]
    ensures var rest := ps[..k] + ps[k + 1..];
      && multiset(FramesOf(rest)) == multiset(Frames(log[..|log| - 1]))
      && multiset(Covered(ps)) == multiset(Covered(rest)) + multiset(ps[k].covers)
  {
    var n, p, rest := |log| - 1, ps[k], ps[..k] + ps[k + 1..];
    assert ps == ps[..k] + [p] + ps[k + 1..];
    FramesAround(ps[..k], p, ps[k + 1..]);
    CoveredAround(ps[..k], p, ps[k + 1..]);
    LogFrames(log);
    CancelOne(multiset(FramesOf(rest)), multiset(Frames(log[..n])), p.frame);
  }

  /** reading_count, summed over the log. */
  function LogReadings(log: seq<Collected>): nat {
    if log == [] then 0
    else
      var n := |log| - 1;
      LogReadings(log[..n])
      + (if log[n].record.AggregateRecord? then log[n].record.summary.readingCount else 0)
  }

  lemma {:induction false} LogReadingsAre(ps: seq<Parcel>, log: seq<Collected>)
    requires FramesOf(ps) == Frames(log)
    ensures LogReadings(log) == ReadingCounts(ps)
  {
    assert |ps| == |FramesOf(ps)| == |log|;
    if log != [] {
      var n := |log| - 1;
      assert FramesOf(ps[..n]) == FramesOf(ps)[..n] == Frames(log)[..n] == Frames(log[..n]);
      assert FramesOf(ps)[n] == Frames(log)[n];
      LogReadingsAre(ps[..n], log[..n]);
    }
  }

  // ----- Logs that exist, and one that defeats deduplication -----

  /** The log of a faultless collector: every drained write once, in order. */
  function FaultlessLog(s: State): seq<Collected> {
    Mapped(s.h.sent, (p: Parcel) => Collected(p.frame.record, 0, 0, p.frame.size))
  }

  lemma FaultlessLogCarries(s: State)
    ensures Carries(s, FaultlessLog(s)) && Arrived(s, FaultlessLog(s))
    ensures Frames(FaultlessLog(s)) == FramesOf(s.h.sent)
  {
    var log := FaultlessLog(s);
    assert Frames(log) == FramesOf(s.h.sent);
    forall p | p in s.h.sent
      ensures p.frame in Frames(log)
    {
      var i :| 0 <= i < |s.h.sent| && s.h.sent[i] == p;
      assert Frames(log)[i] == p.frame;
    }
    forall f | f in Frames(log)
      ensures f in FramesOf(Attempted(s))
    {
      var i :| 0 <= i < |Frames(log)| && Frames(log)[i] == f;
      assert Attempted(s)[i] == s.h.sent[i] && FramesOf(Attempted(s))[i] == f;
    }
  }

  /**
   * The condition is needed. In the backlogged run every reading was enqueued at
   * its receive instant, none was dropped and nothing was lost in flight, and yet
   * deduplication rejects every log the run can leave, the faultless one included.
   */
  lemma BacklogDefeatsDedup(cfg: Config, r0: Received, r1: Received, r2: Received, nowMs: nat, size: nat)
    returns (es: seq<Event>)
    requires ValidConfig(cfg) && cfg.mode.Aggregated? && cfg.capacity >= 2
    requires A.Counted(r0) && A.Counted(r1) && A.Counted(r2)
    requires r0.monotonicNs + cfg.window.windowNs <= r1.monotonicNs <= r2.monotonicNs
    requires r1.receivedAtMs == r2.receivedAtMs && r1.message.temperature != r2.message.temperature
    ensures var s := Run(cfg, es); s.h.delayed == [] && s.h.dropped == [] && s.h.lostInFlight == []
    ensures forall log: seq<Collected> | Carries(Run(cfg, es), log) :: HasConflict(log)
    ensures HasConflict(FaultlessLog(Run(cfg, es)))
  {
    es := AggregatedRuns.BacklogRepeatsAnId(cfg, r0, r1, r2, nowMs, size);
    RunKeeps(cfg, es);
    TwoWithOneId(Run(cfg, es), 1, 2);
  }

  /** One reading goes through an idle RAW forwarder. */
  lemma SendRaw(cfg: Config, s: State, r: Received, nowMs: nat, size: nat)
    requires ValidConfig(cfg) && cfg.mode.Raw? && r.message.Reading?
    requires s.queue == [] && s.window == [] && s.worker == Waiting(false) && s.stopper.Running?
    ensures var s' := AggregatedRuns.Follow(cfg, s, [TrySubmitted(r), Took(nowMs, 0, size), Drained]);
      && s'.queue == [] && s'.window == [] && s'.worker == Waiting(false) && s'.stopper.Running?
      && s'.h.sent == s.h.sent + [RawParcel(r, nowMs, size)]
  {
    AggregatedRuns.FollowThree(cfg, s, TrySubmitted(r), Took(nowMs, 0, size), Drained);
    OfferRaw(cfg, s, r);
    var s1 := After(cfg, s, TrySubmitted(r));
    TakeRaw(cfg, s1, r, nowMs, size);
    AggregatedRuns.DrainOne(cfg, After(cfg, s1, Took(nowMs, 0, size)));
  }

  lemma OfferRaw(cfg: Config, s: State, r: Received)
    requires ValidConfig(cfg) && r.message.Reading? && s.queue == [] && s.stopper.Running?
    ensures var s' := After(cfg, s, TrySubmitted(r));
      && s'.queue == [Queued(r)] && s'.worker == s.worker && s'.stopper.Running?
      && s'.window == s.window && s'.h.sent == s.h.sent
  {
    assert [] + [Queued(r)] == [Queued(r)];
  }

  lemma TakeRaw(cfg: Config, s: State, r: Received, nowMs: nat, size: nat)
    requires cfg.mode.Raw? && s.queue == [Queued(r)] && s.worker == Waiting(false) && s.stopper.Running?
    ensures var s' := After(cfg, s, Took(nowMs, 0, size));
      && s'.worker == Sending(RawParcel(r, nowMs, size), false, cfg.reconnectInitial)
      && s'.queue == [] && s'.window == s.window && s'.stopper.Running? && s'.h.sent == s.h.sent
  {
    assert [Queued(r)][1..] == [];
  }

  /**
   * Distinct keys are needed. Two different readings of one node that share their
   * sequence number and receive instant are sent under one id, and deduplication
   * rejects every log of the run, the faultless one included.
   */
  lemma SharedKeyDefeatsDedup(cfg: Config, r1: Received, r2: Received, nowMs: nat, size: nat)
    returns (es: seq<Event>)
    requires ValidConfig(cfg) && cfg.mode.Raw? && r1.message.Reading? && r2.message.Reading?
    requires Evidence.KeyOf(r1) == Evidence.KeyOf(r2) && r1 != r2
    ensures var s := Run(cfg, es); s.worker.Waiting? && |s.h.sent| == 2
    ensures forall log: seq<Collected> | Carries(Run(cfg, es), log) :: HasConflict(log)
    ensures HasConflict(FaultlessLog(Run(cfg, es)))
  {
    var one := [TrySubmitted(r1), Took(nowMs, 0, size), Drained];
    var two := [TrySubmitted(r2), Took(nowMs, 0, size), Drained];
    assert Run(cfg, []) == INITIAL && [] + one == one;
    AggregatedRuns.RunFollow(cfg, [], one);
    SendRaw(cfg, INITIAL, r1, nowMs, size);
    AggregatedRuns.RunFollow(cfg, one, two);
    SendRaw(cfg, Run(cfg, one), r2, nowMs, size);
    es := one + two;
    TwoWithOneId(Run(cfg, es), 0, 1);
  }

  /** Two sent records with one id and different contents: every log holds the conflict. */
  lemma TwoWithOneId(s: State, a: nat, b: nat)
    requires a < |s.h.sent| && b < |s.h.sent|
    requires s.h.sent[a].frame.record.recordId == s.h.sent[b].frame.record.recordId
    requires s.h.sent[a].frame.record != s.h.sent[b].frame.record
    ensures forall log: seq<Collected> | Carries(s, log) :: HasConflict(log)
    ensures HasConflict(FaultlessLog(s))
  {
    forall log: seq<Collected> | Carries(s, log)
      ensures HasConflict(log)
    {
      assert s.h.sent[a] in s.h.sent && s.h.sent[b] in s.h.sent;
      var i :| 0 <= i < |Frames(log)| && Frames(log)[i] == s.h.sent[a].frame;
      var j :| 0 <= j < |Frames(log)| && Frames(log)[j] == s.h.sent[b].frame;
      assert log[i].record == s.h.sent[a].frame.record && log[j].record == s.h.sent[b].frame.record;
      if i < j {
        assert IdOf(log[i]) == IdOf(log[j]);
      } else {
        assert IdOf(log[j]) == IdOf(log[i]);
      }
    }
    FaultlessLogCarries(s);
  }
}
