/**
 * When do the windows of an AGGREGATED forwarder stay apart? Exactly when no
 * window is flushed by timeout while a reading that belongs before its deadline
 * still waits to be taken.
 */
module AggregatedRuns {
  import opened Common
  import opened Messages
  import opened Queues
  import opened Forwarder
  import A = Aggregation

  function StartOf(w: seq<Received>): seq<nat> {
    if w == [] then [] else [w[0].monotonicNs]
  }

  function StartsOf(ps: seq<Parcel>): seq<nat> {
    if ps == [] then [] else StartsOf(ps[..|ps| - 1]) + StartOf(ps[|ps| - 1].covers)
  }

  lemma StartsSnoc(ps: seq<Parcel>, p: Parcel)
    ensures StartsOf(ps + [p]) == StartsOf(ps) + StartOf(p.covers)
    ensures StartsOf([p]) == StartOf(p.covers)
  {
    assert (ps + [p])[..|ps|] == ps;
    assert [p][..0] == [] && StartsOf([]) == [];
  }

  /** The receive instants at which windows were opened, oldest first. */
  function Starts(s: State): seq<nat> {
    StartsOf(s.h.sent) + StartsOf(InFlight(s.worker)) + StartsOf(s.h.lostInFlight)
    + StartOf(s.window) + StartOf(s.h.lostWindow)
  }

  predicate Spaced(starts: seq<nat>, windowNs: nat) {
    forall i | 1 <= i < |starts| :: starts[i] >= starts[i - 1] + windowNs
  }

  /** The reading, if any, that this step makes the first of a new window. */
  function Opens(cfg: Config, s: State, e: Event): Option<Received> {
    if Enabled(cfg, s, e) && e.Took? && s.queue[0].Queued? && A.Counted(s.queue[0].r)
       && (s.window == [] || s.queue[0].r.monotonicNs >= A.Deadline(cfg.window, s.window))
    then Some(s.queue[0].r) else None
  }

  /** Starts, for a worker that has not ended. */
  function LiveStarts(s: State): seq<nat> {
    StartsOf(s.h.sent) + (if s.worker.Sending? then StartOf(s.worker.p.covers) else [])
    + StartOf(s.window)
  }

  lemma StartsWhileLive(s: State)
    requires !s.worker.Finished? && LossOnlyByForce(s)
    ensures Starts(s) == LiveStarts(s)
  {
    InFlightStarts(s.worker);
    assert StartsOf([]) == [] && s.h.lostInFlight == [] && s.h.lostWindow == [];
    NothingLost(StartsOf(s.h.sent), StartsOf(InFlight(s.worker)), StartOf(s.window));
  }

  lemma InFlightStarts(w: Worker)
    ensures StartsOf(InFlight(w)) == if w.Sending? then StartOf(w.p.covers) else []
  {
    if w.Sending? {
      StartsSnoc([], w.p);
    }
  }

  lemma NothingLost(sent: seq<nat>, p: seq<nat>, w: seq<nat>)
    ensures sent + p + [] + w + [] == sent + p + w
  {
    assert (sent + p) + [] == sent + p && (sent + p + w) + [] == sent + p + w;
  }

  lemma TakeReadingStarts(cfg: Config, s: State, r: Received, nowMs: nat, size: nat)
    requires cfg.mode.Aggregated? && s.worker.Waiting?
    ensures LiveStarts(TakeReading(cfg, s, r, nowMs, size))
         == LiveStarts(s) + (if A.Counted(r) && (s.window == []
              || r.monotonicNs >= A.Deadline(cfg.window, s.window)) then [r.monotonicNs] else [])
  {
  }

  lemma TakeStarts(cfg: Config, s: State, e: Event)
    requires cfg.mode.Aggregated? && LossOnlyByForce(s) && Enabled(cfg, s, e) && e.Took?
    requires LossOnlyByForce(Step(cfg, s, e))
    ensures Starts(Step(cfg, s, e)) == Starts(s) + Opening(cfg, s, e)
  {
    var s' := Step(cfg, s, e);
    StartsWhileLive(s);
    if s.queue[0].Queued? {
      TakeReadingStarts(cfg, Popped(s), s.queue[0].r, e.nowMs, e.size);
      StartsWhileLive(s');
    } else if s.window == [] {
      assert StartsOf([]) == [];
    } else {
      StartsWhileLive(s');
    }
  }

  lemma DeliveredStarts(cfg: Config, s: State)
    requires LossOnlyByForce(s) && s.worker.Sending?
    ensures Starts(Delivered(cfg, s)) == Starts(s)
  {
    StartsSnoc(s.h.sent, s.worker.p);
    InFlightStarts(s.worker);
    assert StartsOf(InFlight(Delivered(cfg, s).worker)) == [];
    StartMoved(StartsOf(s.h.sent), StartOf(s.worker.p.covers), StartsOf(s.h.lostInFlight),
               StartOf(s.window), StartOf(s.h.lostWindow));
  }

  lemma StartMoved(sent: seq<nat>, p: seq<nat>, lost: seq<nat>, w: seq<nat>, lw: seq<nat>)
    ensures sent + p + lost + w + lw == (sent + p) + [] + lost + w + lw
  {
    assert (sent + p) + [] == sent + p;
  }

  lemma CancelledStarts(s: State)
    requires LossOnlyByForce(s) && !s.worker.Finished?
    ensures Starts(Cancelled(s)) == Starts(s)
  {
    var s' := Cancelled(s);
    assert StartsOf([]) == [] && StartsOf(InFlight(s'.worker)) == [] && s'.h.sent == s.h.sent;
    assert s'.h.lostInFlight == InFlight(s.worker) && s'.h.lostWindow == s.window && s'.window == [];
    StartLost(StartsOf(s.h.sent), StartsOf(InFlight(s.worker)), StartOf(s.window));
  }

  lemma StartLost(sent: seq<nat>, p: seq<nat>, w: seq<nat>)
    ensures sent + [] + p + [] + w == sent + p + [] + w + []
  {
    assert sent + [] == sent && (sent + p) + [] == sent + p && (sent + p + w) + [] == sent + p + w;
  }

  /** The start a step adds, if it opens a window. */
  function Opening(cfg: Config, s: State, e: Event): seq<nat> {
    var o := Opens(cfg, s, e);
    if o.Some? then [o.value.monotonicNs] else []
  }

  lemma StepStarts(cfg: Config, s: State, e: Event)
    requires cfg.mode.Aggregated? && LossOnlyByForce(s) && Enabled(cfg, s, e)
    requires LossOnlyByForce(Step(cfg, s, e))
    ensures Starts(Step(cfg, s, e)) == Starts(s) + Opening(cfg, s, e)
  {
    if e.Took? {
      TakeStarts(cfg, s, e);
    } else if e.WindowExpired? || e.AttemptFailed? {
      StartsWhileLive(s);
      StartsWhileLive(Step(cfg, s, e));
    } else if e.Drained? {
      DeliveredStarts(cfg, s);
    } else if e.CancelDelivered? {
      CancelledStarts(s);
    }
  }

  lemma LastStart(cfg: Config, s: State)
    requires !s.worker.Finished? && LossOnlyByForce(s) && s.window != []
    ensures Starts(s) != [] && Starts(s)[|Starts(s)| - 1] + cfg.window.windowNs
                               == A.Deadline(cfg.window, s.window)
  {
    StartsWhileLive(s);
  }

  // ----- Timeout flushes -----

  predicate NoneCounted(taken: seq<Received>, from: nat) {
    forall i | from <= i < |taken| :: !A.Counted(taken[i])
  }

  /** The next counted reading taken after the flush was received at or after its deadline. */
  predicate NextIsTimely(x: Expiry, taken: seq<Received>) {
    forall i | x.taken <= i < |taken| && A.Counted(taken[i]) && NoneCounted(taken[..i], x.taken) ::
      taken[i].monotonicNs >= x.deadline
  }

  predicate AllTimely(s: State) {
    forall k | 0 <= k < |s.h.expired| :: NextIsTimely(s.h.expired[k], s.h.taken)
  }

  lemma NextSnoc(x: Expiry, taken: seq<Received>, r: Received)
    requires x.taken <= |taken|
    ensures NextIsTimely(x, taken + [r]) <==>
              (NextIsTimely(x, taken)
               && (A.Counted(r) && NoneCounted(taken, x.taken) ==> r.monotonicNs >= x.deadline))
    ensures NoneCounted(taken + [r], x.taken) <==> NoneCounted(taken, x.taken) && !A.Counted(r)
  {
    var more := taken + [r];
    assert more[..|taken|] == taken && more[|taken|] == r;
    assert forall i | 0 <= i < |taken| :: more[i] == taken[i] && more[..i] == taken[..i];
    if NextIsTimely(x, taken) && (A.Counted(r) && NoneCounted(taken, x.taken) ==> r.monotonicNs >= x.deadline) {
      forall i | x.taken <= i < |more| && A.Counted(more[i]) && NoneCounted(more[..i], x.taken)
        ensures more[i].monotonicNs >= x.deadline
      {
        assert i < |taken| ==> more[i] == taken[i];
      }
    }
    if NextIsTimely(x, more) {
      forall i | x.taken <= i < |taken| && A.Counted(taken[i]) && NoneCounted(taken[..i], x.taken)
        ensures taken[i].monotonicNs >= x.deadline
      {
        assert more[i].monotonicNs >= x.deadline;
      }
    }
  }

  predicate Ended(w: Worker) {
    w.Finished? || (w.Sending? && w.final)
  }

  /** A flush after which nothing counted was taken closed the window opened last. */
  predicate ClosedLast(cfg: Config, s: State, x: Expiry) {
    && (!s.worker.Finished? ==> s.window == [])
    && Starts(s) != [] && Starts(s)[|Starts(s)| - 1] + cfg.window.windowNs == x.deadline
  }

  /** Between windows, the last thing that happened to a window was a timeout flush. */
  predicate FlushesExplained(cfg: Config, s: State) {
    var xs := s.h.expired;
    && (forall k | 0 <= k < |xs| :: xs[k].taken <= |s.h.taken|)
    && (forall k | 0 <= k < |xs| && NoneCounted(s.h.taken, xs[k].taken) :: ClosedLast(cfg, s, xs[k]))
    && (!Ended(s.worker) && s.window == [] && Starts(s) != [] ==>
          xs != [] && NoneCounted(s.h.taken, xs[|xs| - 1].taken))
  }

  /** Steps that take nothing and flush nothing leave the explanation in place. */
  lemma QuietKeepsExplained(cfg: Config, s: State, s': State)
    requires FlushesExplained(cfg, s) && Starts(s') == Starts(s)
    requires s'.h.expired == s.h.expired && s'.h.taken == s.h.taken
    requires s'.worker.Finished? || (s'.window == s.window && !s.worker.Finished?)
    requires Ended(s.worker) ==> Ended(s'.worker)
    ensures FlushesExplained(cfg, s')
  {
    var xs := s.h.expired;
    forall k | 0 <= k < |xs| && NoneCounted(s.h.taken, xs[k].taken)
      ensures ClosedLast(cfg, s', xs[k])
    {
      assert ClosedLast(cfg, s, xs[k]);
      StillClosedLast(cfg, s, s', xs[k]);
    }
  }

  lemma StillClosedLast(cfg: Config, s: State, s': State, x: Expiry)
    requires ClosedLast(cfg, s, x) && Starts(s') == Starts(s)
    requires s'.worker.Finished? || (s'.window == s.window && !s.worker.Finished?)
    ensures ClosedLast(cfg, s', x)
  {
  }

  lemma ExpiryKeepsExplained(cfg: Config, s: State, e: Event)
    requires cfg.mode.Aggregated? && FlushesExplained(cfg, s) && Enabled(cfg, s, e) && e.WindowExpired?
    requires LossOnlyByForce(s) && LossOnlyByForce(Step(cfg, s, e))
    ensures FlushesExplained(cfg, Step(cfg, s, e))
  {
    var s' := Step(cfg, s, e);
    var xs, xs' := s.h.expired, s'.h.expired;
    StepStarts(cfg, s, e);
    LastStart(cfg, s);
    assert Starts(s) + [] == Starts(s);
    assert forall k | 0 <= k < |xs| :: !NoneCounted(s.h.taken, xs[k].taken);
    NewExpiry(cfg, s', xs, xs'[|xs|]);
  }

  lemma NewExpiry(cfg: Config, s: State, xs: seq<Expiry>, x: Expiry)
    requires s.h.expired == xs + [x] && ClosedLast(cfg, s, x) && x.taken == |s.h.taken|
    requires forall k | 0 <= k < |xs| ::
      xs[k].taken <= |s.h.taken| && !NoneCounted(s.h.taken, xs[k].taken)
    ensures FlushesExplained(cfg, s)
  {
    var xs' := s.h.expired;
    assert forall k | 0 <= k < |xs| :: xs'[k] == xs[k];
    assert xs'[|xs|] == x;
  }

  lemma ExpiryTimely(cfg: Config, s: State, e: Event)
    requires Enabled(cfg, s, e) && e.WindowExpired?
    ensures AllTimely(Step(cfg, s, e)) <==> AllTimely(s)
  {
    var s' := Step(cfg, s, e);
    var xs, xs' := s.h.expired, s'.h.expired;
    assert s'.h.taken == s.h.taken && NextIsTimely(xs'[|xs|], s.h.taken);
    assert forall k | 0 <= k < |xs| :: xs'[k] == xs[k];
    if AllTimely(s') {
      forall k | 0 <= k < |xs|
        ensures NextIsTimely(xs[k], s.h.taken)
      {
        assert NextIsTimely(xs'[k], s'.h.taken);
      }
    }
  }

  /** A counted reading, just taken, is in the window it joins or opens. */
  lemma TakeKeepsExplained(cfg: Config, s: State, e: Event)
    requires cfg.mode.Aggregated? && FlushesExplained(cfg, s) && Enabled(cfg, s, e) && e.Took? && s.queue[0].Queued?
    requires LossOnlyByForce(s) && LossOnlyByForce(Step(cfg, s, e))
    ensures FlushesExplained(cfg, Step(cfg, s, e))
  {
    var s', r := Step(cfg, s, e), s.queue[0].r;
    StepStarts(cfg, s, e);
    TakenFacts(cfg, s, e);
    if A.Counted(r) {
      CountedExplains(cfg, s, s', r);
    } else {
      assert Starts(s) + [] == Starts(s);
      UncountedExplains(cfg, s, s', r);
    }
  }

  lemma TakenFacts(cfg: Config, s: State, e: Event)
    requires cfg.mode.Aggregated? && Enabled(cfg, s, e) && e.Took? && s.queue[0].Queued?
    ensures var s', r := Step(cfg, s, e), s.queue[0].r;
      && s'.h.taken == s.h.taken + [r] && s'.h.expired == s.h.expired && !Ended(s'.worker)
      && (A.Counted(r) ==> s'.window != []) && (!A.Counted(r) ==> s'.window == s.window)
  {
  }

  /** After a counted reading no flush is the last thing that happened. */
  lemma CountedExplains(cfg: Config, s: State, s': State, r: Received)
    requires FlushesExplained(cfg, s) && A.Counted(r) && s'.window != []
    requires s'.h.expired == s.h.expired && s'.h.taken == s.h.taken + [r]
    ensures FlushesExplained(cfg, s')
  {
    var xs := s.h.expired;
    forall k | 0 <= k < |xs|
      ensures !NoneCounted(s'.h.taken, xs[k].taken)
    {
      NextSnoc(xs[k], s.h.taken, r);
    }
  }

  lemma UncountedExplains(cfg: Config, s: State, s': State, r: Received)
    requires FlushesExplained(cfg, s) && !A.Counted(r) && s'.window == s.window
    requires !Ended(s.worker) && !Ended(s'.worker) && Starts(s') == Starts(s)
    requires s'.h.expired == s.h.expired && s'.h.taken == s.h.taken + [r]
    ensures FlushesExplained(cfg, s')
  {
    var xs := s.h.expired;
    forall k | 0 <= k < |xs|
      ensures NoneCounted(s'.h.taken, xs[k].taken) <==> NoneCounted(s.h.taken, xs[k].taken)
      ensures ClosedLast(cfg, s, xs[k]) ==> ClosedLast(cfg, s', xs[k])
    {
      NextSnoc(xs[k], s.h.taken, r);
    }
  }

  /** What taking a reading asks of every earlier flush. */
  lemma TakeTimely(cfg: Config, s: State, e: Event)
    requires FlushesExplained(cfg, s) && Enabled(cfg, s, e) && e.Took? && s.queue[0].Queued?
    ensures var r := s.queue[0].r;
      AllTimely(Step(cfg, s, e)) <==>
        (AllTimely(s)
         && (A.Counted(r) && s.window == [] && Starts(s) != [] ==>
               r.monotonicNs >= Starts(s)[|Starts(s)| - 1] + cfg.window.windowNs))
  {
    var s', r, xs := Step(cfg, s, e), s.queue[0].r, s.h.expired;
    assert s'.h.taken == s.h.taken + [r] && s'.h.expired == xs;
    forall k | 0 <= k < |xs|
      ensures NextIsTimely(xs[k], s'.h.taken) <==>
                (NextIsTimely(xs[k], s.h.taken)
                 && (A.Counted(r) && NoneCounted(s.h.taken, xs[k].taken) ==>
                       r.monotonicNs >= xs[k].deadline))
    {
      NextSnoc(xs[k], s.h.taken, r);
    }
    if AllTimely(s') {
      forall k | 0 <= k < |xs|
        ensures NextIsTimely(xs[k], s.h.taken)
      {
        assert NextIsTimely(xs[k], s'.h.taken);
      }
      if A.Counted(r) && s.window == [] && Starts(s) != [] {
        var last := |xs| - 1;
        assert NextIsTimely(xs[last], s'.h.taken) && ClosedLast(cfg, s, xs[last]);
      }
    }
  }

  lemma TakeSpaced(cfg: Config, s: State, e: Event)
    requires cfg.mode.Aggregated? && Enabled(cfg, s, e) && e.Took? && s.queue[0].Queued?
    requires LossOnlyByForce(s) && LossOnlyByForce(Step(cfg, s, e))
    ensures var r, w := s.queue[0].r, cfg.window.windowNs;
      Spaced(Starts(Step(cfg, s, e)), w) <==>
        (Spaced(Starts(s), w)
         && (A.Counted(r) && s.window == [] && Starts(s) != [] ==>
               r.monotonicNs >= Starts(s)[|Starts(s)| - 1] + w))
  {
    StepStarts(cfg, s, e);
    SpacedSnoc(Starts(s), Opening(cfg, s, e), cfg.window.windowNs);
    if s.window != [] {
      LastStart(cfg, s);
    }
  }

  ghost predicate SpacingExplained(cfg: Config, s: State) {
    && FlushesExplained(cfg, s)
    && (Spaced(Starts(s), cfg.window.windowNs) <==> AllTimely(s))
  }

  lemma StartsSame(cfg: Config, s: State, e: Event)
    requires cfg.mode.Aggregated? && LossOnlyByForce(s) && Enabled(cfg, s, e)
    requires LossOnlyByForce(Step(cfg, s, e)) && Opening(cfg, s, e) == []
    ensures Starts(Step(cfg, s, e)) == Starts(s)
  {
    StepStarts(cfg, s, e);
    assert Starts(s) + [] == Starts(s);
  }

  lemma ExpiryExplained(cfg: Config, s: State, e: Event)
    requires cfg.mode.Aggregated? && SpacingExplained(cfg, s) && Enabled(cfg, s, e) && e.WindowExpired?
    requires LossOnlyByForce(s) && LossOnlyByForce(Step(cfg, s, e))
    ensures SpacingExplained(cfg, Step(cfg, s, e))
  {
    ExpiryKeepsExplained(cfg, s, e);
    ExpiryTimely(cfg, s, e);
    StartsSame(cfg, s, e);
  }

  lemma TakeExplained(cfg: Config, s: State, e: Event)
    requires cfg.mode.Aggregated? && SpacingExplained(cfg, s) && Enabled(cfg, s, e)
    requires e.Took? && s.queue[0].Queued?
    requires LossOnlyByForce(s) && LossOnlyByForce(Step(cfg, s, e))
    ensures SpacingExplained(cfg, Step(cfg, s, e))
  {
    TakeKeepsExplained(cfg, s, e);
    TakeTimely(cfg, s, e);
    TakeSpaced(cfg, s, e);
  }

  lemma OtherExplained(cfg: Config, s: State, e: Event)
    requires cfg.mode.Aggregated? && SpacingExplained(cfg, s) && Enabled(cfg, s, e)
    requires !e.WindowExpired? && !(e.Took? && s.queue[0].Queued?)
    requires LossOnlyByForce(s) && LossOnlyByForce(Step(cfg, s, e))
    ensures SpacingExplained(cfg, Step(cfg, s, e))
  {
    StartsSame(cfg, s, e);
    OtherKeepsExplained(cfg, s, e);
    SameTimely(s, Step(cfg, s, e));
  }

  lemma SameTimely(s: State, s': State)
    requires s'.h.expired == s.h.expired && s'.h.taken == s.h.taken
    ensures AllTimely(s') <==> AllTimely(s)
  {
  }

  lemma StepExplained(cfg: Config, s: State, e: Event)
    requires cfg.mode.Aggregated? && SpacingExplained(cfg, s) && Enabled(cfg, s, e)
    requires LossOnlyByForce(s) && LossOnlyByForce(Step(cfg, s, e))
    ensures SpacingExplained(cfg, Step(cfg, s, e))
  {
    if e.WindowExpired? {
      ExpiryExplained(cfg, s, e);
    } else if e.Took? && s.queue[0].Queued? {
      TakeExplained(cfg, s, e);
    } else {
      OtherExplained(cfg, s, e);
    }
  }

  lemma OtherSteps(cfg: Config, s: State, e: Event)
    requires Enabled(cfg, s, e) && !e.WindowExpired? && !(e.Took? && s.queue[0].Queued?)
    ensures var s' := Step(cfg, s, e);
      && s'.h.expired == s.h.expired && s'.h.taken == s.h.taken
      && (Ended(s.worker) ==> Ended(s'.worker))
      && (s'.worker.Finished? || (s'.window == s.window && !s.worker.Finished?)
          || (s.window != [] && s'.window == [] && Ended(s'.worker) && !s.worker.Finished?))
  {
  }

  lemma OtherKeepsExplained(cfg: Config, s: State, e: Event)
    requires FlushesExplained(cfg, s) && Enabled(cfg, s, e) && Starts(Step(cfg, s, e)) == Starts(s)
    requires !e.WindowExpired? && !(e.Took? && s.queue[0].Queued?)
    ensures var s' := Step(cfg, s, e);
      FlushesExplained(cfg, s') && s'.h.expired == s.h.expired && s'.h.taken == s.h.taken
  {
    OtherSteps(cfg, s, e);
    FinalKeepsExplained(cfg, s, Step(cfg, s, e));
  }

  lemma FinalKeepsExplained(cfg: Config, s: State, s': State)
    requires FlushesExplained(cfg, s) && Starts(s') == Starts(s)
    requires s'.h.expired == s.h.expired && s'.h.taken == s.h.taken
    requires Ended(s.worker) ==> Ended(s'.worker)
    requires s'.worker.Finished? || (s'.window == s.window && !s.worker.Finished?)
          || (s.window != [] && s'.window == [] && Ended(s'.worker) && !s.worker.Finished?)
    ensures FlushesExplained(cfg, s')
  {
    if s'.worker.Finished? || s'.window == s.window {
      QuietKeepsExplained(cfg, s, s');
    } else {
      assert forall k | 0 <= k < |s.h.expired| :: !NoneCounted(s.h.taken, s.h.expired[k].taken);
    }
  }

  /**
   * Window starts are a full window apart if and only if, after every timeout
   * flush, the next counted reading taken was received at or after its deadline.
   */
  lemma {:induction false} SpacedIffTimely(cfg: Config, es: seq<Event>)
    requires ValidConfig(cfg) && cfg.mode.Aggregated?
    ensures Spaced(Starts(Run(cfg, es)), cfg.window.windowNs) <==> AllTimely(Run(cfg, es))
    ensures FlushesExplained(cfg, Run(cfg, es))
  {
    if es == [] {
      assert StartsOf([]) == [] && Starts(INITIAL) == [];
    } else {
      var n := |es| - 1;
      var s := Run(cfg, es[..n]);
      SpacedIffTimely(cfg, es[..n]);
      RunKeeps(cfg, es[..n]);
      RunKeeps(cfg, es);
      if Enabled(cfg, s, es[n]) {
        StepExplained(cfg, s, es[n]);
      }
    }
  }

  // ----- Receive order -----

  predicate ReceiveOrdered(rs: seq<Received>) {
    forall i, j | 0 <= i < j < |rs| :: rs[i].monotonicNs <= rs[j].monotonicNs
  }

  /** The backlog of a flush is the stretch of accepted readings that followed those taken. */
  predicate BacklogIs(x: Expiry, accepted: seq<Received>) {
    x.taken + |x.backlog| <= |accepted| && x.backlog == accepted[x.taken..x.taken + |x.backlog|]
  }

  /** Readings enqueued after the flush were received at or after its deadline. */
  predicate LaterIsLater(x: Expiry, accepted: seq<Received>) {
    forall j | x.taken + |x.backlog| <= j < |accepted| :: accepted[j].monotonicNs >= x.deadline
  }

  predicate PromptOrder(s: State) {
    && (forall k | 0 <= k < |s.h.expired| ::
          BacklogIs(s.h.expired[k], s.h.accepted) && s.h.expired[k].deadline <= s.clock)
    && (s.h.delayed == [] ==>
          && ReceiveOrdered(s.h.accepted)
          && (forall r | r in s.h.accepted :: r.monotonicNs <= s.clock)
          && (forall k | 0 <= k < |s.h.expired| :: LaterIsLater(s.h.expired[k], s.h.accepted)))
  }

  lemma PutPrompt(s: State, r: Received)
    requires PromptOrder(s)
    ensures PromptOrder(Put(s, r))
  {
    var s', a := Put(s, r), s.h.accepted;
    forall k | 0 <= k < |s.h.expired|
      ensures BacklogIs(s.h.expired[k], s'.h.accepted)
    {
      var x := s.h.expired[k];
      assert BacklogIs(x, a);
      assert s'.h.accepted[x.taken..x.taken + |x.backlog|] == a[x.taken..x.taken + |x.backlog|];
    }
    if s'.h.delayed == [] {
      assert s.h.delayed == [] && r.monotonicNs == s.clock;
      assert forall i | 0 <= i < |a| :: a[i] in a;
      forall k | 0 <= k < |s.h.expired|
        ensures LaterIsLater(s.h.expired[k], s'.h.accepted)
      {
        assert LaterIsLater(s.h.expired[k], a);
      }
    }
  }

  lemma ExpiryPrompt(cfg: Config, s: State, e: Event)
    requires PromptOrder(s) && FirstInFirstOut(s) && LossOnlyByForce(s)
    requires Enabled(cfg, s, e) && e.WindowExpired?
    ensures PromptOrder(Step(cfg, s, e))
  {
    var s', xs := Step(cfg, s, e), s.h.expired;
    var x := s'.h.expired[|xs|];
    assert s.h.taken + [] == s.h.taken;
    assert s.h.lostQueue == [] && s.h.accepted == s.h.taken + Pending(s.queue);
    assert x.taken + |x.backlog| == |s.h.accepted|;
    assert BacklogIs(x, s.h.accepted) && LaterIsLater(x, s.h.accepted) && x.deadline <= s.clock;
    assert s'.h.accepted == s.h.accepted && s'.clock == s.clock && s'.h.delayed == s.h.delayed;
    forall k | 0 <= k < |s'.h.expired|
      ensures BacklogIs(s'.h.expired[k], s'.h.accepted) && s'.h.expired[k].deadline <= s'.clock
      ensures s'.h.delayed == [] ==> LaterIsLater(s'.h.expired[k], s'.h.accepted)
    {
      if k < |xs| {
        assert s'.h.expired[k] == xs[k] && BacklogIs(xs[k], s.h.accepted);
      }
    }
  }

  lemma StepPrompt(cfg: Config, s: State, e: Event)
    requires PromptOrder(s) && FirstInFirstOut(s) && LossOnlyByForce(s) && Enabled(cfg, s, e)
    ensures PromptOrder(Step(cfg, s, e))
  {
    match e
    case SubmitCalled(r) => PutPrompt(s, r);
    case SubmitResumed(k) => PutPrompt(Unblocked(s, k), s.blocked[k]);
    case TrySubmitted(r) => PutPrompt(s, r);
    case WindowExpired(_, _) => ExpiryPrompt(cfg, s, e);
    case _ =>
  }

  lemma {:induction false} RunPrompt(cfg: Config, es: seq<Event>)
    requires ValidConfig(cfg)
    ensures PromptOrder(Run(cfg, es))
  {
    if es != [] {
      var n := |es| - 1;
      RunPrompt(cfg, es[..n]);
      RunKeeps(cfg, es[..n]);
      if Enabled(cfg, Run(cfg, es[..n]), es[n]) {
        StepPrompt(cfg, Run(cfg, es[..n]), es[n]);
      }
    }
  }

  // ----- Backlog -----

  /**
   * At no timeout flush was there, among the readings then queued and taken
   * later, a counted one received before the deadline of the flushed window.
   */
  predicate NoBacklog(s: State) {
    forall k | 0 <= k < |s.h.expired| :: Unoverdue(s.h.expired[k], |s.h.taken|)
  }

  predicate Unoverdue(x: Expiry, taken: nat) {
    forall i | 0 <= i < |x.backlog| && x.taken + i < taken && A.Counted(x.backlog[i]) ::
      x.backlog[i].monotonicNs >= x.deadline
  }

  lemma {:induction false} FirstCounted(taken: seq<Received>, from: nat, m: nat) returns (f: nat)
    requires from <= m < |taken| && A.Counted(taken[m])
    ensures from <= f <= m && A.Counted(taken[f]) && NoneCounted(taken[..f], from)
  {
    f := from;
    while !A.Counted(taken[f])
      invariant from <= f <= m && NoneCounted(taken[..f], from)
      decreases m - f
    {
      f := f + 1;
    }
  }

  lemma TimelyIffUnoverdue(x: Expiry, taken: seq<Received>, accepted: seq<Received>)
    requires taken <= accepted && BacklogIs(x, accepted) && LaterIsLater(x, accepted)
    requires ReceiveOrdered(accepted)
    ensures NextIsTimely(x, taken) <==> Unoverdue(x, |taken|)
  {
    assert forall i | 0 <= i < |x.backlog| :: x.backlog[i] == accepted[x.taken + i];
    assert forall i | 0 <= i < |taken| :: taken[i] == accepted[i];
    if NextIsTimely(x, taken) {
      forall i | 0 <= i < |x.backlog| && x.taken + i < |taken| && A.Counted(x.backlog[i])
        ensures x.backlog[i].monotonicNs >= x.deadline
      {
        var f := FirstCounted(taken, x.taken, x.taken + i);
        assert taken[f].monotonicNs >= x.deadline;
      }
    }
    if Unoverdue(x, |taken|) {
      forall i | x.taken <= i < |taken| && A.Counted(taken[i])
        ensures taken[i].monotonicNs >= x.deadline
      {
        if i < x.taken + |x.backlog| {
          assert x.backlog[i - x.taken] == taken[i];
        }
      }
    }
  }

  /**
   * The exact condition, in what the worker could see when it flushed: if every
   * reading is enqueued at its receive instant, window starts are a full window
   * apart if and only if no timeout flush overtook a queued reading that
   * belonged before its deadline.
   */
  lemma SpacedIffNoBacklog(cfg: Config, es: seq<Event>)
    requires ValidConfig(cfg) && cfg.mode.Aggregated? && Run(cfg, es).h.delayed == []
    ensures Spaced(Starts(Run(cfg, es)), cfg.window.windowNs) <==> NoBacklog(Run(cfg, es))
    ensures AllTimely(Run(cfg, es)) <==> NoBacklog(Run(cfg, es))
  {
    var s := Run(cfg, es);
    SpacedIffTimely(cfg, es);
    RunPrompt(cfg, es);
    RunKeeps(cfg, es);
    TakenFirst(s);
    forall k | 0 <= k < |s.h.expired|
      ensures NextIsTimely(s.h.expired[k], s.h.taken) <==> Unoverdue(s.h.expired[k], |s.h.taken|)
    {
      TimelyIffUnoverdue(s.h.expired[k], s.h.taken, s.h.accepted);
    }
  }

  lemma SpacedSnoc(starts: seq<nat>, o: seq<nat>, w: nat)
    requires |o| <= 1
    ensures Spaced(starts + o, w) <==>
              (Spaced(starts, w) && (o != [] && starts != [] ==> o[0] >= starts[|starts| - 1] + w))
  {
    var more := starts + o;
    assert forall i | 0 <= i < |starts| :: more[i] == starts[i];
    if Spaced(more, w) && o != [] && starts != [] {
      assert more[|starts|] >= more[|starts| - 1] + w;
    }
  }

  lemma {:induction false} SpacedTotal(starts: seq<nat>, w: nat)
    requires Spaced(starts, w) && starts != []
    ensures starts[0] + (|starts| - 1) * w <= starts[|starts| - 1]
  {
    if |starts| > 1 {
      var n := |starts| - 1;
      SpacedTotal(starts[..n], w);
      assert starts[n] >= starts[n - 1] + w;
      assert n * w == (n - 1) * w + w;
    }
  }

  /**
   * If the next reading after every timeout flush was timely, k windows span at
   * least (k - 1) window lengths of receive time.
   */
  lemma WindowRate(cfg: Config, es: seq<Event>)
    requires ValidConfig(cfg) && cfg.mode.Aggregated?
    requires AllTimely(Run(cfg, es)) && Starts(Run(cfg, es)) != []
    ensures var starts := Starts(Run(cfg, es));
      && starts[0] + (|starts| - 1) * cfg.window.windowNs <= starts[|starts| - 1]
      && Run(cfg, es).stats.messages <= |starts|
  {
    SpacedIffTimely(cfg, es);
    SpacedTotal(Starts(Run(cfg, es)), cfg.window.windowNs);
    RunKeeps(cfg, es);
    StartsAre(cfg, Run(cfg, es).h.sent);
  }

  lemma {:induction false} StartsAre(cfg: Config, ps: seq<Parcel>)
    requires forall p | p in ps :: GoodParcel(cfg, p)
    ensures |StartsOf(ps)| == |ps|
    ensures forall i | 0 <= i < |ps| ::
      ps[i].covers != [] && StartsOf(ps)[i] == ps[i].covers[0].monotonicNs
  {
    if ps != [] {
      var n := |ps| - 1;
      assert ps[n] in ps;
      StartsAre(cfg, ps[..n]);
    }
  }

  lemma {:induction false} SpacedPair(starts: seq<nat>, w: nat, i: nat, j: nat)
    requires Spaced(starts, w) && i < j < |starts|
    ensures starts[i] + w <= starts[j]
  {
    assert starts[j] >= starts[j - 1] + w;
    if i < j - 1 {
      SpacedPair(starts, w, i, j - 1);
    }
  }

  // ----- A backlogged run -----

  function Follow(cfg: Config, s: State, es: seq<Event>): State {
    if es == [] then s else After(cfg, Follow(cfg, s, es[..|es| - 1]), es[|es| - 1])
  }

  lemma {:induction false} RunFollow(cfg: Config, es: seq<Event>, more: seq<Event>)
    ensures Run(cfg, es + more) == Follow(cfg, Run(cfg, es), more)
  {
    if more == [] {
      assert es + more == es;
    } else {
      var n := |more| - 1;
      RunFollow(cfg, es, more[..n]);
      RunSnoc(cfg, es + more[..n], more[n]);
      assert es + more == es + more[..n] + [more[n]];
    }
  }

  lemma FollowThree(cfg: Config, s: State, a: Event, b: Event, c: Event)
    ensures Follow(cfg, s, [a, b, c]) == After(cfg, After(cfg, After(cfg, s, a), b), c)
  {
    assert [a, b, c][..2] == [a, b] && [a, b][..1] == [a] && [a][..0] == [];
    assert Follow(cfg, s, [a]) == After(cfg, s, a);
    assert Follow(cfg, s, [a, b]) == After(cfg, After(cfg, s, a), b);
  }

  /** The worker is between windows and `late` are queued, long received. */
  predicate Stalled(cfg: Config, s: State, late: seq<Received>) {
    && s.worker == Waiting(false) && s.window == [] && s.stopper.Running?
    && |s.queue| == |late| && (forall i | 0 <= i < |late| :: s.queue[i] == Queued(late[i]))
    && (forall r | r in late :: A.Counted(r) && r.monotonicNs + cfg.window.windowNs <= s.clock)
  }

  lemma TakeFirst(cfg: Config, s: State, nowMs: nat, size: nat)
    requires cfg.mode.Aggregated? && s.worker == Waiting(false) && s.window == [] && s.stopper.Running?
    requires s.queue != [] && s.queue[0].Queued? && A.Counted(s.queue[0].r)
    ensures var r := s.queue[0].r;
      After(cfg, s, Took(nowMs, 0, size))
        == s.(queue := s.queue[1..], window := [r], h := s.h.(taken := s.h.taken + [r]),
              worker := Waiting(s.clock >= r.monotonicNs + cfg.window.windowNs))
  {
    assert [] + [s.queue[0].r] == [s.queue[0].r];
  }

  lemma ExpireOne(cfg: Config, s: State, r: Received, nowMs: nat, size: nat)
    requires s.worker.Waiting? && s.window == [r] && s.stopper.Running?
    requires s.clock >= r.monotonicNs + cfg.window.windowNs
    ensures var x := Expiry(r.monotonicNs + cfg.window.windowNs, |s.h.taken|, Pending(s.queue));
      After(cfg, s, WindowExpired(nowMs, size))
        == s.(window := [], h := s.h.(expired := s.h.expired + [x]),
              worker := Sending(SummaryParcel(cfg, [r], false, None, nowMs, size), false,
                                cfg.reconnectInitial))
  {
  }

  lemma DrainOne(cfg: Config, s: State)
    requires s.worker.Sending? && !s.worker.final && s.window == [] && s.stopper.Running?
    ensures var s' := After(cfg, s, Drained);
      && s' == s.(worker := Waiting(false), stats := s'.stats, h := s.h.(sent := s.h.sent + [s.worker.p]))
      && s'.stats.sendFailures == s.stats.sendFailures
  {
  }

  /** Take one reading; its window is overdue at once, so it is flushed and sent alone. */
  function FlushAlone(nowMs: nat, size: nat): seq<Event> {
    [Took(nowMs, 0, size), WindowExpired(nowMs, size), Drained]
  }

  lemma FlushAloneSends(cfg: Config, s: State, late: seq<Received>, nowMs: nat, size: nat)
    requires cfg.mode.Aggregated? && late != [] && Stalled(cfg, s, late)
    ensures var s' := Follow(cfg, s, FlushAlone(nowMs, size));
      && Stalled(cfg, s', late[1..])
      && s'.h.sent == s.h.sent + [SummaryParcel(cfg, [late[0]], false, None, nowMs, size)]
      && s'.h.delayed == s.h.delayed && s'.h.dropped == s.h.dropped
  {
    var r := late[0];
    assert r in late && forall x | x in late[1..] :: x in late;
    FollowThree(cfg, s, Took(nowMs, 0, size), WindowExpired(nowMs, size), Drained);
    TakeFirst(cfg, s, nowMs, size);
    var s1 := After(cfg, s, Took(nowMs, 0, size));
    ExpireOne(cfg, s1, r, nowMs, size);
    DrainOne(cfg, After(cfg, s1, WindowExpired(nowMs, size)));
  }

  lemma OfferOne(cfg: Config, s: State, r: Received)
    requires r.message.Reading? && s.stopper.Running? && !Full(cfg, s) && r.monotonicNs == s.clock
    ensures var s' := After(cfg, s, TrySubmitted(r));
      s' == s.(queue := s.queue + [Queued(r)], stats := s'.stats,
               h := s.h.(accepted := s.h.accepted + [r]))
      && s'.stats == s.stats.(enqueued := s.stats.enqueued + 1)
  {
  }

  lemma FailOne(cfg: Config, s: State)
    requires s.worker.Sending? && s.stopper.Running?
    ensures var s' := After(cfg, s, AttemptFailed);
      s' == s.(worker := s.worker.(backoff := s'.worker.backoff),
               stats := s.stats.(sendFailures := s.stats.sendFailures + 1))
  {
  }

  /** A window opened by `r0` expires on time, and its first attempt to send fails. */
  function OpenAndFail(r0: Received, now: nat, nowMs: nat, size: nat): seq<Event> {
    [Ticked(r0.monotonicNs), TrySubmitted(r0), Took(nowMs, 0, size)]
    + [Ticked(now), WindowExpired(nowMs, size), AttemptFailed]
  }

  /** The worker is sending `p` and there is nothing else in the forwarder. */
  predicate Retrying(s: State, p: Parcel) {
    && s.worker.Sending? && !s.worker.final && s.worker.p == p && s.stopper.Running?
    && s.queue == [] && s.window == [] && s.stats.sendFailures > 0
    && s.h.sent == [] && s.h.delayed == [] && s.h.dropped == []
  }

  lemma OpenAndFailSends(cfg: Config, r0: Received, now: nat, nowMs: nat, size: nat)
    requires ValidConfig(cfg) && cfg.mode.Aggregated? && A.Counted(r0)
    requires r0.monotonicNs + cfg.window.windowNs <= now
    ensures var s := Run(cfg, OpenAndFail(r0, now, nowMs, size));
      Retrying(s, SummaryParcel(cfg, [r0], false, None, nowMs, size)) && s.clock == now
  {
    var open := [Ticked(r0.monotonicNs), TrySubmitted(r0), Took(nowMs, 0, size)];
    OpensWindow(cfg, r0, nowMs, size);
    var s3 := Run(cfg, open);
    var fail := [Ticked(now), WindowExpired(nowMs, size), AttemptFailed];
    RunFollow(cfg, open, fail);
    FollowThree(cfg, s3, fail[0], fail[1], fail[2]);
    var s4 := s3.(clock := now);
    ExpireOne(cfg, s4, r0, nowMs, size);
    FailOne(cfg, After(cfg, s4, fail[1]));
  }

  /** While the worker retries, `r1` and `r2` arrive and a whole window passes. */
  function ArriveWhileRetrying(cfg: Config, r1: Received, r2: Received): seq<Event> {
    [TrySubmitted(r1), Ticked(r2.monotonicNs), TrySubmitted(r2)]
    + [Ticked(r2.monotonicNs + cfg.window.windowNs), AttemptFailed, Drained]
  }

  lemma TwoArrive(cfg: Config, s: State, r1: Received, r2: Received)
    requires cfg.capacity >= 2 && A.Counted(r1) && A.Counted(r2) && s.queue == []
    requires s.stopper.Running? && s.clock == r1.monotonicNs <= r2.monotonicNs
    ensures var s' := Follow(cfg, s, [TrySubmitted(r1), Ticked(r2.monotonicNs), TrySubmitted(r2)]);
      s' == s.(queue := [Queued(r1), Queued(r2)], clock := r2.monotonicNs, stats := s'.stats,
               h := s.h.(accepted := s.h.accepted + [r1] + [r2]))
  {
    FollowThree(cfg, s, TrySubmitted(r1), Ticked(r2.monotonicNs), TrySubmitted(r2));
    OfferOne(cfg, s, r1);
    var s1 := After(cfg, s, TrySubmitted(r1));
    OfferOne(cfg, s1.(clock := r2.monotonicNs), r2);
    assert [] + [Queued(r1)] + [Queued(r2)] == [Queued(r1), Queued(r2)];
  }

  lemma RetryThenDrain(cfg: Config, s: State, now: nat)
    requires s.worker.Sending? && !s.worker.final && s.window == [] && s.stopper.Running?
    requires s.clock <= now
    ensures var s' := Follow(cfg, s, [Ticked(now), AttemptFailed, Drained]);
      s' == s.(worker := Waiting(false), clock := now, stats := s'.stats,
               h := s.h.(sent := s.h.sent + [s.worker.p]))
  {
    FollowThree(cfg, s, Ticked(now), AttemptFailed, Drained);
    FailOne(cfg, s.(clock := now));
    DrainOne(cfg, After(cfg, s.(clock := now), AttemptFailed));
  }

  lemma ArriveWhileRetryingStalls(cfg: Config, s: State, p: Parcel, r1: Received, r2: Received)
    requires cfg.capacity >= 2 && A.Counted(r1) && A.Counted(r2)
    requires Retrying(s, p) && s.clock == r1.monotonicNs <= r2.monotonicNs
    ensures var s' := Follow(cfg, s, ArriveWhileRetrying(cfg, r1, r2));
      && Stalled(cfg, s', [r1, r2]) && s'.h.sent == [p]
      && s'.h.delayed == [] && s'.h.dropped == []
  {
    var a := [TrySubmitted(r1), Ticked(r2.monotonicNs), TrySubmitted(r2)];
    var later := r2.monotonicNs + cfg.window.windowNs;
    TwoArrive(cfg, s, r1, r2);
    RetryThenDrain(cfg, Follow(cfg, s, a), later);
    FollowAppend(cfg, s, a, [Ticked(later), AttemptFailed, Drained]);
    assert [] + [p] == [p];
  }

  lemma {:induction false} FollowAppend(cfg: Config, s: State, a: seq<Event>, b: seq<Event>)
    ensures Follow(cfg, s, a + b) == Follow(cfg, Follow(cfg, s, a), b)
  {
    if b == [] {
      assert a + b == a;
    } else {
      var n := |b| - 1;
      FollowAppend(cfg, s, a, b[..n]);
      assert a + b != [] && |a + b| - 1 == |a| + n;
      assert (a + b)[..|a| + n] == a + b[..n] && (a + b)[|a| + n] == b[n];
    }
  }

  /**
   * Backlog repeats an id. A window is flushed on time and its send fails while
   * two readings of one millisecond arrive; once a whole window has passed each
   * is flushed alone, and two different records carry one id. Every reading was
   * enqueued at its receive instant and none was dropped.
   */
  lemma BacklogRepeatsAnId(cfg: Config, r0: Received, r1: Received, r2: Received, nowMs: nat, size: nat)
    returns (es: seq<Event>)
    requires ValidConfig(cfg) && cfg.mode.Aggregated? && cfg.capacity >= 2
    requires A.Counted(r0) && A.Counted(r1) && A.Counted(r2)
    requires r0.monotonicNs + cfg.window.windowNs <= r1.monotonicNs <= r2.monotonicNs
    requires r1.receivedAtMs == r2.receivedAtMs && r1.message.temperature != r2.message.temperature
    ensures var s := Run(cfg, es);
      && |s.h.sent| == 3 && s.worker.Waiting? && s.h.delayed == [] && s.h.dropped == []
      && s.h.sent[1].frame.record.recordId == s.h.sent[2].frame.record.recordId
      && s.h.sent[1].frame.record != s.h.sent[2].frame.record
  {
    var es1 := OpenAndFail(r0, r1.monotonicNs, nowMs, size);
    OpenAndFailSends(cfg, r0, r1.monotonicNs, nowMs, size);
    var es2 := es1 + ArriveWhileRetrying(cfg, r1, r2);
    RunFollow(cfg, es1, ArriveWhileRetrying(cfg, r1, r2));
    ArriveWhileRetryingStalls(cfg, Run(cfg, es1), SummaryParcel(cfg, [r0], false, None, nowMs, size),
                              r1, r2);
    var es3 := es2 + FlushAlone(nowMs, size);
    RunFollow(cfg, es2, FlushAlone(nowMs, size));
    FlushAloneSends(cfg, Run(cfg, es2), [r1, r2], nowMs, size);
    assert [r1, r2][1..] == [r2];
    es := es3 + FlushAlone(nowMs, size);
    RunFollow(cfg, es3, FlushAlone(nowMs, size));
    FlushAloneSends(cfg, Run(cfg, es3), [r2], nowMs, size);
    LoneMinimum(r1);
    LoneMinimum(r2);
  }

  lemma LoneMinimum(r: Received)
    requires r.message.Reading?
    ensures A.ChannelOf([r], A.Temperature).min == r.message.temperature
  {
    assert A.ValueOf([r][0], A.Temperature) == r.message.temperature;
  }

  // ----- A window lost uncounted -----

  /** A reading past the deadline closes the window and opens the next. */
  lemma CrossOne(cfg: Config, s: State, r0: Received, r1: Received, nowMs: nat, size: nat)
    requires cfg.mode.Aggregated? && s.worker == Waiting(false) && s.stopper.Running?
    requires s.window == [r0] && s.queue == [Queued(r1)] && A.Counted(r1)
    requires r0.monotonicNs + cfg.window.windowNs <= r1.monotonicNs
    ensures After(cfg, s, Took(nowMs, 0, size))
         == s.(queue := [], window := [r1], h := s.h.(taken := s.h.taken + [r1]),
               worker := Sending(SummaryParcel(cfg, [r0], false, None, nowMs, size), false,
                                 cfg.reconnectInitial))
  {
    assert [Queued(r1)][1..] == [];
  }

  /** `stop` is called while the worker retries, and the next window's deadline passes. */
  lemma StopWhileRetrying(cfg: Config, s: State, now: nat)
    requires ValidConfig(cfg) && s.worker.Sending? && s.stopper.Running? && s.queue == [] && s.clock <= now
    ensures var s' := Follow(cfg, s, [AttemptFailed, StopCalled, Ticked(now)]);
      && s'.worker.Sending?
      && s' == s.(queue := [Stop], stopper := AwaitingWorker, clock := now,
                  worker := s.worker.(backoff := s'.worker.backoff), stats := s'.stats)
      && s'.stats == s.stats.(sendFailures := s.stats.sendFailures + 1)
  {
    FollowThree(cfg, s, AttemptFailed, StopCalled, Ticked(now));
    FailOne(cfg, s);
    assert [] + [Stop] == [Stop];
  }

  /** The send drains; the worker is back at an overdue window, where its wait has no time left. */
  lemma DrainOverdue(cfg: Config, s: State)
    requires s.worker.Sending? && !s.worker.final && !s.stopper.Cancelling? && Overdue(cfg, s)
    ensures var s' := After(cfg, s, Drained);
      && s' == s.(worker := Waiting(true), stats := s'.stats, h := s.h.(sent := s.h.sent + [s.worker.p]))
      && s'.stats == s.stats.(messages := s.stats.messages + 1, bytes := s'.stats.bytes)
  {
  }

  /** The stop timer fires there: the window is discarded and the drain finds only the marker. */
  lemma CancelWaiting(cfg: Config, s: State)
    requires s.worker.Waiting? && s.stopper.AwaitingWorker? && s.queue == [Stop]
    ensures Follow(cfg, s, [StopTimedOut, CancelDelivered, QueueAbandoned])
         == s.(queue := [], worker := Finished, stopper := Stopped, window := [],
               h := s.h.(forced := true, openAtTimeout := s.window, lostWindow := s.window,
                         lostQueue := []))
  {
    FollowThree(cfg, s, StopTimedOut, CancelDelivered, QueueAbandoned);
    PendingSnoc([], Stop);
    assert [] + [Stop] == [Stop] && Pending([]) == [];
  }

  /** `r0` opens a window and `r1`, received past its deadline, closes it and opens the next. */
  function OpenAndCross(r0: Received, r1: Received, nowMs: nat, size: nat): seq<Event> {
    [Ticked(r0.monotonicNs), TrySubmitted(r0), Took(nowMs, 0, size)]
    + [Ticked(r1.monotonicNs), TrySubmitted(r1), Took(nowMs, 0, size)]
  }

  lemma OpenAndCrossSends(cfg: Config, r0: Received, r1: Received, nowMs: nat, size: nat)
    requires ValidConfig(cfg) && cfg.mode.Aggregated? && A.Counted(r0) && A.Counted(r1)
    requires 0 < cfg.window.windowNs && r0.monotonicNs + cfg.window.windowNs <= r1.monotonicNs
    ensures var s := Run(cfg, OpenAndCross(r0, r1, nowMs, size));
      && s.worker.Sending? && !s.worker.final && s.stopper.Running? && s.queue == []
      && s.window == [r1] && s.clock == r1.monotonicNs && s.stats == Stats(2, 0, 0, 0, 0, 0)
  {
    var open := [Ticked(r0.monotonicNs), TrySubmitted(r0), Took(nowMs, 0, size)];
    OpensWindow(cfg, r0, nowMs, size);
    var s := Run(cfg, open);
    var cross := [Ticked(r1.monotonicNs), TrySubmitted(r1), Took(nowMs, 0, size)];
    RunFollow(cfg, open, cross);
    FollowThree(cfg, s, cross[0], cross[1], cross[2]);
    var s1 := s.(clock := r1.monotonicNs);
    OfferOne(cfg, s1, r1);
    assert [] + [Queued(r1)] == [Queued(r1)];
    CrossOne(cfg, After(cfg, s1, cross[1]), r0, r1, nowMs, size);
  }

  lemma OpensWindow(cfg: Config, r: Received, nowMs: nat, size: nat)
    requires ValidConfig(cfg) && cfg.mode.Aggregated? && A.Counted(r)
    ensures var s := Run(cfg, [Ticked(r.monotonicNs), TrySubmitted(r), Took(nowMs, 0, size)]);
      && s == INITIAL.(window := [r], clock := r.monotonicNs, stats := Stats(1, 0, 0, 0, 0, 0),
                       worker := Waiting(cfg.window.windowNs == 0),
                       h := INITIAL.h.(accepted := [r], taken := [r]))
  {
    var open := [Ticked(r.monotonicNs), TrySubmitted(r), Took(nowMs, 0, size)];
    assert [] + open == open && Run(cfg, []) == INITIAL;
    RunFollow(cfg, [], open);
    FollowThree(cfg, INITIAL, open[0], open[1], open[2]);
    var s1 := INITIAL.(clock := r.monotonicNs);
    OfferOne(cfg, s1, r);
    TakeFirst(cfg, After(cfg, s1, open[1]), nowMs, size);
    assert [] + [r] == [r] && [] + [Queued(r)] == [Queued(r)];
  }

  /**
   * A timed-out stop can lose a window and count nothing. A send that was being
   * retried when `stop` was called drains after the next window's deadline; its
   * worker is suspended in a wait with no time left when the stop timer fires.
   * The reading of that window is neither sent, abandoned, dropped nor queued.
   */
  lemma TimedOutStopLosesWindow(cfg: Config, r0: Received, r1: Received, nowMs: nat, size: nat)
    returns (before: seq<Event>, es: seq<Event>)
    requires ValidConfig(cfg) && cfg.mode.Aggregated? && A.Counted(r0) && A.Counted(r1)
    requires 0 < cfg.window.windowNs && r0.monotonicNs + cfg.window.windowNs <= r1.monotonicNs
    ensures var s := Run(cfg, before);
      s.worker == Waiting(true) && s.queue == [Stop] && s.window == [r1]
    ensures es == before + [StopTimedOut, CancelDelivered, QueueAbandoned]
    ensures var s := Run(cfg, es);
      && s.stopper.Stopped? && s.stats.enqueued == 2 && s.queue == []
      && s.stats.messages == 1 && s.stats.abandoned == s.stats.drops == 0
      && s.h.lostWindow == [r1]
  {
    var es1 := OpenAndCross(r0, r1, nowMs, size);
    OpenAndCrossSends(cfg, r0, r1, nowMs, size);
    var late := r1.monotonicNs + cfg.window.windowNs;
    var es2 := es1 + [AttemptFailed, StopCalled, Ticked(late)];
    RunFollow(cfg, es1, [AttemptFailed, StopCalled, Ticked(late)]);
    StopWhileRetrying(cfg, Run(cfg, es1), late);
    before := es2 + [Drained];
    RunSnoc(cfg, es2, Drained);
    DrainOverdue(cfg, Run(cfg, es2));
    es := before + [StopTimedOut, CancelDelivered, QueueAbandoned];
    RunFollow(cfg, before, [StopTimedOut, CancelDelivered, QueueAbandoned]);
    CancelWaiting(cfg, Run(cfg, before));
  }
}
