/**
 * Where every record comes from. What the forwarder attempts to send is read off
 * the schedule: which event began it, from which readings, at which instant, and
 * whether the STOP marker cut its window short.
 */
module Provenance {
  import opened Common
  import opened Messages
  import opened Queues
  import opened Upstream
  import opened Forwarder
  import Delivery
  import A = Aggregation

  /** How a record came to be sent; `ms` is the instant it was forwarded, `size` its encoded length. */
  datatype Origin =
    | Forwarding(r: Received, ms: nat, size: nat)
    | Completion(w: seq<Received>, ms: nat, size: nat)
    | CutShort(w: seq<Received>, endMs: nat, ms: nat, size: nat)

  /** The record, if any, that an event begins. */
  function OriginOf(cfg: Config, s: State, e: Event): seq<Origin> {
    if !Enabled(cfg, s, e) then []
    else match e
    case WindowExpired(ms, size) => [Completion(s.window, ms, size)]
    case Took(ms, endMs, size) =>
      if s.queue[0].Stop? then (if s.window == [] then [] else [CutShort(s.window, endMs, ms, size)])
      else
        var r := s.queue[0].r;
        if cfg.mode.Raw? then [Forwarding(r, ms, size)]
        else if r.message.Reading? && r.status != Duplicate && s.window != []
                && r.monotonicNs >= s.window[0].monotonicNs + cfg.window.windowNs
        then [Completion(s.window, ms, size)]
        else []
    case _ => []
  }

  function Origins(cfg: Config, es: seq<Event>): seq<Origin> {
    if es == [] then []
    else
      var n := |es| - 1;
      Origins(cfg, es[..n]) + OriginOf(cfg, Run(cfg, es[..n]), es[n])
  }

  /** What a record says, given where it comes from. */
  predicate Says(cfg: Config, p: Parcel, o: Origin) {
    var rec := p.frame.record;
    && rec.forwardedAtMs == o.ms && p.frame.size == o.size
    && match o
       case Forwarding(r, _, _) =>
         && p.covers == [r] && rec.RawRecord? && rec.received == r
         && rec.recordId == RawId(r.message.nodeId, r.message.sequence, r.monotonicNs)
       case Completion(w, _, _) =>
         && p.covers == w != [] && rec.AggregateRecord? && !rec.summary.partial
         && rec.summary.startMs == w[0].receivedAtMs
         && rec.summary.endMs == rec.summary.startMs + cfg.window.windowMs
         && rec.recordId == AggregateId(rec.summary.startMs, rec.summary.endMs)
       case CutShort(w, endMs, _, _) =>
         && p.covers == w != [] && rec.AggregateRecord? && rec.summary.partial
         && rec.summary.startMs == w[0].receivedAtMs && rec.summary.endMs == endMs
         && rec.recordId == AggregateId(rec.summary.startMs, endMs)
  }

  predicate AllSay(cfg: Config, ps: seq<Parcel>, os: seq<Origin>) {
    |ps| == |os| && forall i | 0 <= i < |ps| :: Says(cfg, ps[i], os[i])
  }

  predicate Begins(e: Event) {
    e.Took? || e.WindowExpired?
  }

  /** An event that begins a record puts it in flight, and it says what it should. */
  lemma BegunSays(cfg: Config, s: State, e: Event)
    requires Enabled(cfg, s, e) && Begins(e) && (cfg.mode.Raw? ==> s.window == [])
    ensures AllSay(cfg, InFlight(Step(cfg, s, e).worker), OriginOf(cfg, s, e))
  {
  }

  /** What was attempted so far stays; only a new record is added. */
  lemma AttemptedGrows(cfg: Config, s: State, e: Event)
    requires LossOnlyByForce(s) && Enabled(cfg, s, e)
    ensures Delivery.Attempted(Step(cfg, s, e))
         == Delivery.Attempted(s) + (if Begins(e) then InFlight(Step(cfg, s, e).worker) else [])
  {
    var s', sent := Step(cfg, s, e), s.h.sent;
    assert sent + [] + [] == sent;
    match e
    case Took(_, _, _) => BegunGrows(s, s');
    case WindowExpired(_, _) => BegunGrows(s, s');
    case Drained => DrainedGrows(cfg, s);
    case CancelDelivered => CancelledGrows(s);
    case _ => SameGrows(s, s');
  }

  lemma BegunGrows(s: State, s': State)
    requires InFlight(s.worker) == [] && s.h.lostInFlight == []
    requires s'.h.sent == s.h.sent && s'.h.lostInFlight == []
    ensures Delivery.Attempted(s') == Delivery.Attempted(s) + InFlight(s'.worker)
  {
    assert s.h.sent + [] + [] == s.h.sent;
    assert (s.h.sent + InFlight(s'.worker)) + [] == s.h.sent + InFlight(s'.worker);
  }

  lemma DrainedGrows(cfg: Config, s: State)
    requires s.worker.Sending? && s.h.lostInFlight == []
    ensures Delivery.Attempted(Delivered(cfg, s)) == Delivery.Attempted(s) + []
  {
    var p := s.worker.p;
    assert (s.h.sent + [p]) + [] + [] == s.h.sent + [p] == s.h.sent + [p] + [];
  }

  lemma CancelledGrows(s: State)
    requires s.h.lostInFlight == [] && !s.worker.Finished?
    ensures Delivery.Attempted(Cancelled(s)) == Delivery.Attempted(s) + []
  {
    var p := InFlight(s.worker);
    assert Cancelled(s).h.lostInFlight == p;
    assert s.h.sent + [] + p == s.h.sent + p == s.h.sent + p + [];
  }

  lemma SameGrows(s: State, s': State)
    requires InFlight(s'.worker) == InFlight(s.worker)
    requires s'.h.sent == s.h.sent && s'.h.lostInFlight == s.h.lostInFlight
    ensures Delivery.Attempted(s') == Delivery.Attempted(s) + []
  {
  }

  lemma NothingBegun(cfg: Config, s: State, e: Event)
    requires !Begins(e)
    ensures OriginOf(cfg, s, e) == []
  {
  }

  lemma MoreSay(cfg: Config, ps: seq<Parcel>, os: seq<Origin>, p: seq<Parcel>, o: seq<Origin>)
    requires AllSay(cfg, ps, os) && AllSay(cfg, p, o)
    ensures AllSay(cfg, ps + p, os + o)
  {
  }

  /**
   * In every run and both modes the records attempted are, one for one and in
   * order, those the schedule begins, and each says what its origin says: its
   * readings, the instant it was forwarded, its size and its id; a window is
   * partial exactly when the STOP marker cut it short, and then ends when the
   * marker was taken, otherwise a full window after it started.
   */
  lemma {:induction false} RecordsSayTheirOrigin(cfg: Config, es: seq<Event>)
    requires ValidConfig(cfg)
    ensures AllSay(cfg, Delivery.Attempted(Run(cfg, es)), Origins(cfg, es))
  {
    if es != [] {
      var n := |es| - 1;
      var s, e := Run(cfg, es[..n]), es[n];
      RecordsSayTheirOrigin(cfg, es[..n]);
      RunKeeps(cfg, es[..n]);
      if Enabled(cfg, s, e) {
        AttemptedGrows(cfg, s, e);
        if Begins(e) {
          BegunSays(cfg, s, e);
          MoreSay(cfg, Delivery.Attempted(s), Origins(cfg, es[..n]), InFlight(Step(cfg, s, e).worker),
                  OriginOf(cfg, s, e));
        } else {
          NothingBegun(cfg, s, e);
          MoreSay(cfg, Delivery.Attempted(s), Origins(cfg, es[..n]), [], []);
        }
      } else {
        MoreSay(cfg, Delivery.Attempted(s), Origins(cfg, es[..n]), [], []);
        assert Delivery.Attempted(s) + [] == Delivery.Attempted(s);
      }
    }
  }

  predicate Ending(w: Worker) {
    w.Finished? || (w.Sending? && w.final)
  }

  /** Once the marker has cut a window short the worker begins nothing more. */
  lemma {:induction false} CutShortIsLast(cfg: Config, es: seq<Event>)
    requires ValidConfig(cfg)
    ensures forall i | 0 <= i < |Origins(cfg, es)| && Origins(cfg, es)[i].CutShort? ::
      i == |Origins(cfg, es)| - 1 && Ending(Run(cfg, es).worker)
  {
    if es != [] {
      var n := |es| - 1;
      CutShortIsLast(cfg, es[..n]);
      EndingStays(cfg, Run(cfg, es[..n]), es[n]);
    }
  }

  lemma EndingStays(cfg: Config, s: State, e: Event)
    ensures Ending(s.worker) ==> Ending(After(cfg, s, e).worker) && OriginOf(cfg, s, e) == []
    ensures forall o | o in OriginOf(cfg, s, e) && o.CutShort? :: Ending(After(cfg, s, e).worker)
    ensures |OriginOf(cfg, s, e)| <= 1
  {
  }

  /** In every run at most the last record attempted is a partial window. */
  lemma OnlyTheLastIsPartial(cfg: Config, es: seq<Event>)
    requires ValidConfig(cfg)
    ensures var ps := Delivery.Attempted(Run(cfg, es));
      forall i | 0 <= i < |ps| - 1 && ps[i].frame.record.AggregateRecord? ::
        !ps[i].frame.record.summary.partial
  {
    var ps, os := Delivery.Attempted(Run(cfg, es)), Origins(cfg, es);
    RecordsSayTheirOrigin(cfg, es);
    CutShortIsLast(cfg, es);
    forall i | 0 <= i < |ps| - 1 && ps[i].frame.record.AggregateRecord?
      ensures !ps[i].frame.record.summary.partial
    {
      assert Says(cfg, ps[i], os[i]);
    }
  }

  // ----- When a window is flushed by timeout -----

  /** The window is open and its first reading is a full window old. */
  predicate Due(cfg: Config, s: State) {
    s.window != [] && s.clock >= s.window[0].monotonicNs + cfg.window.windowNs
  }

  /**
   * In every run a waiting worker can time out exactly when its window is due, and
   * one that finds its window due when it begins to wait takes nothing before that.
   */
  lemma {:induction false} TimesOutIffDue(cfg: Config, es: seq<Event>, ms: nat, size: nat)
    requires ValidConfig(cfg)
    ensures var s := Run(cfg, es);
      && (Enabled(cfg, s, WindowExpired(ms, size)) <==>
            s.worker.Waiting? && Due(cfg, s) && !s.stopper.Cancelling?)
      && (s.worker.Waiting? && s.worker.overdue ==>
            Due(cfg, s) && forall endMs :: !Enabled(cfg, s, Took(ms, endMs, size)))
  {
    if es != [] {
      var n := |es| - 1;
      TimesOutIffDue(cfg, es[..n], ms, size);
      OverdueStays(cfg, Run(cfg, es[..n]), es[n]);
    }
  }

  lemma OverdueStays(cfg: Config, s: State, e: Event)
    requires s.worker.Waiting? && s.worker.overdue ==> Due(cfg, s)
    ensures var s' := After(cfg, s, e); s'.worker.Waiting? && s'.worker.overdue ==> Due(cfg, s')
  {
  }

  /** A worker that comes back to wait finds out whether its window is due. */
  lemma ReturningFindsDue(cfg: Config, s: State, e: Event)
    requires Enabled(cfg, s, e) && (e.Drained? || e.Took?)
    ensures var s' := Step(cfg, s, e); s'.worker.Waiting? ==> (s'.worker.overdue <==> Due(cfg, s'))
  {
  }

  // ----- Retries, read off the schedule -----

  /** Failed attempts since the record in flight was begun. */
  function FailuresSince(cfg: Config, es: seq<Event>): nat {
    if es == [] then 0
    else
      var n := |es| - 1;
      var s, before := Run(cfg, es[..n]), FailuresSince(cfg, es[..n]);
      if !Enabled(cfg, s, es[n]) then before
      else if es[n].AttemptFailed? then before + 1
      else if Begins(es[n]) then 0
      else before
  }

  function AllFailures(cfg: Config, es: seq<Event>): nat {
    if es == [] then 0
    else
      var n := |es| - 1;
      AllFailures(cfg, es[..n])
      + (if Enabled(cfg, Run(cfg, es[..n]), es[n]) && es[n].AttemptFailed? then 1 else 0)
  }

  predicate WaitsCapped(cfg: Config, w: Worker, failures: nat) {
    w.Sending? ==> w.backoff == Capped(DoubledDelay(cfg.reconnectInitial, failures), cfg.reconnectMax)
  }

  lemma FailedWaits(cfg: Config, s: State, failures: nat)
    requires ValidConfig(cfg) && s.worker.Sending? && WaitsCapped(cfg, s.worker, failures)
    ensures WaitsCapped(cfg, Retried(cfg, s).worker, failures + 1)
  {
    DoubleOnce(cfg.reconnectInitial, failures + 1);
    CapTwice(DoubledDelay(cfg.reconnectInitial, failures), cfg.reconnectMax);
    RetryOnce(cfg, s);
  }

  lemma BegunWaits(cfg: Config, s: State, e: Event)
    requires ValidConfig(cfg) && Enabled(cfg, s, e) && Begins(e)
    ensures WaitsCapped(cfg, Step(cfg, s, e).worker, 0)
  {
    assert Power2(0) as real == 1.0;
    assert DoubledDelay(cfg.reconnectInitial, 0) == cfg.reconnectInitial;
  }

  lemma OtherWaits(cfg: Config, s: State, e: Event)
    requires Enabled(cfg, s, e) && !Begins(e) && !e.AttemptFailed?
    ensures var s' := Step(cfg, s, e);
      && (s'.worker.Sending? ==> s'.worker == s.worker) && s'.stats.sendFailures == s.stats.sendFailures
  {
  }

  /**
   * In every run the record in flight next waits min(initial * 2^n, maximum),
   * where n is how often it has failed, and every failed attempt was counted.
   */
  lemma {:induction false} BackoffIsPerRecord(cfg: Config, es: seq<Event>)
    requires ValidConfig(cfg)
    ensures WaitsCapped(cfg, Run(cfg, es).worker, FailuresSince(cfg, es))
    ensures Run(cfg, es).stats.sendFailures == AllFailures(cfg, es)
  {
    if es != [] {
      var n := |es| - 1;
      var s, e := Run(cfg, es[..n]), es[n];
      BackoffIsPerRecord(cfg, es[..n]);
      if Enabled(cfg, s, e) {
        if e.AttemptFailed? {
          FailedWaits(cfg, s, FailuresSince(cfg, es[..n]));
        } else if Begins(e) {
          BegunWaits(cfg, s, e);
        } else {
          OtherWaits(cfg, s, e);
        }
      }
    }
  }
}
