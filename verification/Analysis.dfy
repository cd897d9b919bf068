/** What the evidence analysis does to the collector's log before it measures anything. */
module Analysis {
  import opened Upstream

  /** One line of the collector's log. */
  datatype Collected = Collected(record: Record, receivedAtMs: nat, receivedNs: nat, wireBytes: nat)

  datatype Result<+T> = Ok(value: T) | Err(reason: Failure)

  datatype Failure =
    | ConflictingPayloads | CountMismatch | DuplicateKey | NotRaw | DuplicateRecordId
    | PayloadMismatch | KeySetsDiffer | ByteParity

  function IdOf(w: Collected): string {
    w.record.recordId
  }

  function Ids(log: seq<Collected>): set<string> {
    set i | 0 <= i < |log| :: IdOf(log[i])
  }

  /** Two entries share an id but not their payload. */
  predicate HasConflict(log: seq<Collected>) {
    exists i, j | 0 <= i < j < |log| :: IdOf(log[i]) == IdOf(log[j]) && log[i].record != log[j].record
  }

  // ----- Deduplication -----

  /** The first entry of every id, in log order. */
  function Unique(log: seq<Collected>): seq<Collected> {
    if log == [] then []
    else
      var front, w := log[..|log| - 1], log[|log| - 1];
      if IdOf(w) in Ids(front) then Unique(front) else Unique(front) + [w]
  }

  lemma IdsSnoc(log: seq<Collected>, w: Collected)
    ensures Ids(log + [w]) == Ids(log) + {IdOf(w)}
  {
    var all := log + [w];
    forall id
      ensures id in Ids(all) <==> id in Ids(log) || id == IdOf(w)
    {
      if id in Ids(log) {
        var i :| 0 <= i < |log| && IdOf(log[i]) == id;
        assert IdOf(all[i]) == id;
      }
      if id == IdOf(w) {
        assert IdOf(all[|log|]) == id;
      }
    }
  }

  lemma SnocForm(log: seq<Collected>)
    requires log != []
    ensures log == log[..|log| - 1] + [log[|log| - 1]]
    ensures Ids(log) == Ids(log[..|log| - 1]) + {IdOf(log[|log| - 1])}
  {
    assert log == log[..|log| - 1] + [log[|log| - 1]];
    IdsSnoc(log[..|log| - 1], log[|log| - 1]);
  }

  predicate DistinctIds(log: seq<Collected>) {
    forall i, j | 0 <= i < j < |log| :: IdOf(log[i]) != IdOf(log[j])
  }

  /** One entry per id, and it is an entry of the log. */
  lemma {:induction false} UniqueHasEachIdOnce(log: seq<Collected>)
    ensures DistinctIds(Unique(log))
    ensures Ids(Unique(log)) == Ids(log)
    ensures forall w | w in Unique(log) :: w in log
    ensures |Unique(log)| == |Ids(log)| <= |log|
  {
    if log != [] {
      var front, w := log[..|log| - 1], log[|log| - 1];
      UniqueHasEachIdOnce(front);
      SnocForm(log);
      if IdOf(w) !in Ids(front) {
        IdsSnoc(Unique(front), w);
        forall i | 0 <= i < |Unique(front)|
          ensures IdOf(Unique(front)[i]) != IdOf(w)
        {
          assert IdOf(Unique(front)[i]) in Ids(Unique(front));
        }
      }
    }
  }

  /** The entry kept for an id is the one that came first. */
  lemma {:induction false} UniqueKeepsTheFirst(log: seq<Collected>, i: nat)
    requires i < |log| && forall j | 0 <= j < i :: IdOf(log[j]) != IdOf(log[i])
    ensures log[i] in Unique(log)
  {
    var n := |log| - 1;
    if i < n {
      UniqueKeepsTheFirst(log[..n], i);
    } else {
      assert IdOf(log[n]) !in Ids(log[..n]);
      assert Unique(log)[|Unique(log)| - 1] == log[n];
    }
  }

  lemma ConflictSnoc(log: seq<Collected>, w: Collected)
    ensures HasConflict(log + [w]) <==>
              (HasConflict(log) || exists i | 0 <= i < |log| :: IdOf(log[i]) == IdOf(w) && log[i].record != w.record)
  {
    var all := log + [w];
    assert forall i | 0 <= i < |log| :: all[i] == log[i];
    if HasConflict(log) {
      var i, j :| 0 <= i < j < |log| && IdOf(log[i]) == IdOf(log[j]) && log[i].record != log[j].record;
      assert IdOf(all[i]) == IdOf(all[j]) && all[i].record != all[j].record;
    }
    if i :| 0 <= i < |log| && IdOf(log[i]) == IdOf(w) && log[i].record != w.record {
      assert IdOf(all[i]) == IdOf(all[|log|]) && all[i].record != all[|log|].record;
    }
  }

  /** What `seen` holds after the entries of a conflict-free prefix. */
  predicate SeenAgrees(log: seq<Collected>, seen: map<string, Record>) {
    && seen.Keys == Ids(log)
    && forall i | 0 <= i < |log| :: IdOf(log[i]) in seen && seen[IdOf(log[i])] == log[i].record
  }

  /**
   * Raises exactly when some id has two different payloads; otherwise keeps the
   * first entry of each id and counts the rest.
   */
  method DeduplicateUpstream(records: seq<Collected>) returns (r: Result<(seq<Collected>, nat)>)
    ensures r.Err? <==> HasConflict(records)
    ensures r.Err? ==> r.reason == ConflictingPayloads
    ensures r.Ok? ==> r.value.0 == Unique(records) && r.value.1 == |records| - |Unique(records)|
  {
    var seen: map<string, Record> := map[];
    var unique: seq<Collected> := [];
    var duplicates: nat := 0;
    for k := 0 to |records|
      invariant !HasConflict(records[..k]) && SeenAgrees(records[..k], seen)
      invariant unique == Unique(records[..k]) && duplicates + |unique| == k
    {
      var w := records[k];
      assert records[..k + 1] == records[..k] + [w];
      if IdOf(w) !in seen || seen[IdOf(w)] == w.record {
        DedupStep(records[..k], w, seen);
      }
      if IdOf(w) in seen {
        if w.record != seen[IdOf(w)] {
          ConflictFound(records, k, seen);
          return Err(ConflictingPayloads);
        }
        duplicates := duplicates + 1;
      } else {
        seen := seen[IdOf(w) := w.record];
        unique := unique + [w];
      }
    }
    assert records[..|records|] == records;
    r := Ok((unique, duplicates));
  }

  lemma DedupStep(log: seq<Collected>, w: Collected, seen: map<string, Record>)
    requires !HasConflict(log) && SeenAgrees(log, seen)
    requires IdOf(w) in seen ==> seen[IdOf(w)] == w.record
    ensures !HasConflict(log + [w]) && SeenAgrees(log + [w], seen[IdOf(w) := w.record])
    ensures Unique(log + [w]) == if IdOf(w) in seen then Unique(log) else Unique(log) + [w]
    ensures IdOf(w) in seen ==> seen[IdOf(w) := w.record] == seen
  {
    ConflictSnoc(log, w);
    IdsSnoc(log, w);
    assert (log + [w])[..|log|] == log;
    if IdOf(w) !in seen {
      assert forall i | 0 <= i < |log| :: IdOf(log[i]) in Ids(log);
    }
  }

  lemma ConflictFound(records: seq<Collected>, k: nat, seen: map<string, Record>)
    requires k < |records| && SeenAgrees(records[..k], seen)
    requires IdOf(records[k]) in seen && records[k].record != seen[IdOf(records[k])]
    ensures HasConflict(records)
  {
    var i :| 0 <= i < |records[..k]| && IdOf(records[..k][i]) == IdOf(records[k]);
    assert records[..k][i] == records[i];
    assert IdOf(records[i]) == IdOf(records[k]) && records[i].record != records[k].record;
  }

  // ----- The measurement interval -----

  predicate Included(r: Record, startMs: int, endMs: int) {
    match r
    case RawRecord(_, _, received) => startMs <= received.receivedAtMs < endMs
    case AggregateRecord(_, _, summary) => summary.startMs >= startMs && summary.endMs <= endMs
  }

  function Measured(log: seq<Collected>, startMs: int, endMs: int): seq<Collected> {
    if log == [] then []
    else
      var front, w := log[..|log| - 1], log[|log| - 1];
      Measured(front, startMs, endMs) + (if Included(w.record, startMs, endMs) then [w] else [])
  }

  method FilterUpstream(records: seq<Collected>, startMs: int, endMs: int)
    returns (filtered: seq<Collected>)
    ensures filtered == Measured(records, startMs, endMs)
  {
    filtered := [];
    for k := 0 to |records|
      invariant filtered == Measured(records[..k], startMs, endMs)
    {
      var w := records[k];
      var keep := match w.record
        case RawRecord(_, _, received) => startMs <= received.receivedAtMs < endMs
        case AggregateRecord(_, _, summary) => summary.startMs >= startMs && summary.endMs <= endMs;
      assert records[..k + 1][..k] == records[..k];
      if keep {
        filtered := filtered + [w];
      }
    }
    assert records[..|records|] == records;
  }

  /**
   * Filtering keeps exactly the RAW records received inside the half-open interval
   * and the windows that start and end inside it, each as often as it is logged.
   */
  lemma {:induction false} MeasuredMembers(log: seq<Collected>, startMs: int, endMs: int)
    ensures forall w :: w in Measured(log, startMs, endMs) <==>
      && w in log
      && (w.record.RawRecord? ==> startMs <= w.record.received.receivedAtMs < endMs)
      && (w.record.AggregateRecord? ==>
            startMs <= w.record.summary.startMs && w.record.summary.endMs <= endMs)
    ensures forall w | w in Measured(log, startMs, endMs) ::
      multiset(Measured(log, startMs, endMs))[w] == multiset(log)[w]
  {
    if log != [] {
      var front, w := log[..|log| - 1], log[|log| - 1];
      MeasuredMembers(front, startMs, endMs);
      SnocForm(log);
      assert multiset(log) == multiset(front) + multiset{w};
    }
  }

  /** Adjacent intervals split the RAW records of their union: none is lost or measured twice. */
  lemma {:induction false} AdjacentIntervalsSplit(log: seq<Collected>, a: int, b: int, c: int)
    requires a <= b <= c && forall w | w in log :: w.record.RawRecord?
    ensures multiset(Measured(log, a, c)) == multiset(Measured(log, a, b)) + multiset(Measured(log, b, c))
  {
    if log != [] {
      var front, w := log[..|log| - 1], log[|log| - 1];
      assert w in log && forall x | x in front :: x in log;
      AdjacentIntervalsSplit(front, a, b, c);
      SplitOne(multiset(Measured(front, a, b)), multiset(Measured(front, b, c)), w);
    }
  }

  lemma SplitOne(x: multiset<Collected>, y: multiset<Collected>, w: Collected)
    ensures (x + y) + multiset{w} == (x + multiset{w}) + y
    ensures (x + y) + multiset{w} == x + (y + multiset{w})
  {
  }

  /** A window that took time is measured in at most one of two adjacent intervals. */
  lemma WindowMeasuredOnce(log: seq<Collected>, a: int, b: int, c: int, w: Collected)
    requires w.record.AggregateRecord? && w.record.summary.startMs < w.record.summary.endMs
    ensures !(w in Measured(log, a, b) && w in Measured(log, b, c))
  {
    MeasuredMembers(log, a, b);
    MeasuredMembers(log, b, c);
  }

  lemma IdsOfMember(log: seq<Collected>, w: Collected)
    requires w in log
    ensures IdOf(w) in Ids(log)
  {
    var i :| 0 <= i < |log| && log[i] == w;
    assert IdOf(log[i]) == IdOf(w);
  }

  lemma MemberOfId(log: seq<Collected>, id: string) returns (w: Collected)
    requires id in Ids(log)
    ensures w in log && IdOf(w) == id
  {
    var i :| 0 <= i < |log| && IdOf(log[i]) == id;
    w := log[i];
  }

  lemma FrontNoConflict(log: seq<Collected>)
    requires log != [] && !HasConflict(log)
    ensures !HasConflict(log[..|log| - 1])
    ensures forall v | v in log[..|log| - 1] && IdOf(v) == IdOf(log[|log| - 1]) ::
              v.record == log[|log| - 1].record
  {
    SnocForm(log);
    ConflictSnoc(log[..|log| - 1], log[|log| - 1]);
  }

  /** On a conflict-free log, filtering and deduplicating commute, order and wrappers included. */
  lemma {:induction false} DedupAndFilterCommute(log: seq<Collected>, startMs: int, endMs: int)
    requires !HasConflict(log)
    ensures Unique(Measured(log, startMs, endMs)) == Measured(Unique(log), startMs, endMs)
  {
    if log != [] {
      var front, w := log[..|log| - 1], log[|log| - 1];
      FrontNoConflict(log);
      DedupAndFilterCommute(front, startMs, endMs);
      var kept, was := Measured(front, startMs, endMs), Unique(front);
      if Included(w.record, startMs, endMs) {
        KeptIds(log, startMs, endMs);
        assert (kept + [w])[..|kept|] == kept;
        assert Measured(log, startMs, endMs) == kept + [w];
      } else {
        assert Measured(log, startMs, endMs) == kept;
      }
      if IdOf(w) !in Ids(front) {
        assert (was + [w])[..|was|] == was;
        assert Unique(log) == was + [w];
      }
    }
  }

  /** A repeat of an included entry was included the first time as well. */
  lemma KeptIds(log: seq<Collected>, startMs: int, endMs: int)
    requires log != [] && !HasConflict(log) && Included(log[|log| - 1].record, startMs, endMs)
    ensures var front, id := log[..|log| - 1], IdOf(log[|log| - 1]);
      id in Ids(Measured(front, startMs, endMs)) <==> id in Ids(front)
  {
    var front, w := log[..|log| - 1], log[|log| - 1];
    var kept := Measured(front, startMs, endMs);
    FrontNoConflict(log);
    MeasuredMembers(front, startMs, endMs);
    if IdOf(w) in Ids(kept) {
      var v := MemberOfId(kept, IdOf(w));
      IdsOfMember(front, v);
    }
    if IdOf(w) in Ids(front) {
      var v := MemberOfId(front, IdOf(w));
      IdsOfMember(kept, v);
    }
  }

  function WireBytes(log: seq<Collected>): nat {
    if log == [] then 0 else WireBytes(log[..|log| - 1]) + log[|log| - 1].wireBytes
  }

  lemma UniqueSnoc(front: seq<Collected>, w: Collected)
    ensures Unique(front + [w]) == if IdOf(w) in Ids(front) then Unique(front) else Unique(front) + [w]
    ensures WireBytes(front + [w]) == WireBytes(front) + w.wireBytes
  {
    assert (front + [w])[..|front|] == front;
  }

  lemma DistinctSnoc(front: seq<Collected>, w: Collected)
    ensures DistinctIds(front + [w]) <==> (DistinctIds(front) && IdOf(w) !in Ids(front))
  {
    var all := front + [w];
    assert forall i | 0 <= i < |front| :: all[i] == front[i];
    assert forall i | 0 <= i < |front| :: IdOf(front[i]) in Ids(front);
    if IdOf(w) in Ids(front) {
      var i :| 0 <= i < |front| && IdOf(front[i]) == IdOf(w);
      assert IdOf(all[i]) == IdOf(all[|front|]);
    }
    if DistinctIds(all) {
      forall i, j | 0 <= i < j < |front|
        ensures IdOf(front[i]) != IdOf(front[j])
      {
        assert IdOf(all[i]) != IdOf(all[j]);
      }
    }
  }

  /** Unique bytes never exceed actual bytes, and equal them exactly when nothing was repeated. */
  lemma {:induction false} RepeatsCostBytes(log: seq<Collected>)
    requires forall i | 0 <= i < |log| :: log[i].wireBytes > 0
    ensures WireBytes(Unique(log)) <= WireBytes(log)
    ensures WireBytes(Unique(log)) == WireBytes(log) <==> DistinctIds(log)
    ensures DistinctIds(log) ==> Unique(log) == log
  {
    if log != [] {
      var front, w := log[..|log| - 1], log[|log| - 1];
      assert log == front + [w];
      RepeatsCostBytes(front);
      UniqueSnoc(front, w);
      DistinctSnoc(front, w);
      UniqueSnoc(Unique(front), w);
    }
  }
}
