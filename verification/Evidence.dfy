/**
 * Pi/Mac evidence matching for the physical run. The code checks counts, one
 * lookup per collector record and equality of key sets; that is enough to make
 * the collector's readings a rearrangement of the Pi's, payload for payload.
 */
module Evidence {
  import opened Common
  import opened Messages
  import opened Analysis

  datatype PiSummary = PiSummary(valid: int, written: int, forwarded: int, upstreamBytes: int)
  datatype MacSummary = MacSummary(received: int, bytes: int)

  datatype Key = Key(nodeId: string, sequence: nat, monotonicNs: nat)

  function KeyOf(r: Received): Key {
    Key(r.message.nodeId, r.message.sequence, r.monotonicNs)
  }

  function KeysOf(rs: seq<Received>): set<Key> {
    set i | 0 <= i < |rs| :: KeyOf(rs[i])
  }

  predicate DistinctKeys(rs: seq<Received>) {
    forall i, j | 0 <= i < j < |rs| :: KeyOf(rs[i]) != KeyOf(rs[j])
  }

  predicate AllRaw(mac: seq<Collected>) {
    forall i | 0 <= i < |mac| :: mac[i].record.RawRecord?
  }

  /** The reading a RAW record carries, with its gateway metadata. */
  function Enriched(mac: seq<Collected>): (rs: seq<Received>)
    requires AllRaw(mac)
    ensures |rs| == |mac| && forall i | 0 <= i < |mac| :: rs[i] == mac[i].record.received
  {
    seq(|mac|, i requires 0 <= i < |mac| => mac[i].record.received)
  }

  predicate CountsAgree(pi: seq<Received>, mac: seq<Collected>, ps: PiSummary, ms: MacSummary) {
    |pi| == ps.valid == ps.written == ps.forwarded == |mac| == ms.received
  }

  /** What an accepted pair of logs amounts to. */
  predicate Matches(pi: seq<Received>, mac: seq<Collected>, ps: PiSummary, ms: MacSummary) {
    && CountsAgree(pi, mac, ps, ms)
    && DistinctKeys(pi) && AllRaw(mac) && DistinctIds(mac)
    && multiset(Enriched(mac)) == multiset(pi)
    && WireBytes(mac) == ps.upstreamBytes == ms.bytes
  }

  /** The Pi index after its first entries. */
  predicate Indexes(pi: seq<Received>, index: map<Key, Received>) {
    && index.Keys == KeysOf(pi)
    && DistinctKeys(pi)
    && forall i | 0 <= i < |pi| :: KeyOf(pi[i]) in index && index[KeyOf(pi[i])] == pi[i]
  }

  /** The collector records checked so far. */
  predicate Checked(mac: seq<Collected>, index: map<Key, Received>, ids: set<string>, keys: set<Key>) {
    && AllRaw(mac) && DistinctIds(mac) && ids == Ids(mac)
    && keys == KeysOf(Enriched(mac))
    && forall i | 0 <= i < |mac| ::
         var r := mac[i].record.received; KeyOf(r) in index && index[KeyOf(r)] == r
  }

  lemma KeysSnoc(rs: seq<Received>, r: Received)
    ensures KeysOf(rs + [r]) == KeysOf(rs) + {KeyOf(r)}
  {
    var all := rs + [r];
    forall k
      ensures k in KeysOf(all) <==> k in KeysOf(rs) || k == KeyOf(r)
    {
      if k in KeysOf(rs) {
        var i :| 0 <= i < |rs| && KeyOf(rs[i]) == k;
        assert KeyOf(all[i]) == k;
      }
      if k == KeyOf(r) {
        assert KeyOf(all[|rs|]) == k;
      }
    }
  }

  lemma IndexStep(pi: seq<Received>, index: map<Key, Received>, r: Received)
    requires Indexes(pi, index) && KeyOf(r) !in index
    ensures Indexes(pi + [r], index[KeyOf(r) := r])
  {
    KeysSnoc(pi, r);
    assert forall i | 0 <= i < |pi| :: KeyOf(pi[i]) in KeysOf(pi);
  }

  lemma CheckStep(mac: seq<Collected>, index: map<Key, Received>, ids: set<string>, keys: set<Key>,
                  w: Collected)
    requires Checked(mac, index, ids, keys) && w.record.RawRecord? && IdOf(w) !in ids
    requires var r := w.record.received; KeyOf(r) in index && index[KeyOf(r)] == r
    ensures Checked(mac + [w], index, ids + {IdOf(w)}, keys + {KeyOf(w.record.received)})
  {
    IdsSnoc(mac, w);
    assert Enriched(mac + [w]) == Enriched(mac) + [w.record.received];
    KeysSnoc(Enriched(mac), w.record.received);
    assert forall i | 0 <= i < |mac| :: IdOf(mac[i]) in Ids(mac);
  }

  /** Acceptance is sound: counts and key sets leave room for nothing but a rearrangement. */
  lemma CheckedIsPermutation(pi: seq<Received>, mac: seq<Collected>, index: map<Key, Received>,
                             ids: set<string>)
    requires Indexes(pi, index) && Checked(mac, index, ids, index.Keys) && |mac| == |pi|
    ensures multiset(Enriched(mac)) == multiset(pi)
  {
    var rs := Enriched(mac);
    assert Distinct(pi) by {
      forall i, j | 0 <= i < j < |pi|
        ensures pi[i] != pi[j]
      {
        assert KeyOf(pi[i]) != KeyOf(pi[j]);
      }
    }
    forall x | x in pi
      ensures x in rs
    {
      var i :| 0 <= i < |pi| && pi[i] == x;
      assert KeyOf(pi[i]) in KeysOf(rs);
      var j :| 0 <= j < |rs| && KeyOf(rs[j]) == KeyOf(x);
      assert rs[j] == index[KeyOf(x)] == x;
    }
    Pigeonhole(pi, rs);
  }

  lemma KeysFollow(a: seq<Received>, b: seq<Received>)
    requires forall r | r in a :: r in b
    ensures KeysOf(a) <= KeysOf(b)
  {
    forall k | k in KeysOf(a)
      ensures k in KeysOf(b)
    {
      var i :| 0 <= i < |a| && KeyOf(a[i]) == k;
      assert a[i] in b;
      var j :| 0 <= j < |b| && b[j] == a[i];
      assert KeyOf(b[j]) == k;
    }
  }

  lemma SameMembers(a: seq<Received>, b: seq<Received>)
    requires multiset(a) == multiset(b)
    ensures forall r | r in a :: r in b
  {
    forall r | r in a
      ensures r in b
    {
      assert r in multiset(a);
    }
  }

  /** Acceptance is complete: a rearrangement passes every lookup and covers every key. */
  lemma PermutationPasses(pi: seq<Received>, mac: seq<Collected>, index: map<Key, Received>)
    requires Indexes(pi, index) && AllRaw(mac) && multiset(Enriched(mac)) == multiset(pi)
    ensures forall i | 0 <= i < |mac| ::
              var r := mac[i].record.received; KeyOf(r) in index && index[KeyOf(r)] == r
    ensures KeysOf(Enriched(mac)) == index.Keys
  {
    var rs := Enriched(mac);
    SameMembers(rs, pi);
    SameMembers(pi, rs);
    KeysFollow(rs, pi);
    KeysFollow(pi, rs);
    forall i | 0 <= i < |mac|
      ensures KeyOf(rs[i]) in index && index[KeyOf(rs[i])] == rs[i]
    {
      assert rs[i] in pi;
      var j :| 0 <= j < |pi| && pi[j] == rs[i];
      assert KeyOf(pi[j]) in index;
    }
  }

  method IndexPi(pi: seq<Received>) returns (index: Option<map<Key, Received>>)
    ensures index.Some? <==> DistinctKeys(pi)
    ensures index.Some? ==> Indexes(pi, index.value)
  {
    var byKey: map<Key, Received> := map[];
    for k := 0 to |pi|
      invariant Indexes(pi[..k], byKey)
    {
      var r := pi[k];
      assert pi[..k + 1] == pi[..k] + [r];
      if KeyOf(r) in byKey {
        ghost var i :| 0 <= i < |pi[..k]| && KeyOf(pi[..k][i]) == KeyOf(r);
        assert KeyOf(pi[i]) == KeyOf(pi[k]);
        return None;
      }
      IndexStep(pi[..k], byKey, r);
      byKey := byKey[KeyOf(r) := r];
    }
    assert pi[..|pi|] == pi;
    index := Some(byKey);
  }

  /** Every record is RAW, has its own id, and equals the Pi reading under its key. */
  predicate PassesLookups(mac: seq<Collected>, index: map<Key, Received>) {
    && AllRaw(mac) && DistinctIds(mac)
    && forall i | 0 <= i < |mac| ::
         var r := mac[i].record.received; KeyOf(r) in index && index[KeyOf(r)] == r
  }

  method CheckMac(mac: seq<Collected>, index: map<Key, Received>) returns (r: Result<set<Key>>)
    ensures r.Ok? <==> PassesLookups(mac, index)
    ensures r.Ok? ==> exists ids :: Checked(mac, index, ids, r.value)
    ensures r.Err? ==> r.reason in {NotRaw, DuplicateRecordId, PayloadMismatch}
  {
    var ids: set<string> := {};
    var keys: set<Key> := {};
    for k := 0 to |mac|
      invariant Checked(mac[..k], index, ids, keys)
    {
      var w := mac[k];
      assert mac[..k + 1] == mac[..k] + [w];
      if !w.record.RawRecord? {
        return Err(NotRaw);
      }
      if IdOf(w) in ids {
        ghost var i :| 0 <= i < |mac[..k]| && IdOf(mac[..k][i]) == IdOf(w);
        assert IdOf(mac[i]) == IdOf(mac[k]);
        return Err(DuplicateRecordId);
      }
      var enriched := w.record.received;
      var key := KeyOf(enriched);
      if key !in index || enriched != index[key] {
        return Err(PayloadMismatch);
      }
      CheckStep(mac[..k], index, ids, keys, w);
      ids, keys := ids + {IdOf(w)}, keys + {key};
    }
    assert mac[..|mac|] == mac;
    r := Ok(keys);
  }

  /** Accepts exactly the pairs of logs that are the same readings in some order. */
  method ValidateEvidence(pi: seq<Received>, mac: seq<Collected>, ps: PiSummary, ms: MacSummary)
    returns (r: Result<()>)
    ensures r.Ok? <==> Matches(pi, mac, ps, ms)
    ensures r == Err(CountMismatch) <==> !CountsAgree(pi, mac, ps, ms)
  {
    if !(|pi| == ps.valid == ps.written == ps.forwarded == |mac| == ms.received) {
      return Err(CountMismatch);
    }
    var index := IndexPi(pi);
    if index.None? {
      return Err(DuplicateKey);
    }
    var checked := CheckMac(mac, index.value);
    if AllRaw(mac) && multiset(Enriched(mac)) == multiset(pi) {
      PermutationPasses(pi, mac, index.value);
    }
    if checked.Err? {
      return Err(checked.reason);
    }
    ghost var ids :| Checked(mac, index.value, ids, checked.value);
    if checked.value != index.value.Keys {
      return Err(KeySetsDiffer);
    }
    CheckedIsPermutation(pi, mac, index.value, ids);
    var wireBytes := SumWireBytes(mac);
    if wireBytes != ps.upstreamBytes || wireBytes != ms.bytes {
      return Err(ByteParity);
    }
    r := Ok(());
  }

  method SumWireBytes(log: seq<Collected>) returns (total: nat)
    ensures total == WireBytes(log)
  {
    total := 0;
    for k := 0 to |log|
      invariant total == WireBytes(log[..k])
    {
      assert log[..k + 1][..k] == log[..k];
      total := total + log[k].wireBytes;
    }
    assert log[..|log|] == log;
  }
}
