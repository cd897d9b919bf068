/** A bounded asyncio queue that carries received messages and one STOP marker. */
module Queues {
  import opened Messages

  datatype Item = Queued(r: Received) | Stop

  /** The messages waiting in the queue, in order. */
  function Pending(q: seq<Item>): seq<Received> {
    if q == [] then []
    else
      var n := |q| - 1;
      Pending(q[..n]) + (if q[n].Queued? then [q[n].r] else [])
  }

  function Stops(q: seq<Item>): nat {
    multiset(q)[Stop]
  }

  /** The items waiting behind the STOP marker. */
  function Behind(q: seq<Item>): seq<Item> {
    if q == [] then [] else if q[0].Stop? then q[1..] else Behind(q[1..])
  }

  lemma PendingSnoc(q: seq<Item>, x: Item)
    ensures Pending(q + [x]) == Pending(q) + (if x.Queued? then [x.r] else [])
  {
    assert (q + [x])[..|q|] == q;
  }

  lemma {:induction false} PendingCons(q: seq<Item>)
    requires q != []
    ensures Pending(q) == (if q[0].Queued? then [q[0].r] else []) + Pending(q[1..])
  {
    if |q| == 1 {
      assert q[..0] == [] && q[1..] == [];
    } else {
      var n := |q| - 1;
      PendingCons(q[..n]);
      assert q[..n][1..] == q[1..][..n - 1];
    }
  }

  lemma {:induction false} PendingCount(q: seq<Item>)
    ensures |Pending(q)| + Stops(q) == |q|
  {
    if q != [] {
      var n := |q| - 1;
      PendingCount(q[..n]);
      assert q == q[..n] + [q[n]];
    }
  }

  lemma {:induction false} BehindSnoc(q: seq<Item>, x: Item)
    ensures Behind(q + [x]) == Behind(q) + (if Stops(q) > 0 then [x] else [])
  {
    if q == [] {
      assert (q + [x])[1..] == [];
    } else {
      assert q == [q[0]] + q[1..];
      assert (q + [x])[1..] == q[1..] + [x];
      if q[0].Queued? {
        BehindSnoc(q[1..], x);
      }
    }
  }

  lemma StopsSnoc(q: seq<Item>, x: Item)
    ensures Stops(q + [x]) == Stops(q) + (if x.Stop? then 1 else 0)
  {
  }

  lemma StopsCons(q: seq<Item>)
    requires q != []
    ensures Stops(q) == Stops(q[1..]) + (if q[0].Stop? then 1 else 0)
  {
    assert q == [q[0]] + q[1..];
  }

  lemma {:induction false} NoneBehind(q: seq<Item>)
    requires Stops(q) == 0
    ensures Behind(q) == []
  {
    if q != [] {
      StopsCons(q);
      NoneBehind(q[1..]);
    }
  }

  lemma PutFacts(q: seq<Item>, r: Received)
    ensures var q' := q + [Queued(r)];
      && Stops(q') == Stops(q) && Pending(q') == Pending(q) + [r]
      && (Stops(q) > 0 ==> Pending(Behind(q')) == Pending(Behind(q)) + [r])
  {
    StopsSnoc(q, Queued(r));
    BehindSnoc(q, Queued(r));
    PendingSnoc(q, Queued(r));
    PendingSnoc(Behind(q), Queued(r));
  }
}
