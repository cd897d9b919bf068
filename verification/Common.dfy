/** Sequence, set and multiset facts used across the model. */
module Common {

  datatype Option<+T> = None | Some(value: T)

  /** 2^n, the factor by which n doublings grow a delay. */
  function Power2(n: nat): (p: nat)
    ensures p >= 1
  {
    if n == 0 then 1 else 2 * Power2(n - 1)
  }

  predicate Distinct<T(==)>(s: seq<T>) {
    forall i, j | 0 <= i < j < |s| :: s[i] != s[j]
  }

  function Elements<T>(s: seq<T>): set<T> {
    set x | x in s
  }

  lemma ElementsSnoc<T>(s: seq<T>, x: T)
    ensures Elements(s + [x]) == Elements(s) + {x}
  {
  }

  lemma ElementsCons<T>(s: seq<T>)
    requires s != []
    ensures Elements(s) == {s[0]} + Elements(s[1..])
  {
    assert s == [s[0]] + s[1..];
  }

  lemma Assoc<T>(x: seq<T>, y: seq<T>, z: seq<T>)
    ensures (x + y) + z == x + (y + z)
  {
  }

  /** Concatenation of all the pieces, in order. */
  function Flatten<T>(pieces: seq<seq<T>>): seq<T> {
    if pieces == [] then [] else Flatten(pieces[..|pieces| - 1]) + pieces[|pieces| - 1]
  }

  lemma FlattenSnoc<T>(pieces: seq<seq<T>>, last: seq<T>)
    ensures Flatten(pieces + [last]) == Flatten(pieces) + last
  {
    assert (pieces + [last])[..|pieces|] == pieces;
  }

  function Total(s: seq<nat>): nat {
    if s == [] then 0 else Total(s[..|s| - 1]) + s[|s| - 1]
  }

  lemma TotalSnoc(s: seq<nat>, x: nat)
    ensures Total(s + [x]) == Total(s) + x
  {
    assert (s + [x])[..|s|] == s;
  }

  /** The members that satisfy `keep`, in order. */
  function Filter<T>(s: seq<T>, keep: T -> bool): seq<T> {
    if s == [] then []
    else
      var rest := Filter(s[..|s| - 1], keep);
      if keep(s[|s| - 1]) then rest + [s[|s| - 1]] else rest
  }

  lemma {:induction false} FilterSame<T>(s: seq<T>, keep: T -> bool, keep': T -> bool)
    requires forall x :: keep(x) == keep'(x)
    ensures Filter(s, keep) == Filter(s, keep')
  {
    if s != [] {
      FilterSame(s[..|s| - 1], keep, keep');
    }
  }

  lemma FilterSnoc<T>(s: seq<T>, x: T, keep: T -> bool)
    ensures Filter(s + [x], keep) == Filter(s, keep) + (if keep(x) then [x] else [])
  {
    assert (s + [x])[..|s|] == s;
  }

  lemma {:induction false} FilterConcat<T>(a: seq<T>, b: seq<T>, keep: T -> bool)
    ensures Filter(a + b, keep) == Filter(a, keep) + Filter(b, keep)
  {
    if b == [] {
      assert a + b == a;
    } else {
      var n := |b| - 1;
      FilterConcat(a, b[..n], keep);
      FilterSnoc(a + b[..n], b[n], keep);
      assert a + b == (a + b[..n]) + [b[n]];
    }
  }

  lemma {:induction false} FilterMembers<T>(s: seq<T>, keep: T -> bool)
    ensures forall x :: x in Filter(s, keep) <==> x in s && keep(x)
  {
    if s != [] {
      FilterMembers(s[..|s| - 1], keep);
      assert s == s[..|s| - 1] + [s[|s| - 1]];
    }
  }

  lemma {:induction false} FilterSplits<T>(s: seq<T>, keep: T -> bool, leave: T -> bool)
    requires forall x :: leave(x) == !keep(x)
    ensures |Filter(s, keep)| + |Filter(s, leave)| == |s|
  {
    if s != [] {
      FilterSplits(s[..|s| - 1], keep, leave);
    }
  }

  function Mapped<S, T>(s: seq<S>, f: S -> T): (r: seq<T>)
    ensures |r| == |s| && forall i | 0 <= i < |s| :: r[i] == f(s[i])
  {
    seq(|s|, i requires 0 <= i < |s| => f(s[i]))
  }

  lemma {:induction false} ElementsCard<T>(s: seq<T>)
    ensures |Elements(s)| <= |s|
    ensures |Elements(s)| == |s| <==> Distinct(s)
  {
    if s == [] {
      assert Elements(s) == {};
    } else {
      var front, x := s[..|s| - 1], s[|s| - 1];
      ElementsCard(front);
      assert s == front + [x];
      assert Elements(s) == Elements(front) + {x};
      if x in front {
        assert Elements(s) == Elements(front);
        var i :| 0 <= i < |front| && front[i] == x;
        assert s[i] == s[|s| - 1];
      } else {
        if Distinct(front) {
          assert Distinct(s);
        }
        assert !Distinct(front) ==> !Distinct(s) by {
          if !Distinct(front) {
            var i, j :| 0 <= i < j < |front| && front[i] == front[j];
            assert s[i] == s[j];
          }
        }
      }
    }
  }

  lemma SubsetCard<T>(a: set<T>, b: set<T>)
    requires a <= b
    ensures |a| <= |b|
    ensures |a| == |b| ==> a == b
  {
    assert b == a + (b - a);
    assert |b| == |a| + |b - a|;
  }

  /**
   * Pigeonhole: a log no longer than a duplicate-free list it contains is a
   * rearrangement of that list.
   */
  lemma {:induction false} Pigeonhole<T>(wanted: seq<T>, log: seq<T>)
    requires Distinct(wanted)
    requires forall x | x in wanted :: x in log
    requires |log| <= |wanted|
    ensures |log| == |wanted|
    ensures Distinct(log)
    ensures multiset(log) == multiset(wanted)
  {
    ElementsCard(wanted);
    ElementsCard(log);
    assert Elements(wanted) <= Elements(log);
    SubsetCard(Elements(wanted), Elements(log));
    forall x
      ensures multiset(log)[x] == multiset(wanted)[x]
    {
      DistinctCount(log, x);
      DistinctCount(wanted, x);
      assert x in log <==> x in Elements(log);
      assert x in wanted <==> x in Elements(wanted);
    }
  }

  lemma {:induction false} DistinctCount<T>(s: seq<T>, x: T)
    requires Distinct(s)
    ensures multiset(s)[x] == if x in s then 1 else 0
  {
    if s != [] {
      var n := |s| - 1;
      DistinctCount(s[..n], x);
      assert s == s[..n] + [s[n]];
    }
  }

  /** Whether a list repeats an element does not depend on its order. */
  lemma DistinctMultiset<T>(s: seq<T>, t: seq<T>)
    requires multiset(s) == multiset(t)
    ensures Distinct(s) <==> Distinct(t)
  {
    assert |s| == |multiset(s)| == |multiset(t)| == |t|;
    ElementsCard(s);
    ElementsCard(t);
    assert forall x :: x in s <==> x in multiset(s);
    assert forall x :: x in t <==> x in multiset(t);
    assert Elements(s) == Elements(t);
  }

  lemma RemoveOne<T>(t: seq<T>, x: T) returns (k: nat, rest: seq<T>)
    requires x in multiset(t)
    ensures k < |t| && t[k] == x && rest == t[..k] + t[k + 1..]
    ensures t == t[..k] + [x] + t[k + 1..]
    ensures multiset(rest) == multiset(t) - multiset{x}
  {
    k :| 0 <= k < |t| && t[k] == x;
    rest := t[..k] + t[k + 1..];
    assert t == t[..k] + [x] + t[k + 1..];
  }

  lemma CancelOne<T>(a: multiset<T>, b: multiset<T>, x: T)
    requires a + multiset{x} == b + multiset{x}
    ensures a == b
  {
    assert a == (a + multiset{x}) - multiset{x};
    assert b == (b + multiset{x}) - multiset{x};
  }

  lemma {:induction false} TotalMultiset(s: seq<nat>, t: seq<nat>)
    requires multiset(s) == multiset(t)
    ensures Total(s) == Total(t)
  {
    assert |s| == |multiset(s)| == |multiset(t)| == |t|;
    if s != [] {
      var n := |s| - 1;
      assert s == s[..n] + [s[n]];
      var k, rest := RemoveOne(t, s[n]);
      TotalMultiset(s[..n], rest);
      TotalRemove(t[..k], s[n], t[k + 1..]);
    }
  }

  lemma {:induction false} TotalRemove(a: seq<nat>, x: nat, b: seq<nat>)
    ensures Total(a + [x] + b) == Total(a + b) + x
  {
    if b == [] {
      assert a + [x] + b == a + [x] && a + b == a;
      TotalSnoc(a, x);
    } else {
      var n := |b| - 1;
      TotalRemove(a, x, b[..n]);
      assert a + [x] + b == (a + [x] + b[..n]) + [b[n]];
      assert a + b == (a + b[..n]) + [b[n]];
      TotalSnoc(a + [x] + b[..n], b[n]);
      TotalSnoc(a + b[..n], b[n]);
    }
  }

  lemma {:induction false} FilterMultiset<T>(s: seq<T>, t: seq<T>, keep: T -> bool)
    requires multiset(s) == multiset(t)
    ensures multiset(Filter(s, keep)) == multiset(Filter(t, keep))
  {
    assert |s| == |multiset(s)| == |multiset(t)| == |t|;
    if s != [] {
      var n := |s| - 1;
      assert s == s[..n] + [s[n]];
      var k, rest := RemoveOne(t, s[n]);
      FilterMultiset(s[..n], rest, keep);
      FilterConcat(t[..k], t[k + 1..], keep);
      FilterConcat(t[..k] + [s[n]], t[k + 1..], keep);
      FilterSnoc(t[..k], s[n], keep);
    }
  }

  lemma {:induction false} MappedMultiset<S, T>(s: seq<S>, t: seq<S>, f: S -> T)
    requires multiset(s) == multiset(t)
    ensures multiset(Mapped(s, f)) == multiset(Mapped(t, f))
  {
    assert |s| == |multiset(s)| == |multiset(t)| == |t|;
    if s != [] {
      var n := |s| - 1;
      assert s == s[..n] + [s[n]];
      var k, rest := RemoveOne(t, s[n]);
      MappedMultiset(s[..n], rest, f);
      MappedRemove(s[..n], s[n], [], f);
      MappedRemove(t[..k], s[n], t[k + 1..], f);
      assert s[..n] + [] == s[..n] && s[..n] + [s[n]] + [] == s;
    }
  }

  lemma MappedRemove<S, T>(a: seq<S>, x: S, b: seq<S>, f: S -> T)
    ensures multiset(Mapped(a + [x] + b, f)) == multiset(Mapped(a + b, f)) + multiset{f(x)}
  {
    assert Mapped(a + [x] + b, f) == Mapped(a, f) + [f(x)] + Mapped(b, f);
    assert Mapped(a + b, f) == Mapped(a, f) + Mapped(b, f);
  }
}
