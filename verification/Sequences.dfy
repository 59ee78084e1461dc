/** Sequences without duplicates, and removal of an element. */
module Sequences {

  ghost predicate Distinct<N>(s: seq<N>) {
    s == [] || (s[0] !in s[1..] && Distinct(s[1..]))
  }

  lemma {:induction false} DistinctFrom<N>(s: seq<N>, i: nat)
    requires Distinct(s) && i < |s|
    ensures forall j :: 0 <= j < |s| && j != i ==> s[j] != s[i]
    decreases |s|
  {
    if i > 0 {
      DistinctFrom(s[1..], i - 1);
      assert s[1..][i - 1] == s[i];
      forall j | 0 <= j < |s| && j != i ensures s[j] != s[i] {
        if j > 0 {
          assert s[1..][j - 1] == s[j];
        }
      }
    } else {
      forall j | 0 < j < |s| ensures s[j] != s[0] {
        assert s[1..][j - 1] == s[j];
      }
    }
  }

  lemma {:induction false} AllDistinct<N>(s: seq<N>)
    requires Distinct(s)
    ensures forall i, j :: 0 <= i < j < |s| ==> s[i] != s[j]
  {
    forall i, j | 0 <= i < j < |s| ensures s[i] != s[j] {
      DistinctFrom(s, i);
    }
  }

  lemma {:induction false} DistinctAppend<N>(s: seq<N>, n: N)
    requires Distinct(s) && n !in s
    ensures Distinct(s + [n])
    decreases |s|
  {
    if s == [] {
      assert s + [n] == [n];
    } else {
      DistinctAppend(s[1..], n);
      assert (s + [n])[1..] == s[1..] + [n];
    }
  }

  /** `s` without its element at position `k`. */
  function Without<N>(s: seq<N>, k: nat): seq<N>
    requires k < |s|
  {
    s[..k] + s[k + 1..]
  }

  lemma {:induction false} WithoutIsExact<N>(s: seq<N>, k: nat)
    requires k < |s| && Distinct(s)
    ensures Distinct(Without(s, k))
    ensures forall n :: n in Without(s, k) <==> n in s && n != s[k]
    decreases k
  {
    assert s == [s[0]] + s[1..];
    if k == 0 {
      assert Without(s, 0) == s[1..];
    } else {
      WithoutIsExact(s[1..], k - 1);
      assert Without(s, k) == [s[0]] + Without(s[1..], k - 1);
      DistinctFrom(s, k);
    }
  }

  /** `s` without its first occurrence of `a`. */
  function Remove<A(==)>(s: seq<A>, a: A): seq<A> {
    if s == [] then [] else if s[0] == a then s[1..] else [s[0]] + Remove(s[1..], a)
  }

  lemma {:induction false} RemoveIsWithout<N>(s: seq<N>, k: nat)
    requires k < |s| && Distinct(s)
    ensures Remove(s, s[k]) == Without(s, k)
    decreases k
  {
    if k == 0 {
      assert Without(s, 0) == s[1..];
    } else {
      DistinctFrom(s, k);
      RemoveIsWithout(s[1..], k - 1);
      assert Without(s, k) == [s[0]] + Without(s[1..], k - 1);
    }
  }

  lemma {:induction false} RemoveOther<N>(s: seq<N>, n: N)
    requires n !in s
    ensures Remove(s, n) == s
    decreases |s|
  {
    if s != [] {
      RemoveOther(s[1..], n);
    }
  }

  /** Nothing else is lost, and there are still no duplicates. */
  lemma {:induction false} RemoveIsExact<A>(s: seq<A>, a: A)
    requires Distinct(s)
    ensures Distinct(Remove(s, a))
    ensures forall b :: b in Remove(s, a) ==> b in s && b != a
    ensures forall b :: b in s && b != a ==> b in Remove(s, a)
    ensures a !in s ==> Remove(s, a) == s
    decreases |s|
  {
    if s != [] {
      var rest := s[1..];
      assert s == [s[0]] + rest;
      RemoveIsExact(rest, a);
      assert s[0] !in rest;
    }
  }

  // ------------------------------------------------------------------------
  // Order
  // ------------------------------------------------------------------------

  /** `a` stands in `s` somewhere before `b`. */
  ghost predicate Precedes<N>(s: seq<N>, a: N, b: N) {
    s != [] && ((s[0] == a && b in s[1..]) || Precedes(s[1..], a, b))
  }

  lemma {:induction false} PrecedesMeansIn<N>(s: seq<N>, a: N, b: N)
    requires Precedes(s, a, b)
    ensures a in s && b in s
    decreases |s|
  {
    if Precedes(s[1..], a, b) {
      PrecedesMeansIn(s[1..], a, b);
    }
  }

  lemma {:induction false} PrecedesLast<N>(s: seq<N>, a: N, b: N)
    requires a in s
    ensures Precedes(s + [b], a, b)
    decreases |s|
  {
    assert (s + [b])[1..] == s[1..] + [b];
    if s[0] != a {
      PrecedesLast(s[1..], a, b);
    }
  }

  lemma {:induction false} PrecedesAppend<N>(s: seq<N>, a: N, b: N, n: N)
    requires Precedes(s, a, b)
    ensures Precedes(s + [n], a, b)
    decreases |s|
  {
    assert (s + [n])[1..] == s[1..] + [n];
    if Precedes(s[1..], a, b) {
      PrecedesAppend(s[1..], a, b, n);
    }
  }

  /** Removing an element keeps the others in order. */
  lemma {:induction false} PrecedesRemove<N>(s: seq<N>, a: N, b: N, n: N)
    requires Precedes(s, a, b) && Distinct(s) && n != a && n != b
    ensures Precedes(Remove(s, n), a, b)
    decreases |s|
  {
    if s[0] != n {
      assert ([s[0]] + Remove(s[1..], n))[1..] == Remove(s[1..], n);
      if s[0] == a && b in s[1..] {
        RemoveIsExact(s[1..], n);
      } else {
        PrecedesRemove(s[1..], a, b, n);
      }
    }
  }
}
