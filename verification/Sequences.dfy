/** Sequence vocabulary shared by the other modules. */
module Sequences {

  /** The sequence stored under k; an absent key stands for the empty sequence. */
  function At<K, V>(m: map<K, seq<V>>, k: K): seq<V> {
    if k in m then m[k] else []
  }

  /** No element occurs twice. */
  predicate Distinct<T(==)>(q: seq<T>) {
    forall i, j :: 0 <= i < j < |q| ==> q[i] != q[j]
  }

  /** The elements of `q` that satisfy `f`, in order. */
  function Filter<T>(f: T -> bool, q: seq<T>): seq<T> {
    if q == [] then []
    else Filter(f, q[..|q| - 1]) + (if f(q[|q| - 1]) then [q[|q| - 1]] else [])
  }

  lemma FilterSnoc<T>(f: T -> bool, q: seq<T>, x: T)
    ensures Filter(f, q + [x]) == Filter(f, q) + (if f(x) then [x] else [])
  {
  }

  lemma {:induction false} FilterConcat<T>(f: T -> bool, a: seq<T>, b: seq<T>)
    ensures Filter(f, a + b) == Filter(f, a) + Filter(f, b)
  {
    if b == [] {
      assert a + b == a;
    } else {
      var n := |b| - 1;
      assert a + b == (a + b[..n]) + [b[n]];
      FilterSnoc(f, a + b[..n], b[n]);
      FilterConcat(f, a, b[..n]);
    }
  }

  lemma FilterPrefix<T>(f: T -> bool, a: seq<T>, b: seq<T>)
    requires a <= b
    ensures Filter(f, a) <= Filter(f, b)
  {
    assert b == a + b[|a|..];
    FilterConcat(f, a, b[|a|..]);
  }

  /** Filtering keeps every copy of an element that satisfies `f` and none of the others. */
  lemma {:induction false} FilterCount<T>(f: T -> bool, q: seq<T>, x: T)
    ensures multiset(Filter(f, q))[x] == if f(x) then multiset(q)[x] else 0
  {
    if q != [] {
      var n := |q| - 1;
      assert q == q[..n] + [q[n]];
      FilterCount(f, q[..n], x);
    }
  }

  /** Filtering twice is filtering by both conditions. */
  lemma {:induction false} FilterTwice<T>(f: T -> bool, g: T -> bool, h: T -> bool, q: seq<T>)
    requires forall x :: x in q ==> (h(x) <==> f(x) && g(x))
    ensures Filter(f, Filter(g, q)) == Filter(h, q)
  {
    if q != [] {
      var n := |q| - 1;
      FilterTwice(f, g, h, q[..n]);
      FilterConcat(f, Filter(g, q[..n]), if g(q[n]) then [q[n]] else []);
      FilterSnoc(f, [], q[n]);
      assert [] + [q[n]] == [q[n]];
    }
  }

  /** How many elements of `q` satisfy `f`. */
  function Tally<T>(f: T -> bool, q: seq<T>): nat {
    if q == [] then 0 else (if f(q[0]) then 1 else 0) + Tally(f, q[1..])
  }

  lemma {:induction false} TallyUpdate<T>(f: T -> bool, q: seq<T>, i: nat, x: T)
    requires i < |q|
    ensures Tally(f, q[i := x]) + (if f(q[i]) then 1 else 0) == Tally(f, q) + (if f(x) then 1 else 0)
  {
    if i == 0 {
      assert q[i := x][1..] == q[1..];
    } else {
      assert q[i := x][1..] == q[1..][i - 1 := x];
      TallyUpdate(f, q[1..], i - 1, x);
    }
  }

  lemma {:induction false} TallySnoc<T>(f: T -> bool, q: seq<T>, x: T)
    ensures Tally(f, q + [x]) == Tally(f, q) + (if f(x) then 1 else 0)
  {
    if q == [] {
      assert q + [x] == [x];
    } else {
      assert (q + [x])[1..] == q[1..] + [x];
      TallySnoc(f, q[1..], x);
    }
  }

  lemma {:induction false} TallyNone<T>(f: T -> bool, q: seq<T>)
    requires forall i :: 0 <= i < |q| ==> !f(q[i])
    ensures Tally(f, q) == 0
  {
    if q != [] { TallyNone(f, q[1..]); }
  }

  lemma CountSnoc<T>(q: seq<T>, x: T, y: T)
    ensures multiset(q + [x])[y] == multiset(q)[y] + (if x == y then 1 else 0)
  {
  }

  lemma CountTail<T>(q: seq<T>, y: T)
    requires q != []
    ensures multiset(q)[y] == multiset(q[1..])[y] + (if q[0] == y then 1 else 0)
  {
    assert q == [q[0]] + q[1..];
  }

  lemma {:induction false} TallyAt<T>(f: T -> bool, q: seq<T>, i: nat)
    requires i < |q| && f(q[i])
    ensures Tally(f, q) > 0
  {
    if i > 0 { TallyAt(f, q[1..], i - 1); }
  }

  lemma {:induction false} TallyBound<T>(f: T -> bool, q: seq<T>)
    ensures Tally(f, q) <= |q|
  {
    if q != [] { TallyBound(f, q[1..]); }
  }

  /** std::list::remove: `q` without any occurrence of x. */
  function Without<T(==)>(q: seq<T>, x: T): seq<T> {
    if q == [] then [] else (if q[0] == x then [] else [q[0]]) + Without(q[1..], x)
  }

  /** Of a list without repetitions exactly the one element goes. */
  lemma {:induction false} WithoutExact<T>(q: seq<T>, x: T)
    requires Distinct(q)
    ensures Distinct(Without(q, x)) && |Without(q, x)| == |q| - if x in q then 1 else 0
    ensures forall y {:trigger y in Without(q, x)} {:trigger y in q} :: y in Without(q, x) <==> y in q && y != x
  {
    if q != [] {
      WithoutExact(q[1..], x);
      assert forall y {:trigger y in q} :: y in q <==> y == q[0] || y in q[1..];
      assert q[0] !in q[1..];
    }
  }

  /** The others keep their order. */
  lemma {:induction false} WithoutBetween<T>(a: seq<T>, x: T, b: seq<T>)
    requires x !in a && x !in b
    ensures Without(a + [x] + b, x) == a + b
  {
    if a == [] {
      assert ([] + [x] + b)[1..] == b;
      WithoutNone(b, x);
    } else {
      assert (a + [x] + b)[1..] == a[1..] + [x] + b && a == [a[0]] + a[1..];
      WithoutBetween(a[1..], x, b);
    }
  }

  lemma AppearsOnce<T>(a: seq<T>, x: T, b: seq<T>)
    requires Distinct(a + [x] + b)
    ensures x !in a && x !in b
  {
    var q := a + [x] + b;
    assert q[|a|] == x && forall i :: 0 <= i < |b| ==> q[|a| + 1 + i] == b[i];
    assert forall i :: 0 <= i < |a| ==> q[i] == a[i];
  }

  lemma {:induction false} WithoutNone<T>(q: seq<T>, x: T)
    requires x !in q
    ensures Without(q, x) == q
  {
    if q != [] { WithoutNone(q[1..], x); }
  }

  lemma Regroup<T>(a: seq<T>, b: seq<T>, c: seq<T>)
    ensures (a + b) + c == a + (b + c)
  {
  }
}
