/** Stable sorting by a total preorder: the library sorts that the registry calls. */
module Sorting {

  ghost predicate TotalPreorder<T(!new)>(leq: (T, T) -> bool) {
    && (forall a, b :: leq(a, b) || leq(b, a))
    && (forall a, b, c :: leq(a, b) && leq(b, c) ==> leq(a, c))
  }

  ghost predicate Sorted<T>(leq: (T, T) -> bool, s: seq<T>) {
    forall i, j | 0 <= i < j < |s| :: leq(s[i], s[j])
  }

  /** Inserts x after every element that may stand before it. */
  function InsertInOrder<T>(leq: (T, T) -> bool, x: T, s: seq<T>): seq<T> {
    if s == [] then [x]
    else if leq(s[|s| - 1], x) then s + [x]
    else InsertInOrder(leq, x, s[..|s| - 1]) + [s[|s| - 1]]
  }

  function Sort<T>(leq: (T, T) -> bool, s: seq<T>): seq<T> {
    if s == [] then [] else InsertInOrder(leq, s[|s| - 1], Sort(leq, s[..|s| - 1]))
  }

  lemma {:induction false} InsertPermutes<T>(leq: (T, T) -> bool, x: T, s: seq<T>)
    ensures multiset(InsertInOrder(leq, x, s)) == multiset(s) + multiset{x}
  {
    if s != [] {
      InsertPermutes(leq, x, s[..|s| - 1]);
      assert s == s[..|s| - 1] + [s[|s| - 1]];
    }
  }

  lemma SameLength<T>(a: seq<T>, b: seq<T>)
    requires multiset(a) == multiset(b)
    ensures |a| == |b|
  {
    assert |a| == |multiset(a)| && |b| == |multiset(b)|;
  }

  lemma {:induction false} SortPermutes<T>(leq: (T, T) -> bool, s: seq<T>)
    ensures multiset(Sort(leq, s)) == multiset(s)
    ensures |Sort(leq, s)| == |s|
  {
    if s != [] {
      SortPermutes(leq, s[..|s| - 1]);
      InsertPermutes(leq, s[|s| - 1], Sort(leq, s[..|s| - 1]));
      assert s == s[..|s| - 1] + [s[|s| - 1]];
    }
    SameLength(Sort(leq, s), s);
  }

  lemma SameElements<T>(a: seq<T>, b: seq<T>, x: T)
    requires multiset(a) == multiset(b)
    ensures x in a <==> x in b
  {
    assert x in a <==> x in multiset(a);
    assert x in b <==> x in multiset(b);
  }

  lemma {:induction false} InsertSorts<T(!new)>(leq: (T, T) -> bool, x: T, s: seq<T>)
    requires TotalPreorder(leq) && Sorted(leq, s)
    ensures Sorted(leq, InsertInOrder(leq, x, s))
  {
    if s != [] && !leq(s[|s| - 1], x) {
      var front, last := s[..|s| - 1], s[|s| - 1];
      InsertSorts(leq, x, front);
      InsertPermutes(leq, x, front);
      var inner := InsertInOrder(leq, x, front);
      forall i | 0 <= i < |inner|
        ensures leq(inner[i], last)
      {
        assert inner[i] in multiset(inner);
        assert inner[i] == x || inner[i] in front;
      }
    } else if s != [] {
      forall i | 0 <= i < |s|
        ensures leq(s[i], x)
      {
        assert leq(s[i], s[|s| - 1]);
      }
    }
  }

  lemma {:induction false} SortSorts<T(!new)>(leq: (T, T) -> bool, s: seq<T>)
    requires TotalPreorder(leq)
    ensures Sorted(leq, Sort(leq, s))
  {
    if s != [] {
      SortSorts(leq, s[..|s| - 1]);
      InsertSorts(leq, s[|s| - 1], Sort(leq, s[..|s| - 1]));
    }
  }

  /** The elements that tie with x, in order. */
  function Tied<T>(leq: (T, T) -> bool, x: T, s: seq<T>): seq<T> {
    if s == [] then []
    else
      var rest, last := Tied(leq, x, s[..|s| - 1]), s[|s| - 1];
      if leq(last, x) && leq(x, last) then rest + [last] else rest
  }

  lemma TiedOneMore<T>(leq: (T, T) -> bool, x: T, s: seq<T>, y: T)
    ensures Tied(leq, x, s + [y]) == Tied(leq, x, s) + if leq(y, x) && leq(x, y) then [y] else []
  {
    assert (s + [y])[..|s|] == s;
    assert Tied(leq, x, s) + [] == Tied(leq, x, s);
  }

  lemma {:induction false} InsertKeepsTies<T(!new)>(leq: (T, T) -> bool, x: T, y: T, s: seq<T>)
    requires TotalPreorder(leq)
    ensures Tied(leq, x, InsertInOrder(leq, y, s)) == Tied(leq, x, s) + if leq(y, x) && leq(x, y) then [y] else []
  {
    TiedOneMore(leq, x, s, y);
    if s != [] && !leq(s[|s| - 1], y) {
      var front, last := s[..|s| - 1], s[|s| - 1];
      InsertKeepsTies(leq, x, y, front);
      TiedOneMore(leq, x, InsertInOrder(leq, y, front), last);
      assert leq(last, x) && leq(x, y) ==> leq(last, y);
    }
  }

  /** The sort is stable: what ties stays in its order. */
  lemma {:induction false} SortKeepsTies<T(!new)>(leq: (T, T) -> bool, x: T, s: seq<T>)
    requires TotalPreorder(leq)
    ensures Tied(leq, x, Sort(leq, s)) == Tied(leq, x, s)
  {
    if s != [] {
      var front, last := s[..|s| - 1], s[|s| - 1];
      SortKeepsTies(leq, x, front);
      InsertKeepsTies(leq, x, last, Sort(leq, front));
      assert s == front + [last];
      TiedOneMore(leq, x, front, last);
    }
  }

  // ---------------------------------------------------------------- mapping

  function Map<A, B>(f: A -> B, s: seq<A>): (r: seq<B>)
    ensures |r| == |s| && forall i | 0 <= i < |s| :: r[i] == f(s[i])
  {
    seq(|s|, i requires 0 <= i < |s| => f(s[i]))
  }

  lemma {:induction false} InsertMap<A(!new), B>(leqA: (A, A) -> bool, leqB: (B, B) -> bool, f: A -> B, x: A, s: seq<A>)
    requires forall a, b :: leqA(a, b) == leqB(f(a), f(b))
    ensures Map(f, InsertInOrder(leqA, x, s)) == InsertInOrder(leqB, f(x), Map(f, s))
  {
    if s != [] && !leqA(s[|s| - 1], x) {
      InsertMap(leqA, leqB, f, x, s[..|s| - 1]);
      assert Map(f, s)[..|s| - 1] == Map(f, s[..|s| - 1]);
    }
  }

  lemma MapOneMore<A, B>(f: A -> B, s: seq<A>, x: A)
    ensures Map(f, s + [x]) == Map(f, s) + [f(x)]
  {
  }

  lemma {:induction false} InsertPermutesMapped<A, B>(leq: (A, A) -> bool, f: A -> B, x: A, s: seq<A>)
    ensures multiset(Map(f, InsertInOrder(leq, x, s))) == multiset(Map(f, s)) + multiset{f(x)}
  {
    if s == [] {
    } else if leq(s[|s| - 1], x) {
      MapOneMore(f, s, x);
    } else {
      var front, last := s[..|s| - 1], s[|s| - 1];
      assert s == front + [last];
      InsertPermutesMapped(leq, f, x, front);
      MapOneMore(f, front, last);
      MapOneMore(f, InsertInOrder(leq, x, front), last);
    }
  }

  lemma {:induction false} SortPermutesMapped<A, B>(leq: (A, A) -> bool, f: A -> B, s: seq<A>)
    ensures multiset(Map(f, Sort(leq, s))) == multiset(Map(f, s))
  {
    if s != [] {
      var front, last := s[..|s| - 1], s[|s| - 1];
      assert s == front + [last];
      SortPermutesMapped(leq, f, front);
      InsertPermutesMapped(leq, f, last, Sort(leq, front));
      MapOneMore(f, front, last);
    }
  }

  /** Sorting looks at nothing but the order of the keys. */
  lemma {:induction false} SortMap<A(!new), B>(leqA: (A, A) -> bool, leqB: (B, B) -> bool, f: A -> B, s: seq<A>)
    requires forall a, b :: leqA(a, b) == leqB(f(a), f(b))
    ensures Map(f, Sort(leqA, s)) == Sort(leqB, Map(f, s))
  {
    if s != [] {
      SortMap(leqA, leqB, f, s[..|s| - 1]);
      InsertMap(leqA, leqB, f, s[|s| - 1], Sort(leqA, s[..|s| - 1]));
      assert Map(f, s)[..|s| - 1] == Map(f, s[..|s| - 1]);
    }
  }

  // ---------------------------------------------------------------- uniqueness

  lemma LastsAgree<T(!new)>(leq: (T, T) -> bool, a: seq<T>, b: seq<T>)
    requires a != [] && b != [] && TotalPreorder(leq) && Sorted(leq, a) && Sorted(leq, b)
    requires multiset(a) == multiset(b)
    ensures leq(a[|a| - 1], b[|b| - 1])
  {
    SameElements(a, b, a[|a| - 1]);
    var i :| 0 <= i < |b| && b[i] == a[|a| - 1];
    if i < |b| - 1 {
      assert leq(b[i], b[|b| - 1]);
    }
  }

  lemma SameFronts<T>(a: seq<T>, b: seq<T>)
    requires a != [] && b != [] && a[|a| - 1] == b[|b| - 1] && multiset(a) == multiset(b)
    ensures multiset(a[..|a| - 1]) == multiset(b[..|b| - 1])
  {
    AppendOne(a[..|a| - 1], a);
    AppendOne(b[..|b| - 1], b);
  }

  lemma AppendOne<T>(front: seq<T>, whole: seq<T>)
    requires whole != [] && front == whole[..|whole| - 1]
    ensures multiset(front) == multiset(whole) - multiset{whole[|whole| - 1]}
  {
    assert whole == front + [whole[|whole| - 1]];
  }

  ghost predicate NoTies<T>(leq: (T, T) -> bool, s: seq<T>) {
    forall i, j | 0 <= i < |s| && 0 <= j < |s| :: leq(s[i], s[j]) && leq(s[j], s[i]) ==> s[i] == s[j]
  }

  /** When no two elements tie, a sorted arrangement is the only one: the order in which a
      table happens to hold its rows cannot show through an ORDER BY. */
  lemma {:induction false} SortedUnique<T(!new)>(leq: (T, T) -> bool, a: seq<T>, b: seq<T>)
    requires TotalPreorder(leq) && Sorted(leq, a) && Sorted(leq, b)
    requires multiset(a) == multiset(b) && NoTies(leq, a)
    ensures a == b
  {
    assert |a| == |multiset(a)| == |multiset(b)| == |b|;
    if a != [] {
      var n := |a| - 1;
      LastsAgree(leq, a, b);
      LastsAgree(leq, b, a);
      SameElements(a, b, b[n]);
      var j :| 0 <= j < |a| && a[j] == b[n];
      assert a[n] == b[n];
      SameFronts(a, b);
      SortedUnique(leq, a[..n], b[..n]);
    }
  }

  // ---------------------------------------------------------------- duplicates

  ghost predicate Distinct<T>(s: seq<T>) {
    forall i, j | 0 <= i < j < |s| :: s[i] != s[j]
  }

  lemma DistinctByCount<T>(s: seq<T>)
    ensures (forall x | x in s :: multiset(s)[x] == 1) <==> Distinct(s)
  {
    if s != [] {
      var front, last := s[..|s| - 1], s[|s| - 1];
      assert s == front + [last];
      DistinctByCount(front);
      if forall x | x in s :: multiset(s)[x] == 1 {
        forall x | x in front ensures multiset(front)[x] == 1 {
          assert x in s && multiset(s)[x] >= multiset(front)[x];
        }
        assert multiset(s)[last] == multiset(front)[last] + 1;
        assert last !in front;
      }
      if Distinct(s) {
        assert forall i, j | 0 <= i < j < |front| :: s[i] != s[j];
        assert last !in front;
        forall x | x in s ensures multiset(s)[x] == 1 {
          assert x != last ==> x in front;
        }
      }
    }
  }

  lemma SortKeepsDistinct<T>(leq: (T, T) -> bool, s: seq<T>)
    requires Distinct(s)
    ensures Distinct(Sort(leq, s))
  {
    var r := Sort(leq, s);
    SortPermutes(leq, s);
    DistinctByCount(s);
    forall x | x in r ensures multiset(r)[x] == 1 { SameElements(r, s, x); }
    DistinctByCount(r);
  }

  /** Two lists without duplicates and with the same elements hold them equally often. */
  lemma DistinctSameElements<T>(a: seq<T>, b: seq<T>)
    requires Distinct(a) && Distinct(b)
    requires forall x :: x in a <==> x in b
    ensures multiset(a) == multiset(b)
  {
    DistinctByCount(a);
    DistinctByCount(b);
    forall x
      ensures multiset(a)[x] == multiset(b)[x]
    {
      assert x in a <==> x in multiset(a);
      assert x in b <==> x in multiset(b);
    }
  }

  // ---------------------------------------------------------------- strings

  /** Go's and Python's order of strings, by character. */
  predicate StringLeq(a: string, b: string) {
    a == "" || (b != "" && (a[0] < b[0] || (a[0] == b[0] && StringLeq(a[1..], b[1..]))))
  }

  lemma {:induction false} StringLeqTotal(a: string, b: string)
    ensures StringLeq(a, b) || StringLeq(b, a)
    ensures StringLeq(a, b) && StringLeq(b, a) ==> a == b
  {
    if a != "" && b != "" {
      StringLeqTotal(a[1..], b[1..]);
      assert a == [a[0]] + a[1..] && b == [b[0]] + b[1..];
    }
  }

  /** The shorter of two texts comes first when the other continues it; else the first difference
      decides. */
  lemma {:induction false} StringOrder(a: string, b: string)
    ensures StringLeq(a, b) <==>
            a <= b || exists k | 0 <= k < |a| && k < |b| :: a[..k] == b[..k] && a[k] < b[k]
  {
    if a != "" && b != "" {
      StringOrder(a[1..], b[1..]);
      if a <= b { assert a[1..] <= b[1..] && a[0] == b[0]; }
      if a[0] == b[0] && a[1..] <= b[1..] { assert a == [a[0]] + a[1..] && b == [b[0]] + b[1..]; }
      if k :| 0 <= k < |a| && k < |b| && a[..k] == b[..k] && a[k] < b[k] {
        if k > 0 {
          assert a[0] == a[..k][0] == b[..k][0] == b[0];
          assert a[1..][..k - 1] == a[..k][1..] == b[..k][1..] == b[1..][..k - 1];
        }
      }
      if a[0] < b[0] { assert a[..0] == b[..0]; }
      if a[0] == b[0] {
        if k :| 0 <= k < |a| - 1 && k < |b| - 1 && a[1..][..k] == b[1..][..k] && a[1..][k] < b[1..][k] {
          assert a[..k + 1] == [a[0]] + a[1..][..k] && b[..k + 1] == [b[0]] + b[1..][..k];
        }
      }
    }
  }

  lemma {:induction false} StringLeqTransitive(a: string, b: string, c: string)
    requires StringLeq(a, b) && StringLeq(b, c)
    ensures StringLeq(a, c)
  {
    if a != "" && b != "" && c != "" && a[0] == b[0] == c[0] {
      StringLeqTransitive(a[1..], b[1..], c[1..]);
    }
  }

  lemma StringsArePreordered()
    ensures TotalPreorder(StringLeq)
  {
    forall a, b ensures StringLeq(a, b) || StringLeq(b, a) { StringLeqTotal(a, b); }
    forall a, b, c | StringLeq(a, b) && StringLeq(b, c) ensures StringLeq(a, c) { StringLeqTransitive(a, b, c); }
  }
}
