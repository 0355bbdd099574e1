/** Stable sorting by a strict order, and when its result is the only one possible. */
module Sorting {
  /** Inserts after everything that is not greater. */
  function Insert<X>(s: seq<X>, x: X, less: (X, X) -> bool): seq<X> {
    if s == [] then [x]
    else if less(x, s[0]) then [x] + s
    else [s[0]] + Insert(s[1..], x, less)
  }

  function Sort<X>(s: seq<X>, less: (X, X) -> bool): seq<X> {
    if s == [] then [] else Insert(Sort(s[..|s| - 1], less), s[|s| - 1], less)
  }

  /** `less` puts any two different elements of `s` in one order and is transitive there. */
  ghost predicate StrictOn<X(!new)>(s: multiset<X>, less: (X, X) -> bool) {
    && (forall a, b :: a in s && b in s && less(a, b) ==> !less(b, a))
    && (forall a, b :: a in s && b in s && a != b ==> less(a, b) || less(b, a))
    && (forall a, b, c :: a in s && b in s && c in s && less(a, b) && less(b, c) ==> less(a, c))
  }

  ghost predicate Ascending<X>(s: seq<X>, less: (X, X) -> bool) {
    forall i, j :: 0 <= i < j < |s| ==> !less(s[j], s[i])
  }

  lemma {:induction false} InsertPermutes<X>(s: seq<X>, x: X, less: (X, X) -> bool)
    ensures multiset(Insert(s, x, less)) == multiset(s) + multiset{x}
  {
    if s != [] {
      if less(x, s[0]) {
        assert multiset([x] + s) == multiset([x]) + multiset(s);
      } else {
        InsertPermutes(s[1..], x, less);
        assert s == [s[0]] + s[1..];
      }
    }
  }

  lemma {:induction false} SortPermutes<X>(s: seq<X>, less: (X, X) -> bool)
    ensures multiset(Sort(s, less)) == multiset(s)
  {
    if s != [] {
      SortPermutes(s[..|s| - 1], less);
      InsertPermutes(Sort(s[..|s| - 1], less), s[|s| - 1], less);
      assert s == s[..|s| - 1] + [s[|s| - 1]];
    }
  }

  lemma {:induction false} ConsAscends<X>(head: X, rest: seq<X>, less: (X, X) -> bool)
    requires Ascending(rest, less) && forall j :: 0 <= j < |rest| ==> !less(rest[j], head)
    ensures Ascending([head] + rest, less)
  {
  }

  lemma {:induction false} BelowAll<X(!new)>(s: seq<X>, x: X, less: (X, X) -> bool)
    requires StrictOn(multiset(s) + multiset{x}, less) && Ascending(s, less)
    requires s != [] && less(x, s[0])
    ensures forall j :: 0 <= j < |s| ==> !less(s[j], x)
  {
    var all := multiset(s) + multiset{x};
    assert x in all && s[0] in all;
    forall j | 0 <= j < |s| ensures !less(s[j], x) {
      assert s[j] in all;
      assert j > 0 ==> !less(s[j], s[0]);
    }
  }

  lemma {:induction false} InsertAscends<X(!new)>(s: seq<X>, x: X, less: (X, X) -> bool)
    requires StrictOn(multiset(s) + multiset{x}, less) && Ascending(s, less)
    ensures Ascending(Insert(s, x, less), less)
  {
    hide StrictOn;
    if s != [] {
      if less(x, s[0]) {
        BelowAll(s, x, less);
        ConsAscends(x, s, less);
      } else {
        var rest := Insert(s[1..], x, less);
        assert s == [s[0]] + s[1..];
        StrictOnFewer(multiset(s) + multiset{x}, multiset(s[1..]) + multiset{x}, less);
        InsertAscends(s[1..], x, less);
        InsertPermutes(s[1..], x, less);
        forall j | 0 <= j < |rest| ensures !less(rest[j], s[0]) {
          assert rest[j] in multiset(rest);
          if rest[j] != x {
            assert rest[j] in s[1..];
            var k :| 0 <= k < |s[1..]| && s[1..][k] == rest[j];
            assert s[k + 1] == rest[j];
          }
        }
        ConsAscends(s[0], rest, less);
      }
    }
  }

  lemma {:induction false} StrictOnFewer<X(!new)>(more: multiset<X>, fewer: multiset<X>, less: (X, X) -> bool)
    requires StrictOn(more, less) && forall x :: x in fewer ==> x in more
    ensures StrictOn(fewer, less)
  {
  }

  lemma {:induction false} SortAscends<X(!new)>(s: seq<X>, less: (X, X) -> bool)
    requires StrictOn(multiset(s), less)
    ensures Ascending(Sort(s, less), less)
  {
    if s != [] {
      var init, x := s[..|s| - 1], s[|s| - 1];
      assert s == init + [x];
      StrictOnFewer(multiset(s), multiset(init), less);
      SortAscends(init, less);
      SortPermutes(init, less);
      assert multiset(Sort(init, less)) + multiset{x} == multiset(s);
      InsertAscends(Sort(init, less), x, less);
    }
  }

  /** `less` compares ranks: what it does not tell apart it tells apart from the same things. */
  ghost predicate Ranks<X(!new)>(less: (X, X) -> bool) {
    && (forall a, b :: less(a, b) ==> !less(b, a))
    && (forall a, b, c :: !less(a, b) && !less(b, c) ==> !less(a, c))
  }

  lemma {:induction false} InsertAscendsByRank<X(!new)>(s: seq<X>, x: X, less: (X, X) -> bool)
    requires Ranks(less) && Ascending(s, less)
    ensures Ascending(Insert(s, x, less), less)
    ensures forall y :: y in Insert(s, x, less) <==> y == x || y in s
  {
    if s != [] {
      if less(x, s[0]) {
        assert forall j :: 0 <= j < |s| ==> j == 0 || !less(s[j], s[0]);
        hide Ascending;
        InsertFirst(s, x, less);
      } else {
        var rest := Insert(s[1..], x, less);
        InsertAscendsByRank(s[1..], x, less);
        assert s == [s[0]] + s[1..];
        forall j | 0 <= j < |rest| ensures !less(rest[j], s[0]) {
          assert rest[j] in rest;
          if rest[j] != x {
            var i :| 0 <= i < |s[1..]| && s[1..][i] == rest[j];
            assert s[i + 1] == rest[j];
          }
        }
        ConsAscends(s[0], rest, less);
      }
    }
  }

  lemma {:induction false} InsertFirst<X(!new)>(s: seq<X>, x: X, less: (X, X) -> bool)
    requires Ranks(less) && Ascending(s, less) && s != [] && less(x, s[0])
    ensures Ascending([x] + s, less)
  {
    forall j | 0 <= j < |s| ensures !less(s[j], x) {
      assert !less(s[0], x);
      assert j > 0 ==> !less(s[j], s[0]);
    }
    ConsAscends(x, s, less);
  }

  /** Sorting by rank puts nothing behind what it outranks, ties or not. */
  lemma {:induction false} SortAscendsByRank<X(!new)>(s: seq<X>, less: (X, X) -> bool)
    requires Ranks(less)
    ensures Ascending(Sort(s, less), less)
  {
    hide Ranks, Ascending;
    if s == [] {
      NothingAscends(less);
    } else {
      SortAscendsByRank(s[..|s| - 1], less);
      InsertAscendsByRank(Sort(s[..|s| - 1], less), s[|s| - 1], less);
    }
  }

  lemma {:induction false} NothingAscends<X>(less: (X, X) -> bool)
    ensures Ascending([], less)
  {
  }

  lemma {:induction false} Tail<X>(s: seq<X>, less: (X, X) -> bool)
    requires s != [] && Ascending(s, less)
    ensures Ascending(s[1..], less)
    ensures multiset(s[1..]) == multiset(s) - multiset{s[0]}
  {
    assert s == [s[0]] + s[1..];
  }

  lemma {:induction false} EmptyMultiset<X>(a: seq<X>, b: seq<X>)
    requires multiset(a) == multiset(b)
    ensures |a| == |b|
  {
    assert |multiset(a)| == |a| && |multiset(b)| == |b|;
  }

  /** Two ascending arrangements of the same distinct elements are the same. */
  lemma {:induction false} AscendingIsUnique<X(!new)>(a: seq<X>, b: seq<X>, less: (X, X) -> bool)
    requires multiset(a) == multiset(b)
    requires StrictOn(multiset(a), less) && Ascending(a, less) && Ascending(b, less)
    ensures a == b
  {
    hide StrictOn, Ascending;
    EmptyMultiset(a, b);
    if a != [] {
      HeadsAgree(a, b, less);
      Tail(a, less);
      Tail(b, less);
      StrictOnFewer(multiset(a), multiset(a[1..]), less);
      AscendingIsUnique(a[1..], b[1..], less);
      assert a == [a[0]] + a[1..] && b == [b[0]] + b[1..];
    }
  }

  lemma {:induction false} HeadsAgree<X(!new)>(a: seq<X>, b: seq<X>, less: (X, X) -> bool)
    requires a != [] && b != [] && multiset(a) == multiset(b)
    requires StrictOn(multiset(a), less) && Ascending(a, less) && Ascending(b, less)
    ensures a[0] == b[0]
  {
    assert a[0] in multiset(b) && b[0] in multiset(a);
    var i :| 0 <= i < |b| && b[i] == a[0];
    var j :| 0 <= j < |a| && a[j] == b[0];
    assert i > 0 ==> !less(b[i], b[0]);
    assert j > 0 ==> !less(a[j], a[0]);
  }

  /** Sorting forgets the order of its input. */
  lemma {:induction false} SortIgnoresOrder<X(!new)>(a: seq<X>, b: seq<X>, less: (X, X) -> bool)
    requires multiset(a) == multiset(b) && StrictOn(multiset(a), less)
    ensures Sort(a, less) == Sort(b, less)
  {
    SortPermutes(a, less);
    SortPermutes(b, less);
    SortAscends(a, less);
    SortAscends(b, less);
    AscendingIsUnique(Sort(a, less), Sort(b, less), less);
  }

  // ---------------------------------------------------------------------------
  // Counting and mapping do not depend on order

  function CountIf<X>(s: seq<X>, p: X -> bool): nat {
    if s == [] then 0 else (if p(s[0]) then 1 else 0) + CountIf(s[1..], p)
  }

  function Map<X, Y>(s: seq<X>, f: X -> Y): (r: seq<Y>)
    ensures |r| == |s| && forall i :: 0 <= i < |s| ==> r[i] == f(s[i])
  {
    seq(|s|, i requires 0 <= i < |s| => f(s[i]))
  }

  lemma {:induction false} CountIfConcat<X>(a: seq<X>, b: seq<X>, p: X -> bool)
    ensures CountIf(a + b, p) == CountIf(a, p) + CountIf(b, p)
  {
    if a == [] {
      assert a + b == b;
    } else {
      CountIfConcat(a[1..], b, p);
      assert (a + b)[1..] == a[1..] + b;
    }
  }

  lemma {:induction false} CountIfAgree<X>(s: seq<X>, p: X -> bool, q: X -> bool)
    requires forall i :: 0 <= i < |s| ==> p(s[i]) == q(s[i])
    ensures CountIf(s, p) == CountIf(s, q)
  {
    if s != [] {
      CountIfAgree(s[1..], p, q);
    }
  }

  lemma {:induction false} CountIfNone<X>(s: seq<X>, p: X -> bool)
    requires forall i :: 0 <= i < |s| ==> !p(s[i])
    ensures CountIf(s, p) == 0
  {
    if s != [] {
      CountIfNone(s[1..], p);
    }
  }

  lemma {:induction false} Without<X>(s: seq<X>, i: nat)
    requires i < |s|
    ensures multiset(s[..i] + s[i + 1..]) == multiset(s) - multiset{s[i]}
    ensures s == s[..i] + [s[i]] + s[i + 1..]
  {
    assert s == s[..i] + [s[i]] + s[i + 1..];
    assert multiset(s) == multiset(s[..i]) + multiset{s[i]} + multiset(s[i + 1..]);
  }

  /** `b` without one occurrence of the head of `a`. */
  lemma {:induction false} FindHead<X>(a: seq<X>, b: seq<X>) returns (i: nat)
    requires a != [] && multiset(a) == multiset(b)
    ensures i < |b| && b[i] == a[0]
    ensures multiset(a[1..]) == multiset(b[..i] + b[i + 1..])
    ensures b == b[..i] + [a[0]] + b[i + 1..]
  {
    assert a[0] in multiset(b);
    i :| 0 <= i < |b| && b[i] == a[0];
    Without(a, 0);
    Without(b, i);
    assert a[..0] + a[0 + 1..] == a[1..];
  }

  lemma {:induction false} CountIfPermutes<X>(a: seq<X>, b: seq<X>, p: X -> bool)
    requires multiset(a) == multiset(b)
    ensures CountIf(a, p) == CountIf(b, p)
    decreases |a|
  {
    if a == [] {
      EmptyMultiset(a, b);
    } else {
      var i := FindHead(a, b);
      var rest := b[..i] + b[i + 1..];
      CountIfPermutes(a[1..], rest, p);
      CountIfConcat(b[..i], b[i + 1..], p);
      CountIfConcat(b[..i] + [a[0]], b[i + 1..], p);
      CountIfConcat(b[..i], [a[0]], p);
      assert [a[0]][1..] == [];
    }
  }

  lemma {:induction false} MapConcat<X, Y>(a: seq<X>, b: seq<X>, f: X -> Y)
    ensures Map(a + b, f) == Map(a, f) + Map(b, f)
  {
  }

  lemma {:induction false} MapPermutes<X, Y>(a: seq<X>, b: seq<X>, f: X -> Y)
    requires multiset(a) == multiset(b)
    ensures multiset(Map(a, f)) == multiset(Map(b, f))
    decreases |a|
  {
    hide Map;
    if a == [] {
      EmptyMultiset(a, b);
    } else {
      var i := FindHead(a, b);
      MapPermutes(a[1..], b[..i] + b[i + 1..], f);
      assert a == [a[0]] + a[1..];
      MapConcat([a[0]], a[1..], f);
      MapConcat(b[..i], b[i + 1..], f);
      MapConcat(b[..i] + [a[0]], b[i + 1..], f);
      MapConcat(b[..i], [a[0]], f);
    }
  }
}
