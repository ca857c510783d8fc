/**
 Keyset paging over a sorted query result: the part that the intel and the actor listings
 share. `before` is the sort order.
 */
module Keyset {
  /** `before` is an order, and it separates any two entries of `s`; so no entry occurs twice. */
  ghost predicate Orders<T(!new)>(before: (T, T) -> bool, s: seq<T>) {
    && (forall a :: !before(a, a))
    && (forall a, b, c :: before(a, b) && before(b, c) ==> before(a, c))
    && (forall i, j :: 0 <= i < j < |s| ==> before(s[i], s[j]) || before(s[j], s[i]))
  }

  ghost predicate Ascending<T(!new)>(before: (T, T) -> bool, s: seq<T>) {
    forall i, j :: 0 <= i < j < |s| ==> before(s[i], s[j])
  }

  ghost predicate SameEntries<T(!new)>(s: seq<T>, t: seq<T>) {
    forall x :: x in s <==> x in t
  }

  /** The matching entries of a collection, in collection order. */
  function Where<T>(s: seq<T>, p: T -> bool): seq<T> {
    if s == [] then [] else (if p(s[0]) then [s[0]] else []) + Where(s[1..], p)
  }

  function Insert<T>(before: (T, T) -> bool, s: seq<T>, x: T): seq<T> {
    if s == [] || before(x, s[0]) then [x] + s else [s[0]] + Insert(before, s[1..], x)
  }

  /** The database's sort. */
  function Arrange<T>(before: (T, T) -> bool, s: seq<T>): seq<T> {
    if s == [] then [] else Insert(before, Arrange(before, s[1..]), s[0])
  }

  lemma {:induction false} WhereExact<T(!new)>(s: seq<T>, p: T -> bool)
    ensures forall x :: x in Where(s, p) <==> x in s && p(x)
  {
    if s != [] {
      WhereExact(s[1..], p);
      assert forall x :: x in s <==> x == s[0] || x in s[1..];
    }
  }

  lemma {:induction false} WhereOrders<T(!new)>(before: (T, T) -> bool, s: seq<T>, p: T -> bool)
    requires Orders(before, s)
    ensures Orders(before, Where(s, p))
  {
    if s != [] {
      WhereOrders(before, s[1..], p);
      WhereExact(s[1..], p);
      var w := Where(s[1..], p);
      if p(s[0]) {
        forall j | 0 <= j < |w| ensures before(s[0], w[j]) || before(w[j], s[0]) {
          assert w[j] in w;
          var k :| 0 <= k < |s[1..]| && s[1..][k] == w[j];
          assert s[k + 1] == w[j];
        }
      }
    }
  }

  lemma {:induction false} InsertExact<T(!new)>(before: (T, T) -> bool, s: seq<T>, x: T)
    requires Orders(before, [x] + s) && Ascending(before, s)
    ensures Ascending(before, Insert(before, s, x)) && |Insert(before, s, x)| == |s| + 1
    ensures forall y :: y in Insert(before, s, x) <==> y == x || y in s
  {
    if s == [] || before(x, s[0]) {
      forall j | 0 <= j < |s| ensures before(x, s[j]) {
        if j > 0 { assert before(s[0], s[j]); }
      }
      assert forall y :: y in [x] + s <==> y == x || y in s;
    } else {
      assert ([x] + s)[0] == x && ([x] + s)[1] == s[0];
      var rest := s[1..];
      forall i, j | 0 <= i < j < |[x] + rest|
        ensures before(([x] + rest)[i], ([x] + rest)[j]) || before(([x] + rest)[j], ([x] + rest)[i])
      {
        assert ([x] + rest)[j] == ([x] + s)[j + 1];
        assert ([x] + rest)[i] == ([x] + s)[if i == 0 then 0 else i + 1];
      }
      InsertExact(before, rest, x);
      var t := Insert(before, rest, x);
      assert forall y :: y in s <==> y == s[0] || y in rest;
      forall j | 0 <= j < |t| ensures before(s[0], t[j]) {
        assert t[j] in t;
        if t[j] != x {
          var k :| 0 <= k < |rest| && rest[k] == t[j];
          assert before(s[0], s[k + 1]);
        }
      }
      assert forall y :: y in [s[0]] + t <==> y == s[0] || y in t;
    }
  }

  lemma {:induction false} ArrangeExact<T(!new)>(before: (T, T) -> bool, s: seq<T>)
    requires Orders(before, s)
    ensures Ascending(before, Arrange(before, s)) && |Arrange(before, s)| == |s|
    ensures SameEntries(s, Arrange(before, s))
  {
    if s != [] {
      ArrangeExact(before, s[1..]);
      var t := Arrange(before, s[1..]);
      forall j | 0 <= j < |t| ensures before(s[0], t[j]) || before(t[j], s[0]) {
        assert t[j] in t;
        var k :| 0 <= k < |s[1..]| && s[1..][k] == t[j];
        assert s[k + 1] == t[j];
      }
      assert Orders(before, [s[0]] + t);
      InsertExact(before, t, s[0]);
      assert forall x :: x in s <==> x == s[0] || x in s[1..];
    }
  }

  lemma HasEntry<T>(s: seq<T>)
    requires s != []
    ensures exists x :: x in s
  {
    assert s[0] in s;
  }

  /** A set of entries has only one arrangement. */
  lemma {:induction false} ArrangementUnique<T(!new)>(before: (T, T) -> bool, s: seq<T>, t: seq<T>)
    requires Orders(before, []) && Ascending(before, s) && Ascending(before, t) && SameEntries(s, t)
    ensures s == t
  {
    if s == [] {
      if t != [] { HasEntry(t); }
    } else {
      assert s[0] in t;
      var j :| 0 <= j < |t| && t[j] == s[0];
      assert t[0] in s;
      var i :| 0 <= i < |s| && s[i] == t[0];
      assert s[0] == t[0];
      forall x ensures x in s[1..] <==> x in t[1..] {
        TailEntries(before, s, x);
        TailEntries(before, t, x);
      }
      ArrangementUnique(before, s[1..], t[1..]);
      assert s == [s[0]] + s[1..] && t == [t[0]] + t[1..];
    }
  }

  lemma TailEntries<T(!new)>(before: (T, T) -> bool, s: seq<T>, x: T)
    requires Orders(before, []) && Ascending(before, s) && s != []
    ensures x in s[1..] <==> x in s && x != s[0]
  {
    assert forall k :: 1 <= k < |s| ==> before(s[0], s[k]);
    if x in s && x != s[0] {
      var k :| 0 <= k < |s| && s[k] == x;
      assert s[1..][k - 1] == x;
    }
    if x in s[1..] {
      var k :| 0 <= k < |s[1..]| && s[1..][k] == x;
      assert s[k + 1] == x;
    }
  }

  lemma NotBeforeItself<T(!new)>(before: (T, T) -> bool, s: seq<T>, k: nat, i: nat)
    requires Orders(before, []) && Ascending(before, s) && k < |s| && i < |s|
    ensures before(s[i], s[k]) ==> i < k
  {
    if k < i { assert before(s[k], s[i]); }
  }

  /** What follows an entry in an arrangement is what comes after it in the order. */
  lemma SuffixEntries<T(!new)>(before: (T, T) -> bool, s: seq<T>, m: nat, x: T)
    requires Orders(before, []) && Ascending(before, s) && 1 <= m <= |s|
    ensures x in s[m..] <==> x in s && before(s[m - 1], x)
  {
    if x in s[m..] {
      var k :| 0 <= k < |s[m..]| && s[m..][k] == x;
      assert s[m + k] == x && before(s[m - 1], s[m + k]);
    }
    if x in s && before(s[m - 1], x) {
      var k :| 0 <= k < |s| && s[k] == x;
      NotBeforeItself(before, s, k, m - 1);
      assert s[m..][k - m] == x;
    }
  }

  /** Asking again for what matches and comes after the m-th entry gives the rest of the arrangement. */
  lemma RestOfArrangement<T(!new)>(before: (T, T) -> bool, s: seq<T>, p: T -> bool, q: T -> bool, m: nat)
    requires Orders(before, s)
    requires var all := Arrange(before, Where(s, p));
             1 <= m <= |all| && forall x :: x in s ==> (q(x) <==> p(x) && before(all[m - 1], x))
    ensures Arrange(before, Where(s, q)) == Arrange(before, Where(s, p))[m..]
  {
    var all, rest := Arrange(before, Where(s, p)), Arrange(before, Where(s, q));
    WhereOrders(before, s, p);
    WhereOrders(before, s, q);
    ArrangeExact(before, Where(s, p));
    ArrangeExact(before, Where(s, q));
    WhereExact(s, p);
    WhereExact(s, q);
    forall x ensures x in rest <==> x in all[m..] {
      SuffixEntries(before, all, m, x);
    }
    ArrangementUnique(before, rest, all[m..]);
  }

  /** Reading one more than the limit tells whether there is more; dropping it leaves the page. */
  lemma LimitPlusOne<T>(sorted: seq<T>, limit: nat)
    ensures var read := if |sorted| <= limit + 1 then sorted else sorted[..limit + 1];
            && (|read| > limit <==> |sorted| > limit)
            && (if |read| > limit then read[..|read| - 1] == sorted[..limit] else read == sorted)
  {
  }
}
