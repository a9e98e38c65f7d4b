/**
  Sort keys, the collation used to compare them, and a stable insertion sort.
  The store's `ORDER BY` is modelled by `SortBy`; rows with equal keys keep the
  order they were given in (SQL leaves that order unspecified).
 */
module Ordering {

  /** The value of one sortable column: text or an integer (timestamps included). */
  datatype Key = Text(s: string) | Number(n: int)

  /** Ascending or descending, as in `ORDER BY column ASC|DESC`. */
  datatype Direction = Ascending | Descending

  /** Code-point lexicographic order on strings (the "C" collation). */
  predicate LexLeq(a: string, b: string)
    decreases |a|
  {
    |a| == 0 || (|b| > 0 && (a[0] < b[0] || (a[0] == b[0] && LexLeq(a[1..], b[1..]))))
  }

  lemma {:induction false} LexLeqTotal(a: string, b: string)
    ensures LexLeq(a, b) || LexLeq(b, a)
    decreases |a|
  {
    if |a| > 0 && |b| > 0 && a[0] == b[0] {
      LexLeqTotal(a[1..], b[1..]);
    }
  }

  lemma {:induction false} LexLeqTransitive(a: string, b: string, c: string)
    requires LexLeq(a, b) && LexLeq(b, c)
    ensures LexLeq(a, c)
    decreases |a|
  {
    if |a| > 0 && a[0] == b[0] && b[0] == c[0] {
      LexLeqTransitive(a[1..], b[1..], c[1..]);
    }
  }

  /** Total preorder on keys; text sorts before numbers (never mixed within one column). */
  predicate KeyLeq(a: Key, b: Key) {
    match (a, b)
    case (Text(x), Text(y)) => LexLeq(x, y)
    case (Number(x), Number(y)) => x <= y
    case (Text(_), Number(_)) => true
    case (Number(_), Text(_)) => false
  }

  /** `a` may come before `b` in a result ordered in direction `d`. */
  predicate Before(d: Direction, a: Key, b: Key) {
    if d == Ascending then KeyLeq(a, b) else KeyLeq(b, a)
  }

  lemma BeforeTotal(d: Direction, a: Key, b: Key)
    ensures Before(d, a, b) || Before(d, b, a)
  {
    if a.Text? && b.Text? {
      LexLeqTotal(a.s, b.s);
    }
  }

  lemma BeforeTransitive(d: Direction, a: Key, b: Key, c: Key)
    requires Before(d, a, b) && Before(d, b, c)
    ensures Before(d, a, c)
  {
    if a.Text? && b.Text? && c.Text? {
      if d == Ascending {
        LexLeqTransitive(a.s, b.s, c.s);
      } else {
        LexLeqTransitive(c.s, b.s, a.s);
      }
    }
  }

  /** Every earlier element may precede every later one. */
  ghost predicate SortedBy<T>(s: seq<T>, key: T -> Key, d: Direction) {
    forall i, j :: 0 <= i < j < |s| ==> Before(d, key(s[i]), key(s[j]))
  }

  /** Inserts `x` in front of the first element it may precede. */
  function Insert<T>(x: T, s: seq<T>, key: T -> Key, d: Direction): (r: seq<T>)
    ensures multiset(r) == multiset(s) + multiset{x}
    ensures |r| == |s| + 1
  {
    if |s| == 0 then [x]
    else if Before(d, key(x), key(s[0])) then [x] + s
    else
      assert s == [s[0]] + s[1..];
      [s[0]] + Insert(x, s[1..], key, d)
  }

  /** An element that may precede every element of a sorted sequence can be put in front of it. */
  lemma ConsSorted<T>(h: T, t: seq<T>, key: T -> Key, d: Direction)
    requires SortedBy(t, key, d)
    requires forall i :: 0 <= i < |t| ==> Before(d, key(h), key(t[i]))
    ensures SortedBy([h] + t, key, d)
  {
  }

  lemma {:induction false} InsertSorted<T>(x: T, s: seq<T>, key: T -> Key, d: Direction)
    requires SortedBy(s, key, d)
    ensures SortedBy(Insert(x, s, key, d), key, d)
  {
    if |s| == 0 {
    } else if Before(d, key(x), key(s[0])) {
      forall i | 0 <= i < |s|
        ensures Before(d, key(x), key(s[i]))
      {
        if i > 0 {
          BeforeTransitive(d, key(x), key(s[0]), key(s[i]));
        }
      }
      ConsSorted(x, s, key, d);
    } else {
      var tail := s[1..];
      var t := Insert(x, tail, key, d);
      InsertSorted(x, tail, key, d);
      BeforeTotal(d, key(x), key(s[0]));
      forall i | 0 <= i < |t|
        ensures Before(d, key(s[0]), key(t[i]))
      {
        var y := t[i];
        assert y in multiset(t);
        if y != x {
          assert y in multiset(tail);
          var k :| 0 <= k < |tail| && tail[k] == y;
          assert s[k + 1] == y;
        }
      }
      ConsSorted(s[0], t, key, d);
    }
  }

  /** Stable insertion sort of `s` by `key` in direction `d`. */
  function SortBy<T>(s: seq<T>, key: T -> Key, d: Direction): (r: seq<T>)
    ensures multiset(r) == multiset(s)
    ensures |r| == |s|
  {
    if |s| == 0 then []
    else
      assert s == [s[0]] + s[1..];
      Insert(s[0], SortBy(s[1..], key, d), key, d)
  }

  lemma {:induction false} SortBySorted<T>(s: seq<T>, key: T -> Key, d: Direction)
    ensures SortedBy(SortBy(s, key, d), key, d)
  {
    if |s| > 0 {
      SortBySorted(s[1..], key, d);
      InsertSorted(s[0], SortBy(s[1..], key, d), key, d);
    }
  }

  lemma {:induction false} LeastElement(ks: set<int>) returns (m: int)
    requires ks != {}
    ensures m in ks && forall k :: k in ks ==> m <= k
    decreases |ks|
  {
    var x := PickElement(ks);
    var rest := ks - {x};
    if rest == {} {
      m := x;
      assert ks == {x};
    } else {
      var y := LeastElement(rest);
      m := if x < y then x else y;
      assert forall k :: k in ks ==> k == x || k in rest;
    }
  }

  lemma PickElement(ks: set<int>) returns (x: int)
    requires ks != {}
    ensures x in ks
  {
    if forall y :: y !in ks {
      assert false;
    }
    x :| x in ks;
  }

  lemma MinExists(ks: set<int>)
    requires ks != {}
    ensures exists m :: m in ks && forall k :: k in ks ==> m <= k
  {
    var m := LeastElement(ks);
  }

  /** The least element of a non-empty set. */
  function Min(ks: set<int>): (m: int)
    requires ks != {}
    ensures m in ks
    ensures forall k :: k in ks ==> m <= k
  {
    MinExists(ks);
    var m :| m in ks && forall k :: k in ks ==> m <= k;
    m
  }

  /** The keys of a table in ascending order: the model's fixed order for rows the sort leaves tied. */
  function IdsAscending(ks: set<int>): (r: seq<int>)
    ensures forall k :: k in r <==> k in ks
    ensures forall i :: 0 <= i < |r| ==> r[i] in ks
    ensures |r| == |ks|
    ensures forall i, j :: 0 <= i < j < |r| ==> r[i] < r[j]
    decreases |ks|
  {
    if ks == {} then []
    else
      var m := Min(ks);
      var rest := IdsAscending(ks - {m});
      PrependLeast(m, ks, rest);
      [m] + rest
  }

  /** Putting the least key in front of the ascending rest gives the ascending whole. */
  lemma PrependLeast(m: int, ks: set<int>, rest: seq<int>)
    requires m in ks && forall k :: k in ks ==> m <= k
    requires forall k :: k in rest <==> k in ks - {m}
    requires forall i :: 0 <= i < |rest| ==> rest[i] in ks - {m}
    requires |rest| == |ks - {m}|
    requires forall i, j :: 0 <= i < j < |rest| ==> rest[i] < rest[j]
    ensures forall k :: k in [m] + rest <==> k in ks
    ensures forall i :: 0 <= i < |[m] + rest| ==> ([m] + rest)[i] in ks
    ensures |[m] + rest| == |ks|
    ensures forall i, j :: 0 <= i < j < |[m] + rest| ==> ([m] + rest)[i] < ([m] + rest)[j]
  {
  }
}
