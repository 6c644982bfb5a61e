// The three orders the pipeline sorts by, and the stable sort it uses.
module Ordering {
  import opened Records

  /** Python's `<=` on str: code point by code point, a proper prefix first. */
  predicate LexLe(a: string, b: string)
  {
    a == [] || (b != [] && (a[0] < b[0] || (a[0] == b[0] && LexLe(a[1..], b[1..]))))
  }

  lemma {:induction false} LexLeTotal(a: string, b: string)
    ensures LexLe(a, b) || LexLe(b, a)
  {
    if a != [] && b != [] && a[0] == b[0] {
      LexLeTotal(a[1..], b[1..]);
    }
  }

  lemma {:induction false} LexLeAntisymmetric(a: string, b: string)
    requires LexLe(a, b) && LexLe(b, a)
    ensures a == b
  {
    if a != [] && b != [] {
      LexLeAntisymmetric(a[1..], b[1..]);
      assert a == [a[0]] + a[1..] && b == [b[0]] + b[1..];
    }
  }

  lemma {:induction false} LexLeTransitive(a: string, b: string, c: string)
    requires LexLe(a, b) && LexLe(b, c)
    ensures LexLe(a, c)
  {
    if a != [] && a[0] == b[0] && b[0] == c[0] {
      LexLeTransitive(a[1..], b[1..], c[1..]);
    }
  }

  /** The sort keys used by the source: `date` ascending, `date` descending
    * (`reverse=True`), and the tuple `(id, date)` ascending. */
  datatype SortKey = DateAscending | DateDescending | IdDateAscending

  /** `a` may stand before `b` under the key (the key of `a` is not greater). */
  predicate InOrder(key: SortKey, a: Record, b: Record)
  {
    match key
    case DateAscending => a.date <= b.date
    case DateDescending => a.date >= b.date
    case IdDateAscending =>
      (LexLe(a.id, b.id) && a.id != b.id) || (a.id == b.id && a.date <= b.date)
  }

  lemma InOrderTotal(key: SortKey, a: Record, b: Record)
    ensures InOrder(key, a, b) || InOrder(key, b, a)
  {
    LexLeTotal(a.id, b.id);
  }

  lemma InOrderTransitive(key: SortKey, a: Record, b: Record, c: Record)
    requires InOrder(key, a, b) && InOrder(key, b, c)
    ensures InOrder(key, a, c)
  {
    if key == IdDateAscending && a.id == c.id && a.id != b.id {
      LexLeAntisymmetric(a.id, b.id);
    } else if key == IdDateAscending && a.id != c.id {
      if a.id == b.id {
        assert LexLe(a.id, c.id);
      } else if b.id == c.id {
        assert LexLe(a.id, c.id);
      } else {
        LexLeTransitive(a.id, b.id, c.id);
        if LexLe(c.id, a.id) {
          LexLeTransitive(b.id, c.id, a.id);
          LexLeAntisymmetric(a.id, b.id);
        }
      }
    }
  }

  predicate Sorted(key: SortKey, s: seq<Record>)
  {
    forall i, j :: 0 <= i < j < |s| ==> InOrder(key, s[i], s[j])
  }

  /** Inserts `x` in front of the first element it may precede; ties keep `x`
    * in front, which is what makes `Sort` stable. */
  function Insert(key: SortKey, x: Record, s: seq<Record>): (r: seq<Record>)
    ensures multiset(r) == multiset(s) + multiset{x}
    ensures |r| == |s| + 1
  {
    if s == [] || InOrder(key, x, s[0]) then [x] + s
    else
      assert s == [s[0]] + s[1..];
      [s[0]] + Insert(key, x, s[1..])
  }

  /** Python's stable `sorted`: records with equal keys keep their input order. */
  function Sort(key: SortKey, s: seq<Record>): (r: seq<Record>)
    ensures multiset(r) == multiset(s)
    ensures |r| == |s|
  {
    if s == [] then []
    else
      assert s == [s[0]] + s[1..];
      Insert(key, s[0], Sort(key, s[1..]))
  }

  lemma {:induction false} InsertSorted(key: SortKey, x: Record, s: seq<Record>)
    requires Sorted(key, s)
    ensures Sorted(key, Insert(key, x, s))
  {
    if s == [] {
    } else if InOrder(key, x, s[0]) {
      forall j | 0 < j < |s|
        ensures InOrder(key, x, s[j])
      {
        InOrderTransitive(key, x, s[0], s[j]);
      }
    } else {
      InsertSorted(key, x, s[1..]);
      InOrderTotal(key, x, s[0]);
      var t := s[1..];
      forall j | 0 <= j < |t|
        ensures InOrder(key, s[0], t[j])
      {
        assert t[j] == s[j + 1];
      }
      InsertLowerBound(key, s[0], x, t);
      var r := Insert(key, x, s[1..]);
      assert forall j :: 0 <= j < |r| ==> InOrder(key, s[0], r[j]);
      assert Insert(key, x, s) == [s[0]] + r;
    }
  }

  /** A lower bound of `x` and of every element of `s` bounds every element
    * of the insertion. */
  lemma InsertLowerBound(key: SortKey, h: Record, x: Record, s: seq<Record>)
    requires InOrder(key, h, x)
    requires forall i :: 0 <= i < |s| ==> InOrder(key, h, s[i])
    ensures forall i :: 0 <= i < |s| + 1 ==> InOrder(key, h, Insert(key, x, s)[i])
  {
    var r := Insert(key, x, s);
    forall i | 0 <= i < |r|
      ensures InOrder(key, h, r[i])
    {
      assert r[i] in multiset(r);
      if r[i] != x {
        assert r[i] in multiset(s);
        var k :| 0 <= k < |s| && s[k] == r[i];
      }
    }
  }

  lemma {:induction false} SortSorted(key: SortKey, s: seq<Record>)
    ensures Sorted(key, Sort(key, s))
  {
    if s != [] {
      SortSorted(key, s[1..]);
      InsertSorted(key, s[0], Sort(key, s[1..]));
    }
  }

  /** An element that may precede nothing in a list is inserted at its end. */
  lemma {:induction false} InsertAtEnd(key: SortKey, x: Record, s: seq<Record>)
    requires forall i :: 0 <= i < |s| ==> !InOrder(key, x, s[i])
    ensures Insert(key, x, s) == s + [x]
  {
    if s != [] {
      assert !InOrder(key, x, s[0]);
      InsertAtEnd(key, x, s[1..]);
      assert Insert(key, x, s) == [s[0]] + (s[1..] + [x]);
      assert s == [s[0]] + s[1..];
    }
  }

  /** An element that may precede nothing else is sorted to the end. */
  lemma SortAtEnd(key: SortKey, x: Record, s: seq<Record>)
    requires forall i :: 0 <= i < |s| ==> !InOrder(key, x, s[i])
    ensures Sort(key, [x] + s) == Sort(key, s) + [x]
  {
    var r := Sort(key, s);
    forall i | 0 <= i < |r|
      ensures !InOrder(key, x, r[i])
    {
      assert r[i] in multiset(s);
      var k :| 0 <= k < |s| && s[k] == r[i];
    }
    InsertAtEnd(key, x, r);
    assert ([x] + s)[1..] == s;
  }
}
