// The per-instrument adjuster: from one instrument's raw records to the
// back-adjusted ("adjusted close") series.
module Adjuster {
  import opened Records
  import opened Ordering

  /** Stands in for a missing or zero previous close, so that the division
    * never fails. */
  const Epsilon: real := 0.000000001

  /** `close if close else 0.0` */
  function CloseOrZero(close: Option<real>): real
  {
    if Truthy(close) then close.value else 0.0
  }

  /** `yesterday if yesterday else 1e-9` */
  function YesterdayOrEpsilon(yesterday: Option<real>): (y: real)
    ensures y != 0.0
  {
    if Truthy(yesterday) then yesterday.value else Epsilon
  }

  /** The single-day return of a record: its close over its previous close. */
  function Ret(rec: Record): real
  {
    CloseOrZero(rec.close) / YesterdayOrEpsilon(rec.yesterday)
  }

  /** What a return means: it times the previous close (or the epsilon) gives
    * the close (or 0.0); it is zero exactly when the close is missing or zero;
    * a missing or zero previous close multiplies the close by 10^9. */
  lemma RetMeaning(rec: Record)
    ensures Ret(rec) * YesterdayOrEpsilon(rec.yesterday) == CloseOrZero(rec.close)
    ensures Ret(rec) == 0.0 <==> !Truthy(rec.close)
    ensures !Truthy(rec.yesterday) ==> Ret(rec) == CloseOrZero(rec.close) * 1000000000.0
  {
  }

  /** The anchor of the series: the close of the most recent record. */
  function Latest(desc: seq<Record>): real
    requires |desc| > 0
  {
    CloseOrZero(desc[0].close)
  }

  /** The single-day returns of the records, in the order given. */
  function Returns(desc: seq<Record>): (rets: seq<real>)
  {
    seq(|desc|, i requires 0 <= i < |desc| => Ret(desc[i]))
  }

  /** The product of the first `k` returns; the cumulative product stored at
    * descending index `k` is `RunProd(rets, k + 1)`. */
  function RunProd(rets: seq<real>, k: nat): real
    requires k <= |rets|
  {
    if k == 0 then 1.0 else RunProd(rets, k - 1) * rets[k - 1]
  }

  /** The product of the returns at indices `i` up to `j - 1`. */
  function RangeProd(rets: seq<real>, i: nat, j: nat): real
    requires i <= j <= |rets|
    decreases j - i
  {
    if i == j then 1.0 else RangeProd(rets, i, j - 1) * rets[j - 1]
  }

  /** The adjusted price computed for descending index `k` before the shift:
    * the anchor over the cumulative product, or 0.0 where that is zero. */
  function Unshifted(latest: real, rets: seq<real>, k: nat): real
    requires k < |rets|
  {
    if RunProd(rets, k + 1) == 0.0 then 0.0 else latest / RunProd(rets, k + 1)
  }

  /** The adjusted price at descending index `k` after the shift: the anchor at
    * index 0, the unshifted value of the next more recent record elsewhere. */
  function AdjPriceAt(latest: real, rets: seq<real>, k: nat): real
    requires k < |rets|
  {
    if k == 0 then latest else Unshifted(latest, rets, k - 1)
  }

  /** Descending index `k` after the first pass: `ret` and `cumprod` written. */
  function WithReturn(desc: seq<Record>, k: nat): Record
    requires k < |desc|
  {
    desc[k].(ret := Some(Ret(desc[k])), cumprod := Some(RunProd(Returns(desc), k + 1)))
  }

  /** Descending index `k` after the write-back: all three keys written. */
  function WithAdjPrice(desc: seq<Record>, k: nat): Record
    requires k < |desc|
  {
    WithReturn(desc, k).(adjPrice := Some(AdjPriceAt(Latest(desc), Returns(desc), k)))
  }

  /** The records in descending date order with the three keys written. */
  function Annotated(desc: seq<Record>): seq<Record>
    requires |desc| > 0
  {
    seq(|desc|, k requires 0 <= k < |desc| => WithAdjPrice(desc, k))
  }

  /** What the adjuster returns for one instrument's records. */
  function AdjustedGroup(records: seq<Record>): seq<Record>
    requires |records| > 0
  {
    Sort(DateAscending, Annotated(Sort(DateDescending, records)))
  }

  /** The adjuster itself: descending sort, one pass for the returns and the
    * running product, one for the unshifted prices, the in-place shift, the
    * write-back and the ascending sort. The record dicts it mutates are the
    * array `recs`; `adjPrices` is the list it shifts in place. */
  method AdjPriceCalculator(records: seq<Record>) returns (recordsAsc: seq<Record>)
    requires |records| > 0
    ensures recordsAsc == AdjustedGroup(records)
    ensures |recordsAsc| == |records| && Sorted(DateAscending, recordsAsc)
    ensures multiset(Bases(recordsAsc)) == multiset(Bases(records))
  {
    var recordsDesc := Sort(DateDescending, records);
    var n := |recordsDesc|;
    var recs := new Record[n](i requires 0 <= i < n => recordsDesc[i]);
    var latestClosePrice := CloseOrZero(recs[0].close);
    ComputeReturns(recs, recordsDesc);
    var adjPrices := ComputeAdjPrices(recs, latestClosePrice, recordsDesc);
    Shift(adjPrices, latestClosePrice);
    AssignBack(recs, adjPrices);
    forall k | 0 <= k < n
      ensures recs[k] == Annotated(recordsDesc)[k]
    {
      assert adjPrices[k] == AdjPriceAt(Latest(recordsDesc), Returns(recordsDesc), k);
    }
    assert recs[..] == Annotated(recordsDesc);
    recordsAsc := Sort(DateAscending, recs[..]);
    AdjustedGroupShape(records);
  }

  /** First pass, most recent record first: write each record's return and
    * the running product of the returns so far. */
  method ComputeReturns(recs: array<Record>, ghost desc: seq<Record>)
    requires recs[..] == desc
    modifies recs
    ensures forall k :: 0 <= k < recs.Length ==> recs[k] == WithReturn(desc, k)
  {
    var cumprodValue := 1.0;
    var idx := 0;
    while idx < recs.Length
      invariant 0 <= idx <= recs.Length
      invariant cumprodValue == RunProd(Returns(desc), idx)
      invariant forall k :: 0 <= k < idx ==> recs[k] == WithReturn(desc, k)
      invariant forall k :: idx <= k < recs.Length ==> recs[k] == desc[k]
    {
      var rec := recs[idx];
      var closePrice := CloseOrZero(rec.close);
      var yesterdayPrice := YesterdayOrEpsilon(rec.yesterday);
      var ret := closePrice / yesterdayPrice;
      assert ret == Returns(desc)[idx];
      cumprodValue := cumprodValue * ret;
      assert cumprodValue == RunProd(Returns(desc), idx + 1);
      recs[idx] := rec.(ret := Some(ret), cumprod := Some(cumprodValue));
      idx := idx + 1;
    }
  }

  /** The unshifted adjusted prices: the anchor over each cumulative product,
    * or 0.0 where that product is zero. */
  method ComputeAdjPrices(recs: array<Record>, latestClosePrice: real, ghost desc: seq<Record>)
    returns (adjPrices: array<real>)
    requires |desc| == recs.Length > 0
    requires latestClosePrice == Latest(desc)
    requires forall k :: 0 <= k < recs.Length ==> recs[k] == WithReturn(desc, k)
    ensures fresh(adjPrices) && adjPrices.Length == recs.Length
    ensures forall k :: 0 <= k < adjPrices.Length ==> adjPrices[k] == Unshifted(latestClosePrice, Returns(desc), k)
  {
    adjPrices := new real[recs.Length];
    var j := 0;
    while j < recs.Length
      invariant 0 <= j <= recs.Length
      invariant forall k :: 0 <= k < j ==> adjPrices[k] == Unshifted(latestClosePrice, Returns(desc), k)
    {
      var cumprod := recs[j].cumprod.value;
      if cumprod == 0.0 {
        adjPrices[j] := 0.0;
      } else {
        adjPrices[j] := latestClosePrice / cumprod;
      }
      j := j + 1;
    }
  }

  /** Moves every price one slot toward the past, in place, and puts the
    * anchor in the freed slot 0. */
  method Shift(adjPrices: array<real>, latestClosePrice: real)
    requires adjPrices.Length > 0
    modifies adjPrices
    ensures adjPrices[0] == latestClosePrice
    ensures forall k :: 0 < k < adjPrices.Length ==> adjPrices[k] == old(adjPrices[k - 1])
  {
    var i := adjPrices.Length - 1;
    while i > 0
      invariant 0 <= i <= adjPrices.Length - 1
      invariant forall k :: 0 <= k <= i ==> adjPrices[k] == old(adjPrices[k])
      invariant forall k :: i < k < adjPrices.Length ==> adjPrices[k] == old(adjPrices[k - 1])
    {
      adjPrices[i] := adjPrices[i - 1];
      i := i - 1;
    }
    adjPrices[0] := latestClosePrice;
  }

  /** Writes each shifted price into the record at the same position. */
  method AssignBack(recs: array<Record>, adjPrices: array<real>)
    requires recs.Length == adjPrices.Length
    modifies recs
    ensures forall k :: 0 <= k < recs.Length ==> recs[k] == old(recs[k]).(adjPrice := Some(adjPrices[k]))
  {
    var m := 0;
    while m < recs.Length
      invariant 0 <= m <= recs.Length
      invariant forall k :: 0 <= k < m ==> recs[k] == old(recs[k]).(adjPrice := Some(adjPrices[k]))
      invariant forall k :: m <= k < recs.Length ==> recs[k] == old(recs[k])
    {
      recs[m] := recs[m].(adjPrice := Some(adjPrices[m]));
      m := m + 1;
    }
  }

  /** The adjuster returns exactly its input records, ascending by date, with
    * only the three adjuster-owned keys changed. */
  lemma AdjustedGroupShape(records: seq<Record>)
    requires |records| > 0
    ensures |AdjustedGroup(records)| == |records|
    ensures Sorted(DateAscending, AdjustedGroup(records))
    ensures multiset(Bases(AdjustedGroup(records))) == multiset(Bases(records))
  {
    var desc := Sort(DateDescending, records);
    var annotated := Annotated(desc);
    SortSorted(DateAscending, annotated);
    assert Bases(annotated) == Bases(desc);
    BasesPermutation(Sort(DateAscending, annotated), annotated);
    BasesPermutation(desc, records);
  }

  /** The running product is zero exactly when one of the returns so far is. */
  lemma {:induction false} RunProdZero(rets: seq<real>, k: nat)
    requires k <= |rets|
    ensures RunProd(rets, k) == 0.0 <==> exists i :: 0 <= i < k && rets[i] == 0.0
  {
    if k > 0 {
      RunProdZero(rets, k - 1);
    }
  }

  /** Older than a record with a missing or zero close, every adjusted price
    * is 0.0. */
  lemma ZeroCloseZeroesThePast(desc: seq<Record>, i: nat, j: nat)
    requires i < j < |desc|
    requires !Truthy(desc[i].close)
    ensures AdjPriceAt(Latest(desc), Returns(desc), j) == 0.0
  {
    RetMeaning(desc[i]);
    assert Returns(desc)[i] == 0.0;
    RunProdZero(Returns(desc), j);
  }

  /** Between consecutive days, the adjusted prices differ by exactly the more
    * recent day's return: the price at descending index `k` times the return
    * at `k - 1` is the price at `k - 1`. */
  lemma ConsecutiveRatio(latest: real, rets: seq<real>, k: nat)
    requires 0 < k < |rets|
    requires RunProd(rets, k) != 0.0
    ensures AdjPriceAt(latest, rets, k) * rets[k - 1] == AdjPriceAt(latest, rets, k - 1)
  {
    var p, r := RunProd(rets, k - 1), rets[k - 1];
    assert RunProd(rets, k) == p * r;
    assert AdjPriceAt(latest, rets, k) == latest / (p * r);
    QuotientStep(latest, p, r);
    if k == 1 {
      assert p == 1.0;
    } else {
      assert AdjPriceAt(latest, rets, k - 1) == latest / p;
    }
  }

  /** The running product up to `j` is the one up to `i` times the returns
    * in between. */
  lemma {:induction false} RunProdSplit(rets: seq<real>, i: nat, j: nat)
    requires i <= j <= |rets|
    ensures RunProd(rets, j) == RunProd(rets, i) * RangeProd(rets, i, j)
    decreases j - i
  {
    if i < j {
      RunProdSplit(rets, i, j - 1);
      Regroup(RunProd(rets, i), RangeProd(rets, i, j - 1), rets[j - 1],
              RunProd(rets, j - 1), RangeProd(rets, i, j), RunProd(rets, j));
    }
  }

  /** Wherever the running product is non-zero, the adjusted price times it
    * gives back the anchor. */
  lemma AdjPriceTimesRunProd(latest: real, rets: seq<real>, k: nat)
    requires k < |rets|
    requires RunProd(rets, k) != 0.0
    ensures AdjPriceAt(latest, rets, k) * RunProd(rets, k) == latest
  {
    if k > 0 {
      assert AdjPriceAt(latest, rets, k) == latest / RunProd(rets, k);
      QuotientTimes(latest, RunProd(rets, k));
    }
  }

  /** The ratio of any two adjusted prices is the compounded return between
    * the two days: the returns of the more recent day and of every day in
    * between. */
  lemma AdjustedRatio(latest: real, rets: seq<real>, i: nat, j: nat)
    requires i <= j < |rets|
    requires RunProd(rets, j) != 0.0
    ensures AdjPriceAt(latest, rets, j) * RangeProd(rets, i, j) == AdjPriceAt(latest, rets, i)
  {
    RunProdSplit(rets, i, j);
    NonzeroFactors(RunProd(rets, i), RangeProd(rets, i, j));
    AdjPriceTimesRunProd(latest, rets, i);
    AdjPriceTimesRunProd(latest, rets, j);
    Cancel(AdjPriceAt(latest, rets, j), AdjPriceAt(latest, rets, i), RunProd(rets, i), RunProd(rets, j),
           RangeProd(rets, i, j), latest);
  }

  /** The ratio property on the annotated records themselves: each record
    * carries its own return, the running product down to it, and an adjusted
    * price that times the compounded returns between two days gives the more
    * recent day's adjusted price. */
  lemma AnnotatedRatio(desc: seq<Record>, i: nat, j: nat)
    requires i <= j < |desc|
    requires RunProd(Returns(desc), j) != 0.0
    ensures var a, rets := Annotated(desc), Returns(desc);
      a[i].ret == Some(rets[i]) && a[j].cumprod == Some(RunProd(rets, j + 1)) &&
      a[i].adjPrice.Some? && a[j].adjPrice.Some? &&
      a[j].adjPrice.value * RangeProd(rets, i, j) == a[i].adjPrice.value
  {
    var a, rets := Annotated(desc), Returns(desc);
    assert a[i] == WithAdjPrice(desc, i) && a[j] == WithAdjPrice(desc, j);
    AdjustedRatio(Latest(desc), rets, i, j);
  }

  lemma NonzeroFactors(x: real, y: real)
    requires x * y != 0.0
    ensures x != 0.0 && y != 0.0
  {
  }

  lemma QuotientStep(latest: real, p: real, r: real)
    requires p * r != 0.0
    ensures p != 0.0
    ensures (latest / (p * r)) * r == latest / p
  {
    var q := latest / (p * r);
    assert q * (p * r) == latest;
    assert (q * r) * p == latest;
  }

  lemma QuotientTimes(x: real, y: real)
    requires y != 0.0
    ensures (x / y) * y == x
  {
  }

  lemma Regroup(x: real, y: real, z: real, xy: real, yz: real, xyz: real)
    requires xy == x * y && yz == y * z && xyz == xy * z
    ensures xyz == x * yz
  {
  }

  lemma Cancel(aj: real, ai: real, pi: real, pj: real, r: real, l: real)
    requires pj == pi * r && pi != 0.0
    requires aj * pj == l && ai * pi == l
    ensures aj * r == ai
  {
    assert (aj * r) * pi == ai * pi;
  }

  predicate DistinctDates(s: seq<Record>)
  {
    forall i, j :: 0 <= i < j < |s| ==> s[i].date != s[j].date
  }

  lemma OccursTwice(s: seq<Record>, x: Record)
    requires multiset(s)[x] >= 2
    ensures exists i, j :: 0 <= i < j < |s| && s[i] == x && s[j] == x
  {
    assert x in multiset(s);
    var a :| 0 <= a < |s| && s[a] == x;
    var before, after := s[..a], s[a + 1..];
    assert s == before + [x] + after;
    assert multiset(s)[x] == multiset(before)[x] + 1 + multiset(after)[x];
    if x in multiset(before) {
      var b :| 0 <= b < |before| && before[b] == x;
      assert s[b] == x;
    } else {
      assert x in multiset(after);
      var b :| 0 <= b < |after| && after[b] == x;
      assert s[a + 1 + b] == x;
    }
  }

  /** Distinct dates survive reordering. */
  lemma DistinctDatesPermutation(s: seq<Record>, t: seq<Record>)
    requires multiset(s) == multiset(t)
    requires DistinctDates(s)
    ensures DistinctDates(t)
  {
    forall i, j | 0 <= i < j < |t|
      ensures t[i].date != t[j].date
    {
      if t[i] == t[j] {
        assert t == t[..j] + t[j..];
        assert t[i] in multiset(t[..j]) && t[j] in multiset(t[j..]);
        assert multiset(t)[t[i]] == multiset(t[..j])[t[i]] + multiset(t[j..])[t[i]];
        OccursTwice(s, t[i]);
      } else {
        assert t[i] in multiset(s) && t[j] in multiset(s);
      }
    }
  }

  /** With distinct dates, every record but the most recent one lies
    * strictly before it. */
  lemma LatestIsUnique(records: seq<Record>)
    requires |records| > 0
    requires DistinctDates(records)
    ensures var desc := Sort(DateDescending, records);
      (forall k :: 0 < k < |desc| ==> desc[k].date < desc[0].date) &&
      (forall r :: r in records ==> r.date <= desc[0].date)
  {
    var desc := Sort(DateDescending, records);
    SortSorted(DateDescending, records);
    DistinctDatesPermutation(records, desc);
    assert forall k :: 0 < k < |desc| ==> InOrder(DateDescending, desc[0], desc[k]);
    forall r | r in records
      ensures r.date <= desc[0].date
    {
      assert r in multiset(desc);
      var k :| 0 <= k < |desc| && desc[k] == r;
      assert k == 0 || InOrder(DateDescending, desc[0], desc[k]);
    }
  }

  /** With distinct dates, every annotated record after the first one is
    * strictly older than it. */
  lemma TailIsOlder(records: seq<Record>, a: seq<Record>)
    requires |records| > 0
    requires DistinctDates(records)
    requires a == Annotated(Sort(DateDescending, records))
    ensures forall k :: 1 <= k < |a| ==> a[k].date < a[0].date
  {
    var desc := Sort(DateDescending, records);
    LatestIsUnique(records);
    forall k | 1 <= k < |a|
      ensures a[k].date < a[0].date
    {
      assert a[k] == WithAdjPrice(desc, k);
      assert a[0] == WithAdjPrice(desc, 0);
    }
  }

  /** With distinct dates, the ascending sort puts the most recent record,
    * annotated, last. */
  lemma AnchorGoesLast(records: seq<Record>)
    requires |records| > 0
    requires DistinctDates(records)
    ensures var out := AdjustedGroup(records);
      |out| > 0 && out[|out| - 1] == Annotated(Sort(DateDescending, records))[0]
  {
    var a := Annotated(Sort(DateDescending, records));
    var tail := a[1..];
    TailIsOlder(records, a);
    forall i | 0 <= i < |tail|
      ensures !InOrder(DateAscending, a[0], tail[i])
    {
      assert tail[i] == a[i + 1];
    }
    assert a == [a[0]] + tail;
    SortAtEnd(DateAscending, a[0], tail);
  }

  /** With distinct dates, the last record of the adjuster's output is the most
    * recent one and its adjusted price is its own close (0.0 if that close is
    * missing or zero). */
  lemma AnchorIsLatest(records: seq<Record>)
    requires |records| > 0
    requires DistinctDates(records)
    ensures var out := AdjustedGroup(records);
      |out| == |records| &&
      (forall r :: r in records ==> r.date <= out[|out| - 1].date) &&
      out[|out| - 1].adjPrice == Some(CloseOrZero(out[|out| - 1].close))
  {
    var desc := Sort(DateDescending, records);
    AnchorGoesLast(records);
    var anchor := Annotated(desc)[0];
    assert anchor == WithAdjPrice(desc, 0);
    assert anchor.date == desc[0].date && anchor.close == desc[0].close;
    assert anchor.adjPrice == Some(CloseOrZero(desc[0].close));
    LatestIsUnique(records);
  }

  lemma SortPair(key: SortKey, x: Record, y: Record)
    ensures Sort(key, [x, y]) == if InOrder(key, x, y) then [x, y] else [y, x]
  {
    assert [y][1..] == [];
    assert Sort(key, [y]) == Insert(key, y, []) == [y];
    assert [x, y][1..] == [y];
    assert Sort(key, [x, y]) == Insert(key, x, [y]);
    assert Insert(key, x, []) == [x];
  }

  /** A two-day instrument without a discontinuity: both returns are 1 and
    * both adjusted prices equal the most recent close. */
  lemma NoDiscontinuityExample(older: Record, newer: Record)
    requires older.date < newer.date
    requires older.close == Some(50.0) && older.yesterday == Some(50.0)
    requires newer.close == Some(100.0) && newer.yesterday == Some(100.0)
    ensures AdjustedGroup([older, newer]) ==
      [older.(ret := Some(1.0), cumprod := Some(1.0), adjPrice := Some(100.0)),
       newer.(ret := Some(1.0), cumprod := Some(1.0), adjPrice := Some(100.0))]
  {
    SortPair(DateDescending, older, newer);
    var desc := [newer, older];
    assert Ret(newer) == 1.0 && Ret(older) == 1.0;
    var rets := Returns(desc);
    assert rets == [1.0, 1.0];
    assert RunProd(rets, 1) == 1.0 && RunProd(rets, 2) == 1.0;
    assert AdjPriceAt(100.0, rets, 0) == 100.0 && AdjPriceAt(100.0, rets, 1) == 100.0;
    assert Latest(desc) == 100.0;
    var n0 := newer.(ret := Some(1.0), cumprod := Some(1.0), adjPrice := Some(100.0));
    var o1 := older.(ret := Some(1.0), cumprod := Some(1.0), adjPrice := Some(100.0));
    assert WithAdjPrice(desc, 0) == n0;
    assert WithAdjPrice(desc, 1) == o1;
    assert Annotated(desc) == [n0, o1];
    SortPair(DateAscending, n0, o1);
  }

  /** The same two days with the newer previous close set to half the older
    * close, as after a split: the older adjusted price moves, the anchor does
    * not. */
  lemma DiscontinuityExample(older: Record, newer: Record)
    requires older.date < newer.date
    requires older.close == Some(50.0) && older.yesterday == Some(50.0)
    requires newer.close == Some(100.0) && newer.yesterday == Some(25.0)
    ensures AdjustedGroup([older, newer]) ==
      [older.(ret := Some(1.0), cumprod := Some(4.0), adjPrice := Some(25.0)),
       newer.(ret := Some(4.0), cumprod := Some(4.0), adjPrice := Some(100.0))]
  {
    SortPair(DateDescending, older, newer);
    var desc := [newer, older];
    assert Ret(newer) == 4.0 && Ret(older) == 1.0;
    var rets := Returns(desc);
    assert rets == [4.0, 1.0];
    assert RunProd(rets, 1) == 4.0 && RunProd(rets, 2) == 4.0;
    assert AdjPriceAt(100.0, rets, 0) == 100.0 && AdjPriceAt(100.0, rets, 1) == 25.0;
    assert Latest(desc) == 100.0;
    var n0 := newer.(ret := Some(4.0), cumprod := Some(4.0), adjPrice := Some(100.0));
    var o1 := older.(ret := Some(1.0), cumprod := Some(4.0), adjPrice := Some(25.0));
    assert WithAdjPrice(desc, 0) == n0;
    assert WithAdjPrice(desc, 1) == o1;
    assert Annotated(desc) == [n0, o1];
    SortPair(DateAscending, n0, o1);
  }
}
