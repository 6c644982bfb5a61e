// The grouper and the aggregator around the adjuster: split the flat record
// list by instrument id, adjust each group, concatenate, sort by (id, date).
module Aggregator {
  import opened Records
  import opened Ordering
  import opened Adjuster

  /** The records of instrument `id`, in input order. */
  function Filter(s: seq<Record>, id: string): (g: seq<Record>)
    ensures forall r :: r in g ==> r in s && r.id == id
  {
    if s == [] then []
    else
      var init, last := s[..|s| - 1], s[|s| - 1];
      assert s == init + [last];
      Filter(init, id) + (if last.id == id then [last] else [])
  }

  /** The ids of the input in order of first occurrence: the insertion order
    * of the grouping dict. Each id appears once and has a non-empty group. */
  function GroupIds(s: seq<Record>): (ids: seq<string>)
    ensures forall i, j :: 0 <= i < j < |ids| ==> ids[i] != ids[j]
    ensures forall k :: k in ids ==> |Filter(s, k)| > 0
  {
    if s == [] then []
    else
      var init, last := s[..|s| - 1], s[|s| - 1];
      var ids := GroupIds(init);
      if last.id in ids then ids else ids + [last.id]
  }

  /** An id has a group exactly when some input record carries it. */
  lemma {:induction false} GroupIdsCover(s: seq<Record>)
    ensures forall k :: k in GroupIds(s) <==> exists r :: r in s && r.id == k
  {
    if s != [] {
      var init, last := s[..|s| - 1], s[|s| - 1];
      GroupIdsCover(init);
      assert s == init + [last];
      forall k | k in GroupIds(s)
        ensures exists r :: r in s && r.id == k
      {
        if k in GroupIds(init) {
          var r :| r in init && r.id == k;
          assert r in s;
        } else {
          assert last in s;
        }
      }
    }
  }

  /** A group holds every record of its id, as often as the input does, and
    * nothing else. */
  lemma {:induction false} FilterCounts(s: seq<Record>, id: string)
    ensures forall r :: multiset(Filter(s, id))[r] == if r.id == id then multiset(s)[r] else 0
  {
    if s != [] {
      var init, last := s[..|s| - 1], s[|s| - 1];
      FilterCounts(init, id);
      assert s == init + [last];
      assert multiset(s) == multiset(init) + multiset{last};
    }
  }

  /** The grouping loop: a dict from id to the records of that id, with its
    * keys in insertion order. */
  method Group(data: seq<Record>) returns (ids: seq<string>, grouped: map<string, seq<Record>>)
    ensures ids == GroupIds(data)
    ensures forall k :: k in grouped <==> k in ids
    ensures forall k :: k in grouped ==> grouped[k] == Filter(data, k)
  {
    ids, grouped := [], map[];
    var i := 0;
    while i < |data|
      invariant 0 <= i <= |data|
      invariant ids == GroupIds(data[..i])
      invariant forall k :: k in grouped <==> k in ids
      invariant forall k :: k in grouped ==> grouped[k] == Filter(data[..i], k)
    {
      var record := data[i];
      var stockId := record.id;
      assert data[..i + 1][..i] == data[..i];
      if stockId !in grouped {
        FilterEmpty(data[..i], stockId);
        grouped := grouped[stockId := []];
        ids := ids + [stockId];
      }
      grouped := grouped[stockId := grouped[stockId] + [record]];
      i := i + 1;
    }
    assert data[..|data|] == data;
  }

  lemma FilterEmpty(s: seq<Record>, id: string)
    requires id !in GroupIds(s)
    ensures Filter(s, id) == []
  {
    GroupIdsCover(s);
  }

  /** The groups of `ids` concatenated, each one adjusted. */
  function ConcatAdjusted(data: seq<Record>, ids: seq<string>): seq<Record>
    requires forall k :: k in ids ==> |Filter(data, k)| > 0
  {
    if ids == [] then []
    else
      ConcatAdjusted(data, ids[..|ids| - 1]) + AdjustedGroup(Filter(data, ids[|ids| - 1]))
  }

  /** The groups of `ids` concatenated, unadjusted. */
  function ConcatGroups(data: seq<Record>, ids: seq<string>): seq<Record>
  {
    if ids == [] then []
    else ConcatGroups(data, ids[..|ids| - 1]) + Filter(data, ids[|ids| - 1])
  }

  /** What `_adjust_price` returns. */
  function AdjustedAll(data: seq<Record>): seq<Record>
  {
    Sort(IdDateAscending, ConcatAdjusted(data, GroupIds(data)))
  }

  /** Grouping, adjusting each group, concatenating and the final sort by
    * `(id, date)`; an empty input gives an empty output. */
  method AdjustPrice(data: seq<Record>) returns (finalResults: seq<Record>)
    ensures data == [] ==> finalResults == []
    ensures finalResults == AdjustedAll(data)
    ensures |finalResults| == |data| && Sorted(IdDateAscending, finalResults)
    ensures multiset(Bases(finalResults)) == multiset(Bases(data))
    ensures forall r :: r in finalResults ==>
      |Filter(data, r.id)| > 0 && r in AdjustedGroup(Filter(data, r.id))
  {
    if |data| == 0 {
      return [];
    }
    var ids, grouped := Group(data);
    var concatenated := AdjustGroups(data, ids, grouped);
    finalResults := Sort(IdDateAscending, concatenated);
    AdjustedAllPreservesRecords(data);
    AdjustedAllWithinGroup(data);
  }

  /** The loop over the groups in key order: each group adjusted on its own,
    * the results concatenated. */
  method AdjustGroups(data: seq<Record>, ids: seq<string>, grouped: map<string, seq<Record>>)
    returns (results: seq<Record>)
    requires forall k :: k in ids ==> |Filter(data, k)| > 0
    requires forall k :: k in ids ==> k in grouped && grouped[k] == Filter(data, k)
    ensures results == ConcatAdjusted(data, ids)
  {
    results := [];
    var i := 0;
    while i < |ids|
      invariant 0 <= i <= |ids|
      invariant results == ConcatAdjusted(data, ids[..i])
    {
      assert ids[..i + 1][..i] == ids[..i];
      var adjustedRecords := AdjPriceCalculator(grouped[ids[i]]);
      results := results + adjustedRecords;
      i := i + 1;
    }
    assert ids[..|ids|] == ids;
  }

  lemma {:induction false} ConcatAdjustedBases(data: seq<Record>, ids: seq<string>)
    requires forall k :: k in ids ==> |Filter(data, k)| > 0
    ensures multiset(Bases(ConcatAdjusted(data, ids))) == multiset(Bases(ConcatGroups(data, ids)))
  {
    if ids != [] {
      var init, last := ids[..|ids| - 1], ids[|ids| - 1];
      ConcatAdjustedBases(data, init);
      AdjustedGroupShape(Filter(data, last));
      BasesConcat(ConcatAdjusted(data, init), AdjustedGroup(Filter(data, last)));
      BasesConcat(ConcatGroups(data, init), Filter(data, last));
    }
  }

  /** Concatenating the groups of distinct ids gives every record whose id is
    * among them, as often as the input holds it. */
  lemma {:induction false} ConcatGroupsCounts(data: seq<Record>, ids: seq<string>)
    requires forall i, j :: 0 <= i < j < |ids| ==> ids[i] != ids[j]
    ensures forall r :: multiset(ConcatGroups(data, ids))[r] == if r.id in ids then multiset(data)[r] else 0
  {
    if ids != [] {
      var init, last := ids[..|ids| - 1], ids[|ids| - 1];
      ConcatGroupsCounts(data, init);
      FilterCounts(data, last);
      assert ids == init + [last];
    }
  }

  /** `_adjust_price` returns exactly its input records: same number, each as
    * often as in the input, only the three adjuster-owned keys changed, sorted
    * by `(id, date)`. */
  lemma AdjustedAllPreservesRecords(data: seq<Record>)
    ensures |AdjustedAll(data)| == |data|
    ensures Sorted(IdDateAscending, AdjustedAll(data))
    ensures multiset(Bases(AdjustedAll(data))) == multiset(Bases(data))
  {
    var ids := GroupIds(data);
    var concat := ConcatAdjusted(data, ids);
    SortSorted(IdDateAscending, concat);
    ConcatAdjustedBases(data, ids);
    ConcatGroupsCounts(data, ids);
    GroupIdsCover(data);
    assert multiset(ConcatGroups(data, ids)) == multiset(data) by {
      forall r
        ensures multiset(ConcatGroups(data, ids))[r] == multiset(data)[r]
      {
        if r in data {
          assert r.id in ids;
        }
      }
    }
    BasesPermutation(ConcatGroups(data, ids), data);
    BasesPermutation(AdjustedAll(data), concat);
    assert |Bases(AdjustedAll(data))| == |Bases(data)|;
  }

  lemma {:induction false} ConcatAdjustedMember(data: seq<Record>, ids: seq<string>, r: Record)
    requires forall k :: k in ids ==> |Filter(data, k)| > 0
    requires r in ConcatAdjusted(data, ids)
    ensures exists k :: k in ids && r in AdjustedGroup(Filter(data, k))
  {
    var init, last := ids[..|ids| - 1], ids[|ids| - 1];
    if r in ConcatAdjusted(data, init) {
      ConcatAdjustedMember(data, init, r);
      var k :| k in init && r in AdjustedGroup(Filter(data, k));
      assert k in ids;
    } else {
      assert last in ids;
    }
  }

  /** Every adjusted record carries the id of the group it was adjusted in. */
  lemma AdjustedKeepsId(g: seq<Record>, id: string, r: Record)
    requires |g| > 0
    requires forall x :: x in g ==> x.id == id
    requires r in AdjustedGroup(g)
    ensures r.id == id
  {
    var out := AdjustedGroup(g);
    AdjustedGroupShape(g);
    var i :| 0 <= i < |out| && out[i] == r;
    var outBases, gBases := Bases(out), Bases(g);
    assert outBases[i] == Base(r);
    assert Base(r) in multiset(outBases);
    assert Base(r) in multiset(gBases);
    var j :| 0 <= j < |gBases| && gBases[j] == Base(r);
    assert Base(g[j]) == Base(r);
    assert g[j] in g;
  }

  /** No group mixes instruments: every output record was adjusted together
    * with exactly the input records of its own id. */
  lemma AdjustedAllWithinGroup(data: seq<Record>)
    ensures forall r :: r in AdjustedAll(data) ==>
      |Filter(data, r.id)| > 0 && r in AdjustedGroup(Filter(data, r.id))
  {
    var ids := GroupIds(data);
    forall r | r in AdjustedAll(data)
      ensures |Filter(data, r.id)| > 0 && r in AdjustedGroup(Filter(data, r.id))
    {
      assert r in multiset(ConcatAdjusted(data, ids));
      ConcatAdjustedMember(data, ids, r);
      var k :| k in ids && r in AdjustedGroup(Filter(data, k));
      AdjustedKeepsId(Filter(data, k), k, r);
    }
  }
}
