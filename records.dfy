// The daily price record that flows through the adjustment pipeline.
module Records {

  datatype Option<T> = None | Some(value: T)

  /** One instrument-day as the fetch stage builds it. Every numeric field comes
    * from a float conversion that yields None when the provider's value is
    * missing or unparseable. The last three fields are the keys the adjuster
    * adds to the record: None while the key is absent. */
  datatype Record = Record(
    symbol: string,
    id: string,
    date: nat,
    min: Option<real>,
    max: Option<real>,
    yesterday: Option<real>,
    first: Option<real>,
    close: Option<real>,
    last: Option<real>,
    tradesCount: Option<real>,
    volume: Option<real>,
    value: Option<real>,
    ret: Option<real>,
    cumprod: Option<real>,
    adjPrice: Option<real>)

  /** Python truthiness of a nullable float: None and 0.0 are both false. */
  predicate Truthy(x: Option<real>)
  {
    x.Some? && x.value != 0.0
  }

  /** The record with the three adjuster-owned keys removed: everything the
    * adjuster must leave as it found it. */
  function Base(r: Record): Record
  {
    r.(ret := None, cumprod := None, adjPrice := None)
  }

  function Bases(s: seq<Record>): seq<Record>
  {
    seq(|s|, i requires 0 <= i < |s| => Base(s[i]))
  }

  lemma BasesConcat(s: seq<Record>, t: seq<Record>)
    ensures Bases(s + t) == Bases(s) + Bases(t)
  {
    assert forall i :: 0 <= i < |s + t| ==> Bases(s + t)[i] == (Bases(s) + Bases(t))[i];
  }

  /** Reordering records reorders their bases the same way: two permutations
    * of each other have bases that are permutations of each other. */
  lemma {:induction false} BasesPermutation(s: seq<Record>, t: seq<Record>)
    requires multiset(s) == multiset(t)
    ensures multiset(Bases(s)) == multiset(Bases(t))
    decreases |s|
  {
    if s == [] {
      assert |t| == |multiset(t)| == 0;
    } else {
      var x := s[0];
      assert x in multiset(t);
      var j :| 0 <= j < |t| && t[j] == x;
      var rest := t[..j] + t[j + 1..];
      assert t == t[..j] + [x] + t[j + 1..];
      assert s == [x] + s[1..];
      assert multiset(t) == multiset(t[..j]) + multiset{x} + multiset(t[j + 1..]);
      assert multiset(s) == multiset{x} + multiset(s[1..]);
      assert multiset(rest) == multiset(t[..j]) + multiset(t[j + 1..]);
      assert multiset(s[1..]) == multiset(s) - multiset{x};
      assert multiset(rest) == multiset(t) - multiset{x};
      BasesPermutation(s[1..], rest);
      BasesConcat([x], s[1..]);
      BasesConcat(t[..j] + [x], t[j + 1..]);
      BasesConcat(t[..j], [x]);
      BasesConcat(t[..j], t[j + 1..]);
      assert Bases([x]) == [Base(x)];
    }
  }
}
