/** The `reduce` that several charts use to total a value per manager: a
    dictionary entry started at 0 the first time a key is met, then increased by
    each record's value, over the records in order. */
module Grouping {
  import opened Seqs

  /** One pass over `data` that fills a dictionary from key to running sum. The keys
      come out in the order the dictionary enumerates them (first occurrence), and
      each total is the sum of the values of exactly the records with that key. */
  method SumByKey<T>(data: seq<T>, key: T -> string, value: T -> int)
    returns (keys: seq<string>, totals: map<string, int>)
    ensures keys == DistinctBy(data, key)
    ensures forall k :: k in totals <==> k in keys
    ensures forall k :: k in totals ==> totals[k] == SumWhere(data, key, value, k)
  {
    keys, totals := [], map[];
    var i := 0;
    while i < |data|
      invariant 0 <= i <= |data|
      invariant keys == DistinctBy(data[..i], key)
      invariant forall k :: k in totals <==> k in keys
      invariant forall k :: k in totals ==> totals[k] == SumWhere(data[..i], key, value, k)
    {
      var k := key(data[i]);
      assert data[..i + 1][..i] == data[..i];
      if k !in totals {
        SumWhereAbsent(data[..i], key, value, k);
        totals := totals[k := 0];
        keys := keys + [k];
      }
      totals := totals[k := totals[k] + value(data[i])];
      i := i + 1;
    }
    assert data[..|data|] == data;
  }
}
