/** The "points ahead" chart (PointsAheadChart.tsx): the standings in rank order,
    each with its margin over the next-ranked manager; entries whose margin is
    negative are dropped. */
module PointsAheadChart {
  import opened Records
  import opened Seqs
  import opened Sorting

  /** A standing with the field the chart adds (`{ ...entry, margin }`). */
  datatype MarginEntry = MarginEntry(standing: Standing, margin: int)

  function Rank(s: Standing): int { s.rank }

  /** The sorted copy of the standings, ranks ascending. */
  function RankOrder(data: seq<Standing>): (r: seq<Standing>)
    ensures |r| == |data| && multiset(r) == multiset(data)
    ensures forall i, j :: 0 <= i < j < |r| ==> r[i].rank <= r[j].rank
    ensures Stable(r, data, Rank)
  {
    StableSort(data, Rank)
  }

  /** The margin of each entry: its points minus the next entry's points, and 0 for
      the last entry. */
  function WithMargins(sorted: seq<Standing>): (r: seq<MarginEntry>)
    ensures |r| == |sorted|
    ensures forall i {:trigger r[i]} :: 0 <= i < |r| ==>
      && r[i].standing == sorted[i]
      && r[i].margin == if i + 1 < |r| then sorted[i].totalPoints - sorted[i + 1].totalPoints else 0
  {
    seq(|sorted|, i requires 0 <= i < |sorted| =>
      MarginEntry(sorted[i], if i + 1 < |sorted| then sorted[i].totalPoints - sorted[i + 1].totalPoints else 0))
  }

  /** The filter that keeps the entries whose margin is not negative. */
  function KeepNonNegative(ms: seq<MarginEntry>): (r: seq<MarginEntry>)
    ensures IsSubseq(r, ms)
    ensures |r| > 0 ==> r[0].margin >= 0
  {
    if ms == [] then []
    else
      var rest := KeepNonNegative(ms[1..]);
      if ms[0].margin >= 0 then
        assert ([ms[0]] + rest)[1..] == rest;
        [ms[0]] + rest
      else
        rest
  }

  /** The filter keeps exactly the entries whose margin is not negative. */
  lemma {:induction false} KeepMembers(ms: seq<MarginEntry>)
    ensures forall e :: e in KeepNonNegative(ms) <==> e in ms && e.margin >= 0
  {
    if ms != [] {
      KeepMembers(ms[1..]);
      assert forall e :: e in ms <==> e == ms[0] || e in ms[1..];
    }
  }

  /** The filter keeps every non-negative entry as often as it occurs, and no other entry. */
  lemma {:induction false} KeepCounts(ms: seq<MarginEntry>)
    ensures forall e :: multiset(KeepNonNegative(ms))[e] == if e.margin >= 0 then multiset(ms)[e] else 0
  {
    if ms != [] {
      KeepCounts(ms[1..]);
      assert ms == [ms[0]] + ms[1..];
      assert multiset(ms) == multiset{ms[0]} + multiset(ms[1..]);
    }
  }

  /** The filter never lengthens its input. */
  lemma {:induction false} KeptLength(ms: seq<MarginEntry>)
    ensures |KeepNonNegative(ms)| <= |ms|
  {
    if ms != [] {
      KeptLength(ms[1..]);
    }
  }

  /** When no margin is negative, the filter keeps everything. */
  lemma {:induction false} KeepAll(ms: seq<MarginEntry>)
    requires forall i :: 0 <= i < |ms| ==> ms[i].margin >= 0
    ensures KeepNonNegative(ms) == ms
  {
    if ms != [] {
      KeepAll(ms[1..]);
    }
  }

  /** An entry that is last and not negative is kept, and stays last. */
  lemma {:induction false} KeepLast(ms: seq<MarginEntry>)
    requires |ms| > 0 && ms[|ms| - 1].margin >= 0
    ensures var r := KeepNonNegative(ms); |r| > 0 && r[|r| - 1] == ms[|ms| - 1]
  {
    if |ms| > 1 {
      KeepLast(ms[1..]);
      assert ms[|ms| - 1] == ms[1..][|ms[1..]| - 1];
    }
  }

  /** Standings whose points never increase along the rank order. */
  predicate PointsFollowRank(sorted: seq<Standing>) {
    forall i :: 0 <= i < |sorted| - 1 ==> sorted[i].totalPoints >= sorted[i + 1].totalPoints
  }

  /** The transform of PointsAheadChart: rank order, margins, non-negative filter. It
      never has more entries than there are standings, and shows no negative margin. */
  function PointsAhead(data: seq<Standing>): (r: seq<MarginEntry>)
    ensures |r| <= |data|
    ensures forall e :: e in r ==> e.margin >= 0
  {
    KeepMembers(WithMargins(RankOrder(data)));
    KeptLength(WithMargins(RankOrder(data)));
    KeepNonNegative(WithMargins(RankOrder(data)))
  }

  /** The chart is the non-negative entries of the rank-ordered margins, in that order,
      each as often as the margins hold it, and nothing else. */
  lemma PointsAheadContents(data: seq<Standing>)
    ensures var ms := WithMargins(RankOrder(data));
      && IsSubseq(PointsAhead(data), ms)
      && (forall e :: e in PointsAhead(data) <==> e in ms && e.margin >= 0)
      && (forall e :: multiset(PointsAhead(data))[e] == if e.margin >= 0 then multiset(ms)[e] else 0)
  {
    KeepMembers(WithMargins(RankOrder(data)));
    KeepCounts(WithMargins(RankOrder(data)));
  }

  /** The last entry of any ordering has margin 0, so the filter keeps it, last. */
  lemma {:induction false} LastKept(sorted: seq<Standing>, n: nat)
    requires |sorted| == n > 0
    ensures var r := KeepNonNegative(WithMargins(sorted));
      |r| > 0 && r[|r| - 1] == MarginEntry(sorted[n - 1], 0)
  {
    var ms := WithMargins(sorted);
    assert ms[n - 1] == MarginEntry(sorted[n - 1], 0);
    KeepLast(ms);
  }

  /** The last-ranked manager is always on the chart, and last. */
  lemma {:induction false} LastRankedKept(data: seq<Standing>)
    requires |data| > 0
    ensures |PointsAhead(data)| > 0
    ensures PointsAhead(data)[|PointsAhead(data)| - 1] == MarginEntry(RankOrder(data)[|data| - 1], 0)
  {
    LastKept(RankOrder(data), |data|);
  }

  /** Standings whose points never increase along the rank order lose nobody. */
  lemma {:induction false} NothingDropped(data: seq<Standing>)
    requires PointsFollowRank(RankOrder(data))
    ensures PointsAhead(data) == WithMargins(RankOrder(data))
    ensures |PointsAhead(data)| == |data|
  {
    var sorted := RankOrder(data);
    var ms := WithMargins(sorted);
    forall i | 0 <= i < |ms| ensures ms[i].margin >= 0 {
      if i < |ms| - 1 {
        assert ms[i].margin == sorted[i].totalPoints - sorted[i + 1].totalPoints;
      }
    }
    KeepAll(ms);
  }

  /** Standings already in rank order are left as they are. */
  lemma {:induction false} RankOrderOfSorted(data: seq<Standing>)
    requires forall i, j :: 0 <= i < j < |data| ==> data[i].rank <= data[j].rank
    ensures RankOrder(data) == data
  {
    assert SortedBy(data, Rank);
    StableSortUnique(data, data, Rank);
  }

  lemma {:induction false} ExampleMargins(a: Standing, b: Standing, c: Standing)
    requires a.totalPoints == 100 && b.totalPoints == 90 && c.totalPoints == 90
    ensures WithMargins([a, b, c]) == [MarginEntry(a, 10), MarginEntry(b, 0), MarginEntry(c, 0)]
  {
    var ms := WithMargins([a, b, c]);
    assert ms[0] == MarginEntry(a, 10) && ms[1] == MarginEntry(b, 0) && ms[2] == MarginEntry(c, 0);
  }

  /** The worked example: three standings listed with ranks 1, 2, 2 and points 100,
      90, 90 get margins 10, 0 and 0, nobody is dropped, and the two tied entries
      keep their input order. */
  lemma {:induction false} TieExample(a: Standing, b: Standing, c: Standing)
    requires a.rank == 1 && b.rank == 2 && c.rank == 2
    requires a.totalPoints == 100 && b.totalPoints == 90 && c.totalPoints == 90
    ensures PointsAhead([a, b, c]) == [MarginEntry(a, 10), MarginEntry(b, 0), MarginEntry(c, 0)]
  {
    var expected := [MarginEntry(a, 10), MarginEntry(b, 0), MarginEntry(c, 0)];
    RankOrderOfSorted([a, b, c]);
    ExampleMargins(a, b, c);
    assert forall i :: 0 <= i < |expected| ==> expected[i].margin >= 0;
    KeepAll(expected);
  }
}
