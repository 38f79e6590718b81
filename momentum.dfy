/** The momentum bar chart (MomentumChart.tsx): entries by points over the last four gameweeks, highest first, coloured by team. */
module MomentumChart {
  import opened Records
  import opened Sorting
  import Palette

  /** The sort key of the descending last-four-gameweeks comparator. */
  function DescendingMomentum(e: MomentumEntry): int { -e.pointsLast4Gw }

  function ManagerName(e: MomentumEntry): string { e.managerName }

  /** `[...data].sort(...)`: a new sequence, highest points over the last four gameweeks first, equal values
      in their input order. */
  function SortByMomentum(data: seq<MomentumEntry>): (r: seq<MomentumEntry>)
    ensures multiset(r) == multiset(data)
    ensures forall i, j :: 0 <= i < j < |r| ==> r[i].pointsLast4Gw >= r[j].pointsLast4Gw
    ensures Stable(r, data, DescendingMomentum)
  {
    StableSort(data, DescendingMomentum)
  }

  /** The order is determined: any arrangement of the input that is descending in
      points over the last four gameweeks and keeps ties in input order is the one drawn. */
  lemma SortByMomentumUnique(data: seq<MomentumEntry>, r: seq<MomentumEntry>)
    requires forall i, j :: 0 <= i < j < |r| ==> r[i].pointsLast4Gw >= r[j].pointsLast4Gw
    requires Stable(r, data, DescendingMomentum)
    ensures r == SortByMomentum(data)
  {
    assert SortedBy(r, DescendingMomentum);
    StableSortUnique(data, r, DescendingMomentum);
  }

  /** The `<Cell>` fills: one per sorted entry, in order, from the team colour table. */
  function BarColors(sorted: seq<MomentumEntry>): (r: seq<string>)
    ensures |r| == |sorted|
    ensures forall i :: 0 <= i < |r| ==> r[i] == Palette.TeamColor(sorted[i].managerName)
  {
    Palette.CellColors(sorted, ManagerName)
  }
}
