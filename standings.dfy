/** The season standings bar chart (StandingsChart.tsx): entries by total points, highest first, coloured by team. */
module StandingsChart {
  import opened Records
  import opened Sorting
  import Palette

  /** The sort key of the descending total-points comparator. */
  function DescendingPoints(e: Standing): int { -e.totalPoints }

  function ManagerName(e: Standing): string { e.managerName }

  /** `[...data].sort(...)`: a new sequence, highest total points first, equal values
      in their input order. */
  function SortByTotalPoints(data: seq<Standing>): (r: seq<Standing>)
    ensures multiset(r) == multiset(data)
    ensures forall i, j :: 0 <= i < j < |r| ==> r[i].totalPoints >= r[j].totalPoints
    ensures Stable(r, data, DescendingPoints)
  {
    StableSort(data, DescendingPoints)
  }

  /** The order is determined: any arrangement of the input that is descending in
      total points and keeps ties in input order is the one drawn. */
  lemma SortByTotalPointsUnique(data: seq<Standing>, r: seq<Standing>)
    requires forall i, j :: 0 <= i < j < |r| ==> r[i].totalPoints >= r[j].totalPoints
    requires Stable(r, data, DescendingPoints)
    ensures r == SortByTotalPoints(data)
  {
    assert SortedBy(r, DescendingPoints);
    StableSortUnique(data, r, DescendingPoints);
  }

  /** The `<Cell>` fills: one per sorted entry, in order, from the team colour table. */
  function BarColors(sorted: seq<Standing>): (r: seq<string>)
    ensures |r| == |sorted|
    ensures forall i :: 0 <= i < |r| ==> r[i] == Palette.TeamColor(sorted[i].managerName)
  {
    Palette.CellColors(sorted, ManagerName)
  }
}
