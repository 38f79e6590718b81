/** The bench points bar chart (BenchPointsChart.tsx): entries by points left on the bench, highest first, coloured by team. */
module BenchPointsChart {
  import opened Records
  import opened Sorting
  import Palette

  /** The sort key of the descending bench-points comparator. */
  function DescendingBench(e: BenchPointsEntry): int { -e.benchPoints }

  function ManagerName(e: BenchPointsEntry): string { e.managerName }

  /** `[...data].sort(...)`: a new sequence, highest bench points first, equal values
      in their input order. */
  function SortByBenchPoints(data: seq<BenchPointsEntry>): (r: seq<BenchPointsEntry>)
    ensures multiset(r) == multiset(data)
    ensures forall i, j :: 0 <= i < j < |r| ==> r[i].benchPoints >= r[j].benchPoints
    ensures Stable(r, data, DescendingBench)
  {
    StableSort(data, DescendingBench)
  }

  /** The order is determined: any arrangement of the input that is descending in
      bench points and keeps ties in input order is the one drawn. */
  lemma SortByBenchPointsUnique(data: seq<BenchPointsEntry>, r: seq<BenchPointsEntry>)
    requires forall i, j :: 0 <= i < j < |r| ==> r[i].benchPoints >= r[j].benchPoints
    requires Stable(r, data, DescendingBench)
    ensures r == SortByBenchPoints(data)
  {
    assert SortedBy(r, DescendingBench);
    StableSortUnique(data, r, DescendingBench);
  }

  /** The `<Cell>` fills: one per sorted entry, in order, from the team colour table. */
  function BarColors(sorted: seq<BenchPointsEntry>): (r: seq<string>)
    ensures |r| == |sorted|
    ensures forall i :: 0 <= i < |r| ==> r[i] == Palette.TeamColor(sorted[i].managerName)
  {
    Palette.CellColors(sorted, ManagerName)
  }
}
