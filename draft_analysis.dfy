/** The draft analysis chart (DraftAnalysisChart.tsx): each manager's points split
    into three acquisition buckets, as raw sums and as shares of the manager's total,
    managers ordered by total. */
module DraftAnalysisChart {
  import opened Records
  import opened Seqs
  import opened Sorting

  /** The three categories a pick is counted under. */
  datatype Bucket = FirstThreePicks | OtherPicks | Transfer

  /** A transfer is a transfer whatever its pick number; otherwise picks 1 to 3 are
      "First 3 Picks" and every other pick is "Other Picks". */
  function Classify(p: DraftPickAnalysis): (b: Bucket)
    ensures b == Transfer <==> p.pickBucket == "Transfer"
    ensures b == FirstThreePicks <==> p.pickBucket != "Transfer" && p.pick <= 3
    ensures b == OtherPicks <==> p.pickBucket != "Transfer" && p.pick > 3
  {
    if p.pickBucket == "Transfer" then Transfer
    else if p.pick <= 3 then FirstThreePicks
    else OtherPicks
  }

  /** The accumulator kept per team: the three bucket sums. */
  datatype Tally = Tally(firstThree: int, other: int, transfer: int) {
    function Get(b: Bucket): int {
      match b
      case FirstThreePicks => firstThree
      case OtherPicks => other
      case Transfer => transfer
    }
    function Total(): int { firstThree + other + transfer }
  }

  /** `acc[team][category] += points`. */
  function Add(t: Tally, b: Bucket, points: int): (r: Tally)
    ensures r.Get(b) == t.Get(b) + points
    ensures forall c :: c != b ==> r.Get(c) == t.Get(c)
  {
    match b
    case FirstThreePicks => t.(firstThree := t.firstThree + points)
    case OtherPicks => t.(other := t.other + points)
    case Transfer => t.(transfer := t.transfer + points)
  }

  function Manager(p: DraftPickAnalysis): string { p.managerName }

  function Points(p: DraftPickAnalysis): int { p.pointsContributed }

  /** The manager and the bucket a pick is credited to. */
  function Credit(p: DraftPickAnalysis): (string, Bucket) { (p.managerName, Classify(p)) }

  /** The tally that the reduce leaves for manager `m` after a pass over `data`.
      Nothing is lost or counted twice: the three buckets add up to the sum of that
      manager's contributions. */
  function TallyOf(data: seq<DraftPickAnalysis>, m: string): (r: Tally)
    ensures r.Total() == SumWhere(data, Manager, Points, m)
  {
    if data == [] then Tally(0, 0, 0)
    else
      var t := TallyOf(data[..|data| - 1], m);
      var p := data[|data| - 1];
      if p.managerName == m then
        var r := Add(t, Classify(p), p.pointsContributed);
        assert r.Total() == t.Total() + p.pointsContributed by {
          assert r.Get(FirstThreePicks) + r.Get(OtherPicks) + r.Get(Transfer)
              == t.Get(FirstThreePicks) + t.Get(OtherPicks) + t.Get(Transfer) + p.pointsContributed;
        }
        r
      else t
  }

  /** Each pick adds its points to exactly one bucket of exactly its own manager:
      a bucket of `m` holds the points of exactly the picks credited to (m, bucket). */
  lemma {:induction false} TallyIsCreditSum(data: seq<DraftPickAnalysis>, m: string, b: Bucket)
    ensures TallyOf(data, m).Get(b) == SumWhere(data, Credit, Points, (m, b))
  {
    if data != [] {
      TallyIsCreditSum(data[..|data| - 1], m, b);
    }
  }

  lemma {:induction false} TallyOfAbsent(data: seq<DraftPickAnalysis>, m: string)
    requires forall i :: 0 <= i < |data| ==> data[i].managerName != m
    ensures TallyOf(data, m) == Tally(0, 0, 0)
  {
    if data != [] {
      TallyOfAbsent(data[..|data| - 1], m);
    }
  }

  /** One more pick changes only its own manager's tally, by `Add`. */
  lemma TallyStep(data: seq<DraftPickAnalysis>, i: int, m: string)
    requires 0 <= i < |data|
    ensures TallyOf(data[..i + 1], m)
         == if data[i].managerName == m then Add(TallyOf(data[..i], m), Classify(data[i]), data[i].pointsContributed)
            else TallyOf(data[..i], m)
  {
    assert data[..i + 1][..i] == data[..i];
  }

  /** The `data.reduce(...)` of lines 64-87: one pass that creates a zeroed tally the
      first time a manager is seen and adds each pick's points to its bucket. */
  method GroupPicks(data: seq<DraftPickAnalysis>) returns (teams: seq<string>, acc: map<string, Tally>)
    ensures teams == DistinctBy(data, Manager)
    ensures forall m :: m in acc <==> m in teams
    ensures forall m :: m in acc ==> acc[m] == TallyOf(data, m)
  {
    teams, acc := [], map[];
    var i := 0;
    while i < |data|
      invariant 0 <= i <= |data|
      invariant teams == DistinctBy(data[..i], Manager)
      invariant forall m :: m in acc <==> m in teams
      invariant forall m :: m in acc ==> acc[m] == TallyOf(data[..i], m)
    {
      var pick := data[i];
      var team := pick.managerName;
      assert data[..i + 1][..i] == data[..i];
      if team !in acc {
        TallyOfAbsent(data[..i], team);
        acc := acc[team := Tally(0, 0, 0)];
        teams := teams + [team];
      }
      var category: Bucket;
      if pick.pickBucket == "Transfer" {
        category := Transfer;
      } else if pick.pick <= 3 {
        category := FirstThreePicks;
      } else {
        category := OtherPicks;
      }
      assert category == Classify(pick);
      acc := acc[team := Add(acc[team], category, pick.pointsContributed)];
      forall m | m in acc ensures acc[m] == TallyOf(data[..i + 1], m) {
        TallyStep(data, i, m);
      }
      i := i + 1;
    }
    assert data[..|data|] == data;
  }

  /** One bar of the chart: the three shares in percent, the total and the raw sums
      kept for the tooltip. */
  datatype DraftRow = DraftRow(
    team: string, firstThreePct: real, otherPct: real, transferPct: real,
    total: int, rawFirstThree: int, rawOther: int, rawTransfer: int)

  /** A bucket's percentage of the total, 0 when the total is not positive. */
  function Percent(part: int, total: int): (p: real)
    ensures total <= 0 ==> p == 0.0
    ensures total > 0 ==> p * (total as real) == (part as real) * 100.0
  {
    if total > 0 then (part as real / total as real) * 100.0 else 0.0
  }

  lemma SharesAddUp(a: int, b: int, c: int)
    requires a + b + c > 0
    ensures Percent(a, a + b + c) + Percent(b, a + b + c) + Percent(c, a + b + c) == 100.0
  {
    var t := (a + b + c) as real;
    assert a as real / t + b as real / t + c as real / t == (a as real + b as real + c as real) / t;
    assert (a as real + b as real + c as real) / t == 1.0;
  }

  /** The `.map(...)` of lines 90-102 for one team. */
  function ToRow(team: string, t: Tally): (r: DraftRow)
    ensures r.team == team && r.total == t.firstThree + t.other + t.transfer
    ensures r.rawFirstThree == t.firstThree && r.rawOther == t.other && r.rawTransfer == t.transfer
    ensures r.total <= 0 ==> r.firstThreePct == 0.0 && r.otherPct == 0.0 && r.transferPct == 0.0
    ensures r.total > 0 ==> r.firstThreePct + r.otherPct + r.transferPct == 100.0
    ensures r.total > 0 ==>
      && r.firstThreePct * (r.total as real) == (t.firstThree as real) * 100.0
      && r.otherPct * (r.total as real) == (t.other as real) * 100.0
      && r.transferPct * (r.total as real) == (t.transfer as real) * 100.0
  {
    var total := t.firstThree + t.other + t.transfer;
    if total > 0 then SharesAddUp(t.firstThree, t.other, t.transfer); DraftRow(team,
      Percent(t.firstThree, total), Percent(t.other, total), Percent(t.transfer, total),
      total, t.firstThree, t.other, t.transfer)
    else DraftRow(team, 0.0, 0.0, 0.0, total, t.firstThree, t.other, t.transfer)
  }

  function DescendingTotal(r: DraftRow): int { -r.total }

  /** The rows in the order `Object.values` lists the teams, before sorting. */
  function UnsortedRows(data: seq<DraftPickAnalysis>): (rows: seq<DraftRow>)
    ensures |rows| == |DistinctBy(data, Manager)|
  {
    var teams := DistinctBy(data, Manager);
    seq(|teams|, i requires 0 <= i < |teams| => ToRow(teams[i], TallyOf(data, teams[i])))
  }

  /** The chart data: rows sorted by total descending, ties in first-seen order. */
  function ChartData(data: seq<DraftPickAnalysis>): (r: seq<DraftRow>)
    ensures |r| == |DistinctBy(data, Manager)|
    ensures forall i, j :: 0 <= i < j < |r| ==> r[i].total >= r[j].total
  {
    StableSort(UnsortedRows(data), DescendingTotal)
  }

  function TeamOf(r: DraftRow): string { r.team }

  /** The transform of DraftAnalysisChart. An empty input gives no rows. */
  method DraftAnalysis(data: seq<DraftPickAnalysis>) returns (rows: seq<DraftRow>)
    ensures rows == ChartData(data)
    ensures forall i, j :: 0 <= i < j < |rows| ==> rows[i].total >= rows[j].total
    ensures NoDup(MapSeq(rows, TeamOf))
    ensures forall m :: m in MapSeq(rows, TeamOf) <==> m in DistinctBy(data, Manager)
    ensures forall r :: r in rows ==> r == ToRow(r.team, TallyOf(data, r.team))
    ensures forall r :: r in rows ==> r.total == SumWhere(data, Manager, Points, r.team)
  {
    var teams, acc := GroupPicks(data);
    var unsorted := BuildRows(data, teams, acc);
    rows := StableSort(unsorted, DescendingTotal);
    ChartDataFacts(data);
  }

  /** `Object.values(teamData).map(...)`: one row per tally, in first-seen order. */
  method BuildRows(data: seq<DraftPickAnalysis>, teams: seq<string>, acc: map<string, Tally>)
    returns (unsorted: seq<DraftRow>)
    requires teams == DistinctBy(data, Manager)
    requires forall m :: m in acc <==> m in teams
    requires forall m :: m in acc ==> acc[m] == TallyOf(data, m)
    ensures unsorted == UnsortedRows(data)
  {
    unsorted := [];
    for k := 0 to |teams|
      invariant unsorted == UnsortedRows(data)[..k]
    {
      var tally := acc[teams[k]];
      assert tally == TallyOf(data, teams[k]);
      unsorted := unsorted + [ToRow(teams[k], tally)];
      assert unsorted[k] == UnsortedRows(data)[k];
    }
    assert unsorted == UnsortedRows(data);
  }

  /** The properties of the chart data: one row per manager of the input, each
      holding that manager's tally, the totals being the manager's points. */
  lemma {:induction false} ChartDataFacts(data: seq<DraftPickAnalysis>)
    ensures NoDup(MapSeq(ChartData(data), TeamOf))
    ensures forall m :: m in MapSeq(ChartData(data), TeamOf) <==> m in DistinctBy(data, Manager)
    ensures forall r :: r in ChartData(data) ==> r == ToRow(r.team, TallyOf(data, r.team))
    ensures forall r :: r in ChartData(data) ==> r.total == SumWhere(data, Manager, Points, r.team)
  {
    var unsorted, rows := UnsortedRows(data), ChartData(data);
    RowsAreTallies(data, rows);
    assert MapSeq(unsorted, TeamOf) == DistinctBy(data, Manager);
    RearrangedKeys(DistinctBy(data, Manager), unsorted, rows, TeamOf);
    assert forall r :: r in rows ==> r.total == SumWhere(data, Manager, Points, r.team);
  }

  lemma {:induction false} RowsAreTallies(data: seq<DraftPickAnalysis>, rows: seq<DraftRow>)
    requires multiset(rows) == multiset(UnsortedRows(data))
    ensures forall r :: r in rows ==> r == ToRow(r.team, TallyOf(data, r.team))
  {
    var unsorted := UnsortedRows(data);
    forall r | r in rows ensures r == ToRow(r.team, TallyOf(data, r.team)) {
      assert r in multiset(unsorted);
      var j :| 0 <= j < |unsorted| && unsorted[j] == r;
    }
  }
}
