/** The consistency panel (ConsistencyChart.tsx): the managers ordered by their
    season total, descending, and for each manager a bar series of their weekly
    points in gameweek order. */
module ConsistencyChart {
  import opened Records
  import opened Seqs
  import opened Sorting
  import Grouping

  function Manager(e: ConsistencyEntry): string { e.managerName }

  function Weekly(e: ConsistencyEntry): int { e.weeklyPoints }

  /** The sum of a manager's weekly points. */
  function TeamTotal(data: seq<ConsistencyEntry>, team: string): int {
    SumWhere(data, Manager, Weekly, team)
  }

  /** One `[team, total]` pair of `Object.entries(teamTotals)`. */
  datatype TeamEntry = TeamEntry(team: string, total: int)

  function EntryTeam(e: TeamEntry): string { e.team }

  function DescendingTotal(e: TeamEntry): int { -e.total }

  /** The pairs in the order the dictionary enumerates its keys: first occurrence. */
  function Entries(data: seq<ConsistencyEntry>): (r: seq<TeamEntry>)
    ensures MapSeq(r, EntryTeam) == DistinctBy(data, Manager)
    ensures forall e :: e in r ==> e.total == TeamTotal(data, e.team)
  {
    var teams := DistinctBy(data, Manager);
    seq(|teams|, i requires 0 <= i < |teams| => TeamEntry(teams[i], TeamTotal(data, teams[i])))
  }

  /** `teams`: the pairs sorted by total descending, ties in first-seen order, then
      only the names. */
  function TeamOrder(data: seq<ConsistencyEntry>): (r: seq<string>)
    ensures |r| == |DistinctBy(data, Manager)|
  {
    MapSeq(StableSort(Entries(data), DescendingTotal), EntryTeam)
  }

  /** Lines 36-44: the reduce into `teamTotals`, then the ordering of its entries. */
  method Teams(data: seq<ConsistencyEntry>) returns (teamTotals: map<string, int>, teams: seq<string>)
    ensures forall m :: m in teamTotals <==> m in MapSeq(data, Manager)
    ensures forall m :: m in teamTotals ==> teamTotals[m] == TeamTotal(data, m)
    ensures teams == TeamOrder(data)
    ensures NoDup(teams)
    ensures forall m :: m in teams <==> m in MapSeq(data, Manager)
    ensures forall i, j :: 0 <= i < j < |teams| ==> TeamTotal(data, teams[i]) >= TeamTotal(data, teams[j])
  {
    var keys;
    keys, teamTotals := Grouping.SumByKey(data, Manager, Weekly);
    EntriesOfTotals(data, keys, teamTotals);
    var entries := EntriesFrom(keys, teamTotals);
    var sorted := StableSort(entries, DescendingTotal);
    teams := MapSeq(sorted, EntryTeam);
    TeamsSeen(data);
    TeamOrderFacts(data);
  }

  /** `Object.entries(teamTotals)`, the keys listed in the order `keys` gives. */
  function EntriesFrom(keys: seq<string>, teamTotals: map<string, int>): seq<TeamEntry>
    requires forall i :: 0 <= i < |keys| ==> keys[i] in teamTotals
  {
    seq(|keys|, i requires 0 <= i < |keys| => TeamEntry(keys[i], teamTotals[keys[i]]))
  }

  /** The pairs read back from the reduce's keys and totals are `Entries(data)`. */
  lemma EntriesOfTotals(data: seq<ConsistencyEntry>, keys: seq<string>, teamTotals: map<string, int>)
    requires keys == DistinctBy(data, Manager)
    requires forall k :: k in teamTotals <==> k in keys
    requires forall k :: k in teamTotals ==> teamTotals[k] == TeamTotal(data, k)
    ensures forall i :: 0 <= i < |keys| ==> keys[i] in teamTotals
    ensures EntriesFrom(keys, teamTotals) == Entries(data)
  {
    assert forall i :: 0 <= i < |keys| ==> keys[i] in keys;
  }

  lemma TeamsSeen(data: seq<ConsistencyEntry>)
    ensures forall m :: m in DistinctBy(data, Manager) <==> m in MapSeq(data, Manager)
  {
    forall m ensures m in DistinctBy(data, Manager) <==> m in MapSeq(data, Manager) {
      if m in MapSeq(data, Manager) {
        var i :| 0 <= i < |data| && MapSeq(data, Manager)[i] == m;
        assert Manager(data[i]) == m;
      }
      if m in DistinctBy(data, Manager) {
        var i :| 0 <= i < |data| && Manager(data[i]) == m;
        assert MapSeq(data, Manager)[i] == m;
      }
    }
  }

  lemma {:induction false} TeamOrderFacts(data: seq<ConsistencyEntry>)
    ensures NoDup(TeamOrder(data))
    ensures forall m :: m in TeamOrder(data) <==> m in MapSeq(data, Manager)
    ensures forall i, j :: 0 <= i < j < |TeamOrder(data)| ==>
      TeamTotal(data, TeamOrder(data)[i]) >= TeamTotal(data, TeamOrder(data)[j])
  {
    var entries := Entries(data);
    var sorted := StableSort(entries, DescendingTotal);
    RearrangedKeys(DistinctBy(data, Manager), entries, sorted, EntryTeam);
    TeamsSeen(data);
    forall i | 0 <= i < |sorted| ensures sorted[i].total == TeamTotal(data, sorted[i].team) {
      assert sorted[i] in multiset(entries);
    }
  }

  function ByGameweek(e: ConsistencyEntry): int { e.gameweek }

  /** Lines 50-52: the rows of one manager, from a filtered copy, in gameweek order
      (rows of the same gameweek keep their input order). */
  function Series(data: seq<ConsistencyEntry>, team: string): (r: seq<ConsistencyEntry>)
    ensures multiset(r) == multiset(Select(data, Manager, team))
    ensures forall i, j :: 0 <= i < j < |r| ==> r[i].gameweek <= r[j].gameweek
    ensures Stable(r, Select(data, Manager, team), ByGameweek)
  {
    StableSort(Select(data, Manager, team), ByGameweek)
  }

  /** A series holds exactly the manager's rows, each as often as in the input, and
      nothing else. */
  lemma {:induction false} SeriesContents(data: seq<ConsistencyEntry>, team: string, e: ConsistencyEntry)
    ensures multiset(Series(data, team))[e] == if e.managerName == team then multiset(data)[e] else 0
  {
    SelectMultiset(data, Manager, team, e);
  }

  /** The total the panel orders by is the sum of the weekly points of the bars
      shown in the manager's series. */
  lemma {:induction false} TotalIsSeriesSum(data: seq<ConsistencyEntry>, team: string)
    ensures TeamTotal(data, team) == SumWhere(Series(data, team), Manager, Weekly, team)
  {
    SumWhereSelect(data, Manager, Weekly, team);
    SumWherePermutation(Select(data, Manager, team), Series(data, team), Manager, Weekly, team);
  }

  /** Every input row lands in exactly one series: the series of its own manager,
      who is one of the panel's teams; every other team's series leaves it out. */
  lemma {:induction false} RowInOneSeries(data: seq<ConsistencyEntry>, k: int)
    requires 0 <= k < |data|
    ensures data[k].managerName in TeamOrder(data)
    ensures forall team :: data[k] in Series(data, team) <==> team == data[k].managerName
  {
    TeamOrderFacts(data);
    assert MapSeq(data, Manager)[k] == data[k].managerName;
    forall team ensures data[k] in Series(data, team) <==> team == data[k].managerName {
      SeriesContents(data, team, data[k]);
      assert data[k] in multiset(data);
    }
  }

  /** A manager whose rows are already in gameweek order gets them back unchanged. */
  lemma {:induction false} SeriesOfOneManager(data: seq<ConsistencyEntry>, team: string)
    requires forall i :: 0 <= i < |data| ==> data[i].managerName == team
    requires forall i, j :: 0 <= i < j < |data| ==> data[i].gameweek <= data[j].gameweek
    ensures Series(data, team) == data
  {
    SelectAll(data, team);
    assert SortedBy(data, ByGameweek);
    StableSortUnique(data, data, ByGameweek);
  }

  lemma {:induction false} SelectAll(data: seq<ConsistencyEntry>, team: string)
    requires forall i :: 0 <= i < |data| ==> data[i].managerName == team
    ensures Select(data, Manager, team) == data
  {
    if data != [] {
      SelectAll(data[1..], team);
      assert data == [data[0]] + data[1..];
    }
  }
}
