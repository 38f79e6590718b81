/** The "delta from last place" chart (CumulativeChart.tsx): each manager's running
    total of weekly points, gameweek by gameweek, and at every gameweek how far each
    manager is above the lowest running total of that gameweek. */
module CumulativeChart {
  import opened Records
  import opened Seqs
  import opened Sorting

  function Manager(e: ConsistencyEntry): string { e.managerName }

  function ByGameweek(e: ConsistencyEntry): int { e.gameweek }

  /** `x || 0` on a read that may find nothing. */
  function OrZero(o: Option<int>): int {
    if o.Some? then o.value else 0
  }

  /** Reading `dict[k]`, which is `undefined` for a missing key. */
  function Lookup(d: map<int, int>, k: int): Option<int> {
    if k in d then Some(d[k]) else None
  }

  predicate Matches(e: ConsistencyEntry, m: string, gw: int) {
    e.managerName == m && e.gameweek == gw
  }

  // ----- What the chart shows, stated on the input

  /** Manager `m`'s weekly points in gameweek `gw`: the points of the last row for
      (m, gw) in input order, since each write replaces the previous one. */
  function WeeklyOf(data: seq<ConsistencyEntry>, m: string, gw: int): Option<int> {
    if data == [] then None
    else if Matches(data[|data| - 1], m, gw) then Some(data[|data| - 1].weeklyPoints)
    else WeeklyOf(data[..|data| - 1], m, gw)
  }

  /** A manager has no weekly value for a gameweek exactly when no row is for that
      manager and gameweek. */
  lemma {:induction false} WeeklyOfNone(data: seq<ConsistencyEntry>, m: string, gw: int)
    ensures WeeklyOf(data, m, gw) == None <==> forall i :: 0 <= i < |data| ==> !Matches(data[i], m, gw)
  {
    if data != [] {
      var p := data[..|data| - 1];
      WeeklyOfNone(p, m, gw);
      assert forall i :: 0 <= i < |p| ==> p[i] == data[i];
    }
  }

  /** Otherwise the value is the points of a row for them, after which no row for
      the same manager and gameweek comes. */
  lemma {:induction false} WeeklyOfLast(data: seq<ConsistencyEntry>, m: string, gw: int)
    requires WeeklyOf(data, m, gw) != None
    ensures exists i ::
              && 0 <= i < |data| && Matches(data[i], m, gw) && data[i].weeklyPoints == WeeklyOf(data, m, gw).value
              && (forall j :: i < j < |data| ==> !Matches(data[j], m, gw))
  {
    var p, x := data[..|data| - 1], data[|data| - 1];
    if !Matches(x, m, gw) {
      WeeklyOfLast(p, m, gw);
      var i :| 0 <= i < |p| && Matches(p[i], m, gw) && p[i].weeklyPoints == WeeklyOf(p, m, gw).value
        && (forall j :: i < j < |p| ==> !Matches(p[j], m, gw));
      assert data[i] == p[i];
      assert forall j :: i < j < |data| - 1 ==> data[j] == p[j];
    }
  }

  /** Manager `m`'s running total at gameweek `gw`: that week's points plus the
      running total of the week before, where a week without a row counts as 0, so
      a gap restarts the total. `None` when `m` has no row for `gw`. */
  function Cumulative(data: seq<ConsistencyEntry>, m: string, gw: int): (r: Option<int>)
    ensures r.None? <==> gw < 0 || WeeklyOf(data, m, gw).None?
    decreases if gw < 0 then 0 else gw + 1
  {
    if gw < 0 then None
    else
      match WeeklyOf(data, m, gw)
      case None => None
      case Some(w) => Some(OrZero(Cumulative(data, m, gw - 1)) + w)
  }

  /** The sorted copy of the rows: gameweeks ascending, rows of one gameweek in
      input order. */
  function SortedData(data: seq<ConsistencyEntry>): (r: seq<ConsistencyEntry>)
    ensures |r| == |data| && multiset(r) == multiset(data)
    ensures forall i, j :: 0 <= i < j < |r| ==> r[i].gameweek <= r[j].gameweek
    ensures Stable(r, data, ByGameweek)
  {
    StableSort(data, ByGameweek)
  }

  /** `Object.keys(teamCumulative)`: the managers in the order the sorted rows first
      mention them. */
  function Teams(data: seq<ConsistencyEntry>): (r: seq<string>)
    ensures NoDup(r)
  {
    DistinctBy(SortedData(data), Manager)
  }

  // ----- The pass over the sorted rows

  /** The entry `teamCumulative[m][gw]` after the forEach has processed the rows `s`
      in order. */
  function RunningAfter(s: seq<ConsistencyEntry>, m: string, gw: int): (r: Option<int>)
    ensures r.None? <==> WeeklyOf(s, m, gw).None?
  {
    if s == [] then None
    else
      var p, x := s[..|s| - 1], s[|s| - 1];
      if Matches(x, m, gw) then Some(OrZero(RunningAfter(p, m, gw - 1)) + x.weeklyPoints)
      else RunningAfter(p, m, gw)
  }

  lemma RunningStep(s: seq<ConsistencyEntry>, i: int, m: string, gw: int)
    requires 0 <= i < |s|
    ensures RunningAfter(s[..i + 1], m, gw)
         == if Matches(s[i], m, gw) then Some(OrZero(RunningAfter(s[..i], m, gw - 1)) + s[i].weeklyPoints)
            else RunningAfter(s[..i], m, gw)
    ensures WeeklyOf(s[..i + 1], m, gw)
         == if Matches(s[i], m, gw) then Some(s[i].weeklyPoints) else WeeklyOf(s[..i], m, gw)
  {
    assert s[..i + 1][..i] == s[..i];
  }

  lemma {:induction false} RunningAbsent(s: seq<ConsistencyEntry>, m: string, gw: int)
    requires forall i :: 0 <= i < |s| ==> s[i].managerName != m
    ensures RunningAfter(s, m, gw) == None
  {
    if s != [] {
      RunningAbsent(s[..|s| - 1], m, gw);
    }
  }

  /** The two dictionaries hold, for every manager they have, the running totals
      and the weekly points of the rows `s` processed so far. */
  ghost predicate Tracks(s: seq<ConsistencyEntry>, teamCumulative: map<string, map<int, int>>, teamWeekly: map<string, map<int, int>>) {
    && (forall m, gw :: m in teamCumulative ==> Lookup(teamCumulative[m], gw) == RunningAfter(s, m, gw))
    && (forall m, gw :: m in teamWeekly ==> Lookup(teamWeekly[m], gw) == WeeklyOf(s, m, gw))
  }

  lemma {:induction false} WeeklyAbsent(s: seq<ConsistencyEntry>, m: string, gw: int)
    requires forall i :: 0 <= i < |s| ==> s[i].managerName != m
    ensures WeeklyOf(s, m, gw) == None
  {
    if s != [] {
      WeeklyAbsent(s[..|s| - 1], m, gw);
    }
  }

  /** A manager not seen so far starts with two empty dictionaries. */
  lemma TracksNew(s: seq<ConsistencyEntry>, c: map<string, map<int, int>>, w: map<string, map<int, int>>, m: string)
    requires Tracks(s, c, w)
    requires m !in DistinctBy(s, Manager)
    ensures Tracks(s, c[m := map[]], w[m := map[]])
  {
    forall i | 0 <= i < |s| ensures s[i].managerName != m {
      assert Manager(s[i]) in DistinctBy(s, Manager);
    }
    forall gw ensures RunningAfter(s, m, gw) == None && WeeklyOf(s, m, gw) == None {
      RunningAbsent(s, m, gw);
      WeeklyAbsent(s, m, gw);
    }
  }

  /** Recording row `s[i]` keeps the dictionaries in step with the rows. */
  lemma TracksStep(s: seq<ConsistencyEntry>, i: int, c: map<string, map<int, int>>, w: map<string, map<int, int>>,
                   c': map<string, map<int, int>>, w': map<string, map<int, int>>)
    requires 0 <= i < |s| && Tracks(s[..i], c, w)
    requires s[i].managerName in c && s[i].managerName in w
    requires var m, gw := s[i].managerName, s[i].gameweek;
      c' == c[m := c[m][gw := (if gw - 1 in c[m] then c[m][gw - 1] else 0) + s[i].weeklyPoints]]
    requires w' == w[s[i].managerName := w[s[i].managerName][s[i].gameweek := s[i].weeklyPoints]]
    ensures Tracks(s[..i + 1], c', w')
  {
    forall n, gw | n in c' ensures Lookup(c'[n], gw) == RunningAfter(s[..i + 1], n, gw) {
      RunningStep(s, i, n, gw);
    }
    forall n, gw | n in w' ensures Lookup(w'[n], gw) == WeeklyOf(s[..i + 1], n, gw) {
      RunningStep(s, i, n, gw);
    }
  }

  /** Lines 64-74: one pass over the sorted rows that creates both dictionaries of a
      manager the first time the manager is seen, then records the week's running
      total (the previous gameweek's entry, or 0, plus the week's points) and the
      week's points. */
  method Accumulate(s: seq<ConsistencyEntry>)
    returns (teams: seq<string>, teamCumulative: map<string, map<int, int>>, teamWeekly: map<string, map<int, int>>)
    ensures teams == DistinctBy(s, Manager)
    ensures forall m :: m in teamCumulative <==> m in teams
    ensures forall m :: m in teamWeekly <==> m in teams
    ensures Tracks(s, teamCumulative, teamWeekly)
  {
    teams, teamCumulative, teamWeekly := [], map[], map[];
    var i := 0;
    while i < |s|
      invariant 0 <= i <= |s|
      invariant teams == DistinctBy(s[..i], Manager)
      invariant forall m :: m in teamCumulative <==> m in teams
      invariant forall m :: m in teamWeekly <==> m in teams
      invariant Tracks(s[..i], teamCumulative, teamWeekly)
    {
      teams, teamCumulative, teamWeekly := AddManager(s, i, teams, teamCumulative, teamWeekly);
      teamCumulative, teamWeekly := RecordWeek(s, i, teamCumulative, teamWeekly);
      i := i + 1;
    }
    assert s[..|s|] == s;
  }

  /** Lines 66-69: the first row of a manager creates the manager's two
      dictionaries, empty, and adds the manager to the keys. */
  method AddManager(s: seq<ConsistencyEntry>, i: int, teams: seq<string>,
                    teamCumulative: map<string, map<int, int>>, teamWeekly: map<string, map<int, int>>)
    returns (teams': seq<string>, teamCumulative': map<string, map<int, int>>, teamWeekly': map<string, map<int, int>>)
    requires 0 <= i < |s|
    requires teams == DistinctBy(s[..i], Manager)
    requires forall m :: m in teamCumulative <==> m in teams
    requires forall m :: m in teamWeekly <==> m in teams
    requires Tracks(s[..i], teamCumulative, teamWeekly)
    ensures teams' == DistinctBy(s[..i + 1], Manager)
    ensures forall m :: m in teamCumulative' <==> m in teams'
    ensures forall m :: m in teamWeekly' <==> m in teams'
    ensures Tracks(s[..i], teamCumulative', teamWeekly')
  {
    var m := s[i].managerName;
    DistinctByStep(s, i, Manager);
    teams', teamCumulative', teamWeekly' := teams, teamCumulative, teamWeekly;
    if m !in teamCumulative {
      TracksNew(s[..i], teamCumulative, teamWeekly, m);
      teamCumulative' := teamCumulative[m := map[]];
      teamWeekly' := teamWeekly[m := map[]];
      teams' := teams + [m];
    }
  }

  /** Lines 70-73: the week's running total (the manager's entry for the previous
      gameweek, or 0, plus the week's points) and the week's points are recorded. */
  method RecordWeek(s: seq<ConsistencyEntry>, i: int,
                    teamCumulative: map<string, map<int, int>>, teamWeekly: map<string, map<int, int>>)
    returns (teamCumulative': map<string, map<int, int>>, teamWeekly': map<string, map<int, int>>)
    requires 0 <= i < |s|
    requires s[i].managerName in teamCumulative && s[i].managerName in teamWeekly
    requires Tracks(s[..i], teamCumulative, teamWeekly)
    ensures forall m :: m in teamCumulative' <==> m in teamCumulative
    ensures forall m :: m in teamWeekly' <==> m in teamWeekly
    ensures Tracks(s[..i + 1], teamCumulative', teamWeekly')
  {
    var entry := s[i];
    var m := entry.managerName;
    var previousTotal := if entry.gameweek - 1 in teamCumulative[m] then teamCumulative[m][entry.gameweek - 1] else 0;
    teamCumulative' := teamCumulative[m := teamCumulative[m][entry.gameweek := previousTotal + entry.weeklyPoints]];
    teamWeekly' := teamWeekly[m := teamWeekly[m][entry.gameweek := entry.weeklyPoints]];
    TracksStep(s, i, teamCumulative, teamWeekly, teamCumulative', teamWeekly');
  }

  // ----- The pass computes the running totals

  lemma WeeklyOfAppend(a: seq<ConsistencyEntry>, x: ConsistencyEntry, m: string, gw: int)
    ensures WeeklyOf(a + [x], m, gw) == if Matches(x, m, gw) then Some(x.weeklyPoints) else WeeklyOf(a, m, gw)
  {
    assert (a + [x])[..|a|] == a;
  }

  lemma SelectLast(a: seq<ConsistencyEntry>, x: ConsistencyEntry, gw: int)
    ensures Select(a + [x], ByGameweek, gw) == Select(a, ByGameweek, gw) + (if x.gameweek == gw then [x] else [])
  {
    SelectAppend(a, [x], ByGameweek, gw);
    assert [x][1..] == [];
    assert Select([x], ByGameweek, gw) == (if x.gameweek == gw then [x] else []) + Select([], ByGameweek, gw);
  }

  /** Only the rows of gameweek `gw` decide a weekly value for `gw`. */
  lemma {:induction false} WeeklyOfSelect(s: seq<ConsistencyEntry>, m: string, gw: int)
    ensures WeeklyOf(s, m, gw) == WeeklyOf(Select(s, ByGameweek, gw), m, gw)
  {
    if s != [] {
      var p, x := s[..|s| - 1], s[|s| - 1];
      assert s == p + [x];
      WeeklyOfSelect(p, m, gw);
      SelectLast(p, x, gw);
      WeeklyOfAppend(p, x, m, gw);
      if x.gameweek == gw {
        WeeklyOfAppend(Select(p, ByGameweek, gw), x, m, gw);
      } else {
        assert Select(p, ByGameweek, gw) + [] == Select(p, ByGameweek, gw);
      }
    }
  }

  /** Sorting by gameweek keeps the rows of one gameweek in input order, so the
      last row for a manager and gameweek is the same before and after. */
  lemma {:induction false} WeeklyOfSorted(data: seq<ConsistencyEntry>, m: string, gw: int)
    ensures WeeklyOf(SortedData(data), m, gw) == WeeklyOf(data, m, gw)
  {
    WeeklyOfSelect(SortedData(data), m, gw);
    WeeklyOfSelect(data, m, gw);
    assert Select(SortedData(data), ByGameweek, gw) == Select(data, ByGameweek, gw);
  }

  /** On rows in gameweek order, every row of gameweek `gw - 1` comes before the
      rows of gameweek `gw`, so the running total the pass stores for `gw` is the
      week's points on top of the complete total of the week before. */
  lemma {:induction false} RunningRecurrence(s: seq<ConsistencyEntry>, m: string, gw: int)
    requires forall i, j :: 0 <= i < j < |s| ==> s[i].gameweek <= s[j].gameweek
    ensures WeeklyOf(s, m, gw) == None ==> RunningAfter(s, m, gw) == None
    ensures WeeklyOf(s, m, gw) != None ==>
      RunningAfter(s, m, gw) == Some(OrZero(RunningAfter(s, m, gw - 1)) + WeeklyOf(s, m, gw).value)
  {
    if s != [] {
      var p, x := s[..|s| - 1], s[|s| - 1];
      RunningRecurrence(p, m, gw);
      if !Matches(x, m, gw) && WeeklyOf(p, m, gw) != None {
        WeeklyOfNone(p, m, gw);
        var i :| 0 <= i < |p| && Matches(p[i], m, gw);
        assert s[i] == p[i];
      }
    }
  }

  /** After the pass over the sorted rows, the running total stored for manager
      `m` and gameweek `gw` is Cumulative(data, m, gw). */
  lemma {:induction false} PassComputesCumulative(data: seq<ConsistencyEntry>, m: string, gw: int)
    ensures RunningAfter(SortedData(data), m, gw) == Cumulative(data, m, gw)
    decreases if gw < 0 then 0 else gw + 1
  {
    var s := SortedData(data);
    WeeklyOfSorted(data, m, gw);
    RunningRecurrence(s, m, gw);
    if gw < 0 {
      WeeklyOfNone(s, m, gw);
    } else {
      PassComputesCumulative(data, m, gw - 1);
    }
  }

  /** `d[m][gw] || 0`: the entry of manager `m` for gameweek `gw`, 0 if none. */
  function Read(d: map<string, map<int, int>>, m: string, gw: int): int
    requires m in d
  {
    if gw in d[m] then d[m][gw] else 0
  }

  /** What lines 84, 89 and 91 read from the dictionaries after the pass: the
      running total and the weekly points, 0 where there is no entry. */
  lemma ReadsCumulative(data: seq<ConsistencyEntry>, teamCumulative: map<string, map<int, int>>,
                        teamWeekly: map<string, map<int, int>>, m: string, gw: int)
    requires Tracks(SortedData(data), teamCumulative, teamWeekly)
    requires m in teamCumulative && m in teamWeekly
    ensures Read(teamCumulative, m, gw) == OrZero(Cumulative(data, m, gw))
    ensures Read(teamWeekly, m, gw) == OrZero(WeeklyOf(data, m, gw))
  {
    PassComputesCumulative(data, m, gw);
    WeeklyOfSorted(data, m, gw);
    assert Lookup(teamCumulative[m], gw) == RunningAfter(SortedData(data), m, gw);
    assert Lookup(teamWeekly[m], gw) == WeeklyOf(SortedData(data), m, gw);
  }

  // ----- Properties of the running totals

  /** The sum of the weekly points of gameweeks `a` to `b`. */
  function RunTotal(data: seq<ConsistencyEntry>, m: string, a: int, b: int): int
    decreases if b < a then 0 else b - a + 1
  {
    if b < a then 0 else RunTotal(data, m, a, b - 1) + OrZero(WeeklyOf(data, m, b))
  }

  /** A manager with a row in every gameweek from `a` to `gw`, and none in the week
      before `a`, has as running total at `gw` the sum of those weeks' points: the
      total starts again after a missing gameweek. */
  lemma {:induction false} CumulativeOfRun(data: seq<ConsistencyEntry>, m: string, a: int, gw: int)
    requires 0 <= a <= gw
    requires forall g :: a <= g <= gw ==> WeeklyOf(data, m, g) != None
    requires a == 0 || WeeklyOf(data, m, a - 1) == None
    ensures Cumulative(data, m, gw) == Some(RunTotal(data, m, a, gw))
    decreases gw - a
  {
    if gw > a {
      CumulativeOfRun(data, m, a, gw - 1);
    } else {
      assert RunTotal(data, m, a, gw - 1) == 0;
    }
  }

  // ----- The gameweeks and the chart points

  /** The gameweek axis, the distinct gameweeks sorted numerically: every
      gameweek of the rows once, ascending. */
  function Gameweeks(data: seq<ConsistencyEntry>): (r: seq<int>)
    ensures forall i, j :: 0 <= i < j < |r| ==> r[i] < r[j]
    ensures forall g :: g in r <==> exists i :: 0 <= i < |data| && data[i].gameweek == g
  {
    var seen := DistinctBy(data, ByGameweek);
    var r := StableSort(seen, Id);
    SortedDistinct(seen, r);
    r
  }

  lemma SortedDistinct(seen: seq<int>, r: seq<int>)
    requires NoDup(seen) && multiset(r) == multiset(seen) && SortedBy(r, Id)
    ensures forall i, j :: 0 <= i < j < |r| ==> r[i] < r[j]
    ensures forall g :: g in r <==> g in seen
  {
    NoDupPermutation(seen, r);
    forall g ensures g in r <==> g in seen {
      assert g in r <==> g in multiset(r);
    }
    forall i, j | 0 <= i < j < |r| ensures r[i] < r[j] {
      assert Id(r[i]) <= Id(r[j]);
    }
  }

  /** The managers on the chart, each once, are exactly the managers of the rows. */
  lemma {:induction false} TeamsFacts(data: seq<ConsistencyEntry>)
    ensures NoDup(Teams(data))
    ensures forall m :: m in Teams(data) <==> exists i :: 0 <= i < |data| && data[i].managerName == m
    ensures data != [] ==> |Teams(data)| > 0
  {
    var s := SortedData(data);
    forall m ensures m in Teams(data) <==> exists i :: 0 <= i < |data| && data[i].managerName == m {
      if m in Teams(data) {
        var i :| 0 <= i < |s| && Manager(s[i]) == m;
        assert s[i] in multiset(data);
        var j :| 0 <= j < |data| && data[j] == s[i];
      }
      if exists i :: 0 <= i < |data| && data[i].managerName == m {
        var i :| 0 <= i < |data| && data[i].managerName == m;
        assert data[i] in multiset(s);
        var j :| 0 <= j < |s| && s[j] == data[i];
        assert Manager(s[j]) == m;
      }
    }
    if data != [] {
      assert data[0].managerName in Teams(data);
    }
  }

  /** `cumulativeValues` at gameweek `gw`: each manager's running total, 0 without
      a row that week. */
  function Values(data: seq<ConsistencyEntry>, gw: int): (r: seq<int>)
    ensures |r| == |Teams(data)|
    ensures forall i :: 0 <= i < |r| ==> r[i] == OrZero(Cumulative(data, Teams(data)[i], gw))
  {
    var teams := Teams(data);
    seq(|teams|, i requires 0 <= i < |teams| => OrZero(Cumulative(data, teams[i], gw)))
  }

  /** `Math.min(...cumulativeValues)`: the lowest of the running totals that week,
      which some manager has. */
  function Minimum(data: seq<ConsistencyEntry>, gw: int): (r: int)
    requires data != []
    ensures forall m :: m in Teams(data) ==> r <= OrZero(Cumulative(data, m, gw))
    ensures exists m :: m in Teams(data) && r == OrZero(Cumulative(data, m, gw))
  {
    TeamsFacts(data);
    MinOfValues(data, gw);
    Min(Values(data, gw))
  }

  lemma MinOfValues(data: seq<ConsistencyEntry>, gw: int)
    requires |Teams(data)| > 0
    ensures forall m :: m in Teams(data) ==> Min(Values(data, gw)) <= OrZero(Cumulative(data, m, gw))
    ensures exists m :: m in Teams(data) && Min(Values(data, gw)) == OrZero(Cumulative(data, m, gw))
  {
    var values, r := Values(data, gw), Min(Values(data, gw));
    assert forall m :: m in Teams(data) ==> exists i :: 0 <= i < |values| && Teams(data)[i] == m;
    var i :| 0 <= i < |values| && values[i] == r;
    assert Teams(data)[i] in Teams(data);
  }

  /** One element of `chartData`: the gameweek, each manager's distance above the
      lowest running total (`dataPoint[team]`) and each manager's weekly points
      (`dataPoint[team + "_weekly"]`). */
  datatype Point = Point(gameweek: int, delta: map<string, int>, weekly: map<string, int>)

  function PointAt(data: seq<ConsistencyEntry>, gw: int): (r: Point)
    requires data != []
    ensures r.gameweek == gw
  {
    var teams, minimum := Teams(data), Minimum(data, gw);
    Point(gw,
          Assign(teams, seq(|teams|, i requires 0 <= i < |teams| => OrZero(Cumulative(data, teams[i], gw)) - minimum)),
          Assign(teams, seq(|teams|, i requires 0 <= i < |teams| => OrZero(WeeklyOf(data, teams[i], gw)))))
  }

  function ChartPoints(data: seq<ConsistencyEntry>): (r: seq<Point>)
    requires data != []
    ensures |r| == |Gameweeks(data)|
    ensures forall k :: 0 <= k < |r| ==> r[k] == PointAt(data, Gameweeks(data)[k])
  {
    var gameweeks := Gameweeks(data);
    seq(|gameweeks|, k requires 0 <= k < |gameweeks| => PointAt(data, gameweeks[k]))
  }

  /** What the component renders: the empty-state message, or the lines of the
      managers over the chart points. */
  datatype Chart = NoData | Lines(teams: seq<string>, points: seq<Point>)

  function ChartOf(data: seq<ConsistencyEntry>): (r: Chart)
    ensures r.NoData? <==> data == []
    ensures r.Lines? ==> NoDup(r.teams) && |r.points| == |Gameweeks(data)|
    ensures r.Lines? ==> forall k :: 0 <= k < |r.points| ==> r.points[k].gameweek == Gameweeks(data)[k]
  {
    if data == [] then NoData else Lines(Teams(data), ChartPoints(data))
  }

  /** Each point has a distance and a weekly value for exactly the managers of the
      rows: their running total above the lowest one, and their points that week. */
  lemma {:induction false} PointKeys(data: seq<ConsistencyEntry>, gw: int)
    requires data != []
    ensures forall m :: m in PointAt(data, gw).delta <==> exists i :: 0 <= i < |data| && data[i].managerName == m
    ensures PointAt(data, gw).weekly.Keys == PointAt(data, gw).delta.Keys
    ensures forall m :: m in PointAt(data, gw).delta ==>
      && PointAt(data, gw).delta[m] == OrZero(Cumulative(data, m, gw)) - Minimum(data, gw)
      && PointAt(data, gw).weekly[m] == OrZero(WeeklyOf(data, m, gw))
  {
    TeamsFacts(data);
    var teams, minimum := Teams(data), Minimum(data, gw);
    AssignFacts(teams, seq(|teams|, i requires 0 <= i < |teams| => OrZero(Cumulative(data, teams[i], gw)) - minimum));
    AssignFacts(teams, seq(|teams|, i requires 0 <= i < |teams| => OrZero(WeeklyOf(data, teams[i], gw))));
    forall m | m in PointAt(data, gw).delta
      ensures PointAt(data, gw).delta[m] == OrZero(Cumulative(data, m, gw)) - Minimum(data, gw)
      ensures PointAt(data, gw).weekly[m] == OrZero(WeeklyOf(data, m, gw))
    {
      var i :| 0 <= i < |teams| && teams[i] == m;
    }
  }

  /** Nobody is below the lowest running total and the manager in last place is
      at 0. */
  lemma {:induction false} PointDistances(data: seq<ConsistencyEntry>, gw: int)
    requires data != []
    ensures forall m :: m in PointAt(data, gw).delta ==> PointAt(data, gw).delta[m] >= 0
    ensures exists m :: m in PointAt(data, gw).delta && PointAt(data, gw).delta[m] == 0
  {
    PointKeys(data, gw);
    TeamsFacts(data);
    var minimum := Minimum(data, gw);
    var m :| m in Teams(data) && minimum == OrZero(Cumulative(data, m, gw));
    assert m in PointAt(data, gw).delta;
  }

  function PointGameweek(p: Point): int { p.gameweek }

  /** The points are for the gameweeks of the rows, each once, ascending. */
  lemma {:induction false} PointGameweeks(data: seq<ConsistencyEntry>)
    requires data != []
    ensures MapSeq(ChartPoints(data), PointGameweek) == Gameweeks(data)
  {
    var points, gameweeks := ChartPoints(data), Gameweeks(data);
    forall k | 0 <= k < |points| ensures PointGameweek(points[k]) == gameweeks[k] {
      assert points[k] == PointAt(data, gameweeks[k]);
    }
  }

  // ----- The component

  /** The point lines 81-92 build from the dictionaries, for the managers `teams`. */
  function DictionaryPoint(teams: seq<string>, teamCumulative: map<string, map<int, int>>,
                           teamWeekly: map<string, map<int, int>>, gw: int, minimum: int): Point
    requires forall m :: m in teams ==> m in teamCumulative && m in teamWeekly
  {
    Point(gw,
          Assign(teams, seq(|teams|, i requires 0 <= i < |teams| => Read(teamCumulative, teams[i], gw) - minimum)),
          Assign(teams, seq(|teams|, i requires 0 <= i < |teams| => Read(teamWeekly, teams[i], gw))))
  }

  /** Dictionaries that hold the running totals and the weekly points of gameweek
      `gw` for the managers `teams`. */
  predicate HoldsWeek(data: seq<ConsistencyEntry>, teams: seq<string>, teamCumulative: map<string, map<int, int>>,
                      teamWeekly: map<string, map<int, int>>, gw: int)
    requires forall m :: m in teams ==> m in teamCumulative && m in teamWeekly
  {
    && (forall m :: m in teams ==> Read(teamCumulative, m, gw) == OrZero(Cumulative(data, m, gw)))
    && (forall m :: m in teams ==> Read(teamWeekly, m, gw) == OrZero(WeeklyOf(data, m, gw)))
  }

  /** Such dictionaries give the chart point. */
  lemma DictionaryPointIsPoint(data: seq<ConsistencyEntry>, teams: seq<string>, teamCumulative: map<string, map<int, int>>,
                               teamWeekly: map<string, map<int, int>>, gw: int)
    requires data != [] && teams == Teams(data)
    requires forall m :: m in teams ==> m in teamCumulative && m in teamWeekly
    requires HoldsWeek(data, teams, teamCumulative, teamWeekly, gw)
    ensures DictionaryPoint(teams, teamCumulative, teamWeekly, gw, Minimum(data, gw)) == PointAt(data, gw)
  {
    SameDeltas(data, teams, teamCumulative, gw, Minimum(data, gw));
    SameWeeks(data, teams, teamWeekly, gw);
  }

  lemma SameDeltas(data: seq<ConsistencyEntry>, teams: seq<string>, teamCumulative: map<string, map<int, int>>, gw: int, minimum: int)
    requires forall m :: m in teams ==> m in teamCumulative
    requires forall m :: m in teams ==> Read(teamCumulative, m, gw) == OrZero(Cumulative(data, m, gw))
    ensures seq(|teams|, i requires 0 <= i < |teams| => Read(teamCumulative, teams[i], gw) - minimum)
         == seq(|teams|, i requires 0 <= i < |teams| => OrZero(Cumulative(data, teams[i], gw)) - minimum)
  {
    assert forall i :: 0 <= i < |teams| ==> teams[i] in teams;
  }

  lemma SameWeeks(data: seq<ConsistencyEntry>, teams: seq<string>, teamWeekly: map<string, map<int, int>>, gw: int)
    requires forall m :: m in teams ==> m in teamWeekly
    requires forall m :: m in teams ==> Read(teamWeekly, m, gw) == OrZero(WeeklyOf(data, m, gw))
    ensures seq(|teams|, i requires 0 <= i < |teams| => Read(teamWeekly, teams[i], gw))
         == seq(|teams|, i requires 0 <= i < |teams| => OrZero(WeeklyOf(data, teams[i], gw)))
  {
    assert forall i :: 0 <= i < |teams| ==> teams[i] in teams;
  }

  /** ... and their `cumulativeValues` (line 84) are the running totals. */
  lemma ValuesFromDictionary(data: seq<ConsistencyEntry>, teams: seq<string>, teamCumulative: map<string, map<int, int>>,
                             teamWeekly: map<string, map<int, int>>, gw: int)
    requires teams == Teams(data)
    requires forall m :: m in teams ==> m in teamCumulative && m in teamWeekly
    requires HoldsWeek(data, teams, teamCumulative, teamWeekly, gw)
    ensures seq(|teams|, i requires 0 <= i < |teams| => Read(teamCumulative, teams[i], gw)) == Values(data, gw)
  {
    assert forall i :: 0 <= i < |teams| ==> teams[i] in teams;
  }

  /** The point built at gameweek `gw` (lines 81-94): `minimum` over the
      dictionary's `cumulativeValues`, then the forEach. */
  function DictionaryPointAt(teams: seq<string>, teamCumulative: map<string, map<int, int>>,
                             teamWeekly: map<string, map<int, int>>, gw: int): Point
    requires |teams| > 0
    requires forall m :: m in teams ==> m in teamCumulative && m in teamWeekly
  {
    var cumulativeValues := seq(|teams|, i requires 0 <= i < |teams| => Read(teamCumulative, teams[i], gw));
    DictionaryPoint(teams, teamCumulative, teamWeekly, gw, Min(cumulativeValues))
  }

  /** So the point the component builds at gameweek `gw` is the chart point. */
  lemma PointFromDictionaries(data: seq<ConsistencyEntry>, teams: seq<string>, teamCumulative: map<string, map<int, int>>,
                              teamWeekly: map<string, map<int, int>>, gw: int)
    requires data != [] && teams == Teams(data) && |teams| > 0
    requires forall m :: m in teams ==> m in teamCumulative && m in teamWeekly
    requires HoldsWeek(data, teams, teamCumulative, teamWeekly, gw)
    ensures DictionaryPointAt(teams, teamCumulative, teamWeekly, gw) == PointAt(data, gw)
  {
    ValuesFromDictionary(data, teams, teamCumulative, teamWeekly, gw);
    assert Min(Values(data, gw)) == Minimum(data, gw);
    DictionaryPointIsPoint(data, teams, teamCumulative, teamWeekly, gw);
  }

  /** ... and so are all the points. */
  lemma {:induction false} ChartFromDictionaries(data: seq<ConsistencyEntry>, teams: seq<string>,
                                                 teamCumulative: map<string, map<int, int>>,
                                                 teamWeekly: map<string, map<int, int>>, chartData: seq<Point>)
    requires data != [] && teams == Teams(data) && |teams| > 0
    requires forall m :: m in teams ==> m in teamCumulative && m in teamWeekly
    requires forall gw :: HoldsWeek(data, teams, teamCumulative, teamWeekly, gw)
    requires |chartData| == |Gameweeks(data)|
    requires forall k :: 0 <= k < |chartData| ==>
      chartData[k] == DictionaryPointAt(teams, teamCumulative, teamWeekly, Gameweeks(data)[k])
    ensures chartData == ChartPoints(data)
  {
    forall k | 0 <= k < |chartData| ensures chartData[k] == ChartPoints(data)[k] {
      PointFromDictionaries(data, teams, teamCumulative, teamWeekly, Gameweeks(data)[k]);
    }
  }

  /** Lines 62-74: the sort, then the pass. Afterwards the dictionaries have an
      entry for every manager of the rows, and hold that manager's running totals
      and weekly points. */
  method SortAndAccumulate(data: seq<ConsistencyEntry>)
    returns (teams: seq<string>, teamCumulative: map<string, map<int, int>>, teamWeekly: map<string, map<int, int>>)
    ensures teams == Teams(data)
    ensures forall m :: m in teamCumulative <==> m in teams
    ensures forall m :: m in teamWeekly <==> m in teams
    ensures forall gw :: HoldsWeek(data, teams, teamCumulative, teamWeekly, gw)
  {
    var sortedData := SortedData(data);
    teams, teamCumulative, teamWeekly := Accumulate(sortedData);
    forall gw ensures HoldsWeek(data, teams, teamCumulative, teamWeekly, gw) {
      forall m | m in teams
        ensures Read(teamCumulative, m, gw) == OrZero(Cumulative(data, m, gw))
        ensures Read(teamWeekly, m, gw) == OrZero(WeeklyOf(data, m, gw))
      {
        ReadsCumulative(data, teamCumulative, teamWeekly, m, gw);
      }
    }
  }

  /** Lines 88-92: the forEach that fills one data point from the dictionaries. */
  method FillPoint(teams: seq<string>, teamCumulative: map<string, map<int, int>>,
                   teamWeekly: map<string, map<int, int>>, gw: int, minimum: int)
    returns (dataPoint: Point)
    requires forall m :: m in teams ==> m in teamCumulative && m in teamWeekly
    ensures dataPoint == DictionaryPoint(teams, teamCumulative, teamWeekly, gw, minimum)
  {
    ghost var deltas := seq(|teams|, i requires 0 <= i < |teams| => Read(teamCumulative, teams[i], gw) - minimum);
    ghost var weeks := seq(|teams|, i requires 0 <= i < |teams| => Read(teamWeekly, teams[i], gw));
    var delta: map<string, int> := map[];
    var weekly: map<string, int> := map[];
    for k := 0 to |teams|
      invariant delta == Assign(teams[..k], deltas[..k])
      invariant weekly == Assign(teams[..k], weeks[..k])
    {
      var team := teams[k];
      var cumulative := Read(teamCumulative, team, gw);
      assert deltas[k] == cumulative - minimum && weeks[k] == Read(teamWeekly, team, gw);
      AssignStep(teams, deltas, k);
      AssignStep(teams, weeks, k);
      delta := delta[team := cumulative - minimum];
      weekly := weekly[team := Read(teamWeekly, team, gw)];
    }
    assert teams[..|teams|] == teams && deltas[..|teams|] == deltas && weeks[..|teams|] == weeks;
    dataPoint := Point(gw, delta, weekly);
  }

  /** Lines 80-95: `gameweeks.map(...)`, one data point per gameweek. */
  method BuildPoints(teams: seq<string>, teamCumulative: map<string, map<int, int>>,
                     teamWeekly: map<string, map<int, int>>, gameweeks: seq<int>)
    returns (chartData: seq<Point>)
    requires |teams| > 0
    requires forall m :: m in teams ==> m in teamCumulative && m in teamWeekly
    ensures |chartData| == |gameweeks|
    ensures forall k :: 0 <= k < |chartData| ==>
      chartData[k] == DictionaryPointAt(teams, teamCumulative, teamWeekly, gameweeks[k])
  {
    chartData := [];
    for k := 0 to |gameweeks|
      invariant |chartData| == k
      invariant forall j :: 0 <= j < k ==> chartData[j] == DictionaryPointAt(teams, teamCumulative, teamWeekly, gameweeks[j])
    {
      var gw := gameweeks[k];
      var cumulativeValues := seq(|teams|, i requires 0 <= i < |teams| => Read(teamCumulative, teams[i], gw));
      var minimum := Min(cumulativeValues);
      var dataPoint := FillPoint(teams, teamCumulative, teamWeekly, gw, minimum);
      chartData := chartData + [dataPoint];
    }
  }

  /** Lines 44-97: the empty-state check, the sort and the pass, and the chart
      points. */
  method CumulativeChart(data: seq<ConsistencyEntry>) returns (chart: Chart)
    ensures chart == ChartOf(data)
  {
    if data == [] {
      return NoData;
    }
    var teams, teamCumulative, teamWeekly := SortAndAccumulate(data);
    TeamsFacts(data);
    var chartData := BuildPoints(teams, teamCumulative, teamWeekly, Gameweeks(data));
    ChartFromDictionaries(data, teams, teamCumulative, teamWeekly, chartData);
    chart := Lines(teams, chartData);
  }

  /** Rows already in gameweek order are left as they are by the sort. */
  lemma {:induction false} SortedDataOfSorted(data: seq<ConsistencyEntry>)
    requires forall i, j :: 0 <= i < j < |data| ==> data[i].gameweek <= data[j].gameweek
    ensures SortedData(data) == data
  {
    assert SortedBy(data, ByGameweek);
    StableSortUnique(data, data, ByGameweek);
  }

  /** With one row per manager and gameweek, as the league data has, the weekly
      value is that row's points. */
  lemma {:induction false} WeeklyOfUnique(data: seq<ConsistencyEntry>, m: string, gw: int, i: int)
    requires 0 <= i < |data| && Matches(data[i], m, gw)
    requires forall j :: 0 <= j < |data| && j != i ==> !Matches(data[j], m, gw)
    ensures WeeklyOf(data, m, gw) == Some(data[i].weeklyPoints)
  {
    WeeklyOfNone(data, m, gw);
    WeeklyOfLast(data, m, gw);
  }

  // ----- A worked example

  /** Two managers over two gameweeks: A scores 10 and 10, B scores 5 and 20. */
  predicate ExampleRows(data: seq<ConsistencyEntry>) {
    && |data| == 4
    && data[0].managerName == "A" && data[0].gameweek == 1 && data[0].weeklyPoints == 10
    && data[1].managerName == "B" && data[1].gameweek == 1 && data[1].weeklyPoints == 5
    && data[2].managerName == "A" && data[2].gameweek == 2 && data[2].weeklyPoints == 10
    && data[3].managerName == "B" && data[3].gameweek == 2 && data[3].weeklyPoints == 20
  }

  lemma {:induction false} ExampleTeams(data: seq<ConsistencyEntry>)
    requires ExampleRows(data)
    ensures Teams(data) == ["A", "B"]
  {
    SortedDataOfSorted(data);
    assert data[..3][..2][..1] == data[..1];
    assert DistinctBy(data[..1], Manager) == ["A"];
    assert DistinctBy(data[..3][..2], Manager) == ["A", "B"];
    assert DistinctBy(data[..3], Manager) == ["A", "B"];
  }

  lemma {:induction false} ExampleGameweeks(data: seq<ConsistencyEntry>)
    requires ExampleRows(data)
    ensures Gameweeks(data) == [1, 2]
  {
    ExampleSeen(data);
    assert SortedBy([1, 2], Id);
    StableSortUnique([1, 2], [1, 2], Id);
  }

  lemma {:induction false} ExampleSeen(data: seq<ConsistencyEntry>)
    requires ExampleRows(data)
    ensures DistinctBy(data, ByGameweek) == [1, 2]
  {
    assert data[..3][..2][..1] == data[..1];
    assert DistinctBy(data[..1], ByGameweek) == [1];
    assert DistinctBy(data[..3][..2], ByGameweek) == [1];
    assert DistinctBy(data[..3], ByGameweek) == [1, 2];
  }

  lemma {:induction false} ExampleTotals(data: seq<ConsistencyEntry>)
    requires ExampleRows(data)
    ensures Cumulative(data, "A", 1) == Some(10) && Cumulative(data, "B", 1) == Some(5)
    ensures Cumulative(data, "A", 2) == Some(20) && Cumulative(data, "B", 2) == Some(25)
    ensures WeeklyOf(data, "A", 1) == Some(10) && WeeklyOf(data, "B", 1) == Some(5)
    ensures WeeklyOf(data, "A", 2) == Some(10) && WeeklyOf(data, "B", 2) == Some(20)
  {
    WeeklyOfNone(data, "A", 0);
    WeeklyOfNone(data, "B", 0);
    WeeklyOfUnique(data, "A", 1, 0);
    WeeklyOfUnique(data, "B", 1, 1);
    WeeklyOfUnique(data, "A", 2, 2);
    WeeklyOfUnique(data, "B", 2, 3);
  }

  /** The chart shows A 5 ahead of B after gameweek 1 and B 5 ahead of A after
      gameweek 2, with the weekly points alongside. */
  lemma {:induction false} ExampleChart(data: seq<ConsistencyEntry>)
    requires ExampleRows(data)
    ensures ChartOf(data)
         == Lines(["A", "B"], [Point(1, map["A" := 5, "B" := 0], map["A" := 10, "B" := 5]),
                               Point(2, map["A" := 0, "B" := 5], map["A" := 10, "B" := 20])])
  {
    ExampleTeams(data);
    ExampleGameweeks(data);
    ExampleTotals(data);
    ExamplePoint(data, 1, 10, 5, map["A" := 5, "B" := 0], map["A" := 10, "B" := 5]);
    ExamplePoint(data, 2, 20, 25, map["A" := 0, "B" := 5], map["A" := 10, "B" := 20]);
    TwoPoints(data, PointAt(data, 1), PointAt(data, 2));
  }

  lemma TwoPoints(data: seq<ConsistencyEntry>, p1: Point, p2: Point)
    requires data != [] && Gameweeks(data) == [1, 2]
    requires PointAt(data, 1) == p1 && PointAt(data, 2) == p2
    ensures ChartPoints(data) == [p1, p2]
  {
  }

  lemma {:induction false} ExamplePoint(data: seq<ConsistencyEntry>, gw: int, ta: int, tb: int,
                                        delta: map<string, int>, weekly: map<string, int>)
    requires data != [] && Teams(data) == ["A", "B"]
    requires Cumulative(data, "A", gw) == Some(ta) && Cumulative(data, "B", gw) == Some(tb)
    requires delta == map["A" := ta - (if ta <= tb then ta else tb), "B" := tb - (if ta <= tb then ta else tb)]
    requires weekly == map["A" := OrZero(WeeklyOf(data, "A", gw)), "B" := OrZero(WeeklyOf(data, "B", gw))]
    ensures PointAt(data, gw) == Point(gw, delta, weekly)
  {
    ExampleMinimum(data, gw, ta, tb);
    ExampleDeltas(data, gw, ta, tb, Minimum(data, gw), delta);
    ExampleWeeks(data, gw, weekly);
  }

  lemma ExampleDeltas(data: seq<ConsistencyEntry>, gw: int, ta: int, tb: int, minimum: int, delta: map<string, int>)
    requires Teams(data) == ["A", "B"]
    requires Cumulative(data, "A", gw) == Some(ta) && Cumulative(data, "B", gw) == Some(tb)
    requires delta == map["A" := ta - minimum, "B" := tb - minimum]
    ensures var teams := Teams(data);
      Assign(teams, seq(|teams|, i requires 0 <= i < |teams| => OrZero(Cumulative(data, teams[i], gw)) - minimum)) == delta
  {
    var teams := Teams(data);
    ExampleDeltaValues(data, gw, ta, tb, minimum);
    AssignPair("A", "B", seq(|teams|, i requires 0 <= i < |teams| => OrZero(Cumulative(data, teams[i], gw)) - minimum));
  }

  lemma ExampleDeltaValues(data: seq<ConsistencyEntry>, gw: int, ta: int, tb: int, minimum: int)
    requires Teams(data) == ["A", "B"]
    requires Cumulative(data, "A", gw) == Some(ta) && Cumulative(data, "B", gw) == Some(tb)
    ensures var teams := Teams(data);
      seq(|teams|, i requires 0 <= i < |teams| => OrZero(Cumulative(data, teams[i], gw)) - minimum)
        == [ta - minimum, tb - minimum]
  {
    var teams := Teams(data);
    var ds := seq(|teams|, i requires 0 <= i < |teams| => OrZero(Cumulative(data, teams[i], gw)) - minimum);
    assert ds[0] == ta - minimum && ds[1] == tb - minimum;
  }

  lemma ExampleWeeks(data: seq<ConsistencyEntry>, gw: int, weekly: map<string, int>)
    requires data != [] && Teams(data) == ["A", "B"]
    requires weekly == map["A" := OrZero(WeeklyOf(data, "A", gw)), "B" := OrZero(WeeklyOf(data, "B", gw))]
    ensures var teams := Teams(data);
      Assign(teams, seq(|teams|, i requires 0 <= i < |teams| => OrZero(WeeklyOf(data, teams[i], gw)))) == weekly
  {
    var teams := Teams(data);
    var ws := seq(|teams|, i requires 0 <= i < |teams| => OrZero(WeeklyOf(data, teams[i], gw)));
    assert ws == [OrZero(WeeklyOf(data, "A", gw)), OrZero(WeeklyOf(data, "B", gw))];
    AssignPair("A", "B", ws);
  }

  lemma ExampleMinimum(data: seq<ConsistencyEntry>, gw: int, ta: int, tb: int)
    requires data != [] && Teams(data) == ["A", "B"]
    requires Cumulative(data, "A", gw) == Some(ta) && Cumulative(data, "B", gw) == Some(tb)
    ensures Minimum(data, gw) == if ta <= tb then ta else tb
  {
    assert "A" in Teams(data) && "B" in Teams(data);
    assert forall m :: m in Teams(data) ==> m == "A" || m == "B";
  }

  lemma AssignPair(a: string, b: string, values: seq<int>)
    requires a != b && |values| == 2
    ensures Assign([a, b], values) == map[a := values[0], b := values[1]]
  {
    assert [a, b][..1] == [a] && values[..1] == [values[0]];
    assert [a][..0] == [] && [values[0]][..0] == [];
    assert Assign([a], [values[0]]) == map[][a := values[0]];
    assert Assign([a, b], values) == Assign([a], [values[0]])[b := values[1]];
  }
}
