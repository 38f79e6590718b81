/** The player-contribution chart (PlayerSunburstChart.tsx): per team, the five
    highest-scoring players as shares of the team total plus an "Others" slice for
    the rest, teams ordered by total; the bar keys collected over all teams; which
    shade of the team colour each cell gets; and when a slice is labelled. */
module PlayerSunburstChart {
  import opened Records
  import opened Seqs
  import opened Sorting
  import Grouping
  import Palette
  import opened Shades

  /** The synthetic key of the remainder slice. */
  const OthersKey: string := "Others"

  function Manager(p: PlayerContribution): string { p.managerName }

  function Points(p: PlayerContribution): int { p.totalPoints }

  function WebName(p: PlayerContribution): string { p.webName }

  function DescendingPoints(p: PlayerContribution): int { -p.totalPoints }

  /** `teamTotals[team]`: the sum of the points of the team's players. */
  function TeamTotal(data: seq<PlayerContribution>, team: string): int {
    SumWhere(data, Manager, Points, team)
  }

  /** The team's players, filtered from the rows and sorted by points, highest first. */
  function TeamPlayers(data: seq<PlayerContribution>, team: string): (r: seq<PlayerContribution>)
    ensures multiset(r) == multiset(Select(data, Manager, team))
    ensures forall i, j :: 0 <= i < j < |r| ==> r[i].totalPoints >= r[j].totalPoints
    ensures Stable(r, Select(data, Manager, team), DescendingPoints)
  {
    StableSort(Select(data, Manager, team), DescendingPoints)
  }

  /** The sum of the points of `ps`. */
  function SumPoints(ps: seq<PlayerContribution>): int {
    if ps == [] then 0 else SumPoints(ps[..|ps| - 1]) + ps[|ps| - 1].totalPoints
  }

  /** How many players `slice(0, 5)` keeps. */
  function TopCount(ps: seq<PlayerContribution>): nat {
    if |ps| < 5 then |ps| else 5
  }

  /** The share the code evidently intends: `x / total * 100`, and 0 percent of a
      total of 0. */
  function Share(x: int, total: int): (s: real)
    ensures total == 0 ==> s == 0.0
    ensures total != 0 ==> s * (total as real) == (x as real) * 100.0
  {
    if total == 0 then 0.0 else (x as real / total as real) * 100.0
  }

  /** `(x / total) * 100` as written: a finite number when the total is not 0, and
      for a total of 0 no share at all (`NaN` or an infinity in the code). */
  function ShareAsWritten(x: int, total: int): (s: Option<real>)
    ensures s.None? <==> total == 0
    ensures s.Some? ==> s.value == Share(x, total)
  {
    if total == 0 then None else Some((x as real / total as real) * 100.0)
  }

  /** One row of the chart data: `result[key]` is a share and `result[key + "_pts"]`
      the points behind it, kept here as two maps. A share is `None` where the
      division gives `NaN` or an infinity. */
  datatype TeamBreakdown = TeamBreakdown(
    team: string, total: int, shares: map<string, Option<real>>, points: map<string, int>,
    playerOrder: seq<string>)

  /** Writes one slice: its share as the code divides, its points, and its place in
      `playerOrder`. */
  function AddSlice(b: TeamBreakdown, key: string, x: int): (r: TeamBreakdown)
    ensures r.team == b.team && r.total == b.total
    ensures key in r.shares && key in r.points && r.points[key] == x
    ensures r.shares[key].None? <==> b.total == 0
    ensures r.shares[key].Some? ==> r.shares[key].value * (b.total as real) == (x as real) * 100.0
    ensures r.playerOrder == b.playerOrder + [key]
  {
    b.(shares := b.shares[key := ShareAsWritten(x, b.total)], points := b.points[key := x],
       playerOrder := b.playerOrder + [key])
  }

  /** Writing one slice leaves the share and the points of every other key as they were. */
  lemma AddSliceFrame(b: TeamBreakdown, key: string, x: int)
    ensures var r := AddSlice(b, key, x);
      forall k :: k != key ==>
        && (k in r.shares <==> k in b.shares) && (k in b.shares ==> r.shares[k] == b.shares[k])
        && (k in r.points <==> k in b.points) && (k in b.points ==> r.points[k] == b.points[k])
  {
  }

  /** What `top5.forEach` leaves in the row. */
  function AddPlayers(b: TeamBreakdown, top: seq<PlayerContribution>): (r: TeamBreakdown)
    ensures r.team == b.team && r.total == b.total
    ensures |r.playerOrder| == |b.playerOrder| + |top|
  {
    if top == [] then b
    else AddSlice(AddPlayers(b, top[..|top| - 1]), top[|top| - 1].webName, top[|top| - 1].totalPoints)
  }

  /** The row of a team whose players, best first, are `ps` and whose total is `total`. */
  function Breakdown(team: string, total: int, ps: seq<PlayerContribution>): (b: TeamBreakdown)
    ensures b.team == team && b.total == total
  {
    var b := AddPlayers(TeamBreakdown(team, total, map[], map[], []), ps[..TopCount(ps)]);
    var othersTotal := SumPoints(ps[TopCount(ps)..]);
    if othersTotal > 0 then AddSlice(b, OthersKey, othersTotal) else b
  }

  /** The body of the `Object.keys(teamTotals).map(...)` callback, after the sort. */
  method BuildTeam(team: string, total: int, teamPlayers: seq<PlayerContribution>) returns (result: TeamBreakdown)
    ensures result == Breakdown(team, total, teamPlayers)
  {
    var n := if |teamPlayers| < 5 then |teamPlayers| else 5;
    var top5 := teamPlayers[..n];
    var others := teamPlayers[n..];
    var othersTotal := SumPoints(others);
    result := TeamBreakdown(team, total, map[], map[], []);
    result := AddTopPlayers(result, top5);
    if othersTotal > 0 {
      var share := if total == 0 then None else Some((othersTotal as real / total as real) * 100.0);
      assert share == ShareAsWritten(othersTotal, total);
      result := result.(shares := result.shares[OthersKey := share]);
      result := result.(points := result.points[OthersKey := othersTotal]);
      result := result.(playerOrder := result.playerOrder + [OthersKey]);
    }
  }

  /** Lines 124-129: `top5.forEach`, writing each player's share, points and place. */
  method AddTopPlayers(row: TeamBreakdown, top5: seq<PlayerContribution>) returns (result: TeamBreakdown)
    ensures result == AddPlayers(row, top5)
  {
    result := row;
    for k := 0 to |top5|
      invariant result == AddPlayers(row, top5[..k])
    {
      var player := top5[k];
      var playerKey := player.webName;
      var share := if result.total == 0 then None else Some((player.totalPoints as real / result.total as real) * 100.0);
      assert share == ShareAsWritten(player.totalPoints, row.total);
      ghost var prev := result;
      result := result.(shares := result.shares[playerKey := share]);
      result := result.(points := result.points[playerKey := player.totalPoints]);
      result := result.(playerOrder := result.playerOrder + [playerKey]);
      assert result == AddSlice(prev, playerKey, player.totalPoints);
      assert top5[..k + 1][..k] == top5[..k];
    }
    assert top5[..|top5|] == top5;
  }

  // ----- The shape of one row

  lemma {:induction false} AddPlayersOrder(b: TeamBreakdown, top: seq<PlayerContribution>)
    ensures AddPlayers(b, top).playerOrder == b.playerOrder + MapSeq(top, WebName)
  {
    if top != [] {
      AddPlayersOrder(b, top[..|top| - 1]);
      MapAppend(top[..|top| - 1], [top[|top| - 1]], WebName);
      assert top == top[..|top| - 1] + [top[|top| - 1]];
    }
  }

  /** At most five players and then "Others", which is there exactly when the players
      after the first five scored more than 0 in total, and is then last. */
  lemma {:induction false} BreakdownOrder(team: string, total: int, ps: seq<PlayerContribution>)
    ensures var b := Breakdown(team, total, ps);
      && b.team == team && b.total == total
      && b.playerOrder == MapSeq(ps[..TopCount(ps)], WebName)
                          + (if SumPoints(ps[TopCount(ps)..]) > 0 then [OthersKey] else [])
      && |b.playerOrder| <= 6
      && (OthersKey !in MapSeq(ps, WebName) ==>
            (OthersKey in b.playerOrder <==> SumPoints(ps[TopCount(ps)..]) > 0))
      && (SumPoints(ps[TopCount(ps)..]) > 0 ==> b.playerOrder[|b.playerOrder| - 1] == OthersKey)
  {
    var top := ps[..TopCount(ps)];
    AddPlayersOrder(TeamBreakdown(team, total, map[], map[], []), top);
    assert forall i :: 0 <= i < |top| ==> MapSeq(top, WebName)[i] == MapSeq(ps, WebName)[i];
  }

  /** With distinct player names, every top-five player's slice holds its own share
      of the team total and its own points. */
  lemma {:induction false} AddPlayersShares(b: TeamBreakdown, top: seq<PlayerContribution>)
    requires NoDup(MapSeq(top, WebName))
    ensures forall p :: p in top ==>
      && p.webName in AddPlayers(b, top).shares && p.webName in AddPlayers(b, top).points
      && AddPlayers(b, top).shares[p.webName] == ShareAsWritten(p.totalPoints, b.total)
      && AddPlayers(b, top).points[p.webName] == p.totalPoints
  {
    if top != [] {
      var t', x := top[..|top| - 1], top[|top| - 1];
      assert top == t' + [x];
      MapAppend(t', [x], WebName);
      assert MapSeq(t', WebName) == MapSeq(top, WebName)[..|t'|];
      AddPlayersShares(b, t');
      var a := AddPlayers(b, t');
      AddSliceFrame(a, x.webName, x.totalPoints);
      forall p | p in t' ensures p.webName != x.webName {
        var i :| 0 <= i < |t'| && t'[i] == p;
        assert MapSeq(top, WebName)[i] == p.webName;
        assert MapSeq(top, WebName)[|t'|] == x.webName;
      }
    }
  }

  /** Adding the top-five players leaves the share and the points of every key that
      is not one of their names as they were. */
  lemma {:induction false} AddPlayersFrame(b: TeamBreakdown, top: seq<PlayerContribution>)
    ensures forall k :: k !in MapSeq(top, WebName) ==>
      && (k in AddPlayers(b, top).shares <==> k in b.shares)
      && (k in b.shares ==> AddPlayers(b, top).shares[k] == b.shares[k])
      && (k in AddPlayers(b, top).points <==> k in b.points)
      && (k in b.points ==> AddPlayers(b, top).points[k] == b.points[k])
  {
    if top != [] {
      var t', x := top[..|top| - 1], top[|top| - 1];
      assert top == t' + [x];
      MapAppend(t', [x], WebName);
      AddPlayersFrame(b, t');
      AddSliceFrame(AddPlayers(b, t'), x.webName, x.totalPoints);
    }
  }

  /** In a finished row of distinct player names, none of them the "Others" key, each
      top-five player's slice holds its own share of the team total and its own points,
      and the "Others" slice, when drawn, holds the share and the points of the rest. */
  lemma BreakdownShares(team: string, total: int, ps: seq<PlayerContribution>)
    requires NoDup(MapSeq(ps, WebName)) && OthersKey !in MapSeq(ps, WebName)
    ensures var b := Breakdown(team, total, ps);
      forall p :: p in ps[..TopCount(ps)] ==>
        && p.webName in b.shares && p.webName in b.points
        && b.shares[p.webName] == ShareAsWritten(p.totalPoints, total)
        && b.points[p.webName] == p.totalPoints
    ensures var b, y := Breakdown(team, total, ps), SumPoints(ps[TopCount(ps)..]);
      y > 0 ==>
        && OthersKey in b.shares && OthersKey in b.points
        && b.shares[OthersKey] == ShareAsWritten(y, total) && b.points[OthersKey] == y
  {
    var top := ps[..TopCount(ps)];
    var b0 := TeamBreakdown(team, total, map[], map[], []);
    var a := AddPlayers(b0, top);
    var y := SumPoints(ps[TopCount(ps)..]);
    TopNames(ps);
    AddPlayersShares(b0, top);
    if y > 0 {
      assert Breakdown(team, total, ps) == AddSlice(a, OthersKey, y);
      AddSliceFrame(a, OthersKey, y);
      forall p | p in top ensures p.webName != OthersKey {
        var i :| 0 <= i < |top| && top[i] == p;
        assert MapSeq(top, WebName)[i] == p.webName;
      }
    } else {
      assert Breakdown(team, total, ps) == a;
    }
  }

  /** The share stored under `k` as a number; only a number is added up. */
  function ShareValue(m: map<string, Option<real>>, k: string): real {
    if k in m && m[k].Some? then m[k].value else 0.0
  }

  /** The sum of the shares stored under `keys`. */
  function SumOver(keys: seq<string>, m: map<string, Option<real>>): real {
    if keys == [] then 0.0
    else SumOver(keys[..|keys| - 1], m) + ShareValue(m, keys[|keys| - 1])
  }

  lemma {:induction false} SumOverUpdate(keys: seq<string>, m: map<string, Option<real>>, k: string, v: Option<real>)
    requires k !in keys
    ensures SumOver(keys, m[k := v]) == SumOver(keys, m)
  {
    if keys != [] {
      SumOverUpdate(keys[..|keys| - 1], m, k, v);
    }
  }

  lemma ShareAdd(x: int, y: int, total: int)
    ensures Share(x, total) + Share(y, total) == Share(x + y, total)
  {
    if total != 0 {
      assert x as real / total as real + y as real / total as real == (x + y) as real / total as real;
    }
  }

  /** The shares of the top five add up to the share of their points together. */
  lemma {:induction false} TopSharesSum(b: TeamBreakdown, top: seq<PlayerContribution>)
    requires NoDup(MapSeq(top, WebName))
    requires forall k :: k in MapSeq(top, WebName) ==> k !in b.shares
    ensures SumOver(MapSeq(top, WebName), AddPlayers(b, top).shares) == Share(SumPoints(top), b.total)
  {
    if top == [] {
      assert Share(0, b.total) == 0.0;
    } else {
      var t', x := top[..|top| - 1], top[|top| - 1];
      var names := MapSeq(t', WebName);
      LastName(top);
      var prev := AddPlayers(b, t');
      TopSharesSum(b, t');
      SumOverUpdate(names, prev.shares, x.webName, ShareAsWritten(x.totalPoints, b.total));
      ShareAdd(SumPoints(t'), x.totalPoints, b.total);
    }
  }

  /** Dropping the last player drops the last name, which the others do not share. */
  lemma LastName(top: seq<PlayerContribution>)
    requires top != [] && NoDup(MapSeq(top, WebName))
    ensures var names := MapSeq(top[..|top| - 1], WebName);
      && MapSeq(top, WebName) == names + [top[|top| - 1].webName]
      && NoDup(names) && top[|top| - 1].webName !in names
  {
    var t', x := top[..|top| - 1], top[|top| - 1];
    assert top == t' + [x];
    MapAppend(t', [x], WebName);
    NoDupLast(MapSeq(top, WebName));
    assert MapSeq(top, WebName)[..|t'|] == MapSeq(t', WebName);
  }

  lemma {:induction false} SumPointsAppend(a: seq<PlayerContribution>, b: seq<PlayerContribution>)
    ensures SumPoints(a + b) == SumPoints(a) + SumPoints(b)
  {
    if b == [] {
      assert a + b == a;
    } else {
      assert (a + b)[..|a + b| - 1] == a + b[..|b| - 1];
      SumPointsAppend(a, b[..|b| - 1]);
    }
  }

  lemma {:induction false} SumPointsNonNegative(ps: seq<PlayerContribution>)
    requires forall i :: 0 <= i < |ps| ==> ps[i].totalPoints >= 0
    ensures SumPoints(ps) >= 0
  {
    if ps != [] {
      SumPointsNonNegative(ps[..|ps| - 1]);
    }
  }

  /** Adding a slice under a new key adds its share to the sum over the order. */
  lemma {:induction false} SliceSum(b: TeamBreakdown, key: string, x: int)
    requires key !in b.playerOrder
    ensures SumOver(AddSlice(b, key, x).playerOrder, AddSlice(b, key, x).shares)
         == SumOver(b.playerOrder, b.shares) + Share(x, b.total)
  {
    var order := b.playerOrder + [key];
    assert order[..|order| - 1] == b.playerOrder;
    SumOverUpdate(b.playerOrder, b.shares, key, ShareAsWritten(x, b.total));
  }

  /** The names of the first five of a list of distinct names are distinct, and
      "Others" is not among them when it is not in the list. */
  lemma {:induction false} TopNames(ps: seq<PlayerContribution>)
    ensures NoDup(MapSeq(ps, WebName)) ==> NoDup(MapSeq(ps[..TopCount(ps)], WebName))
    ensures OthersKey !in MapSeq(ps, WebName) ==> OthersKey !in MapSeq(ps[..TopCount(ps)], WebName)
  {
    MapPrefix(ps, TopCount(ps), WebName);
    NoDupPrefix(MapSeq(ps, WebName), TopCount(ps));
  }

  /** With points that are not negative and a total that is the team's points, the
      slices of a row add up to 100 percent. */
  lemma {:induction false} SharesSumTo100(team: string, total: int, ps: seq<PlayerContribution>)
    requires total == SumPoints(ps) && total > 0
    requires forall i :: 0 <= i < |ps| ==> ps[i].totalPoints >= 0
    requires NoDup(MapSeq(ps, WebName)) && OthersKey !in MapSeq(ps, WebName)
    ensures var b := Breakdown(team, total, ps); SumOver(b.playerOrder, b.shares) == 100.0
  {
    var n := TopCount(ps);
    var top, rest := ps[..n], ps[n..];
    assert ps == top + rest;
    SumPointsAppend(top, rest);
    TopRowSum(team, total, ps);
    RestNonNegative(ps, n);
    BreakdownSum(team, total, ps);
    ShareWhole(total);
  }

  /** Once the top five add up to their share together, the row adds up to the share
      of the top five and, when it is drawn, of the rest. */
  lemma BreakdownSum(team: string, total: int, ps: seq<PlayerContribution>)
    requires var b := AddPlayers(TeamBreakdown(team, total, map[], map[], []), ps[..TopCount(ps)]);
      OthersKey !in b.playerOrder && SumOver(b.playerOrder, b.shares) == Share(SumPoints(ps[..TopCount(ps)]), total)
    ensures var w := Breakdown(team, total, ps);
      var x, y := SumPoints(ps[..TopCount(ps)]), SumPoints(ps[TopCount(ps)..]);
      SumOver(w.playerOrder, w.shares) == Share(if y > 0 then x + y else x, total)
  {
    var top, rest := ps[..TopCount(ps)], ps[TopCount(ps)..];
    var b := AddPlayers(TeamBreakdown(team, total, map[], map[], []), top);
    if SumPoints(rest) > 0 {
      assert Breakdown(team, total, ps) == AddSlice(b, OthersKey, SumPoints(rest));
      OthersSliceSum(b, SumPoints(top), SumPoints(rest));
    }
  }

  /** The "Others" slice adds the share of the rest to the share of the top five. */
  lemma OthersSliceSum(b: TeamBreakdown, x: int, y: int)
    requires OthersKey !in b.playerOrder
    requires SumOver(b.playerOrder, b.shares) == Share(x, b.total)
    ensures var w := AddSlice(b, OthersKey, y); SumOver(w.playerOrder, w.shares) == Share(x + y, b.total)
  {
    SliceSum(b, OthersKey, y);
    ShareAdd(x, y, b.total);
  }

  /** Before "Others", the slices of the top five add up to their share together. */
  lemma TopRowSum(team: string, total: int, ps: seq<PlayerContribution>)
    requires NoDup(MapSeq(ps, WebName)) && OthersKey !in MapSeq(ps, WebName)
    ensures var top := ps[..TopCount(ps)];
      var b := AddPlayers(TeamBreakdown(team, total, map[], map[], []), top);
      && b.playerOrder == MapSeq(top, WebName) && OthersKey !in b.playerOrder
      && SumOver(b.playerOrder, b.shares) == Share(SumPoints(top), total)
  {
    var top := ps[..TopCount(ps)];
    var b0 := TeamBreakdown(team, total, map[], map[], []);
    TopNames(ps);
    TopSharesSum(b0, top);
    AddPlayersOrder(b0, top);
  }

  lemma RestNonNegative(ps: seq<PlayerContribution>, n: int)
    requires 0 <= n <= |ps| && forall i :: 0 <= i < |ps| ==> ps[i].totalPoints >= 0
    ensures SumPoints(ps[n..]) >= 0
  {
    assert forall i :: 0 <= i < |ps[n..]| ==> ps[n..][i] == ps[n + i];
    SumPointsNonNegative(ps[n..]);
  }

  lemma ShareWhole(total: int)
    requires total > 0
    ensures Share(total, total) == 100.0
  {
    assert total as real / total as real == 1.0;
  }

  // ----- A team whose players have scored nothing

  /** Every slice on a row's `playerOrder` is written, and a share is missing exactly
      when the total is 0. */
  predicate SlicesWritten(b: TeamBreakdown) {
    && (forall k :: k in b.playerOrder ==> k in b.shares)
    && (forall k :: k in b.shares ==> (b.shares[k].None? <==> b.total == 0))
  }

  lemma {:induction false} AddPlayersWritten(b: TeamBreakdown, top: seq<PlayerContribution>)
    requires SlicesWritten(b)
    ensures SlicesWritten(AddPlayers(b, top))
  {
    if top != [] {
      AddPlayersWritten(b, top[..|top| - 1]);
    }
  }

  /** As written, a row has a share for every key of its order, and all of them are
      missing (`NaN` or an infinity) exactly when the team total is 0. */
  lemma {:induction false} BreakdownWritten(team: string, total: int, ps: seq<PlayerContribution>)
    ensures SlicesWritten(Breakdown(team, total, ps))
  {
    AddPlayersWritten(TeamBreakdown(team, total, map[], map[], []), ps[..TopCount(ps)]);
  }

  /** A team whose one player scored 0 has total 0, and the code draws that player's
      slice with no number. */
  lemma ZeroPointsTeam()
    ensures var data := [PlayerContribution(1, "A", "P", 0)];
      && TeamTotal(data, "A") == 0
      && "P" in TeamRow(data, "A").shares && TeamRow(data, "A").shares["P"].None?
  {
    var data := [PlayerContribution(1, "A", "P", 0)];
    assert data[..0] == [];
    assert Select(data, Manager, "A") == data;
    assert SortedBy(data, DescendingPoints);
    StableSortUnique(data, data, DescendingPoints);
    assert TeamPlayers(data, "A") == data;
    assert data[..TopCount(data)] == data;
    BreakdownWritten("A", 0, data);
  }

  /** The row the code evidently intends: the same slices, with the guard the draft
      chart has, so a total of 0 gives every slice 0 percent. */
  function BreakdownIntended(team: string, total: int, ps: seq<PlayerContribution>): (b: TeamBreakdown)
    ensures var w := Breakdown(team, total, ps);
      && b.team == w.team && b.total == w.total && b.points == w.points && b.playerOrder == w.playerOrder
      && b.shares.Keys == w.shares.Keys
    ensures total != 0 ==> b == Breakdown(team, total, ps)
  {
    var w := Breakdown(team, total, ps);
    if total == 0 then w.(shares := map k | k in w.shares :: Some(0.0)) else w
  }

  /** With the guard, every slice drawn for a team whose total is 0 is there and is
      0 percent. */
  lemma {:induction false} ZeroTotalSharesZero(team: string, ps: seq<PlayerContribution>)
    ensures var b := BreakdownIntended(team, 0, ps);
      forall k :: k in b.playerOrder ==> k in b.shares && b.shares[k] == Some(0.0)
  {
    BreakdownWritten(team, 0, ps);
  }

  // ----- All teams

  /** The finished row of one team. */
  function TeamRow(data: seq<PlayerContribution>, team: string): (b: TeamBreakdown)
    ensures b.team == team && b.total == TeamTotal(data, team)
  {
    Breakdown(team, TeamTotal(data, team), TeamPlayers(data, team))
  }

  /** The rows in the order `Object.keys(teamTotals)` lists the teams. */
  function UnsortedTeams(data: seq<PlayerContribution>): (rows: seq<TeamBreakdown>)
    ensures |rows| == |DistinctBy(data, Manager)|
    ensures forall i :: 0 <= i < |rows| ==> rows[i] == TeamRow(data, DistinctBy(data, Manager)[i])
  {
    var teams := DistinctBy(data, Manager);
    seq(|teams|, i requires 0 <= i < |teams| => TeamRow(data, teams[i]))
  }

  function DescendingTotal(b: TeamBreakdown): int { -b.total }

  function TeamOf(b: TeamBreakdown): string { b.team }

  /** The chart's `teamData`: the rows sorted by team total, descending. */
  function TeamRows(data: seq<PlayerContribution>): (r: seq<TeamBreakdown>)
    ensures |r| == |DistinctBy(data, Manager)|
    ensures forall i, j :: 0 <= i < j < |r| ==> r[i].total >= r[j].total
  {
    StableSort(UnsortedTeams(data), DescendingTotal)
  }

  /** The construction of `teamData` (lines 101-139). */
  method TeamData(data: seq<PlayerContribution>) returns (teamData: seq<TeamBreakdown>)
    ensures teamData == TeamRows(data)
    ensures forall i, j :: 0 <= i < j < |teamData| ==> teamData[i].total >= teamData[j].total
    ensures NoDup(MapSeq(teamData, TeamOf))
    ensures forall m :: m in MapSeq(teamData, TeamOf) <==> m in DistinctBy(data, Manager)
    ensures forall b :: b in teamData ==>
      && b.team in DistinctBy(data, Manager) && b.total == TeamTotal(data, b.team)
      && b == Breakdown(b.team, TeamTotal(data, b.team), TeamPlayers(data, b.team))
  {
    var teams, teamTotals := Grouping.SumByKey(data, Manager, Points);
    RowsForTeamTotals(data, teams, teamTotals);
    var unsorted := RowsFor(data, teams, teamTotals);
    teamData := StableSort(unsorted, DescendingTotal);
    TeamRowsFacts(data);
  }

  /** `Object.keys(teamTotals).map(...)`: one row per key, in key order, each built
      from the key's total in `teamTotals` and the key's sorted players. */
  function RowsFor(data: seq<PlayerContribution>, teams: seq<string>, teamTotals: map<string, int>): (rows: seq<TeamBreakdown>)
    requires forall i :: 0 <= i < |teams| ==> teams[i] in teamTotals
    ensures |rows| == |teams|
    ensures forall i :: 0 <= i < |rows| ==> rows[i].team == teams[i] && rows[i].total == teamTotals[teams[i]]
  {
    seq(|teams|, i requires 0 <= i < |teams| =>
      Breakdown(teams[i], teamTotals[teams[i]], TeamPlayers(data, teams[i])))
  }

  /** Mapped over the teams and totals the reduce produces, the rows are the rows of
      the teams in first-seen order. */
  lemma {:induction false} RowsForTeamTotals(data: seq<PlayerContribution>, teams: seq<string>, teamTotals: map<string, int>)
    requires teams == DistinctBy(data, Manager)
    requires forall k :: k in teamTotals <==> k in teams
    requires forall k :: k in teamTotals ==> teamTotals[k] == TeamTotal(data, k)
    ensures forall i :: 0 <= i < |teams| ==> teams[i] in teamTotals
    ensures RowsFor(data, teams, teamTotals) == UnsortedTeams(data)
  {
    assert forall i :: 0 <= i < |teams| ==> teams[i] in teams;
    var rows, expected := RowsFor(data, teams, teamTotals), UnsortedTeams(data);
    forall i | 0 <= i < |teams| ensures rows[i] == expected[i] {
      assert expected[i] == TeamRow(data, teams[i]);
    }
  }

  lemma {:induction false} TeamRowsFacts(data: seq<PlayerContribution>)
    ensures NoDup(MapSeq(TeamRows(data), TeamOf))
    ensures forall m :: m in MapSeq(TeamRows(data), TeamOf) <==> m in DistinctBy(data, Manager)
    ensures forall b :: b in TeamRows(data) ==>
      && b.team in DistinctBy(data, Manager) && b.total == TeamTotal(data, b.team)
      && b == Breakdown(b.team, TeamTotal(data, b.team), TeamPlayers(data, b.team))
  {
    RowsAreTeamRows(data, TeamRows(data));
    UnsortedKeys(data);
    RearrangedKeys(DistinctBy(data, Manager), UnsortedTeams(data), TeamRows(data), TeamOf);
  }

  lemma {:induction false} UnsortedKeys(data: seq<PlayerContribution>)
    ensures MapSeq(UnsortedTeams(data), TeamOf) == DistinctBy(data, Manager)
  {
  }

  lemma {:induction false} RowsAreTeamRows(data: seq<PlayerContribution>, rows: seq<TeamBreakdown>)
    requires multiset(rows) == multiset(UnsortedTeams(data))
    ensures forall b :: b in rows ==>
      && b.team in DistinctBy(data, Manager) && b.total == TeamTotal(data, b.team)
      && b == Breakdown(b.team, TeamTotal(data, b.team), TeamPlayers(data, b.team))
  {
    var unsorted := UnsortedTeams(data);
    forall b | b in rows ensures
      && b.team in DistinctBy(data, Manager) && b.total == TeamTotal(data, b.team)
      && b == Breakdown(b.team, TeamTotal(data, b.team), TeamPlayers(data, b.team))
    {
      assert b in multiset(unsorted);
      var j :| 0 <= j < |unsorted| && unsorted[j] == b;
      UnsortedRow(data, j);
    }
  }

  /** The row at any position of the unsorted list is the row of its own team. */
  lemma UnsortedRow(data: seq<PlayerContribution>, j: int)
    requires 0 <= j < |DistinctBy(data, Manager)|
    ensures var b := UnsortedTeams(data)[j];
      && b.team in DistinctBy(data, Manager) && b.total == TeamTotal(data, b.team)
      && b == Breakdown(b.team, TeamTotal(data, b.team), TeamPlayers(data, b.team))
  {
    var team := DistinctBy(data, Manager)[j];
    assert UnsortedTeams(data)[j] == TeamRow(data, team);
    assert team in DistinctBy(data, Manager);
  }

  lemma {:induction false} SumPointsOfTeam(ps: seq<PlayerContribution>, team: string)
    requires forall i :: 0 <= i < |ps| ==> ps[i].managerName == team
    ensures SumPoints(ps) == SumWhere(ps, Manager, Points, team)
  {
    if ps != [] {
      SumPointsOfTeam(ps[..|ps| - 1], team);
    }
  }

  /** The total a team's shares are taken of includes the remainder: it is the sum of
      the points of all of the team's players. */
  lemma {:induction false} TeamTotalIsAllPlayers(data: seq<PlayerContribution>, team: string)
    ensures TeamTotal(data, team) == SumPoints(TeamPlayers(data, team))
  {
    var sel := Select(data, Manager, team);
    SumWhereSelect(data, Manager, Points, team);
    SumWherePermutation(sel, TeamPlayers(data, team), Manager, Points, team);
    SelectMembers(data, Manager, team);
    forall i | 0 <= i < |TeamPlayers(data, team)| ensures TeamPlayers(data, team)[i].managerName == team {
      assert TeamPlayers(data, team)[i] in multiset(sel);
      assert TeamPlayers(data, team)[i] in sel;
    }
    SumPointsOfTeam(TeamPlayers(data, team), team);
  }

  /** For data whose points are not negative, with a team whose players have distinct
      names none of which is "Others", the team's row adds up to 100 percent. */
  lemma {:induction false} TeamSharesSumTo100(data: seq<PlayerContribution>, team: string)
    requires forall i :: 0 <= i < |data| ==> data[i].totalPoints >= 0
    requires TeamTotal(data, team) > 0
    requires NoDup(MapSeq(Select(data, Manager, team), WebName))
    requires OthersKey !in MapSeq(Select(data, Manager, team), WebName)
    ensures var b := Breakdown(team, TeamTotal(data, team), TeamPlayers(data, team));
      SumOver(b.playerOrder, b.shares) == 100.0
  {
    var sel, ps := Select(data, Manager, team), TeamPlayers(data, team);
    TeamTotalIsAllPlayers(data, team);
    SelectMembers(data, Manager, team);
    forall i | 0 <= i < |ps| ensures ps[i].totalPoints >= 0 {
      assert ps[i] in multiset(sel);
      assert ps[i] in data;
      var k :| 0 <= k < |data| && data[k] == ps[i];
    }
    MapPermutation(sel, ps, WebName);
    NoDupPermutation(MapSeq(sel, WebName), MapSeq(ps, WebName));
    assert OthersKey !in multiset(MapSeq(sel, WebName));
    SharesSumTo100(team, TeamTotal(data, team), ps);
  }

  // ----- Bar keys

  /** Every team's `playerOrder`, one after the other. */
  function AllOrders(teams: seq<TeamBreakdown>): seq<string> {
    if teams == [] then [] else AllOrders(teams[..|teams| - 1]) + teams[|teams| - 1].playerOrder
  }

  lemma {:induction false} AllOrdersMembers(teams: seq<TeamBreakdown>, k: string)
    ensures k in AllOrders(teams) <==> exists i :: 0 <= i < |teams| && k in teams[i].playerOrder
  {
    if teams != [] {
      AllOrdersMembers(teams[..|teams| - 1], k);
      assert forall i :: 0 <= i < |teams| - 1 ==> teams[..|teams| - 1][i] == teams[i];
    }
  }

  /** The `allPlayerKeys` Set filled team by team (lines 142-145): the keys in the
      order they were first added. */
  method CollectPlayerKeys(teamData: seq<TeamBreakdown>) returns (keys: seq<string>)
    ensures keys == DistinctBy(AllOrders(teamData), Id)
  {
    keys := [];
    for t := 0 to |teamData|
      invariant keys == DistinctBy(AllOrders(teamData[..t]), Id)
    {
      keys := AddKeys(keys, AllOrders(teamData[..t]), teamData[t].playerOrder);
      AllOrdersStep(teamData, t);
    }
    assert teamData[..|teamData|] == teamData;
  }

  /** Adding every key of one team's order to a Set holding the distinct keys of
      `seen`. */
  method AddKeys(keys0: seq<string>, ghost seen: seq<string>, order: seq<string>) returns (keys: seq<string>)
    requires keys0 == DistinctBy(seen, Id)
    ensures keys == DistinctBy(seen + order, Id)
  {
    keys := keys0;
    assert seen + order[..0] == seen;
    for j := 0 to |order|
      invariant keys == DistinctBy(seen + order[..j], Id)
    {
      AddKeyStep(seen, order, j);
      if order[j] !in keys {
        keys := keys + [order[j]];
      }
    }
    assert order[..|order|] == order;
  }

  lemma AddKeyStep(seen: seq<string>, order: seq<string>, j: int)
    requires 0 <= j < |order|
    ensures var before := DistinctBy(seen + order[..j], Id);
      DistinctBy(seen + order[..j + 1], Id) == if order[j] in before then before else before + [order[j]]
  {
    var s, i := seen + order, |seen| + j;
    var before, after := seen + order[..j], seen + order[..j + 1];
    assert s[..i] == before;
    assert s[..i + 1] == after;
    assert Id(s[i]) == order[j];
    DistinctByStep(s, i, Id);
  }

  lemma AllOrdersStep(teamData: seq<TeamBreakdown>, t: int)
    requires 0 <= t < |teamData|
    ensures AllOrders(teamData[..t + 1]) == AllOrders(teamData[..t]) + teamData[t].playerOrder
  {
    assert teamData[..t + 1][..t] == teamData[..t];
  }

  /** The collected keys without "Others", in their order. */
  function WithoutOthers(keys: seq<string>): (r: seq<string>)
    ensures forall k :: k in r <==> k in keys && k != OthersKey
    ensures NoDup(keys) ==> NoDup(r)
  {
    if keys == [] then []
    else
      var rest := WithoutOthers(keys[1..]);
      assert keys == [keys[0]] + keys[1..];
      NoDupCons(keys[0], keys[1..]);
      NoDupCons(keys[0], rest);
      if keys[0] == OthersKey then rest else [keys[0]] + rest
  }

  /** The bars of the chart: one per player key seen in any team, each once, without
      "Others"; and whether an "Others" bar is drawn after them. */
  lemma {:induction false} BarKeys(teamData: seq<TeamBreakdown>)
    ensures var keys := DistinctBy(AllOrders(teamData), Id);
      && NoDup(WithoutOthers(keys))
      && (forall k :: k in WithoutOthers(keys) <==>
            k != OthersKey && exists i :: 0 <= i < |teamData| && k in teamData[i].playerOrder)
      && (OthersKey in keys <==> exists i :: 0 <= i < |teamData| && OthersKey in teamData[i].playerOrder)
  {
    var keys := DistinctBy(AllOrders(teamData), Id);
    forall k ensures k in keys <==> k in AllOrders(teamData) {
      if k in AllOrders(teamData) {
        var i :| 0 <= i < |AllOrders(teamData)| && AllOrders(teamData)[i] == k;
        assert Id(AllOrders(teamData)[i]) == k;
      }
    }
    forall k ensures k in AllOrders(teamData) <==> exists i :: 0 <= i < |teamData| && k in teamData[i].playerOrder {
      AllOrdersMembers(teamData, k);
    }
  }

  // ----- Cell colours and labels

  /** `order.indexOf(key)`: the first position of `key`, or -1. */
  function IndexOf(order: seq<string>, key: string): (i: int)
    ensures -1 <= i < |order|
    ensures i == -1 <==> key !in order
    ensures 0 <= i ==> order[i] == key && key !in order[..i]
  {
    if order == [] then -1
    else if order[0] == key then 0
    else
      var j := IndexOf(order[1..], key);
      assert forall k :: k in order <==> k == order[0] || k in order[1..];
      if j == -1 then -1
      else
        assert order[..j + 1] == [order[0]] + order[1..][..j];
        j + 1
  }

  lemma {:induction false} IndexOfAtMost(order: seq<string>, key: string, j: int)
    requires 0 <= j < |order| && order[j] == key
    ensures 0 <= IndexOf(order, key) <= j
  {
    if order[0] != key {
      assert order[1..][j - 1] == key;
      IndexOfAtMost(order[1..], key, j - 1);
    }
  }

  /** The shade of a player's cell in a team's bar: its position in the team's
      `playerOrder`, or 5 when it is absent or comes later. */
  function ShadeIndex(order: seq<string>, key: string): (i: int)
    ensures 0 <= i <= 5
    ensures i < 5 <==> key in order[..if |order| < 5 then |order| else 5]
    ensures i < 5 ==> i < |order| && order[i] == key && key !in order[..i]
  {
    var playerIndex := IndexOf(order, key);
    var shadeIndex := if playerIndex >= 0 then playerIndex else 5;
    var n := if |order| < 5 then |order| else 5;
    assert key in order[..n] ==> 0 <= playerIndex < n by {
      if key in order[..n] {
        var j :| 0 <= j < n && order[..n][j] == key;
        IndexOfAtMost(order, key, j);
      }
    }
    assert 0 <= playerIndex < n ==> order[..n][playerIndex] == key;
    if shadeIndex < 5 then shadeIndex else 5
  }

  /** The cell of player bar `key` in a team's row (lines 186-193). */
  method CellFill(row: TeamBreakdown, key: string) returns (fill: Rgb)
    ensures fill == Shade(ParseColor(Palette.TeamColor(row.team)), ShadeIndex(row.playerOrder, key))
    ensures InRange(fill)
  {
    var shades := TeamShades(row.team);
    var playerIndex := IndexOf(row.playerOrder, key);
    var shadeIndex := if playerIndex >= 0 then playerIndex else 5;
    fill := shades[if shadeIndex < 5 then shadeIndex else 5];
  }

  /** The cell of the "Others" bar in a team's row (lines 206-211): always the darkest shade. */
  method OthersFill(row: TeamBreakdown) returns (fill: Rgb)
    ensures fill == Shade(ParseColor(Palette.TeamColor(row.team)), 5)
    ensures InRange(fill)
  {
    var shades := TeamShades(row.team);
    fill := shades[5];
  }

  /** `indexOf` finds an element that does not occur earlier at its own position. */
  lemma {:induction false} IndexOfFirst(order: seq<string>, i: int)
    requires 0 <= i < |order| && order[i] !in order[..i]
    ensures IndexOf(order, order[i]) == i
  {
    if i > 0 {
      assert order[..i][0] == order[0];
      assert order[1..][i - 1] == order[i];
      assert order[1..][..i - 1] == order[..i][1..];
      IndexOfFirst(order[1..], i - 1);
    }
  }

  /** With distinct names other than "Others", a row's order has no repeated key. */
  lemma {:induction false} BreakdownNoDup(team: string, total: int, ps: seq<PlayerContribution>)
    requires NoDup(MapSeq(ps, WebName)) && OthersKey !in MapSeq(ps, WebName)
    ensures NoDup(Breakdown(team, total, ps).playerOrder)
  {
    BreakdownOrder(team, total, ps);
    TopNames(ps);
    var top := MapSeq(ps[..TopCount(ps)], WebName);
    if SumPoints(ps[TopCount(ps)..]) > 0 {
      NoDupSnoc(top, OthersKey);
    } else {
      assert Breakdown(team, total, ps).playerOrder == top;
    }
  }

  /** A top-five player of a team is drawn in the shade of its rank in that team, and
      "Others" in the darkest shade wherever it is drawn. */
  lemma {:induction false} ShadeOfRank(team: string, total: int, ps: seq<PlayerContribution>, i: int)
    requires NoDup(MapSeq(ps, WebName)) && OthersKey !in MapSeq(ps, WebName)
    requires 0 <= i < TopCount(ps)
    ensures ShadeIndex(Breakdown(team, total, ps).playerOrder, ps[i].webName) == i
    ensures ShadeIndex(Breakdown(team, total, ps).playerOrder, OthersKey) == 5
  {
    BreakdownOrder(team, total, ps);
    BreakdownNoDup(team, total, ps);
    var order := Breakdown(team, total, ps).playerOrder;
    var top := MapSeq(ps[..TopCount(ps)], WebName);
    var tail := if SumPoints(ps[TopCount(ps)..]) > 0 then [OthersKey] else [];
    assert order == top + tail;
    assert order[i] == ps[i].webName;
    NoDupFirst(order, i);
    IndexOfFirst(order, i);
    if OthersKey in order {
      assert tail != [];
      assert ps[TopCount(ps)..] != [];
      assert |top| == 5;
      NoDupFirst(order, |order| - 1);
      IndexOfFirst(order, |order| - 1);
    }
  }

  /** `CustomLabel`: a slice is labelled only when it has a value of at least 5
      percent, is at least 30 pixels wide and is not "Others"; a slice missing from
      the row has no value. */
  function LabelShown(value: Option<real>, width: real, name: string): (shown: bool)
    ensures shown <==> value.Some? && value.value >= 5.0 && width >= 30.0 && name != OthersKey
  {
    !(value.None? || value.value == 0.0 || value.value < 5.0 || width < 30.0 || name == OthersKey)
  }
}
