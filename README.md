# FPL draft dashboard chart transforms, in Dafny

This project models the chart components of the FPL draft league dashboard's
front end. Each chart takes the backend's records and turns them into a series
ready to draw. The Dafny model covers each of those transforms and proves what
the chart shows.

- **Delta from last place** (`CumulativeChart`):
  - each manager's running total, gameweek by gameweek;
  - how far each manager is above the lowest total of that gameweek;
  - the weekly points alongside.
- **Points ahead** (`PointsAheadChart`):
  - the standings in rank order, each with its margin over the next-ranked manager;
  - negative margins filtered out.
- **Draft analysis** (`DraftAnalysisChart`):
  - every pick classified as Transfer, First 3 Picks or Other Picks;
  - per-manager bucket sums, guarded percentage shares, and an ordering by total.
- **Player contributions** (`PlayerSunburstChart`):
  - per team, the top five players and an "Others" slice as shares of the team total;
  - the bar keys collected across teams;
  - the shade-index rule and the label rule.
- **Shades** (`Shades`): parsing "#RRGGBB" and the six-step shade ramp `generateShades`.
- **Consistency panel** (`ConsistencyChart`):
  - team totals;
  - the descending team order;
  - each team's gameweek series.
- **Rankings** (`StandingsChart`, `MomentumChart`, `BenchPointsChart`):
  - a copy of the input sorted descending on one field;
  - one bar colour per entry from the team colour table (`Palette`).

Shared pieces:

- `Records` has one datatype per JSON record shape.
- `Sorting.StableSort` is the language's stable `Array.prototype.sort` with a numeric comparator. It is proved to produce a sorted permutation that keeps ties in input order. `StableSortUnique` shows that this result is the only such ordering.
- `Seqs.DistinctBy` lists the keys of a dictionary filled in input order, in their first-seen order.
- `Grouping.SumByKey` is the keyed-sum `reduce` that several charts share.

Imperative parts of the source are Dafny methods with loop invariants:

- the `forEach` that fills `teamCumulative`/`teamWeekly`;
- the `reduce` into per-team tallies;
- the `generateShades` loop;
- the `top5.forEach` that writes a row;
- the `Set` of player keys.

Each method is proved equal to a specification function, and the properties are proved about that function.

Two places where the code does something other than what its surroundings suggest; the model follows the code:

- The points-ahead filter at frontend/components/charts/PointsAheadChart.tsx:46 carries the comment "Include last place", yet it also drops every entry whose margin is negative. That happens when a lower-ranked manager has more points (`PointsAheadChart.KeepMembers`, `PointsAheadChart.KeepCounts`).
- The player-share division at frontend/components/charts/PlayerSunburstChart.tsx:126 and 133 has no guard against a zero total, unlike the percentages at frontend/components/charts/DraftAnalysisChart.tsx:94-96. The model keeps the unguarded division, with `None` for its `NaN` or infinite result. See "## Findings".

## Model

| member | source | states |
|---|---|---|
| Palette.TeamColor | frontend/components/charts/StandingsChart.tsx:11-21 | a name in the six-entry table gets its table colour, any other name gets #3B82F6 |
| Palette.FallbackExactlyForUnknown | frontend/components/charts/StandingsChart.tsx:95 | a bar gets the default colour exactly when its manager is not in the table (no table colour equals the default) |
| Palette.CellColors | frontend/components/charts/StandingsChart.tsx:92-97 | one fill per entry, in the entries' order, each the lookup of that entry's manager |
| Sorting.StableSort | frontend/components/charts/StandingsChart.tsx:58 | the result is a permutation of the input, sorted by the key, with equal keys in input order |
| Sorting.StableSortUnique | frontend/components/charts/StandingsChart.tsx:58 | any arrangement of the input that is sorted by the key and keeps ties in input order is the result of the sort |
| Seqs.DistinctBy | frontend/components/charts/CumulativeChart.tsx:97 | the key order of a dictionary filled in input order: each key once, exactly the keys of the input |
| Seqs.DistinctByFirstSeen | frontend/components/charts/CumulativeChart.tsx:97 | the keys come in first-seen order: of two listed keys, the earlier one occurs in the input before the later one first occurs |
| Seqs.Min | frontend/components/charts/CumulativeChart.tsx:85 | `Math.min` of a non-empty list: no element is smaller, and some element equals it |
| Grouping.SumByKey | frontend/components/charts/ConsistencyChart.tsx:36-40 | the loop leaves one key per distinct key of the input, in first-seen order, each mapped to the sum of the values of exactly the records with that key |
| StandingsChart.SortByTotalPoints | frontend/components/charts/StandingsChart.tsx:58 | a new sequence that is a permutation of the input, total points descending, ties in input order |
| StandingsChart.SortByTotalPointsUnique | frontend/components/charts/StandingsChart.tsx:58 | the drawn order is the only descending, tie-stable arrangement of the input |
| StandingsChart.BarColors | frontend/components/charts/StandingsChart.tsx:92-97 | exactly one colour cell per sorted entry, in order, from the team table with the default fallback |
| MomentumChart.SortByMomentum | frontend/components/charts/MomentumChart.tsx:37 | permutation of the input, last-four-gameweek points descending, ties in input order |
| MomentumChart.SortByMomentumUnique | frontend/components/charts/MomentumChart.tsx:37 | the drawn order is the only descending, tie-stable arrangement of the input |
| MomentumChart.BarColors | frontend/components/charts/MomentumChart.tsx:71-76 | one colour cell per sorted entry, in order, from the team table with the default fallback |
| BenchPointsChart.SortByBenchPoints | frontend/components/charts/BenchPointsChart.tsx:37 | permutation of the input, bench points descending, ties in input order |
| BenchPointsChart.SortByBenchPointsUnique | frontend/components/charts/BenchPointsChart.tsx:37 | the drawn order is the only descending, tie-stable arrangement of the input |
| BenchPointsChart.BarColors | frontend/components/charts/BenchPointsChart.tsx:73-78 | one colour cell per sorted entry, in order, from the team table with the default fallback |
| PointsAheadChart.RankOrder | frontend/components/charts/PointsAheadChart.tsx:38 | a copy of the standings, a permutation in ascending rank order, equal ranks in input order |
| PointsAheadChart.RankOrderOfSorted | frontend/components/charts/PointsAheadChart.tsx:38 | standings already in rank order come back unchanged |
| PointsAheadChart.WithMargins | frontend/components/charts/PointsAheadChart.tsx:39-45 | each entry keeps its standing unchanged and gains a margin: its points minus the next entry's, 0 for the last |
| PointsAheadChart.KeepNonNegative | frontend/components/charts/PointsAheadChart.tsx:46 | the result is a subsequence of the input, in the same order, and its first entry, if any, has a margin of at least 0 |
| PointsAheadChart.KeepMembers | frontend/components/charts/PointsAheadChart.tsx:46 | the filter holds exactly the entries whose margin is at least 0 |
| PointsAheadChart.KeepCounts | frontend/components/charts/PointsAheadChart.tsx:46 | the filter keeps each entry with margin at least 0 exactly as often as it occurs, and no entry with a negative margin |
| PointsAheadChart.KeepAll | frontend/components/charts/PointsAheadChart.tsx:46 | when no margin is negative the filter keeps every entry |
| PointsAheadChart.PointsAhead | frontend/components/charts/PointsAheadChart.tsx:37-46 | the chart never has more entries than there are standings, and every margin it shows is at least 0 |
| PointsAheadChart.KeptLength | frontend/components/charts/PointsAheadChart.tsx:46 | the filter never lengthens its input |
| PointsAheadChart.PointsAheadContents | frontend/components/charts/PointsAheadChart.tsx:37-46 | the chart is the non-negative entries of the rank-ordered margin list, in that order, each as often as in that list, and no other entry |
| PointsAheadChart.LastKept | frontend/components/charts/PointsAheadChart.tsx:41-46 | the last entry of any ordering has margin 0 and is kept, as the last entry |
| PointsAheadChart.LastRankedKept | frontend/components/charts/PointsAheadChart.tsx:41-46 | for non-empty standings the last-ranked manager is on the chart, last, with margin 0 |
| PointsAheadChart.NothingDropped | frontend/components/charts/PointsAheadChart.tsx:41-46 | when points never increase along the rank order nobody is dropped: the output is all margins and has the input's length |
| PointsAheadChart.TieExample | frontend/components/charts/PointsAheadChart.tsx:38-46 | ranks 1, 2, 2 with points 100, 90, 90 give margins 10, 0, 0, nobody dropped, tied entries in input order |
| DraftAnalysisChart.Classify | frontend/components/charts/DraftAnalysisChart.tsx:76-83 | Transfer exactly when the bucket is "Transfer"; otherwise First 3 Picks exactly when pick <= 3, Other Picks exactly when pick > 3 |
| DraftAnalysisChart.Add | frontend/components/charts/DraftAnalysisChart.tsx:85 | adds the points to the named bucket and leaves the other two unchanged |
| DraftAnalysisChart.TallyIsCreditSum | frontend/components/charts/DraftAnalysisChart.tsx:64-87 | a manager's bucket holds the points of exactly the picks of that manager classified into that bucket |
| DraftAnalysisChart.TallyOf | frontend/components/charts/DraftAnalysisChart.tsx:64-91 | the tally the reduce leaves for a manager: its three buckets add up to the sum of that manager's contributions |
| DraftAnalysisChart.GroupPicks | frontend/components/charts/DraftAnalysisChart.tsx:64-87 | the reduce leaves one tally per manager of the input, in first-seen order, each equal to that manager's tally over all picks |
| DraftAnalysisChart.Percent | frontend/components/charts/DraftAnalysisChart.tsx:94-96 | a total that is not positive gives 0; otherwise the percentage times the total is the part times 100 |
| DraftAnalysisChart.SharesAddUp | frontend/components/charts/DraftAnalysisChart.tsx:94-96 | with a positive total, the three percentages sum to exactly 100 |
| DraftAnalysisChart.ToRow | frontend/components/charts/DraftAnalysisChart.tsx:90-102 | total and raw fields are the bucket sums; a total that is not positive gives three 0 percentages; otherwise each percentage is its bucket over the total times 100, and they sum to 100 |
| DraftAnalysisChart.UnsortedRows | frontend/components/charts/DraftAnalysisChart.tsx:90-102 | one row per distinct manager of the input |
| DraftAnalysisChart.BuildRows | frontend/components/charts/DraftAnalysisChart.tsx:90-102 | the loop over the reduce's tallies builds exactly the rows `UnsortedRows` specifies |
| DraftAnalysisChart.ChartData | frontend/components/charts/DraftAnalysisChart.tsx:103 | one row per distinct manager, totals descending |
| DraftAnalysisChart.DraftAnalysis | frontend/components/charts/DraftAnalysisChart.tsx:63-103 | rows ordered by total descending, each manager of the input exactly once, each row built from that manager's tally, each total the manager's contributed points |
| DraftAnalysisChart.ChartDataFacts | frontend/components/charts/DraftAnalysisChart.tsx:64-103 | the sorted rows name each manager of the input exactly once, hold that manager's tally, and total that manager's points |
| Shades.HexValue | frontend/components/charts/PlayerSunburstChart.tsx:47-49 | a hexadecimal digit reads as a value below 16 |
| Shades.PairValue | frontend/components/charts/PlayerSunburstChart.tsx:47-49 | a two-digit hexadecimal pair reads as a value in [0, 255] |
| Shades.ParseColor | frontend/components/charts/PlayerSunburstChart.tsx:46-49 | a "#RRGGBB" colour parses to three channels in [0, 255] |
| Shades.FormatColor | frontend/components/charts/PlayerSunburstChart.tsx:46-49 | every colour with channels in range can be written as "#RRGGBB" |
| Shades.ParseIgnoresCase | frontend/components/charts/PlayerSunburstChart.tsx:46-49 | hexadecimal letters read the same in either case: a colour and its upper-case spelling parse to the same channels |
| Shades.ParseFormat | frontend/components/charts/PlayerSunburstChart.tsx:46-49 | parsing reads back every written colour, so the channels come from pairs 0-2, 2-4 and 4-6 |
| Shades.Round | frontend/components/charts/PlayerSunburstChart.tsx:54-56 | `Math.round(n / 100)`: the nearest integer, halves rounded up |
| Shades.RoundMonotone | frontend/components/charts/PlayerSunburstChart.tsx:54-56 | rounding never reverses an order |
| Shades.ScaleChannel | frontend/components/charts/PlayerSunburstChart.tsx:53-56 | the nearest integer to the channel times (100 - 15 i)/100, halves rounded up; shade 0 keeps the channel |
| Shades.Shade | frontend/components/charts/PlayerSunburstChart.tsx:53-57 | shade 0 is the colour itself; for indices 0 to 6 a colour in range stays in range |
| Shades.GenerateShades | frontend/components/charts/PlayerSunburstChart.tsx:45-60 | exactly `count` shades (none for a count that is not positive); shade i is every parsed channel scaled by (100 - 15 i)/100 and rounded |
| Shades.FirstShadeIsBase | frontend/components/charts/PlayerSunburstChart.tsx:53-56 | shade 0 is the base colour (factor 1) |
| Shades.ChannelInRange | frontend/components/charts/PlayerSunburstChart.tsx:53-56 | for shade indices 0 to 6 a channel in [0, 255] stays in [0, 255] |
| Shades.ChannelNonIncreasing | frontend/components/charts/PlayerSunburstChart.tsx:53-56 | a later shade never has a larger channel |
| Shades.EighthShadeLeavesRange | frontend/components/charts/PlayerSunburstChart.tsx:53-56 | from index 7 on, every channel above 10 scales to a negative value; at index 7 exactly the channels above 10 do |
| Shades.TeamColorWellFormed | frontend/components/charts/PlayerSunburstChart.tsx:187 | every table colour and the default are well-formed "#RRGGBB" |
| Shades.TeamShades | frontend/components/charts/PlayerSunburstChart.tsx:187-188 | six shades of the team colour, each channel in [0, 255] and non-increasing along the ramp |
| PlayerSunburstChart.TeamPlayers | frontend/components/charts/PlayerSunburstChart.tsx:108-110 | exactly the team's players, points descending, ties in input order |
| PlayerSunburstChart.Share | frontend/components/charts/PlayerSunburstChart.tsx:126-133 | the share times the total is the points times 100; a total of 0 gives 0 |
| PlayerSunburstChart.ShareAsWritten | frontend/components/charts/PlayerSunburstChart.tsx:126-133 | the unguarded division gives no number (`NaN` or an infinity) exactly when the total is 0, and otherwise the share |
| PlayerSunburstChart.AddSlice | frontend/components/charts/PlayerSunburstChart.tsx:126-128 | writing a slice keeps the team and total, stores the points under the key, a share that is missing exactly when the total is 0 and otherwise times the total gives the points times 100, and appends the key to `playerOrder` |
| PlayerSunburstChart.AddPlayers | frontend/components/charts/PlayerSunburstChart.tsx:124-129 | the forEach keeps the team and total and adds one key to `playerOrder` per top player |
| PlayerSunburstChart.AddTopPlayers | frontend/components/charts/PlayerSunburstChart.tsx:124-129 | the loop leaves the row that `AddPlayers` specifies |
| PlayerSunburstChart.Breakdown | frontend/components/charts/PlayerSunburstChart.tsx:112-136 | a team's row keeps the team's name and the total it was given |
| PlayerSunburstChart.AddPlayersOrder | frontend/components/charts/PlayerSunburstChart.tsx:124-129 | the forEach appends the top players' names to `playerOrder`, in order |
| PlayerSunburstChart.BuildTeam | frontend/components/charts/PlayerSunburstChart.tsx:112-136 | the row the loop and the Others step build is the team's breakdown, shares divided as written |
| PlayerSunburstChart.BreakdownOrder | frontend/components/charts/PlayerSunburstChart.tsx:112-136 | `playerOrder` is the top five names then "Others"; "Others" appears exactly when the rest scored more than 0, and then last; at most 6 keys |
| PlayerSunburstChart.AddSliceFrame | frontend/components/charts/PlayerSunburstChart.tsx:126-128 | writing one slice leaves the share and the points of every other key as they were |
| PlayerSunburstChart.AddPlayersShares | frontend/components/charts/PlayerSunburstChart.tsx:124-129 | with distinct names, each top player's slice holds its own unguarded share of the team total and its own points |
| PlayerSunburstChart.AddPlayersFrame | frontend/components/charts/PlayerSunburstChart.tsx:124-129 | the forEach leaves the share and the points of every key that is not a top player's name as they were |
| PlayerSunburstChart.BreakdownShares | frontend/components/charts/PlayerSunburstChart.tsx:112-136 | in a finished row of distinct names, none of them "Others", each top-five player's slice holds its own unguarded share of the team total and its own points, and the "Others" slice, when the rest scored more than 0, holds the unguarded share and the points of the rest |
| PlayerSunburstChart.TopNames | frontend/components/charts/PlayerSunburstChart.tsx:112 | the first five of distinct names are distinct and cannot be "Others" unless the full list has it |
| PlayerSunburstChart.SharesSumTo100 | frontend/components/charts/PlayerSunburstChart.tsx:112-136 | with non-negative points and a positive total equal to the players' points, the slices of a row sum to 100 |
| PlayerSunburstChart.BreakdownWritten | frontend/components/charts/PlayerSunburstChart.tsx:124-133 | as written, every key of a row's order has a share, and the shares are missing exactly when the team total is 0 |
| PlayerSunburstChart.ZeroPointsTeam | frontend/components/charts/PlayerSunburstChart.tsx:126 | a team whose one player scored 0 has total 0, and that player's slice has no number |
| PlayerSunburstChart.BreakdownIntended | frontend/components/charts/PlayerSunburstChart.tsx:126-133 | the guarded row has the same team, total, points, order and keys as the row as written, and equals it when the total is not 0 |
| PlayerSunburstChart.ZeroTotalSharesZero | frontend/components/charts/PlayerSunburstChart.tsx:126-133 | with the guard, every slice of a team with total 0 is present and is 0 percent |
| PlayerSunburstChart.TeamRow | frontend/components/charts/PlayerSunburstChart.tsx:107-138 | a team's row has the team's name and its total of all players' points |
| PlayerSunburstChart.UnsortedTeams | frontend/components/charts/PlayerSunburstChart.tsx:106-138 | one row per distinct team, the i-th being the row of the i-th team first seen |
| PlayerSunburstChart.TeamRows | frontend/components/charts/PlayerSunburstChart.tsx:139 | one row per distinct team, totals descending |
| PlayerSunburstChart.RowsFor | frontend/components/charts/PlayerSunburstChart.tsx:106-138 | one row per listed key, in key order, each with that key's name and the total the reduce gave it |
| PlayerSunburstChart.TeamData | frontend/components/charts/PlayerSunburstChart.tsx:101-139 | rows ordered by total descending, each team of the input exactly once, each the breakdown (unguarded shares) of its sorted players over its full total |
| PlayerSunburstChart.TeamRowsFacts | frontend/components/charts/PlayerSunburstChart.tsx:107-139 | the sorted rows name each team of the input exactly once and each is that team's breakdown |
| PlayerSunburstChart.TeamTotalIsAllPlayers | frontend/components/charts/PlayerSunburstChart.tsx:101-115 | the total the shares are taken of is the sum over all the team's players, the remainder included |
| PlayerSunburstChart.TeamSharesSumTo100 | frontend/components/charts/PlayerSunburstChart.tsx:101-139 | for non-negative data and a team with a positive total and distinct player names, the team's slices sum to 100 |
| PlayerSunburstChart.AllOrdersMembers | frontend/components/charts/PlayerSunburstChart.tsx:143-145 | a key is among the collected keys exactly when some team's `playerOrder` holds it |
| PlayerSunburstChart.CollectPlayerKeys | frontend/components/charts/PlayerSunburstChart.tsx:142-145 | the Set holds every key of every team's `playerOrder` once, in first-insertion order |
| PlayerSunburstChart.AddKeys | frontend/components/charts/PlayerSunburstChart.tsx:144 | adding one team's keys to the Set gives the distinct keys of everything added so far |
| PlayerSunburstChart.WithoutOthers | frontend/components/charts/PlayerSunburstChart.tsx:148 | exactly the keys other than "Others", still without duplicates |
| PlayerSunburstChart.BarKeys | frontend/components/charts/PlayerSunburstChart.tsx:148-149 | one bar per player key of any team, each once, without "Others"; an Others bar exactly when some team has an Others slice |
| PlayerSunburstChart.IndexOf | frontend/components/charts/PlayerSunburstChart.tsx:189 | -1 exactly when the key is absent, else the key's first position |
| PlayerSunburstChart.ShadeIndex | frontend/components/charts/PlayerSunburstChart.tsx:189-192 | a shade in [0, 5]: below 5 exactly when the key is among the first five, and then its first position |
| PlayerSunburstChart.CellFill | frontend/components/charts/PlayerSunburstChart.tsx:186-193 | a player's cell takes the team's shade at its shade index, a colour in range |
| PlayerSunburstChart.OthersFill | frontend/components/charts/PlayerSunburstChart.tsx:206-211 | the Others cell always takes the team's darkest shade, a colour in range |
| PlayerSunburstChart.ShadeOfRank | frontend/components/charts/PlayerSunburstChart.tsx:189-192 | the i-th top player of a team is drawn in shade i, and "Others" in shade 5 |
| PlayerSunburstChart.LabelShown | frontend/components/charts/PlayerSunburstChart.tsx:68 | a label shows exactly when the value is present and at least 5, the width at least 30, and the name is not "Others" |
| ConsistencyChart.Entries | frontend/components/charts/ConsistencyChart.tsx:42 | one pair per manager in first-seen order, each with that manager's total |
| ConsistencyChart.Teams | frontend/components/charts/ConsistencyChart.tsx:36-44 | `teamTotals` has exactly the input managers, each with the sum of their weekly points; `teams` lists each manager once, totals descending |
| ConsistencyChart.TeamOrder | frontend/components/charts/ConsistencyChart.tsx:42-44 | one name per distinct manager of the input |
| ConsistencyChart.TeamOrderFacts | frontend/components/charts/ConsistencyChart.tsx:42-44 | the team order has no duplicates, exactly the input managers, totals descending |
| ConsistencyChart.Series | frontend/components/charts/ConsistencyChart.tsx:50-52 | a manager's series is that manager's rows, gameweeks ascending, rows of the same gameweek in input order |
| ConsistencyChart.SeriesContents | frontend/components/charts/ConsistencyChart.tsx:50-52 | a series holds each of the manager's rows as often as the input does, and nothing else |
| ConsistencyChart.TotalIsSeriesSum | frontend/components/charts/ConsistencyChart.tsx:36-52 | the total the panel orders by is the sum of the bars in the manager's series |
| ConsistencyChart.RowInOneSeries | frontend/components/charts/ConsistencyChart.tsx:42-52 | every input row's manager is a panel team, and the row lands in that team's series and in no other |
| ConsistencyChart.SeriesOfOneManager | frontend/components/charts/ConsistencyChart.tsx:50-52 | rows of one manager already in gameweek order come back unchanged |
| CumulativeChart.WeeklyOf | frontend/components/charts/CumulativeChart.tsx:73 | the weekly value `teamWeekly[m][gw]` holds; its meaning is stated by `CumulativeChart.WeeklyOfNone` and `CumulativeChart.WeeklyOfLast` |
| CumulativeChart.WeeklyOfNone | frontend/components/charts/CumulativeChart.tsx:73 | a manager has no weekly value for a gameweek exactly when no row is for that manager and gameweek |
| CumulativeChart.WeeklyOfLast | frontend/components/charts/CumulativeChart.tsx:73 | otherwise the value is the points of the last row for that manager and gameweek |
| CumulativeChart.Cumulative | frontend/components/charts/CumulativeChart.tsx:70-72 | a manager has a running total at a gameweek exactly when the gameweek is not negative and the manager has a row for it |
| CumulativeChart.SortedData | frontend/components/charts/CumulativeChart.tsx:62 | a copy sorted by gameweek ascending, a permutation of the input, same-gameweek rows in input order |
| CumulativeChart.Accumulate | frontend/components/charts/CumulativeChart.tsx:64-74 | one pass creates each manager's dictionaries at their first row and keeps them equal to the running totals and weekly points of the rows processed so far |
| CumulativeChart.AddManager | frontend/components/charts/CumulativeChart.tsx:65-68 | a manager's first row adds the manager, with two empty dictionaries |
| CumulativeChart.RecordWeek | frontend/components/charts/CumulativeChart.tsx:70-73 | recording a row stores the previous gameweek's entry, or 0, plus the week's points, and the week's points |
| CumulativeChart.RunningAfter | frontend/components/charts/CumulativeChart.tsx:64-74 | after a pass over some rows, `teamCumulative[m][gw]` is set exactly when one of those rows is for m and gw |
| CumulativeChart.WeeklyOfSorted | frontend/components/charts/CumulativeChart.tsx:62-73 | sorting by gameweek does not change which row's points a manager's week keeps |
| CumulativeChart.RunningRecurrence | frontend/components/charts/CumulativeChart.tsx:70-72 | on rows in gameweek order the stored total at gw is the week's points plus the complete total at gw - 1 (0 if none) |
| CumulativeChart.PassComputesCumulative | frontend/components/charts/CumulativeChart.tsx:62-74 | after the pass over the sorted rows, the stored running total is the recursive running total |
| CumulativeChart.ReadsCumulative | frontend/components/charts/CumulativeChart.tsx:84-91 | what the chart reads back from the dictionaries is the running total and the weekly points, 0 where absent |
| CumulativeChart.CumulativeOfRun | frontend/components/charts/CumulativeChart.tsx:70-72 | after a missing gameweek the running total starts again: it is the sum of the weeks since the gap |
| CumulativeChart.Gameweeks | frontend/components/charts/CumulativeChart.tsx:77 | every gameweek of the rows exactly once, strictly ascending |
| CumulativeChart.Teams | frontend/components/charts/CumulativeChart.tsx:97 | the chart's managers, without duplicates |
| CumulativeChart.TeamsFacts | frontend/components/charts/CumulativeChart.tsx:97 | the chart's managers are the managers of the rows, each once, and there is one for non-empty input |
| CumulativeChart.Values | frontend/components/charts/CumulativeChart.tsx:84 | one value per manager seen: the running total at that gameweek, 0 without a row |
| CumulativeChart.Minimum | frontend/components/charts/CumulativeChart.tsx:84-85 | the lowest running total over every manager seen, absent weeks counted as 0, reached by some manager |
| CumulativeChart.PointAt | frontend/components/charts/CumulativeChart.tsx:80-95 | the point built for a gameweek is labelled with that gameweek |
| CumulativeChart.ChartPoints | frontend/components/charts/CumulativeChart.tsx:80-95 | one point per distinct gameweek, in ascending gameweek order |
| CumulativeChart.PointKeys | frontend/components/charts/CumulativeChart.tsx:88-92 | every point has a delta and a weekly value for exactly the managers seen: running total minus the minimum, and the week's points or 0 |
| CumulativeChart.PointDistances | frontend/components/charts/CumulativeChart.tsx:85-90 | every delta is at least 0 and some manager's delta is exactly 0 |
| CumulativeChart.PointGameweeks | frontend/components/charts/CumulativeChart.tsx:77-81 | the points' gameweeks are the distinct gameweeks, ascending |
| CumulativeChart.FillPoint | frontend/components/charts/CumulativeChart.tsx:88-92 | the forEach fills the delta and weekly entries of every manager from the dictionaries |
| CumulativeChart.BuildPoints | frontend/components/charts/CumulativeChart.tsx:80-95 | one data point per gameweek, each built from the dictionaries with that gameweek's minimum |
| CumulativeChart.ChartFromDictionaries | frontend/components/charts/CumulativeChart.tsx:80-95 | the points built from the dictionaries are the chart points stated on the input |
| CumulativeChart.SortAndAccumulate | frontend/components/charts/CumulativeChart.tsx:62-74 | after the sort and the pass, the dictionaries have every manager and hold that manager's running totals and weekly points |
| CumulativeChart.ChartOf | frontend/components/charts/CumulativeChart.tsx:44-97 | the empty state exactly for empty input; otherwise the managers listed once each, and one point per distinct gameweek, labelled in ascending order |
| CumulativeChart.CumulativeChart | frontend/components/charts/CumulativeChart.tsx:44-97 | no data gives the empty state; otherwise the lines of the managers seen over the chart points |
| CumulativeChart.SortedDataOfSorted | frontend/components/charts/CumulativeChart.tsx:62 | rows already in gameweek order are left as they are |
| CumulativeChart.WeeklyOfUnique | frontend/components/charts/CumulativeChart.tsx:73 | with one row per manager and gameweek, the weekly value is that row's points |
| CumulativeChart.ExampleChart | frontend/components/charts/CumulativeChart.tsx:64-95 | A scoring 10, 10 and B 5, 20 over gameweeks 1-2 give deltas A 5, 0 and B 0, 5 with weekly points 10, 10 and 5, 20 |

## Left out

- All JSX and recharts configuration, tooltips, CSS and `toFixed(1)` are left out. They are presentation only. This includes the tooltip's own descending sort at frontend/components/charts/CumulativeChart.tsx:29.
- The empty-state branches are modelled only for the delta chart (`CumulativeChart.CumulativeChart`). Elsewhere an empty input gives an empty result, which is what the charts draw from.
- TopTransfersChart is left out. It passes its data through unchanged. Its one piece of logic, the colour lookup, is `Palette.TeamColor`.
- The backend, the data pipeline, the Streamlit scripts, the page component and the fetch wrappers in frontend/lib/api.ts are left out. They are I/O against services not shown, or concurrency. Only the record shapes of frontend/lib/api.ts:3-44 are modelled, in `Records`.
- Floating point is not modelled: percentages are exact `real`s.
  - That makes `DraftAnalysisChart.SharesAddUp` and `PlayerSunburstChart.SharesSumTo100` exact sums of 100. IEEE-754 arithmetic may be off in the last bit.
  - The shade factor `1 - i * 0.15` is the exact fraction (100 - 15 i)/100, with round-half-up.
- The `rgb(r, g, b)` string is modelled as the channel triple `Shades.Rgb`. Decimal printing is not modelled.
- JavaScript objects are modelled as separate Dafny maps:
  - the delta and `_weekly` entries of a data point;
  - the shares and `_pts` entries of a sunburst row.

  Key collisions are not modelled:
  - in the delta chart, a manager named like another's `_weekly` key, or named `gameweek` (frontend/components/charts/CumulativeChart.tsx:81-90);
  - in the sunburst, a player's `web_name` equal to `team`, `total` or `playerOrder`, or to another player's `<name>_pts` key (frontend/components/charts/PlayerSunburstChart.tsx:114-128).

  Prototype keys are not modelled either.
- Object key order is the first-insertion order. JavaScript lists integer-like keys first, in numeric order. Manager names are taken as not integer-like.
- Malformed input is excluded by a precondition rather than modelled:
  - `Shades.GenerateShades` requires a well-formed "#RRGGBB" colour. `parseInt` giving `NaN` is not modelled. Every colour the charts pass is well-formed (`Shades.TeamColorWellFormed`).
  - The sunburst lemmas about shares and shades require distinct player names within one team, none of them "Others". Duplicate names collide as object keys in the code.
- `undefined` and `NaN` field values are not modelled. Record fields are integers.
- The gameweek field is a natural number, because gameweeks are numbered from 1.
- `Math.min` of an empty list (`Infinity`) is not modelled. The empty-state return makes it unreachable, and `CumulativeChart.Minimum` requires non-empty input for that reason.
- Immutability of the input arrays (sorting a copy) holds trivially: Dafny sequences are values.
- PlayerSunburstChart.ShareAsWritten: a zero total gives `None`. The model does not distinguish the `NaN` of 0/0 from the infinities of x/0.
- PlayerSunburstChart.SharesSumTo100: the sum over a row adds only the shares that are numbers. The sum is stated for a positive total, where every share is one.
- CumulativeChart.PointAt: its own contract states only the gameweek label. The contents of a point are stated by `CumulativeChart.PointKeys` and `CumulativeChart.PointDistances`.
- PointsAheadChart.PointsAhead: its own contract states the length bound and that no negative margin is shown. The order, the multiplicity and which entries are shown are stated by `PointsAheadChart.PointsAheadContents`, and the last-ranked entry by `PointsAheadChart.LastRankedKept`.
- PointsAheadChart.KeepNonNegative: its own contract states the subsequence and the first entry's margin. Which entries it keeps is stated by `PointsAheadChart.KeepMembers`, and how often by `PointsAheadChart.KeepCounts`. A membership clause on the function itself is assumed at every use and makes the proofs about the last-ranked entry run out of resource.
- DraftAnalysisChart.UnsortedRows and DraftAnalysisChart.ChartData: their own contracts state the count and, for `ChartData`, the order. The contents of each row are stated by `DraftAnalysisChart.ChartDataFacts` and `DraftAnalysisChart.DraftAnalysis`.
- PlayerSunburstChart.TeamRows: its own contract states the count and the order. The contents of each row are stated by `PlayerSunburstChart.TeamRowsFacts`.
- CumulativeChart.WeeklyOf: it carries no contract of its own. An ensures on it is assumed at every unfolding inside the running-total proofs and makes them too expensive. Its meaning is stated by `CumulativeChart.WeeklyOfNone` and `CumulativeChart.WeeklyOfLast`.
- CumulativeChart.Teams: its own contract states only that no manager appears twice. Which managers appear is stated by `CumulativeChart.TeamsFacts`.
- ConsistencyChart.TeamOrder: its own contract states only the count. No duplicates, the managers and the descending totals are stated by `ConsistencyChart.TeamOrderFacts`.
- PlayerSunburstChart.Breakdown: its own contract states only the team and total. The order of a row is stated by `PlayerSunburstChart.BreakdownOrder`. The share and the points of every slice, "Others" included, are stated by `PlayerSunburstChart.BreakdownShares`. `PlayerSunburstChart.BreakdownWritten` and `PlayerSunburstChart.SharesSumTo100` state which shares are numbers and what they add up to.
- PlayerSunburstChart.LabelShown: `!value` is modelled as a missing value. A value of 0 is excluded by `value < 5` anyway. A missing share also stands for +Infinity: a team total of 0 with a scoring player whose teammates' points are negative. For +Infinity, `!value` and `value < 5` are both false, so PlayerSunburstChart.tsx:68 draws the label (when the width allows and the name is not "Others"). The model hides it, as it does for `NaN` and -Infinity.

## Findings

| source | as written | input that shows it | evidently intended | confidence | as-written member | corrected member |
|---|---|---|---|---|---|---|
| frontend/components/charts/PlayerSunburstChart.tsx:126 | `(player.total_points / total) * 100` (and the Others share at line 133) divides by a team total that may be 0 | a team "A" whose one player scored 0 points: its total is 0 and the share is 0/0 | a share of 0 percent, as the draft chart's guard `total > 0 ? ... : 0` gives (DraftAnalysisChart.tsx:94-96); proved for the guarded row by `PlayerSunburstChart.ZeroTotalSharesZero` | medium, not executed | PlayerSunburstChart.ZeroPointsTeam | PlayerSunburstChart.BreakdownIntended |
