/** The records the backend returns, one datatype per JSON shape of
    frontend/lib/api.ts. Field names follow the JSON fields in Dafny's camelCase. */
module Records {

  /** `Standing`: a manager's season total and externally assigned rank. */
  datatype Standing = Standing(entryId: int, managerName: string, totalPoints: int, rank: int)

  /** `MomentumEntry`: points over the last four gameweeks (`total_points_last_4_gw`). */
  datatype MomentumEntry = MomentumEntry(entryId: int, managerName: string, pointsLast4Gw: int)

  /** `BenchPointsEntry`: points left on the bench. */
  datatype BenchPointsEntry = BenchPointsEntry(entryId: int, managerName: string, benchPoints: int)

  /** `ConsistencyEntry`: one manager's points in one gameweek. Gameweeks are
      numbered from 1, so a natural number. */
  datatype ConsistencyEntry = ConsistencyEntry(gameweek: nat, entryId: int, managerName: string, weeklyPoints: int)

  /** `PlayerContribution`: the points one player earned for one manager. */
  datatype PlayerContribution = PlayerContribution(entryId: int, managerName: string, webName: string, totalPoints: int)

  /** `DraftPickAnalysis`: one acquired player, its draft pick number and how it was
      acquired (`pick_bucket`). */
  datatype DraftPickAnalysis = DraftPickAnalysis(
    managerName: string, pick: int, round: int, elementId: int,
    playerName: string, pointsContributed: int, pickBucket: string)
}
