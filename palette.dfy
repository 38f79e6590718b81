/** The team colour table that every chart component declares (`TEAM_COLORS`) and
    its fallback (`DEFAULT_COLOR`), with the lookup
    of a manager's colour, falling back to the default, that fills one bar cell per
    entry. */
module Palette {

  const TeamColors: map<string, string> := map[
    "Wirtzuose" := "#F1C40F",
    "Diego FC" := "#6B5B95",
    "FacePalmer FC" := "#88B04B",
    "Put it in in" := "#F7CAC9",
    "The Habibi Army" := "#E67E22",
    "Guinness FC" := "#955251"
  ]

  const DefaultColor: string := "#3B82F6"

  /** The colour of a manager's bars. */
  function TeamColor(name: string): (c: string)
    ensures name in TeamColors ==> c == TeamColors[name]
    ensures name !in TeamColors ==> c == DefaultColor
    ensures c == DefaultColor || c in TeamColors.Values
  {
    if name in TeamColors then TeamColors[name] else DefaultColor
  }

  /** The fallback colour is not in the table, so a bar gets the fallback exactly
      when its manager is unknown. */
  lemma FallbackExactlyForUnknown(name: string)
    ensures TeamColor(name) == DefaultColor <==> name !in TeamColors
  {
    if name in TeamColors {
      assert name == "Wirtzuose" || name == "Diego FC" || name == "FacePalmer FC"
          || name == "Put it in in" || name == "The Habibi Army" || name == "Guinness FC";
      assert TeamColors[name][1] != DefaultColor[1];
    }
  }

  /** The `<Cell>` list of a bar chart: one fill per entry, in the entries' order. */
  function CellColors<T>(entries: seq<T>, name: T -> string): (r: seq<string>)
    ensures |r| == |entries|
    ensures forall i :: 0 <= i < |r| ==> r[i] == TeamColor(name(entries[i]))
  {
    seq(|entries|, i requires 0 <= i < |entries| => TeamColor(name(entries[i])))
  }
}
