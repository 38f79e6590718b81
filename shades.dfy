/** The colour arithmetic of the player-contribution chart
    (PlayerSunburstChart.tsx): parsing "#RRGGBB", and the ramp of six darker shades
    of a team colour, shade i being every channel scaled by 1 - 0.15 i and rounded. */
module Shades {
  import Palette

  /** One `rgb(r, g, b)` colour. */
  datatype Rgb = Rgb(r: int, g: int, b: int)

  predicate IsHexDigit(c: char) {
    '0' <= c <= '9' || 'a' <= c <= 'f' || 'A' <= c <= 'F'
  }

  /** `parseInt(c, 16)` for one digit. */
  function HexValue(c: char): (v: nat)
    requires IsHexDigit(c)
    ensures v < 16
  {
    if '0' <= c <= '9' then c as int - '0' as int
    else if 'a' <= c <= 'f' then c as int - 'a' as int + 10
    else c as int - 'A' as int + 10
  }

  /** A colour written "#RRGGBB" in hexadecimal. */
  predicate WellFormedColor(s: string) {
    |s| == 7 && s[0] == '#' && forall i :: 1 <= i < 7 ==> IsHexDigit(s[i])
  }

  /** `parseInt(pair, 16)` for a two-digit pair. */
  function PairValue(hi: char, lo: char): (v: int)
    requires IsHexDigit(hi) && IsHexDigit(lo)
    ensures 0 <= v <= 255
  {
    16 * HexValue(hi) + HexValue(lo)
  }

  /** Drops the '#' and reads the pairs at offsets 0-2, 2-4 and 4-6 of the rest. */
  function ParseColor(s: string): (c: Rgb)
    requires WellFormedColor(s)
    ensures 0 <= c.r <= 255 && 0 <= c.g <= 255 && 0 <= c.b <= 255
  {
    var hex := s[1..];
    Rgb(PairValue(hex[0], hex[1]), PairValue(hex[2], hex[3]), PairValue(hex[4], hex[5]))
  }

  predicate InRange(c: Rgb) {
    0 <= c.r <= 255 && 0 <= c.g <= 255 && 0 <= c.b <= 255
  }

  /** The digit that writes `v` in upper-case hexadecimal. */
  function HexDigit(v: int): (c: char)
    requires 0 <= v < 16
    ensures IsHexDigit(c) && HexValue(c) == v
  {
    if v < 10 then ('0' as int + v) as char else ('A' as int + v - 10) as char
  }

  /** The colour written with upper-case hexadecimal letters. */
  function UpperColor(s: string): (u: string)
    ensures |u| == |s|
    ensures forall i :: 0 <= i < |s| ==> u[i] == if 'a' <= s[i] <= 'f' then (s[i] as int - 32) as char else s[i]
  {
    seq(|s|, i requires 0 <= i < |s| => if 'a' <= s[i] <= 'f' then (s[i] as int - 32) as char else s[i])
  }

  /** `parseInt` reads hexadecimal letters in either case: a colour and its upper-case
      spelling parse to the same channels. */
  lemma ParseIgnoresCase(s: string)
    requires WellFormedColor(s)
    ensures WellFormedColor(UpperColor(s)) && ParseColor(UpperColor(s)) == ParseColor(s)
  {
  }

  /** "#RRGGBB" for a colour whose channels are in range. */
  function FormatColor(c: Rgb): (s: string)
    requires InRange(c)
    ensures WellFormedColor(s)
  {
    ['#', HexDigit(c.r / 16), HexDigit(c.r % 16), HexDigit(c.g / 16), HexDigit(c.g % 16),
     HexDigit(c.b / 16), HexDigit(c.b % 16)]
  }

  /** Parsing reads back every colour that can be written: the channels are read from
      the right pairs. */
  lemma ParseFormat(c: Rgb)
    requires InRange(c)
    ensures ParseColor(FormatColor(c)) == c
  {
  }

  /** `Math.round(n / 100)`: the nearest integer, halves rounded up. */
  function Round(n: int): (r: int)
    ensures 100 * r - 50 <= n < 100 * r + 50
  {
    (n + 50) / 100
  }

  lemma RoundMonotone(m: int, n: int)
    requires m <= n
    ensures Round(m) <= Round(n)
  {
  }

  /** One channel of shade `i`: the channel scaled by 1 - 0.15 i and rounded, the
      factor written as the exact fraction (100 - 15 i) / 100. */
  function ScaleChannel(v: int, i: int): (s: int)
    ensures 100 * s - 50 <= v * (100 - 15 * i) < 100 * s + 50
    ensures i == 0 ==> s == v
  {
    Round(v * (100 - 15 * i))
  }

  /** Shade `i` of a colour: every channel scaled and rounded. Shade 0 is the colour
      itself, and the six shades the chart asks for stay in range. */
  function Shade(c: Rgb, i: int): (s: Rgb)
    ensures i == 0 ==> s == c
    ensures InRange(c) && 0 <= i <= 6 ==> InRange(s)
  {
    var s := Rgb(ScaleChannel(c.r, i), ScaleChannel(c.g, i), ScaleChannel(c.b, i));
    if InRange(c) && 0 <= i <= 6 then
      ChannelInRange(c.r, i);
      ChannelInRange(c.g, i);
      ChannelInRange(c.b, i);
      s
    else
      s
  }

  /** The loop of `generateShades`: `count` shades of the base colour, darkest last. */
  method GenerateShades(base: string, count: int) returns (shades: seq<Rgb>)
    requires WellFormedColor(base)
    ensures |shades| == if count > 0 then count else 0
    ensures forall i :: 0 <= i < |shades| ==> shades[i] == Shade(ParseColor(base), i)
  {
    var hex := base[1..];
    var r := PairValue(hex[0], hex[1]);
    var g := PairValue(hex[2], hex[3]);
    var b := PairValue(hex[4], hex[5]);
    shades := [];
    var i := 0;
    while i < count
      invariant 0 <= i <= (if count > 0 then count else 0) && |shades| == i
      invariant forall j :: 0 <= j < i ==> shades[j] == Shade(Rgb(r, g, b), j)
    {
      var factor := 100 - 15 * i;
      shades := shades + [Rgb(Round(r * factor), Round(g * factor), Round(b * factor))];
      i := i + 1;
    }
  }

  /** Shade 0 is the base colour itself (factor 1). */
  lemma FirstShadeIsBase(c: Rgb)
    ensures Shade(c, 0) == c
  {
  }

  /** While the factor is not negative (the six shades the chart asks for, and one
      more), a channel in [0, 255] stays in [0, 255]. */
  lemma {:induction false} ChannelInRange(v: int, i: int)
    requires 0 <= v <= 255 && 0 <= i <= 6
    ensures 0 <= ScaleChannel(v, i) <= 255
  {
    var f := 100 - 15 * i;
    assert 0 <= f <= 100;
    assert 0 <= v * f <= 255 * 100 by {
      MulBounds(v, f);
    }
  }

  lemma MulBounds(v: int, f: int)
    requires 0 <= v <= 255 && 0 <= f <= 100
    ensures 0 <= v * f <= 255 * 100
  {
    assert v * f <= 255 * f;
  }

  /** A darker shade never has a larger channel. */
  lemma {:induction false} ChannelNonIncreasing(v: int, i: int, j: int)
    requires 0 <= v && i <= j
    ensures ScaleChannel(v, j) <= ScaleChannel(v, i)
  {
    assert v * (100 - 15 * j) <= v * (100 - 15 * i) by {
      assert v * (100 - 15 * j) == v * (100 - 15 * i) - 15 * v * (j - i);
      assert v * (j - i) >= 0;
    }
    RoundMonotone(v * (100 - 15 * j), v * (100 - 15 * i));
  }

  /** The ramp is why the chart asks for six shades: from the eighth shade on the
      factor is negative, and every channel above 10 leaves the range. At the eighth
      shade exactly the channels above 10 do. */
  lemma {:induction false} EighthShadeLeavesRange(v: int, i: int)
    requires i >= 7 && v > 10
    ensures ScaleChannel(v, i) < 0
    ensures i == 7 ==> forall w :: 0 <= w ==> (ScaleChannel(w, 7) < 0 <==> w > 10)
  {
    var f := 100 - 15 * i;
    assert f + 5 <= 0;
    assert v * f <= -5 * v by {
      assert v * (f + 5) <= 0 by {
        assert v > 0 && -(f + 5) >= 0;
        assert v * -(f + 5) >= 0;
      }
    }
  }

  /** Every colour of the team table and the default parse as "#RRGGBB". */
  lemma {:induction false} TeamColorWellFormed(name: string)
    ensures WellFormedColor(Palette.TeamColor(name))
  {
    var c := Palette.TeamColor(name);
    if c == Palette.DefaultColor {
    } else {
      assert c in Palette.TeamColors.Values;
      var n :| n in Palette.TeamColors && Palette.TeamColors[n] == c;
      assert n == "Wirtzuose" || n == "Diego FC" || n == "FacePalmer FC" || n == "Put it in in"
          || n == "The Habibi Army" || n == "Guinness FC";
    }
  }

  /** The six shades of a team's colour (or of the default colour). */
  method TeamShades(team: string) returns (shades: seq<Rgb>)
    ensures |shades| == 6
    ensures forall i :: 0 <= i < 6 ==> shades[i] == Shade(ParseColor(Palette.TeamColor(team)), i)
    ensures forall i :: 0 <= i < 6 ==> InRange(shades[i])
    ensures forall i, j :: 0 <= i <= j < 6 ==>
      shades[j].r <= shades[i].r && shades[j].g <= shades[i].g && shades[j].b <= shades[i].b
  {
    TeamColorWellFormed(team);
    shades := GenerateShades(Palette.TeamColor(team), 6);
    var c := ParseColor(Palette.TeamColor(team));
    forall i | 0 <= i < 6 ensures InRange(shades[i]) {
      ChannelInRange(c.r, i);
      ChannelInRange(c.g, i);
      ChannelInRange(c.b, i);
    }
    forall i, j | 0 <= i <= j < 6
      ensures shades[j].r <= shades[i].r && shades[j].g <= shades[i].g && shades[j].b <= shades[i].b
    {
      ChannelNonIncreasing(c.r, i, j);
      ChannelNonIncreasing(c.g, i, j);
      ChannelNonIncreasing(c.b, i, j);
    }
  }
}
