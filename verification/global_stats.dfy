/**
 * The platform-wide view: the three-bar overview, one row per grid, the global
 * joker rate (the plain mean of the per-grid rates) and its rounded pie.
 */
module GlobalStats {
  import opened Wrappers
  import opened Text
  import opened JsMath
  import opened Chart

  /** One per-grid summary record of the global statistics payload. */
  datatype GridSummary = GridSummary(
    gridId: nat,
    gridVersion: string,
    totalPlayers: nat,
    completionRate: real,
    jokerUsageRate: real,
    totalWords: nat,
    averageWordsFound: real,
    medianCompletionTime: nat)

  datatype GlobalStatistics = GlobalStatistics(
    totalUsers: Option<nat>,
    totalGrids: Option<nat>,
    totalSubmissions: Option<nat>,
    gridStats: Option<seq<GridSummary>>)

  /** One grid as the per-grid charts see it. */
  datatype GridRow = GridRow(
    name: string,
    gridId: nat,
    version: string,
    players: nat,
    completion: real,
    joker: real,
    totalWords: nat,
    averageWordsFound: real,
    medianTime: nat,
    medianTimeMinutes: nat)

  /** The overview: users, grids and submissions, in that order, each 0 when missing. */
  function Overview(stats: GlobalStatistics): (bars: seq<Bar>)
    ensures |bars| == 3
    ensures bars[0].name == "Utilisateurs" && bars[1].name == "Grilles" && bars[2].name == "Soumissions"
    ensures bars[0].value == OrZeroNat(stats.totalUsers)
    ensures bars[1].value == OrZeroNat(stats.totalGrids)
    ensures bars[2].value == OrZeroNat(stats.totalSubmissions)
  {
    [Bar("Utilisateurs", OrZeroNat(stats.totalUsers)),
     Bar("Grilles", OrZeroNat(stats.totalGrids)),
     Bar("Soumissions", OrZeroNat(stats.totalSubmissions))]
  }

  /** "Grille {gridId}". */
  function GridName(gridId: nat): string {
    "Grille " + NatToString(gridId)
  }

  /** A grid's name reads back as its id. */
  lemma GridNameReadsBack(gridId: nat)
    ensures Skip(GridName(gridId), "Grille ").Some?
    ensures ReadNat(Skip(GridName(gridId), "Grille ").value) == Some((gridId, ""))
  {
    SkipLiteral("Grille ", NatToString(gridId));
    assert NatToString(gridId) + "" == NatToString(gridId);
    ReadNatToString(gridId, "");
  }

  /** A grid summary as a chart row: fields copied, median also in whole minutes. */
  function GridRowOf(grid: GridSummary): (row: GridRow)
    ensures row.name == GridName(grid.gridId) && row.gridId == grid.gridId
    ensures row.version == grid.gridVersion && row.players == grid.totalPlayers
    ensures row.completion == grid.completionRate && row.joker == grid.jokerUsageRate
    ensures row.totalWords == grid.totalWords && row.averageWordsFound == grid.averageWordsFound
    ensures row.medianTime == grid.medianCompletionTime
    ensures row.medianTimeMinutes * 60 <= row.medianTime < (row.medianTimeMinutes + 1) * 60
  {
    GridRow(GridName(grid.gridId), grid.gridId, grid.gridVersion, grid.totalPlayers,
            grid.completionRate, grid.jokerUsageRate, grid.totalWords, grid.averageWordsFound,
            grid.medianCompletionTime, grid.medianCompletionTime / 60)
  }

  /** `stats.gridStats?.map(...) || []`: one row per grid, in order; none when missing. */
  function GridsData(stats: GlobalStatistics): (rows: seq<GridRow>)
    ensures stats.gridStats.None? ==> rows == []
    ensures stats.gridStats.Some? ==>
      |rows| == |stats.gridStats.value| &&
      forall i :: 0 <= i < |rows| ==> rows[i] == GridRowOf(stats.gridStats.value[i])
  {
    if stats.gridStats.None? then []
    else
      var grids := stats.gridStats.value;
      seq(|grids|, i requires 0 <= i < |grids| => GridRowOf(grids[i]))
  }

  /** The median tooltip: "{minutes} min {seconds}s". */
  function MedianTooltip(row: GridRow): string {
    NatToString(row.medianTimeMinutes) + " min " + NatToString(row.medianTime % 60) + "s"
  }

  /** Reads the " min {seconds}s" tail of a median tooltip back into its seconds. */
  function ReadSecondsPart(rest: string): Option<nat> {
    match Skip(rest, " min ")
    case None => None
    case Some(rest') =>
      match ReadNat(rest')
      case None => None
      case Some((seconds, tail)) => if tail == "s" then Some(seconds) else None
  }

  /** Reads a median tooltip back into a number of seconds. */
  function ReadMedianTooltip(shown: string): Option<nat> {
    match ReadNat(shown)
    case None => None
    case Some((minutes, rest)) =>
      match ReadSecondsPart(rest)
      case None => None
      case Some(seconds) => Some(minutes * 60 + seconds)
  }

  lemma ReadSecondsPartOf(seconds: nat)
    ensures ReadSecondsPart(" min " + (NatToString(seconds) + "s")) == Some(seconds)
  {
    var s := NatToString(seconds);
    SkipLiteral(" min ", s + "s");
    ReadNatToString(seconds, "s");
  }

  lemma ReadMinutesAndSeconds(minutes: nat, seconds: nat)
    ensures ReadMedianTooltip(NatToString(minutes) + (" min " + (NatToString(seconds) + "s")))
      == Some(minutes * 60 + seconds)
  {
    var afterM := " min " + (NatToString(seconds) + "s");
    ReadNatToString(minutes, afterM);
    ReadSecondsPartOf(seconds);
  }

  /** The tooltip is the minutes, then " min ", then the seconds and "s". */
  lemma MedianTooltipShape(row: GridRow)
    ensures MedianTooltip(row) ==
      NatToString(row.medianTimeMinutes) + (" min " + (NatToString(row.medianTime % 60) + "s"))
  {
  }

  /** The tooltip's minutes and seconds add back up to the grid's median time. */
  lemma MedianTooltipReadsBack(grid: GridSummary)
    ensures ReadMedianTooltip(MedianTooltip(GridRowOf(grid))) == Some(grid.medianCompletionTime)
  {
    var t := grid.medianCompletionTime;
    var row := GridRowOf(grid);
    assert row.medianTimeMinutes == t / 60 && row.medianTime == t;
    MedianTooltipShape(row);
    ReadMinutesAndSeconds(t / 60, t % 60);
  }

  // ------------------------------------------------------------ joker rate

  /** `gridsData.reduce((sum, grid) => sum + grid.joker, 0)`. */
  function JokerSum(rows: seq<GridRow>): real
  {
    if rows == [] then 0.0 else JokerSum(rows[..|rows| - 1]) + rows[|rows| - 1].joker
  }

  /** The global joker rate: the unweighted mean of the per-grid rates, 0 without grids. */
  function GlobalJokerRate(rows: seq<GridRow>): (rate: real)
    ensures |rows| == 0 ==> rate == 0.0
    ensures |rows| > 0 ==> rate * |rows| as real == JokerSum(rows)
  {
    if |rows| > 0 then JokerSum(rows) / |rows| as real else 0.0
  }

  lemma {:induction false} JokerSumBounds(rows: seq<GridRow>, lo: real, hi: real)
    requires forall i :: 0 <= i < |rows| ==> lo <= rows[i].joker <= hi
    ensures |rows| as real * lo <= JokerSum(rows) <= |rows| as real * hi
    decreases |rows|
  {
    if rows != [] {
      var init := rows[..|rows| - 1];
      assert forall i :: 0 <= i < |init| ==> init[i] == rows[i];
      JokerSumBounds(init, lo, hi);
    }
  }

  /** When every grid's rate lies in [lo, hi], so does the global rate. */
  lemma MeanWithinBounds(rows: seq<GridRow>, lo: real, hi: real)
    requires |rows| > 0
    requires forall i :: 0 <= i < |rows| ==> lo <= rows[i].joker <= hi
    ensures lo <= GlobalJokerRate(rows) <= hi
  {
    var n := |rows| as real;
    var g := GlobalJokerRate(rows);
    JokerSumBounds(rows, lo, hi);
    assert n * lo <= g * n <= n * hi;
  }

  /** The smallest per-grid joker rate. */
  function MinJoker(rows: seq<GridRow>): (m: real)
    requires |rows| > 0
    ensures forall i :: 0 <= i < |rows| ==> m <= rows[i].joker
    ensures exists i :: 0 <= i < |rows| && rows[i].joker == m
  {
    if |rows| == 1 then rows[0].joker
    else
      var rest := MinJoker(rows[1..]);
      assert forall i :: 1 <= i < |rows| ==> rows[i] == rows[1..][i - 1];
      if rows[0].joker <= rest then rows[0].joker else rest
  }

  /** The largest per-grid joker rate. */
  function MaxJoker(rows: seq<GridRow>): (m: real)
    requires |rows| > 0
    ensures forall i :: 0 <= i < |rows| ==> rows[i].joker <= m
    ensures exists i :: 0 <= i < |rows| && rows[i].joker == m
  {
    if |rows| == 1 then rows[0].joker
    else
      var rest := MaxJoker(rows[1..]);
      assert forall i :: 1 <= i < |rows| ==> rows[i] == rows[1..][i - 1];
      if rows[0].joker >= rest then rows[0].joker else rest
  }

  /** The global rate lies between the smallest and the largest per-grid rate. */
  lemma MeanBetweenMinAndMax(rows: seq<GridRow>)
    requires |rows| > 0
    ensures MinJoker(rows) <= GlobalJokerRate(rows) <= MaxJoker(rows)
  {
    MeanWithinBounds(rows, MinJoker(rows), MaxJoker(rows));
  }

  /** "Avec joker" and "Sans joker": the rate and its complement, each rounded to one decimal. */
  function JokerPie(rate: real): (slices: seq<Slice>)
    ensures |slices| == 2
    ensures slices[0].name == "Avec joker" && slices[1].name == "Sans joker"
    ensures OneDecimal(slices[0].value) && OneDecimal(slices[1].value)
    ensures rate - 0.05 < slices[0].value <= rate + 0.05
    ensures (100.0 - rate) - 0.05 < slices[1].value <= (100.0 - rate) + 0.05
  {
    [Slice("Avec joker", RoundTenth(rate)), Slice("Sans joker", RoundTenth(100.0 - rate))]
  }

  /** The joker pie of the global statistics. */
  function JokerData(stats: GlobalStatistics): (slices: seq<Slice>)
    ensures |slices| == 2
    ensures slices[0].name == "Avec joker" && slices[1].name == "Sans joker"
    ensures OneDecimal(slices[0].value) && OneDecimal(slices[1].value)
    ensures var rate := GlobalJokerRate(GridsData(stats));
      rate - 0.05 < slices[0].value <= rate + 0.05 &&
      (100.0 - rate) - 0.05 < slices[1].value <= (100.0 - rate) + 0.05
    ensures stats.gridStats.None? || stats.gridStats.value == [] ==>
      slices[0].value == 0.0 && slices[1].value == 100.0
  {
    var rate := GlobalJokerRate(GridsData(stats));
    assert rate == 0.0 ==> RoundTenth(100.0 - rate) == 100.0 by {
      if rate == 0.0 { RoundUnique(1000.0, 1000); }
    }
    assert rate == 0.0 ==> RoundTenth(rate) == 0.0 by {
      if rate == 0.0 { RoundUnique(0.0, 0); }
    }
    JokerPie(rate)
  }

  /**
   * Rounded independently, the two slices add up to 100, except when ten times the
   * rate lies exactly halfway between two integers: both round up and the sum is 100.1.
   */
  lemma JokerPieSum(rate: real)
    ensures JokerPie(rate)[0].value + JokerPie(rate)[1].value ==
      if IsHalfway(rate * 10.0) then 100.1 else 100.0
  {
    var y := rate * 10.0;
    var n := Round(y);
    var f := y + 0.5 - n as real;
    assert (100.0 - rate) * 10.0 == 1000.0 - y;
    if f == 0.0 {
      RoundUnique(1000.0 - y, 1001 - n);
      assert IsHalfway(y);
    } else {
      RoundUnique(1000.0 - y, 1000 - n);
      assert !IsHalfway(y);
    }
  }

  /** A rate of 12.25 % shows as 12.3 and 87.8: the slices add up to 100.1. */
  lemma JokerPieHalfwayExample()
    ensures JokerPie(12.25)[0].value == 12.3 && JokerPie(12.25)[1].value == 87.8
    ensures JokerPie(12.25)[0].value + JokerPie(12.25)[1].value == 100.1
  {
    RoundUnique(122.5, 123);
    RoundUnique(877.5, 878);
  }
}
