/**
 * The per-grid view: histogram bins relabelled for display, the three two-slice
 * pies (completion, joker, words found), the words tooltip percentage and the
 * min/max summaries under the histograms.
 */
module GridStats {
  import opened Wrappers
  import opened Text
  import opened JsMath
  import opened Chart

  /** A completion-time histogram bin; bounds are in seconds. */
  datatype TimeBin = TimeBin(start: nat, end: nat, count: nat)

  datatype TimeDistribution = TimeDistribution(bins: Option<seq<TimeBin>>, min: nat, max: nat)

  /** A time bin ready for the bar chart: its label, its count and its raw bounds. */
  datatype TimeRow = TimeRow(range: string, count: nat, start: nat, end: nat)

  /** A score histogram bin. */
  datatype ScoreBin = ScoreBin(start: real, end: real, count: nat)

  datatype ScoreDistribution = ScoreDistribution(bins: Option<seq<ScoreBin>>, min: real, mean: real, max: real)

  datatype ScoreRow = ScoreRow(range: string, count: nat, start: real, end: real)

  datatype JokerUsage = JokerUsage(totalUsed: Option<nat>)

  datatype WordsStats = WordsStats(averageFound: Option<real>, totalWords: Option<nat>)

  datatype Scores = Scores(median: Option<real>)

  /** The fields of the grid statistics payload the view reads. */
  datatype GridStatistics = GridStatistics(
    totalSubmissions: Option<nat>,
    completionRate: Option<real>,
    jokerUsage: Option<JokerUsage>,
    wordsStats: Option<WordsStats>,
    scores: Option<Scores>)

  // ---------------------------------------------------------------- time bins

  /** "{start/60}-{end/60} min", both bounds floored to whole minutes. */
  function TimeRange(start: nat, end: nat): string {
    NatToString(start / 60) + "-" + NatToString(end / 60) + " min"
  }

  function TimeRowOf(bin: TimeBin): (row: TimeRow)
    ensures row.count == bin.count && row.start == bin.start && row.end == bin.end
    ensures row.range == TimeRange(bin.start, bin.end)
  {
    TimeRow(TimeRange(bin.start, bin.end), bin.count, bin.start, bin.end)
  }

  /** `timeDistribution?.bins?.map(...) || []`: one row per bin, in order; none when missing. */
  function TimeDistributionData(td: Option<TimeDistribution>): (rows: seq<TimeRow>)
    ensures td.None? || td.value.bins.None? ==> rows == []
    ensures td.Some? && td.value.bins.Some? ==>
      |rows| == |td.value.bins.value| &&
      forall i :: 0 <= i < |rows| ==> rows[i] == TimeRowOf(td.value.bins.value[i])
  {
    if td.None? || td.value.bins.None? then []
    else
      var bins := td.value.bins.value;
      seq(|bins|, i requires 0 <= i < |bins| => TimeRowOf(bins[i]))
  }

  /** Reads a "{a}-{b} min" label back into its two minute counts. */
  function ReadTimeRange(shown: string): Option<(nat, nat)> {
    match ReadNat(shown)
    case None => None
    case Some((a, rest)) =>
      match Skip(rest, "-")
      case None => None
      case Some(rest') =>
        match ReadNat(rest')
        case None => None
        case Some((b, tail)) => if tail == " min" then Some((a, b)) else None
  }

  /** A time label reads back as the two bounds floored to whole minutes. */
  lemma TimeRangeReadsBack(start: nat, end: nat)
    ensures ReadTimeRange(TimeRange(start, end)) == Some((start / 60, end / 60))
  {
    var a, b := NatToString(start / 60), NatToString(end / 60);
    var afterA := "-" + (b + " min");
    assert TimeRange(start, end) == a + afterA;
    ReadNatToString(start / 60, afterA);
    SkipLiteral("-", b + " min");
    ReadNatToString(end / 60, " min");
  }

  /** The minute counts in the label are the whole minutes each bound contains. */
  lemma TimeRangeMinutes(bin: TimeBin)
    ensures ReadTimeRange(TimeRowOf(bin).range).Some?
    ensures var (a, b) := ReadTimeRange(TimeRowOf(bin).range).value;
      a * 60 <= bin.start < (a + 1) * 60 && b * 60 <= bin.end < (b + 1) * 60
  {
    TimeRangeReadsBack(bin.start, bin.end);
  }

  lemma TimeBinExample()
    ensures TimeRowOf(TimeBin(60, 180, 5)) == TimeRow("1-3 min", 5, 60, 180)
  {
    assert NatToString(1) == "1" && NatToString(3) == "3";
  }

  // --------------------------------------------------------------- score bins

  /** "{round(start)}-{round(end)}". */
  function ScoreRange(start: real, end: real): string {
    IntToString(Round(start)) + "-" + IntToString(Round(end))
  }

  function ScoreRowOf(bin: ScoreBin): (row: ScoreRow)
    ensures row.count == bin.count && row.start == bin.start && row.end == bin.end
    ensures row.range == ScoreRange(bin.start, bin.end)
  {
    ScoreRow(ScoreRange(bin.start, bin.end), bin.count, bin.start, bin.end)
  }

  /** `distribution?.bins?.map(...) || []`: one row per bin, in order; none when missing. */
  function DistributionData(dist: Option<ScoreDistribution>): (rows: seq<ScoreRow>)
    ensures dist.None? || dist.value.bins.None? ==> rows == []
    ensures dist.Some? && dist.value.bins.Some? ==>
      |rows| == |dist.value.bins.value| &&
      forall i :: 0 <= i < |rows| ==> rows[i] == ScoreRowOf(dist.value.bins.value[i])
  {
    if dist.None? || dist.value.bins.None? then []
    else
      var bins := dist.value.bins.value;
      seq(|bins|, i requires 0 <= i < |bins| => ScoreRowOf(bins[i]))
  }

  /** Reads a "{a}-{b}" score label back into its two (possibly negative) integers. */
  function ReadScoreRange(shown: string): Option<(int, int)> {
    match ReadInt(shown)
    case None => None
    case Some((a, rest)) =>
      match Skip(rest, "-")
      case None => None
      case Some(rest') =>
        match ReadInt(rest')
        case None => None
        case Some((b, tail)) => if tail == "" then Some((a, b)) else None
  }

  /** A score label reads back as the two rounded bounds, negative ones included. */
  lemma ScoreRangeReadsBack(start: real, end: real)
    ensures ReadScoreRange(ScoreRange(start, end)) == Some((Round(start), Round(end)))
  {
    var a, b := IntToString(Round(start)), IntToString(Round(end));
    var afterA := "-" + b;
    assert ScoreRange(start, end) == a + afterA;
    ReadIntToString(Round(start), afterA);
    SkipLiteral("-", b);
    assert b + "" == b;
    ReadIntToString(Round(end), "");
  }

  /** Each number in a score label is within one half of the bound it shows. */
  lemma ScoreRangeNearBounds(bin: ScoreBin)
    ensures ReadScoreRange(ScoreRowOf(bin).range).Some?
    ensures var (a, b) := ReadScoreRange(ScoreRowOf(bin).range).value;
      bin.start - 0.5 < a as real <= bin.start + 0.5 && bin.end - 0.5 < b as real <= bin.end + 0.5
  {
    ScoreRangeReadsBack(bin.start, bin.end);
  }

  // ---------------------------------------------------------------- the pies

  /** `stats.jokerUsage?.totalUsed || 0`. */
  function JokerUsed(stats: GridStatistics): (n: nat)
    ensures stats.jokerUsage.None? ==> n == 0
    ensures stats.jokerUsage.Some? ==> n == OrZeroNat(stats.jokerUsage.value.totalUsed)
  {
    if stats.jokerUsage.None? then 0 else OrZeroNat(stats.jokerUsage.value.totalUsed)
  }

  /** `stats.wordsStats?.totalWords || 0`. */
  function TotalWords(stats: GridStatistics): (n: nat)
    ensures stats.wordsStats.None? ==> n == 0
    ensures stats.wordsStats.Some? ==> n == OrZeroNat(stats.wordsStats.value.totalWords)
  {
    if stats.wordsStats.None? then 0 else OrZeroNat(stats.wordsStats.value.totalWords)
  }

  /** `stats.wordsStats?.averageFound || 0`. */
  function AverageFound(stats: GridStatistics): (x: real)
    ensures stats.wordsStats.None? ==> x == 0.0
    ensures stats.wordsStats.Some? ==> x == OrZero(stats.wordsStats.value.averageFound)
  {
    if stats.wordsStats.None? then 0.0 else OrZero(stats.wordsStats.value.averageFound)
  }

  /** Completed against not completed: the rate (0 when missing) and its complement to 100. */
  function CompletionData(stats: GridStatistics): (slices: seq<Slice>)
    ensures |slices| == 2
    ensures slices[0].name == "Complété" && slices[1].name == "Non complété"
    ensures slices[0].value == OrZero(stats.completionRate)
    ensures slices[0].value + slices[1].value == 100.0
  {
    var rate := OrZero(stats.completionRate);
    [Slice("Complété", rate), Slice("Non complété", 100.0 - rate)]
  }

  /**
   * With joker against without: the submissions that used it, and the rest of the
   * submissions. Nothing is clamped: more uses than submissions make the rest negative.
   */
  function JokerData(stats: GridStatistics): (slices: seq<Slice>)
    ensures |slices| == 2
    ensures slices[0].name == "Avec joker" && slices[1].name == "Sans joker"
    ensures slices[0].value == JokerUsed(stats) as real
    ensures slices[0].value + slices[1].value == OrZeroNat(stats.totalSubmissions) as real
    ensures slices[1].value < 0.0 <==> JokerUsed(stats) > OrZeroNat(stats.totalSubmissions)
  {
    var used := JokerUsed(stats);
    var total := OrZeroNat(stats.totalSubmissions);
    [Slice("Avec joker", used as real), Slice("Sans joker", (total - used) as real)]
  }

  /** Words found (the rounded average) against the words remaining of the grid's total. */
  function WordsFoundData(stats: GridStatistics): (slices: seq<Slice>)
    ensures |slices| == 2
    ensures slices[0].name == "Mots trouvés" && slices[1].name == "Mots restants"
    ensures slices[0].value == Round(AverageFound(stats)) as real
    ensures slices[0].value + slices[1].value == TotalWords(stats) as real
  {
    var found := Round(AverageFound(stats));
    [Slice("Mots trouvés", found as real),
     Slice("Mots restants", (TotalWords(stats) - found) as real)]
  }

  /** The words tooltip percentage: value / total * 100, or 0 when the total is 0. */
  function WordsPercentage(value: real, stats: GridStatistics): (p: real)
    ensures TotalWords(stats) == 0 ==> p == 0.0
    ensures TotalWords(stats) > 0 ==> p * TotalWords(stats) as real == value * 100.0
  {
    var total := TotalWords(stats);
    if total > 0 then value / total as real * 100.0 else 0.0
  }

  /** The two words slices' percentages add up to 100 whenever the grid has words. */
  lemma WordsPercentagesSum(stats: GridStatistics)
    requires TotalWords(stats) > 0
    ensures var slices := WordsFoundData(stats);
      WordsPercentage(slices[0].value, stats) + WordsPercentage(slices[1].value, stats) == 100.0
  {
    var slices := WordsFoundData(stats);
    var t := TotalWords(stats) as real;
    var v0, v1 := slices[0].value, slices[1].value;
    assert v0 + v1 == t;
    assert WordsPercentage(v0, stats) == v0 / t * 100.0;
    assert WordsPercentage(v1, stats) == v1 / t * 100.0;
    PercentagesOfParts(v0, v1, t);
  }

  /** Two parts of a positive whole make up 100 percent of it. */
  lemma PercentagesOfParts(a: real, b: real, t: real)
    requires t > 0.0 && a + b == t
    ensures a / t * 100.0 + b / t * 100.0 == 100.0
  {
    assert a / t + b / t == (a + b) / t;
    assert (a + b) / t == 1.0;
  }

  // ------------------------------------------------------------- summaries

  /** A duration shown as "{m}m {s}s". */
  datatype MinSec = MinSec(minutes: nat, seconds: nat)

  /** `Math.floor(t / 60)` minutes and `t % 60` seconds. */
  function MinutesSeconds(t: nat): (ms: MinSec)
    ensures ms.minutes * 60 + ms.seconds == t && ms.seconds < 60
  {
    MinSec(t / 60, t % 60)
  }

  /** The "Min" and "Max" entries under the time histogram. */
  function TimeExtremes(td: TimeDistribution): (r: (MinSec, MinSec))
    ensures r.0.minutes * 60 + r.0.seconds == td.min && r.0.seconds < 60
    ensures r.1.minutes * 60 + r.1.seconds == td.max && r.1.seconds < 60
  {
    (MinutesSeconds(td.min), MinutesSeconds(td.max))
  }

  /** The rounded "Min", "Moyenne", "Médiane" and "Max" under the score histogram. */
  datatype ScoreSummary = ScoreSummary(min: int, mean: int, median: int, max: int)

  function ScoreSummaryOf(dist: ScoreDistribution, stats: GridStatistics): (s: ScoreSummary)
    ensures dist.min - 0.5 < s.min as real <= dist.min + 0.5
    ensures dist.mean - 0.5 < s.mean as real <= dist.mean + 0.5
    ensures dist.max - 0.5 < s.max as real <= dist.max + 0.5
    ensures stats.scores.None? || stats.scores.value.median.None? ==> s.median == 0
    ensures stats.scores.Some? && stats.scores.value.median.Some? ==>
      stats.scores.value.median.value - 0.5 < s.median as real <= stats.scores.value.median.value + 0.5
  {
    var median := if stats.scores.None? then 0.0 else OrZero(stats.scores.value.median);
    ScoreSummary(Round(dist.min), Round(dist.mean), Round(median), Round(dist.max))
  }
}
