/**
 * The leaderboard view: completion times as "Hh Mm Ss" / "Mm Ss" / "Ss",
 * medals for the first three ranks, the highlighted top rows, and the
 * "N/A" fallbacks for values the server leaves out.
 */
module Leaderboard {
  import opened Wrappers
  import opened Text

  /** A completion time broken into hours, minutes and seconds. */
  datatype Duration = Duration(hours: nat, minutes: nat, seconds: nat)

  function TotalSeconds(d: Duration): nat {
    d.hours * 3600 + d.minutes * 60 + d.seconds
  }

  /** `hours = floor(s / 3600)`, `minutes = floor((s % 3600) / 60)`, `secs = floor(s % 60)`. */
  function Breakdown(total: nat): (d: Duration)
    ensures TotalSeconds(d) == total
    ensures d.minutes < 60 && d.seconds < 60
  {
    var hours := total / 3600;
    var minutes := (total % 3600) / 60;
    var secs := total % 60;
    assert total % 3600 == minutes * 60 + secs;
    Duration(hours, minutes, secs)
  }

  /** The breakdown is the only one whose minutes and seconds stay below 60. */
  lemma BreakdownUnique(d: Duration)
    requires d.minutes < 60 && d.seconds < 60
    ensures Breakdown(TotalSeconds(d)) == d
  {
    var total := TotalSeconds(d);
    var rest := d.minutes * 60 + d.seconds;
    assert 0 <= rest < 3600;
    assert total == d.hours * 3600 + rest;
    assert total / 3600 == d.hours;
    assert total % 3600 == rest;
    assert rest / 60 == d.minutes;
  }

  /** The template literal formatTime picks: only the units from the largest non-zero one down. */
  function Render(d: Duration): (r: string)
    ensures |r| >= 2 && r[|r| - 1] == 's'
  {
    if d.hours > 0 then
      NatToString(d.hours) + "h " + NatToString(d.minutes) + "m " + NatToString(d.seconds) + "s"
    else if d.minutes > 0 then
      NatToString(d.minutes) + "m " + NatToString(d.seconds) + "s"
    else
      NatToString(d.seconds) + "s"
  }

  /** `formatTime(seconds)`: "N/A" for a missing or zero time, else the largest applicable units. */
  function FormatTime(seconds: Option<nat>): (r: string)
    ensures r == "N/A" <==> seconds.None? || seconds == Some(0)
  {
    if seconds.None? || seconds.value == 0 then "N/A"
    else
      var r := Render(Breakdown(seconds.value));
      assert r != "N/A" by { assert "N/A"[2] == 'A'; }
      r
  }

  /** One "<digits><unit>" field of a rendered time, such as the "2m" in "2m 5s". */
  datatype Field = Field(amount: nat, unit: char)

  /** Reads the space-separated "<digits><unit>" fields of a rendered time. */
  function ReadFields(s: string): Option<seq<Field>>
    decreases |s|
  {
    match ReadNat(s)
    case None => None
    case Some((n, rest)) =>
      if |rest| == 1 then Some([Field(n, rest[0])])
      else if |rest| >= 2 && rest[1] == ' ' then
        match ReadFields(rest[2..])
        case Some(fs) => Some([Field(n, rest[0])] + fs)
        case None => None
      else None
  }

  /** Reads a rendered time back into hours, minutes and seconds. */
  function ParseTime(s: string): Option<Duration>
  {
    match ReadFields(s)
    case None => None
    case Some(fs) =>
      if |fs| == 3 && fs[0].unit == 'h' && fs[1].unit == 'm' && fs[2].unit == 's' then
        Some(Duration(fs[0].amount, fs[1].amount, fs[2].amount))
      else if |fs| == 2 && fs[0].unit == 'm' && fs[1].unit == 's' then
        Some(Duration(0, fs[0].amount, fs[1].amount))
      else if |fs| == 1 && fs[0].unit == 's' then
        Some(Duration(0, 0, fs[0].amount))
      else None
  }

  lemma ReadLastField(n: nat, u: char)
    requires !IsDigit(u)
    ensures ReadFields(NatToString(n) + [u]) == Some([Field(n, u)])
  {
    ReadNatToString(n, [u]);
  }

  lemma ReadNextField(n: nat, u: char, tail: string, fs: seq<Field>)
    requires !IsDigit(u) && ReadFields(tail) == Some(fs)
    ensures ReadFields(NatToString(n) + ([u, ' '] + tail)) == Some([Field(n, u)] + fs)
  {
    var rest := [u, ' '] + tail;
    ReadNatToString(n, rest);
    assert rest[2..] == tail;
  }

  lemma ReadRenderedSeconds(d: Duration)
    requires d.hours == 0 && d.minutes == 0
    ensures ReadFields(Render(d)) == Some([Field(d.seconds, 's')])
  {
    ReadLastField(d.seconds, 's');
    RenderSecondsOnly(d);
  }

  lemma ReadRenderedMinutes(m: nat, s: nat)
    ensures ReadFields(NatToString(m) + (['m', ' '] + (NatToString(s) + ['s'])))
      == Some([Field(m, 'm'), Field(s, 's')])
  {
    ReadLastField(s, 's');
    ReadNextField(m, 'm', NatToString(s) + ['s'], [Field(s, 's')]);
    assert [Field(m, 'm')] + [Field(s, 's')] == [Field(m, 'm'), Field(s, 's')];
  }

  lemma RenderWithMinutes(d: Duration)
    requires d.hours == 0 && d.minutes > 0
    ensures Render(d) == NatToString(d.minutes) + (['m', ' '] + (NatToString(d.seconds) + ['s']))
  {
  }

  lemma RenderSecondsOnly(d: Duration)
    requires d.hours == 0 && d.minutes == 0
    ensures Render(d) == NatToString(d.seconds) + ['s']
  {
  }

  lemma RenderWithHours(d: Duration)
    requires d.hours > 0
    ensures Render(d) == NatToString(d.hours) + (['h', ' '] +
      (NatToString(d.minutes) + (['m', ' '] + (NatToString(d.seconds) + ['s']))))
  {
  }

  lemma ReadRenderedMinutesFirst(d: Duration)
    requires d.hours == 0 && d.minutes > 0
    ensures ReadFields(Render(d)) == Some([Field(d.minutes, 'm'), Field(d.seconds, 's')])
  {
    ReadRenderedMinutes(d.minutes, d.seconds);
    RenderWithMinutes(d);
  }

  lemma ReadRenderedHoursFirst(d: Duration)
    requires d.hours > 0
    ensures ReadFields(Render(d)) == Some([Field(d.hours, 'h'), Field(d.minutes, 'm'), Field(d.seconds, 's')])
  {
    var tail := NatToString(d.minutes) + (['m', ' '] + (NatToString(d.seconds) + ['s']));
    ReadRenderedMinutes(d.minutes, d.seconds);
    ReadNextField(d.hours, 'h', tail, [Field(d.minutes, 'm'), Field(d.seconds, 's')]);
    assert [Field(d.hours, 'h')] + [Field(d.minutes, 'm'), Field(d.seconds, 's')]
      == [Field(d.hours, 'h'), Field(d.minutes, 'm'), Field(d.seconds, 's')];
    RenderWithHours(d);
  }

  /** What the fields of a rendered breakdown read back as, unit by unit. */
  lemma ReadRendered(d: Duration)
    ensures ReadFields(Render(d)) ==
      if d.hours > 0 then Some([Field(d.hours, 'h'), Field(d.minutes, 'm'), Field(d.seconds, 's')])
      else if d.minutes > 0 then Some([Field(d.minutes, 'm'), Field(d.seconds, 's')])
      else Some([Field(d.seconds, 's')])
  {
    if d.hours > 0 {
      ReadRenderedHoursFirst(d);
    } else if d.minutes > 0 {
      ReadRenderedMinutesFirst(d);
    } else {
      ReadRenderedSeconds(d);
    }
  }

  /** Every non-zero time renders to text that reads back as its breakdown. */
  lemma FormatTimeRoundTrip(total: nat)
    requires total > 0
    ensures ParseTime(FormatTime(Some(total))) == Some(Breakdown(total))
  {
    ReadRendered(Breakdown(total));
  }

  /**
   * The leading field is the largest unit the time reaches, and it is never zero:
   * hours from 3600 s on, minutes from 60 s on, seconds below that.
   */
  lemma FormatTimeLeadingUnit(total: nat)
    requires total > 0
    ensures ReadFields(FormatTime(Some(total))).Some?
    ensures var fs := ReadFields(FormatTime(Some(total))).value;
      && |fs| == (if total >= 3600 then 3 else if total >= 60 then 2 else 1)
      && fs[0].unit == (if total >= 3600 then 'h' else if total >= 60 then 'm' else 's')
      && fs[0].amount > 0
  {
    var d := Breakdown(total);
    ReadRendered(d);
    assert d.minutes * 60 <= 3540;
    assert d.hours > 0 <==> total >= 3600;
    assert d.hours == 0 ==> (d.minutes > 0 <==> total >= 60);
  }

  lemma NatToStringSmall()
    ensures NatToString(0) == "0" && NatToString(1) == "1" && NatToString(2) == "2"
    ensures NatToString(5) == "5" && NatToString(45) == "45"
  {
    assert NatToString(4) == "4";
  }

  /** The worked examples: 0 or missing, 45 s, 125 s, 3725 s and exactly one hour. */
  lemma FormatTimeExamples()
    ensures FormatTime(None) == "N/A" && FormatTime(Some(0)) == "N/A"
    ensures FormatTime(Some(45)) == "45s"
    ensures FormatTime(Some(125)) == "2m 5s"
    ensures FormatTime(Some(3725)) == "1h 2m 5s"
    ensures FormatTime(Some(3600)) == "1h 0m 0s"
  {
    Example45();
    Example125();
    Example3725();
    Example3600();
  }

  lemma Example45() ensures FormatTime(Some(45)) == "45s" {
    FormatTimeExample(45, Duration(0, 0, 45));
    Render45();
  }
  lemma Render45() ensures Render(Duration(0, 0, 45)) == "45s" {
    RenderSecondsOnly(Duration(0, 0, 45));
    NatToStringSmall();
  }
  lemma Example125() ensures FormatTime(Some(125)) == "2m 5s" {
    NatToStringSmall();
    FormatTimeExample(125, Duration(0, 2, 5));
    RenderWithMinutes(Duration(0, 2, 5));
  }
  lemma Example3725() ensures FormatTime(Some(3725)) == "1h 2m 5s" {
    NatToStringSmall();
    FormatTimeExample(3725, Duration(1, 2, 5));
    RenderWithHours(Duration(1, 2, 5));
  }
  lemma Example3600() ensures FormatTime(Some(3600)) == "1h 0m 0s" {
    NatToStringSmall();
    FormatTimeExample(3600, Duration(1, 0, 0));
    RenderWithHours(Duration(1, 0, 0));
  }

  lemma FormatTimeExample(total: nat, d: Duration)
    requires total > 0 && d.minutes < 60 && d.seconds < 60 && TotalSeconds(d) == total
    ensures FormatTime(Some(total)) == Render(d)
  {
    BreakdownUnique(d);
  }

  /** `getMedalEmoji(rank)`: gold, silver and bronze for ranks 1 to 3, nothing otherwise. */
  function Medal(rank: int): (m: string)
    ensures m != "" <==> 1 <= rank <= 3
  {
    if rank == 1 then "\U{1F947}"
    else if rank == 2 then "\U{1F948}"
    else if rank == 3 then "\U{1F949}"
    else ""
  }

  /** The three medals differ from one another. */
  lemma MedalsDistinct()
    ensures Medal(1) != Medal(2) && Medal(1) != Medal(3) && Medal(2) != Medal(3)
  {
    assert Medal(1)[0] != Medal(2)[0];
    assert Medal(1)[0] != Medal(3)[0];
    assert Medal(2)[0] != Medal(3)[0];
  }

  /** The row's class: `top-rank` for ranks up to 3, none otherwise. */
  function RowClass(rank: int): (c: string)
    ensures c == "top-rank" <==> rank <= 3
    ensures c != "top-rank" ==> c == ""
  {
    if rank <= 3 then "top-rank" else ""
  }

  /** A medalled row is always highlighted; among positive ranks, exactly the medalled ones are. */
  lemma HighlightMatchesMedal(rank: int)
    ensures Medal(rank) != "" ==> RowClass(rank) == "top-rank"
    ensures rank >= 1 ==> (RowClass(rank) == "top-rank" <==> Medal(rank) != "")
  {
  }

  /**
   * `formatDate(dateString)`: "N/A" for a missing or empty timestamp; otherwise the
   * timestamp goes to the locale formatter, which is a parameter here.
   */
  function FormatDate(dateString: Option<string>, localeDateTime: string -> string): (r: string)
    ensures dateString.None? || dateString == Some("") ==> r == "N/A"
    ensures dateString.Some? && dateString.value != "" ==> r == localeDateTime(dateString.value)
  {
    if dateString.None? || dateString.value == "" then "N/A" else localeDateTime(dateString.value)
  }

  /** One leaderboard entry as the server sends it. */
  datatype Entry = Entry(
    rank: int,
    pseudo: string,
    finalScore: Option<real>,
    completionTime: Option<nat>,
    jokerUsed: bool,
    isCompleted: bool,
    submittedAt: Option<string>)

  /** The cells of one table row. */
  datatype Row = Row(
    medal: string,
    rank: int,
    rowClass: string,
    pseudo: string,
    score: string,
    time: string,
    joker: string,
    completed: string,
    date: string)

  /** The foreign formatters a row needs: `toFixed(1)` and the locale date-time format. */
  datatype Formatters = Formatters(toFixed1: real -> string, dateTime: string -> string)

  /** What the leaderboard shows once loaded: the no-data message or the table. */
  datatype View = NoData | Table(rows: seq<Row>)

  /** The yes/no cell: a check mark for true, a cross for false. */
  function CheckMark(b: bool): (r: string)
    ensures |r| == 1
    ensures r == "\U{2713}" <==> b
  {
    if b then "\U{2713}" else "\U{2717}"
  }

  /** `finalScore?.toFixed(1) || 'N/A'`: "N/A" only for a missing score. */
  function ScoreCell(score: Option<real>, fmt: Formatters): (r: string)
    ensures score.None? ==> r == "N/A"
    ensures score.Some? && fmt.toFixed1(score.value) != "" ==> r == fmt.toFixed1(score.value)
  {
    if score.None? then "N/A"
    else
      var text := fmt.toFixed1(score.value);
      if text == "" then "N/A" else text
  }

  /** One entry as a table row. */
  function RowOf(e: Entry, fmt: Formatters): (row: Row)
    ensures row.rank == e.rank && row.pseudo == e.pseudo
    ensures row.medal == Medal(e.rank) && row.rowClass == RowClass(e.rank)
    ensures row.time == FormatTime(e.completionTime)
    ensures row.date == FormatDate(e.submittedAt, fmt.dateTime)
    ensures row.joker == CheckMark(e.jokerUsed) && row.completed == CheckMark(e.isCompleted)
    ensures row.score == ScoreCell(e.finalScore, fmt)
  {
    Row(Medal(e.rank), e.rank, RowClass(e.rank), e.pseudo, ScoreCell(e.finalScore, fmt),
        FormatTime(e.completionTime), CheckMark(e.jokerUsed), CheckMark(e.isCompleted),
        FormatDate(e.submittedAt, fmt.dateTime))
  }

  /**
   * The loaded leaderboard: the no-data view for a missing or empty list, otherwise
   * one row per entry, in the server's order.
   */
  function LeaderboardView(board: Option<seq<Entry>>, fmt: Formatters): (v: View)
    ensures v.NoData? <==> board.None? || |board.value| == 0
    ensures v.Table? ==> |v.rows| == |board.value|
    ensures v.Table? ==> forall i :: 0 <= i < |v.rows| ==> v.rows[i] == RowOf(board.value[i], fmt)
  {
    if board.None? || |board.value| == 0 then NoData
    else
      var entries := board.value;
      Table(seq(|entries|, i requires 0 <= i < |entries| => RowOf(entries[i], fmt)))
  }

  /** In a shown table, the highlighted rows are exactly those ranked 3 or better. */
  lemma TableHighlightsTopRanks(board: Option<seq<Entry>>, fmt: Formatters, i: nat)
    requires LeaderboardView(board, fmt).Table?
    requires i < |LeaderboardView(board, fmt).rows|
    ensures LeaderboardView(board, fmt).rows[i].rowClass == "top-rank" <==> board.value[i].rank <= 3
  {
  }
}
