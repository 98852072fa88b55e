/**
 * The temporal view: submissions per hour as labelled rows, the day-of-week data
 * as sent, the daily timeline, and the numbered peak hours.
 */
module TemporalStats {
  import opened Wrappers
  import opened Text

  /** `parseInt(key)`: the integer at the head of the key; None stands for NaN. */
  function ParseInt(key: string): (r: Option<int>)
    ensures r.None? <==> ReadInt(key).None?
    ensures r.Some? ==> r.value == ReadInt(key).value.0
  {
    match ReadInt(key)
    case Some((n, _)) => Some(n)
    case None => None
  }

  /** An hour key written by the server parses back to that hour. */
  lemma ParseIntOfHour(hour: nat)
    ensures ParseInt(NatToString(hour)) == Some(hour)
  {
    assert NatToString(hour) + "" == NatToString(hour);
    ReadIntToString(hour, "");
  }

  // ------------------------------------------------------------ hourly rows

  /** One bar of the hourly chart. */
  datatype HourRow = HourRow(hour: string, hourNumber: Option<int>, count: nat)

  function HourRowOf(key: string, count: nat): (row: HourRow)
    ensures row.hour == key + "h" && row.count == count && row.hourNumber == ParseInt(key)
  {
    HourRow(key + "h", ParseInt(key), count)
  }

  /**
   * `Object.entries(stats.submissionsByHour || {}).map(...)`: the object is given as
   * its entries in enumeration order; one row per entry, in that order.
   */
  function HourlyData(byHour: Option<seq<(string, nat)>>): (rows: seq<HourRow>)
    ensures byHour.None? ==> rows == []
    ensures byHour.Some? ==>
      |rows| == |byHour.value| &&
      forall i :: 0 <= i < |rows| ==> rows[i] == HourRowOf(byHour.value[i].0, byHour.value[i].1)
  {
    var entries := OrEmpty(byHour);
    seq(|entries|, i requires 0 <= i < |entries| => HourRowOf(entries[i].0, entries[i].1))
  }

  function EntriesTotal(entries: seq<(string, nat)>): nat {
    if entries == [] then 0 else EntriesTotal(entries[..|entries| - 1]) + entries[|entries| - 1].1
  }

  function HourRowsTotal(rows: seq<HourRow>): nat {
    if rows == [] then 0 else HourRowsTotal(rows[..|rows| - 1]) + rows[|rows| - 1].count
  }

  lemma {:induction false} HourRowsTotalOf(entries: seq<(string, nat)>, rows: seq<HourRow>)
    requires |rows| == |entries|
    requires forall i :: 0 <= i < |rows| ==> rows[i].count == entries[i].1
    ensures HourRowsTotal(rows) == EntriesTotal(entries)
    decreases |rows|
  {
    if rows != [] {
      HourRowsTotalOf(entries[..|entries| - 1], rows[..|rows| - 1]);
    }
  }

  /** The hourly chart shows as many submissions as the object counts. */
  lemma HourlyCountsPreserved(byHour: seq<(string, nat)>)
    ensures HourRowsTotal(HourlyData(Some(byHour))) == EntriesTotal(byHour)
  {
    HourRowsTotalOf(byHour, HourlyData(Some(byHour)));
  }

  /** The least element of a non-empty set of hours. */
  ghost function Least(keys: set<nat>): (k: nat)
    requires keys != {}
    ensures k in keys && forall j :: j in keys ==> k <= j
  {
    HasLeast(keys);
    var k :| k in keys && forall j :: j in keys ==> k <= j;
    k
  }

  lemma {:induction false} HasLeast(keys: set<nat>)
    requires keys != {}
    ensures exists k :: k in keys && forall j :: j in keys ==> k <= j
    decreases keys
  {
    var x :| x in keys;
    if keys != {x} {
      var rest := keys - {x};
      HasLeast(rest);
      var y :| y in rest && forall j :: j in rest ==> y <= j;
      assert forall j :: j in keys ==> j == x || j in rest;
      if x <= y {
        assert forall j :: j in keys ==> x <= j;
      } else {
        assert forall j :: j in keys ==> y <= j;
      }
    } else {
      assert forall j :: j in keys ==> x <= j;
    }
  }

  /**
   * Keys JavaScript treats as array indices (0 to 2^32 - 2): an object enumerates
   * these first, in ascending order. Larger integer keys keep insertion order.
   */
  predicate IndexKeys(byHour: map<nat, nat>) {
    forall h :: h in byHour ==> h <= 0xFFFF_FFFE
  }

  /** The hours of an object, in the order JavaScript enumerates array-index keys: ascending. */
  ghost function SortedHours(keys: set<nat>): (hours: seq<nat>)
    ensures |hours| == |keys|
    ensures forall i :: 0 <= i < |hours| ==> hours[i] in keys
    ensures forall k :: k in keys ==> k in hours
    ensures forall i, j :: 0 <= i < j < |hours| ==> hours[i] < hours[j]
    decreases keys
  {
    if keys == {} then []
    else
      var k := Least(keys);
      var rest := SortedHours(keys - {k});
      assert forall i :: 0 <= i < |rest| ==> k < rest[i];
      [k] + rest
  }

  /** `Object.entries` of an hour-to-count object: the hour keys ascending, each with its count. */
  ghost function HourEntries(byHour: map<nat, nat>): (entries: seq<(string, nat)>)
    requires IndexKeys(byHour)
    ensures |entries| == |byHour|
  {
    var hours := SortedHours(byHour.Keys);
    seq(|hours|, i requires 0 <= i < |hours| => (NatToString(hours[i]), byHour[hours[i]]))
  }

  /**
   * For an object keyed by hours, the rows come out sorted by hour, one per hour,
   * labelled "{hour}h" and carrying that hour's count.
   */
  lemma HourlyRowsFollowHours(byHour: map<nat, nat>)
    requires IndexKeys(byHour)
    ensures var rows := HourlyData(Some(HourEntries(byHour)));
      var hours := SortedHours(byHour.Keys);
      && |rows| == |byHour|
      && (forall i :: 0 <= i < |rows| ==>
            && rows[i].hourNumber == Some(hours[i] as int)
            && rows[i].hour == NatToString(hours[i]) + "h"
            && rows[i].count == byHour[hours[i]])
      && (forall i, j :: 0 <= i < j < |rows| ==> rows[i].hourNumber.value < rows[j].hourNumber.value)
  {
    var hours := SortedHours(byHour.Keys);
    forall i | 0 <= i < |hours| {
      ParseIntOfHour(hours[i]);
    }
  }

  /** `{"9": 3, "14": 7}` gives "9h" with 3 and then "14h" with 7. */
  lemma HourlyExample()
    ensures HourlyData(Some(HourEntries(map[9 := 3, 14 := 7]))) ==
      [HourRow("9h", Some(9), 3), HourRow("14h", Some(14), 7)]
  {
    HourEntriesExample();
    ParseIntOfHour(9);
    ParseIntOfHour(14);
    var rows := HourlyData(Some([("9", 3), ("14", 7)]));
    assert rows[0] == HourRow("9h", Some(9), 3);
    assert rows[1] == HourRow("14h", Some(14), 7);
  }

  lemma HourEntriesExample()
    ensures IndexKeys(map[9 := 3, 14 := 7])
    ensures HourEntries(map[9 := 3, 14 := 7]) == [("9", 3), ("14", 7)]
  {
    var m := map[9 := 3, 14 := 7];
    var hours := SortedHours(m.Keys);
    assert m.Keys == {9, 14};
    assert |hours| == 2;
    assert 9 in hours && 14 in hours;
    assert hours == [9, 14];
    assert NatToString(9) == "9" && NatToString(14) == "14";
  }

  // ----------------------------------------------------- weekly and timeline

  datatype DayCount = DayCount(day: string, count: nat)

  /** `stats.submissionsByDayOfWeek || []`: the server's list unchanged, or none. */
  function WeeklyData(byDay: Option<seq<DayCount>>): (rows: seq<DayCount>)
    ensures byDay.Some? ==> rows == byDay.value
    ensures byDay.None? ==> rows == []
  {
    OrEmpty(byDay)
  }

  datatype DailyCount = DailyCount(date: string, count: nat)

  datatype TimelineRow = TimelineRow(date: string, count: nat)

  /**
   * `(stats.dailyTimeline || []).map(...)`: one point per day, in order, with its count;
   * the date goes through the locale's short format, a parameter here.
   */
  function TimelineData(timeline: Option<seq<DailyCount>>, shortDate: string -> string): (rows: seq<TimelineRow>)
    ensures timeline.None? ==> rows == []
    ensures timeline.Some? ==>
      |rows| == |timeline.value| &&
      forall i :: 0 <= i < |rows| ==>
        rows[i].count == timeline.value[i].count && rows[i].date == shortDate(timeline.value[i].date)
  {
    var days := OrEmpty(timeline);
    seq(|days|, i requires 0 <= i < |days| => TimelineRow(shortDate(days[i].date), days[i].count))
  }

  function DaysTotal(days: seq<DailyCount>): nat {
    if days == [] then 0 else DaysTotal(days[..|days| - 1]) + days[|days| - 1].count
  }

  function TimelineTotal(rows: seq<TimelineRow>): nat {
    if rows == [] then 0 else TimelineTotal(rows[..|rows| - 1]) + rows[|rows| - 1].count
  }

  lemma {:induction false} TimelineTotalOf(days: seq<DailyCount>, rows: seq<TimelineRow>)
    requires |rows| == |days|
    requires forall i :: 0 <= i < |rows| ==> rows[i].count == days[i].count
    ensures TimelineTotal(rows) == DaysTotal(days)
    decreases |rows|
  {
    if rows != [] {
      TimelineTotalOf(days[..|days| - 1], rows[..|rows| - 1]);
    }
  }

  /** The timeline shows as many submissions as the server's daily counts add up to. */
  lemma TimelineCountsPreserved(timeline: seq<DailyCount>, shortDate: string -> string)
    ensures TimelineTotal(TimelineData(Some(timeline), shortDate)) == DaysTotal(timeline)
  {
    TimelineTotalOf(timeline, TimelineData(Some(timeline), shortDate));
  }

  // ------------------------------------------------------------- peak hours

  datatype PeakHour = PeakHour(hour: nat, count: nat)

  /** One line of the peak-hours list: "#{rank}", "{hour}h", "{count} soumissions". */
  datatype PeakRow = PeakRow(rank: nat, hour: string, count: nat)

  /** The peak-hours list, shown only for a present, non-empty list; ranks count from 1. */
  function PeakHours(peaks: Option<seq<PeakHour>>): (shown: Option<seq<PeakRow>>)
    ensures shown.None? <==> peaks.None? || |peaks.value| == 0
    ensures shown.Some? ==>
      |shown.value| == |peaks.value| &&
      forall i :: 0 <= i < |shown.value| ==>
        shown.value[i] == PeakRow(i + 1, NatToString(peaks.value[i].hour) + "h", peaks.value[i].count)
  {
    if peaks.None? || |peaks.value| == 0 then None
    else
      var ps := peaks.value;
      Some(seq(|ps|, i requires 0 <= i < |ps| => PeakRow(i + 1, NatToString(ps[i].hour) + "h", ps[i].count)))
  }

  /** The ranks shown run 1, 2, ..., n down the list, each exactly one more than the last. */
  lemma PeakRanksConsecutive(peaks: seq<PeakHour>)
    requires |peaks| > 0
    ensures var rows := PeakHours(Some(peaks)).value;
      && rows[0].rank == 1
      && rows[|rows| - 1].rank == |rows|
      && (forall i :: 0 <= i < |rows| - 1 ==> rows[i + 1].rank == rows[i].rank + 1)
      && (forall i, j :: 0 <= i < |rows| && 0 <= j < |rows| && i != j ==> rows[i].rank != rows[j].rank)
  {
  }

  /** Each peak row's "{hour}h" label reads back as its hour, followed by the unit. */
  lemma PeakLabelReadsBack(peaks: seq<PeakHour>, i: nat)
    requires i < |peaks|
    ensures ReadNat(PeakHours(Some(peaks)).value[i].hour) == Some((peaks[i].hour, "h"))
  {
    ReadNatToString(peaks[i].hour, "h");
  }
}
