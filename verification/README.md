# Crosswords analytics dashboard: view-model shaping, in Dafny

The dashboard fetches precomputed statistics about word-puzzle grids from an HTTP
API and reshapes each JSON payload into the rows its charts draw. This project
models that reshaping for the four views:

- the **leaderboard**: completion times broken into hours, minutes and seconds;
  medals for ranks 1 to 3; highlighted top rows; "N/A" fallbacks;
- the **per-grid view**: histogram bins relabelled in minutes or rounded scores;
  three two-slice pies; the words tooltip percentage; the min/max summaries;
- the **global view**: the three-bar overview; one row per grid; the global joker
  rate, which is the unweighted mean of the per-grid rates; its rounded pie;
- the **temporal view**: hourly rows built from an hour-to-count object; the
  day-of-week data passed through; the daily timeline; numbered peak hours.

Every piece is a pure function of the payload. A field the server may leave out is
an `Option`, and `x || 0` reads a missing value as 0. A JavaScript object is the
sequence of its entries in enumeration order. Rates and scores are exact `real`s.
`Math.round(x)` is `(x + 0.5).Floor`: the nearest integer, with halves rounded up.
Each numeric chart label (a formatted time, a time or score range, a grid name,
a median tooltip, an hour label) has a reader built from `Text`'s `ReadNat`,
`ReadInt` and `Skip`. The round-trip lemmas use those readers to show that the
label carries exactly the numbers it was built from.

Files: `wrappers.dfy` (Option), `text.dfy` (decimal rendering and reading back),
`js_math.dfy` (`Math.round`, `|| 0`), `chart.dfy` (slices and bars), and one
module per view: `leaderboard.dfy`, `grid_stats.dfy`, `global_stats.dfy`,
`temporal_stats.dfy`.

Two points about the code shape the model:

- Only the overview totals and the grid view's pie and median fields default a missing value to 0.
  Per-grid summary fields in the global view (`jokerUsageRate`,
  `medianCompletionTime`) are used as they are, so they are required fields here.
- The hourly rows are a plain map over `Object.entries`, so their order is
  JavaScript's key enumeration order.
  `HourEntries` models that order for hour keys, and `HourlyRowsFollowHours`
  proves that the rows then come out ascending.

## Model

| member | source | states |
|---|---|---|
| `Text.NatToString` | src/components/Leaderboard.jsx:35 | `${n}` of a whole number is a non-empty digit string with no leading zero unless n is 0 |
| `Text.ReadNatToString` | src/components/Leaderboard.jsx:35 | the digits of n, followed by any non-digit, read back as exactly n and leave the rest |
| `Text.ReadIntToString` | src/components/GridStats.jsx:97 | the same for integers that may be negative, written with a leading minus |
| `JsMath.Round` | src/components/GridStats.jsx:86 | `Math.round(x)` is within one half of x: x - 1/2 < r <= x + 1/2 |
| `JsMath.RoundTenth` | src/components/GlobalStats.jsx:75 | `Math.round(x*10)/10` has one decimal place and is within 0.05 of x |
| `JsMath.OrZero` | src/components/GridStats.jsx:70 | the JavaScript default-to-zero idiom gives the value when present and 0 when missing |
| `JsMath.OrZeroNat` | src/components/GlobalStats.jsx:50-52 | the same for whole-number totals |
| `Wrappers.OrEmpty` | src/components/TemporalStats.jsx:52 | the JavaScript default-to-empty idiom gives the list when present and the empty list when missing |
| `Leaderboard.Breakdown` | src/components/Leaderboard.jsx:30-32 | hours*3600 + minutes*60 + secs equals the input, with minutes < 60 and secs < 60 |
| `Leaderboard.BreakdownUnique` | src/components/Leaderboard.jsx:30-32 | no other hours/minutes/seconds split with both lower parts under 60 exists |
| `Leaderboard.FormatTime` | src/components/Leaderboard.jsx:28-29 | the result is "N/A" exactly when the time is missing or 0 |
| `Leaderboard.FormatTimeRoundTrip` | src/components/Leaderboard.jsx:28-41 | every non-zero time renders to text that reads back as its hours, minutes and seconds |
| `Leaderboard.FormatTimeLeadingUnit` | src/components/Leaderboard.jsx:34-40 | 3 fields led by hours from 3600 s on; 2 led by minutes from 60 s; 1 (seconds) below; the leading field is never 0 |
| `Leaderboard.FormatTimeExamples` | src/components/Leaderboard.jsx:28-41 | missing or 0 gives "N/A"; 45 gives "45s"; 125 gives "2m 5s"; 3725 gives "1h 2m 5s"; 3600 gives "1h 0m 0s" |
| `Leaderboard.Medal` | src/components/Leaderboard.jsx:55-66 | a marker is shown exactly for ranks 1, 2 and 3 |
| `Leaderboard.MedalsDistinct` | src/components/Leaderboard.jsx:57-62 | the three markers differ pairwise |
| `Leaderboard.RowClass` | src/components/Leaderboard.jsx:92 | a row is `top-rank` exactly when its rank is at most 3, and has no class otherwise |
| `Leaderboard.HighlightMatchesMedal` | src/components/Leaderboard.jsx:92-94 | a medalled row is always highlighted; for ranks from 1 on, highlighted rows are exactly the medalled ones |
| `Leaderboard.FormatDate` | src/components/Leaderboard.jsx:43-53 | a missing or empty timestamp gives "N/A"; any other goes to the locale formatter |
| `Leaderboard.ScoreCell` | src/components/Leaderboard.jsx:97 | a missing score gives "N/A"; a present one shows its one-decimal text |
| `Leaderboard.CheckMark` | src/components/Leaderboard.jsx:99-100 | a one-character cell that is the check mark exactly when the flag is true, the cross otherwise |
| `Leaderboard.RowOf` | src/components/Leaderboard.jsx:91-103 | each row carries its entry's rank, pseudo, medal, class, score cell, formatted time, date and check marks |
| `Leaderboard.LeaderboardView` | src/components/Leaderboard.jsx:70-72 | the no-data view is shown exactly for a missing or empty list; otherwise there is one row per entry, in order |
| `Leaderboard.TableHighlightsTopRanks` | src/components/Leaderboard.jsx:91-92 | in a shown table, row i is highlighted exactly when entry i has rank at most 3 |
| `GridStats.TimeRowOf` | src/components/GridStats.jsx:57-64 | count, start and end are copied unchanged; the label is the minute range of the bin |
| `GridStats.TimeDistributionData` | src/components/GridStats.jsx:56-67 | one row per bin, same length and order; empty when the distribution or its bins are missing |
| `GridStats.TimeRangeReadsBack` | src/components/GridStats.jsx:58-61 | the label "{a}-{b} min" reads back as start/60 and end/60, floored |
| `GridStats.TimeRangeMinutes` | src/components/GridStats.jsx:58-61 | each number in the label is the number of whole minutes its bound contains |
| `GridStats.TimeBinExample` | src/components/GridStats.jsx:57-66 | the bin {start 60, end 180, count 5} gives "1-3 min" with count 5 |
| `GridStats.ScoreRowOf` | src/components/GridStats.jsx:96-100 | count, start and end are copied unchanged; the label is the rounded score range |
| `GridStats.DistributionData` | src/components/GridStats.jsx:95-101 | one row per score bin, same length and order; empty when missing |
| `GridStats.ScoreRangeReadsBack` | src/components/GridStats.jsx:97 | the label "{a}-{b}" reads back as round(start) and round(end), negative values included |
| `GridStats.ScoreRangeNearBounds` | src/components/GridStats.jsx:97 | each number in the label is within one half of the bound it shows |
| `GridStats.JokerUsed` | src/components/GridStats.jsx:75 | a missing joker-usage record counts as 0 uses; otherwise `totalUsed`, 0 when missing |
| `GridStats.TotalWords` | src/components/GridStats.jsx:90 | a missing words record counts as 0 words; otherwise `totalWords`, 0 when missing |
| `GridStats.AverageFound` | src/components/GridStats.jsx:86 | a missing words record counts as 0 words found; otherwise `averageFound`, 0 when missing |
| `GridStats.CompletionData` | src/components/GridStats.jsx:69-72 | "Complété" is the rate (0 when missing) and the two slices sum to 100 |
| `GridStats.JokerData` | src/components/GridStats.jsx:74-80 | "Avec joker" is the uses; the slices sum to the submissions; the second is negative exactly when uses exceed submissions |
| `GridStats.WordsFoundData` | src/components/GridStats.jsx:83-92 | "Mots trouvés" is the rounded average found; the slices sum to the total words (0 when missing) |
| `GridStats.WordsPercentage` | src/components/GridStats.jsx:296-297 | 0 when the total is 0; otherwise percentage times total equals value times 100 |
| `GridStats.WordsPercentagesSum` | src/components/GridStats.jsx:294-298 | when the grid has words, the two words slices' percentages sum to 100 |
| `GridStats.MinutesSeconds` | src/components/GridStats.jsx:210 | minutes*60 + seconds equals the time, with seconds < 60 |
| `GridStats.TimeExtremes` | src/components/GridStats.jsx:209-220 | the Min and Max entries recombine to the distribution's min and max |
| `GridStats.ScoreSummaryOf` | src/components/GridStats.jsx:155-166 | each shown value is within one half of its exact value; the median is 0 when missing |
| `GlobalStats.Overview` | src/components/GlobalStats.jsx:49-53 | exactly three bars, Utilisateurs, Grilles, Soumissions, each 0 when missing |
| `GlobalStats.GridNameReadsBack` | src/components/GlobalStats.jsx:57 | "Grille {gridId}" reads back as the grid id |
| `GlobalStats.GridRowOf` | src/components/GlobalStats.jsx:56-67 | fields copied; the median in whole minutes is the floor of the median seconds divided by 60 |
| `GlobalStats.GridsData` | src/components/GlobalStats.jsx:56-67 | one row per grid, same length and order; empty when missing |
| `GlobalStats.MedianTooltipReadsBack` | src/components/GlobalStats.jsx:196-202 | "{m} min {s}s" reads back as m*60 + s, which is the grid's median time |
| `GlobalStats.GlobalJokerRate` | src/components/GlobalStats.jsx:70-72 | 0 with no grids; otherwise rate times the grid count equals the sum of the rates |
| `GlobalStats.JokerSumBounds` | src/components/GlobalStats.jsx:71 | the reduce over n rates, all within [lo, hi], lies within [n*lo, n*hi] |
| `GlobalStats.MeanWithinBounds` | src/components/GlobalStats.jsx:70-72 | if every grid's rate lies in [lo, hi], the global rate does too |
| `GlobalStats.MeanBetweenMinAndMax` | src/components/GlobalStats.jsx:70-72 | the global rate lies between the smallest and largest per-grid rate |
| `GlobalStats.JokerPie` | src/components/GlobalStats.jsx:74-77 | "Avec joker" then "Sans joker", each with one decimal place and within 0.05 of the rate and of 100 minus the rate |
| `GlobalStats.JokerData` | src/components/GlobalStats.jsx:69-77 | "Avec joker" then "Sans joker", each with one decimal place and within 0.05 of the global rate and of its complement; with no grids, the pie is 0 against 100 |
| `GlobalStats.JokerPieSum` | src/components/GlobalStats.jsx:75-76 | the slices sum to 100, or to 100.1 exactly when ten times the rate is halfway between integers |
| `GlobalStats.JokerPieHalfwayExample` | src/components/GlobalStats.jsx:75-76 | a rate of 12.25 shows as 12.3 and 87.8, which sum to 100.1 |
| `TemporalStats.ParseInt` | src/components/TemporalStats.jsx:47 | `parseInt` gives the integer read at the head of the key, and NaN exactly when the key does not start with a number |
| `TemporalStats.ParseIntOfHour` | src/components/TemporalStats.jsx:47 | an hour key written as digits parses back to that hour |
| `TemporalStats.HourRowOf` | src/components/TemporalStats.jsx:45-49 | the label is key + "h", the hour number is the parsed key and the count is copied |
| `TemporalStats.HourlyData` | src/components/TemporalStats.jsx:45-49 | one row per object entry, same order; empty when the object is missing |
| `TemporalStats.HourlyCountsPreserved` | src/components/TemporalStats.jsx:45-49 | the rows' counts sum to the object's counts |
| `TemporalStats.SortedHours` | src/components/TemporalStats.jsx:45 | array-index keys (up to 2^32 - 2) enumerate once each, strictly ascending |
| `TemporalStats.HourEntries` | src/components/TemporalStats.jsx:45 | `Object.entries` of an object keyed by array indices has one entry per key |
| `TemporalStats.HourlyRowsFollowHours` | src/components/TemporalStats.jsx:45-49 | for an object whose keys are all array indices, the rows have strictly ascending hours, one per hour, each with that hour's label and count |
| `TemporalStats.HourlyExample` | src/components/TemporalStats.jsx:45-49 | {"9": 3, "14": 7} gives "9h" with 3, then "14h" with 7 |
| `TemporalStats.WeeklyData` | src/components/TemporalStats.jsx:52 | the day-of-week list unchanged, or empty when missing |
| `TemporalStats.TimelineData` | src/components/TemporalStats.jsx:55-61 | one point per day, same order, count kept, date through the short locale format; empty when missing |
| `TemporalStats.TimelineCountsPreserved` | src/components/TemporalStats.jsx:55-61 | the timeline's counts sum to the server's daily counts |
| `TemporalStats.PeakHours` | src/components/TemporalStats.jsx:102-113 | the list is shown exactly when present and non-empty; row i has rank i + 1, the hour label and the count |
| `TemporalStats.PeakLabelReadsBack` | src/components/TemporalStats.jsx:102-113 | each peak row's hour label reads back as its hour followed by "h" |
| `TemporalStats.PeakRanksConsecutive` | src/components/TemporalStats.jsx:106-108 | the ranks run from 1 to n, each one more than the last, with no rank repeated |

## Left out

- The fetch lifecycle in every view is not modelled. This covers `useEffect`/`useState`, the loading and error states, and the last-response-wins race between overlapping fetches. It is asynchronous UI state, not shaping.
- `src/services/api.js` is not part of this model. It is network I/O only.
- `src/App.jsx` (tab and grid selection) and `src/components/Login.jsx` (a password check against an environment value plus browser storage) are not part of this model.
- JSX rendering, the charting library, colours and styles are not modelled.
- Locale and `Date` formatting (`toLocaleDateString`, `toLocaleString`) are foreign behaviour. They appear as function parameters (`localeDateTime`, `shortDate`). The temporal view's first/last submission lines and its summary cards are left out for the same reason.
- `toFixed(1)` is a parameter in the leaderboard's score cell. Elsewhere it is left out. `GridStats.WordsPercentage` returns the number that would be formatted, not its text.
- Floating-point behaviour is not modelled. Reals are exact, so IEEE rounding error in `rate * 10` and in the mean is out of scope.
- GridStats.TimeRowOf: bin bounds are whole seconds (`nat`). `Math.floor(bin.start / 60)` also accepts fractional bounds; for those the label still shows the floored minutes, but such inputs are not modelled.
- GridStats.TimeRowOf: the row's `minutes` field is not modelled. It is the fractional midpoint `(start + end) / 120`, which is only used for display.
- GridStats.TimeExtremes: the distribution's `min` and `max` are required whole seconds. JavaScript has no `|| 0` here. A `null` value shows as "0m 0s", an absent one as "NaNm NaNs", and a fractional one prints its seconds unrounded (125.5 gives "2m 5.5s"). None of these inputs is modelled.
- GridStats.ScoreSummaryOf: the score distribution's `min`, `mean` and `max` are required. JavaScript has no `|| 0` here. `Math.round(null)` shows 0 and an absent value shows NaN; neither is modelled.
- GridStats.TimeExtremes: the mean and median entries under the time histogram (`Math.round(mean % 60)`) are not modelled, because they are fractional values.
- Leaderboard.FormatTime: times are whole seconds (`nat`). Fractional or negative seconds from the server are not modelled, and for whole seconds `Math.floor(seconds % 60)` is just `seconds % 60`.
- TemporalStats.ParseInt: leading whitespace, a leading `+` and a `0x` prefix are not modelled. Without a radix, `parseInt` reads `0x1A` as hexadecimal 26, while the model reads 0. The hour keys the server sends have none of these.
- TemporalStats.HourlyData takes the object's entries already in enumeration order. Only objects whose keys are all array indices get their order modelled (`HourEntries`, ascending). Integer keys above 2^32 - 2 and non-integer keys enumerate in insertion order, which is not modelled.
- GlobalStats.GridRowOf: the median completion time is whole seconds (`nat`). The tooltip uses `medianTime % 60` without rounding, so a fractional median such as 125.5 s would show as "2 min 5.5s"; such inputs are not modelled, and `MedianTooltipReadsBack` covers whole-second medians only.
- GlobalStats.GridRowOf: per-grid summary fields are required, so neither `null` nor an absent field is modelled. In JavaScript a `null` `jokerUsageRate` adds 0 to the sum while the grid still counts in the mean's denominator, and a `null` `medianCompletionTime` gives 0 minutes and a "0 min 0s" tooltip. An absent (`undefined`) field gives NaN in both places.
