/**
 * The time-range selector of src/components/TimeframeFilter.tsx: five
 * ranges, their labels, the dropdown options listing them, and the number
 * of days of history each range asks for.
 */
module Timeframe {

  datatype TimeRange = OneMonth | ThreeMonths | SixMonths | OneYear | All

  /** The ranges in the order `TIME_RANGE_LABELS` declares them, which is the order of `Object.keys`. */
  const TimeRanges: seq<TimeRange> := [OneMonth, ThreeMonths, SixMonths, OneYear, All]

  /** The key each range has in the source. */
  function RangeKey(range: TimeRange): string
  {
    match range
    case OneMonth => "1month"
    case ThreeMonths => "3months"
    case SixMonths => "6months"
    case OneYear => "1year"
    case All => "all"
  }

  /** `TIME_RANGE_LABELS`. */
  function TimeRangeLabel(range: TimeRange): string
  {
    match range
    case OneMonth => "1 Month"
    case ThreeMonths => "3 Months"
    case SixMonths => "1/2 Year"
    case OneYear => "1 Year"
    case All => "All"
  }

  datatype DropdownOption = DropdownOption(value: TimeRange, labelText: string)

  /** `TIME_RANGE_OPTIONS`: one option per key of the labels, labelled from them. */
  const TimeRangeOptions: seq<DropdownOption> :=
    seq(|TimeRanges|, i requires 0 <= i < |TimeRanges| => DropdownOption(TimeRanges[i], TimeRangeLabel(TimeRanges[i])))

  /** `getDaysForTimeRange`. */
  function GetDaysForTimeRange(range: TimeRange): (days: int)
    ensures days > 0
  {
    match range
    case OneMonth => 30
    case ThreeMonths => 90
    case SixMonths => 180
    case OneYear => 365
    case All => 10000
  }

  /** Every range is listed exactly once. */
  lemma EveryRangeOnce(range: TimeRange)
    ensures exists i :: 0 <= i < |TimeRanges| && TimeRanges[i] == range
    ensures forall i, j :: 0 <= i < j < |TimeRanges| ==> TimeRanges[i] != TimeRanges[j]
  {
    match range
    case OneMonth => assert TimeRanges[0] == range;
    case ThreeMonths => assert TimeRanges[1] == range;
    case SixMonths => assert TimeRanges[2] == range;
    case OneYear => assert TimeRanges[3] == range;
    case All => assert TimeRanges[4] == range;
  }

  /** The longer the range in the dropdown's order, the more days it asks for. */
  lemma DaysIncrease(i: int, j: int)
    requires 0 <= i < j < |TimeRanges|
    ensures GetDaysForTimeRange(TimeRanges[i]) < GetDaysForTimeRange(TimeRanges[j])
  {
  }

  /** Different ranges ask for different numbers of days, and keys and labels tell them apart. */
  lemma RangesDistinct(a: TimeRange, b: TimeRange)
    requires a != b
    ensures GetDaysForTimeRange(a) != GetDaysForTimeRange(b)
    ensures RangeKey(a) != RangeKey(b)
    ensures TimeRangeLabel(a) != TimeRangeLabel(b)
  {
  }

  /** The options follow the declared order of the ranges, each with its own label. */
  lemma OptionsMatchLabels()
    ensures |TimeRangeOptions| == |TimeRanges| == 5
    ensures forall i :: 0 <= i < |TimeRangeOptions| ==>
      TimeRangeOptions[i].value == TimeRanges[i] && TimeRangeOptions[i].labelText == TimeRangeLabel(TimeRanges[i])
  {
  }

  /** Each range has exactly one option. */
  lemma OneOptionPerRange(range: TimeRange)
    ensures exists i :: 0 <= i < |TimeRangeOptions| && TimeRangeOptions[i].value == range
    ensures forall i, j :: 0 <= i < j < |TimeRangeOptions| ==> TimeRangeOptions[i].value != TimeRangeOptions[j].value
  {
    OptionsMatchLabels();
    EveryRangeOnce(range);
    var k :| 0 <= k < |TimeRanges| && TimeRanges[k] == range;
    assert TimeRangeOptions[k].value == range;
  }
}
