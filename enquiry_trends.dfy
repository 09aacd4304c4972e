/**
 * The enquiry-trends bar chart: a fixed series per date range with a
 * fallback to the 30-day series, the peak value, the label under each bar
 * and the granularity named in the description.
 */
module EnquiryTrendsChart {
  import opened Wrappers
  import Text

  /** The lookup table `data[range]`; absent keys give None. */
  function SeriesTable(range: string): Option<seq<int>>
  {
    if range == "1d" then Some([120, 145, 165, 135, 180, 155, 175, 190, 205, 185, 160, 140])
    else if range == "7d" then Some([850, 920, 1100, 980, 1250, 1180, 1350])
    else if range == "30d" then Some([25000, 28000, 32000, 29000, 35000, 33000, 38000, 36000, 42000, 39000, 45000, 43000])
    else if range == "90d" then Some([78000, 82000, 88000, 85000, 92000, 89000, 95000, 98000, 102000, 99000, 105000, 108000])
    else if range == "custom" then Some([25000, 28000, 32000, 29000, 35000, 33000, 38000, 36000, 42000, 39000, 45000, 43000])
    else None
  }

  /** `getDataForRange`: the range's own series, or the "30d" series for an unknown range. */
  function DataForRange(range: string): (s: seq<int>)
    ensures SeriesTable(range).Some? ==> s == SeriesTable(range).value
    ensures SeriesTable(range).None? ==> s == SeriesTable("30d").value
    ensures |s| > 0
    ensures range == "7d" <==> |s| == 7
  {
    match SeriesTable(range)
    case Some(series) => series
    case None => SeriesTable("30d").value
  }

  /** The "custom" range shows the same numbers as the 30-day range. */
  lemma CustomIsThirtyDays()
    ensures DataForRange("custom") == DataForRange("30d")
  {
  }

  /** Every range outside the table falls back to the 30-day series. */
  lemma UnknownRangeFallsBack(range: string)
    requires range !in {"1d", "7d", "30d", "90d", "custom"}
    ensures DataForRange(range) == DataForRange("30d")
  {
  }

  /** `Math.max(...series)`: at least every element, and one of them. */
  function MaxValue(s: seq<int>): (m: int)
    requires |s| > 0
    ensures forall i :: 0 <= i < |s| ==> s[i] <= m
    ensures exists i :: 0 <= i < |s| && s[i] == m
  {
    if |s| == 1 then s[0]
    else
      var rest := MaxValue(s[1..]);
      if s[0] >= rest then s[0] else rest
  }

  /** The day names under the bars of the 7-day chart. */
  const DayNames: seq<string> := ["Mon", "Tue", "Wed", "Thu", "Fri", "Sat", "Sun"]

  /**
   * The label under bar i: `${2*i}:00` for "1d", the day name for "7d",
   * `W${i+1}` otherwise. Bars exist only for indices of the shown series.
   */
  function AxisLabel(range: string, i: nat): (l: string)
    requires i < |DataForRange(range)|
    ensures range == "1d" ==> |l| > 3 && l[|l| - 3..] == ":00"
    ensures range == "7d" ==> l in DayNames
    ensures range != "1d" && range != "7d" ==> |l| > 1 && l[0] == 'W'
  {
    if range == "1d" then Text.NatToString(2 * i) + ":00"
    else if range == "7d" then DayNames[i]
    else "W" + Text.NatToString(i + 1)
  }

  /** Every label reads back as its position: the hour 2i, the i-th weekday, or week i + 1. */
  lemma AxisLabelMeaning(range: string, i: nat)
    requires i < |DataForRange(range)|
    ensures range == "1d" ==> var l := AxisLabel(range, i);
      |l| > 3 && l[|l| - 3..] == ":00" && Text.ParseNat(l[..|l| - 3]) == 2 * i
    ensures range == "7d" ==> AxisLabel(range, i) == DayNames[i]
    ensures range != "1d" && range != "7d" ==> var l := AxisLabel(range, i);
      l[0] == 'W' && Text.ParseNat(l[1..]) == i + 1
  {
    var l := AxisLabel(range, i);
    if range == "1d" {
      Text.ParseNatToString(2 * i);
      assert l[..|l| - 3] == Text.NatToString(2 * i);
    } else if range != "7d" {
      Text.ParseNatToString(i + 1);
      assert l[1..] == Text.NatToString(i + 1);
    }
  }

  /** No two bars of one chart carry the same label. */
  lemma AxisLabelsDistinct(range: string, i: nat, j: nat)
    requires i < |DataForRange(range)| && j < |DataForRange(range)| && i != j
    ensures AxisLabel(range, i) != AxisLabel(range, j)
  {
    AxisLabelMeaning(range, i);
    AxisLabelMeaning(range, j);
  }

  datatype Granularity = Hourly | Daily | Weekly

  /** The breakdown named in the chart's description. */
  function DescriptionGranularity(range: string): (g: Granularity)
    ensures g == Hourly <==> range == "1d"
    ensures g == Daily <==> range == "7d"
    ensures g == Weekly <==> range != "1d" && range != "7d"
  {
    if range == "1d" then Hourly else if range == "7d" then Daily else Weekly
  }
}
