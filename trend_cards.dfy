/**
 * The KPI card's colouring rule: a change is shown as good when an upward
 * trend has a non-negative change, or a downward trend a negative one
 * (the change text starts with '-').
 */
module KpiCard {
  import Text

  datatype Trend = Up | Down

  function IsPositive(trend: Trend, change: string): (positive: bool)
    ensures positive <==> ((trend == Up) != Text.StartsWith(change, "-"))
    ensures trend == Up && !Text.StartsWith(change, "-") ==> positive
    ensures trend == Down && Text.StartsWith(change, "-") ==> positive
  {
    (trend == Up && !Text.StartsWith(change, "-")) || (trend == Down && Text.StartsWith(change, "-"))
  }

  /** Only the first character of the change text matters. */
  lemma OnlyFirstCharacterMatters(trend: Trend, a: string, b: string)
    requires a != [] && b != [] && a[0] == b[0]
    ensures IsPositive(trend, a) == IsPositive(trend, b)
  {
  }

  /** An empty change counts as not negative: good for "up", bad for "down". */
  lemma EmptyChange()
    ensures IsPositive(Up, "") && !IsPositive(Down, "")
  {
  }
}

/** The metric card applies the same rule as the KPI card. */
module MetricCard {
  import Text
  import KpiCard

  function IsPositive(trend: KpiCard.Trend, change: string): (positive: bool)
    ensures positive <==> ((trend == KpiCard.Up) != Text.StartsWith(change, "-"))
    ensures trend == KpiCard.Up && Text.StartsWith(change, "-") ==> !positive
    ensures trend == KpiCard.Down && !Text.StartsWith(change, "-") ==> !positive
  {
    (trend == KpiCard.Up && !Text.StartsWith(change, "-")) || (trend == KpiCard.Down && Text.StartsWith(change, "-"))
  }

  /** For every trend and change text, both cards colour the change the same way. */
  lemma SameRuleAsKpiCard(trend: KpiCard.Trend, change: string)
    ensures IsPositive(trend, change) == KpiCard.IsPositive(trend, change)
  {
  }
}
