/**
 * The horizontal bar graph: bars scaled against the largest value, with the
 * value written inside a wide bar and beside a narrow one.
 */
module SimpleBarGraph {
  import opened Wrappers

  /** One bar; `caption` holds the bar's `label` (a reserved word in Dafny). */
  datatype BarData = BarData(caption: string, value: real, color: string)

  /** `Math.max(...values, 0)`. */
  function MaxValue(data: seq<BarData>): (m: real)
    ensures m >= 0.0
    ensures forall i :: 0 <= i < |data| ==> data[i].value <= m
    ensures m == 0.0 || exists i :: 0 <= i < |data| && data[i].value == m
    decreases |data|
  {
    if data == [] then 0.0
    else
      var rest := MaxValue(data[1..]);
      if data[0].value > rest then data[0].value else rest
  }

  /** A bar's width in percent of the largest value; 0 when that is not positive. */
  function Percentage(value: real, maxValue: real): (r: real)
    ensures maxValue > 0.0 ==> r * maxValue == value * 100.0
    ensures maxValue <= 0.0 ==> r == 0.0
  {
    if maxValue > 0.0 then (value / maxValue) * 100.0 else 0.0
  }

  /** A value between 0 and a positive maximum scales into [0, 100], and the maximum itself to 100. */
  lemma ScaledIntoTrack(value: real, maxValue: real)
    requires 0.0 <= value <= maxValue
    ensures 0.0 <= Percentage(value, maxValue) <= 100.0
    ensures maxValue > 0.0 && value == maxValue ==> Percentage(value, maxValue) == 100.0
  {
    if maxValue > 0.0 {
      var q := value / maxValue;
      assert q * maxValue == value;
      if q > 1.0 {
        assert q * maxValue > 1.0 * maxValue;
      }
      assert 0.0 <= q;
    }
  }

  /** Every bar of a graph whose values are non-negative fits in the track, and a largest bar fills it. */
  lemma PercentageBounds(data: seq<BarData>, i: nat)
    requires i < |data| && data[i].value >= 0.0
    ensures 0.0 <= Percentage(data[i].value, MaxValue(data)) <= 100.0
    ensures MaxValue(data) > 0.0 && data[i].value == MaxValue(data) ==> Percentage(data[i].value, MaxValue(data)) == 100.0
  {
    ScaledIntoTrack(data[i].value, MaxValue(data));
  }

  /** With nothing positive to scale against, every bar is empty. */
  lemma EmptyScale(data: seq<BarData>, i: nat)
    requires i < |data| && MaxValue(data) == 0.0
    ensures Percentage(data[i].value, MaxValue(data)) == 0.0
  {
  }

  /** Which of the two value labels a bar draws: the one inside the bar, or the one beside it. */
  datatype BarLabels = BarLabels(inside: string, beside: Option<string>)

  /** The label rule: inside the bar above 25 percent, beside it otherwise. */
  function Labels(percentage: real, formattedValue: string): (r: BarLabels)
    ensures percentage > 25.0 ==> r.inside == formattedValue && r.beside.None?
    ensures percentage <= 25.0 ==> r.inside == [] && r.beside == Some(formattedValue)
  {
    BarLabels(if percentage > 25.0 then formattedValue else [],
              if percentage <= 25.0 then Some(formattedValue) else None)
  }

  /** Every bar shows its value exactly once: inside or beside, never both, never neither. */
  lemma LabelShownOnce(percentage: real, formattedValue: string)
    requires formattedValue != []
    ensures var r := Labels(percentage, formattedValue);
            (r.inside != []) != r.beside.Some?
            && (r.inside == formattedValue || r.beside == Some(formattedValue))
  {
  }
}
