/** ui.py `color_metric`: the colour an accuracy value is shown in, from
    the `PERFORMANCE_THRESHOLDS` of config.py. */
module Ui {
  const Excellent: real := 90.0
  const Good: real := 70.0
  const Average: real := 50.0
  const Poor: real := 30.0

  /** `color_metric`. */
  function ColorMetric(value: real, metricType: string): (c: string)
    ensures metricType != "accuracy" ==> c == "blue"
    ensures metricType == "accuracy" ==>
      && (c == "green" <==> value >= Excellent)
      && (c == "lightgreen" <==> Good <= value < Excellent)
      && (c == "orange" <==> Average <= value < Good)
      && (c == "salmon" <==> Poor <= value < Average)
      && (c == "red" <==> value < Poor)
  {
    if metricType == "accuracy" then
      if value >= Excellent then "green"
      else if value >= Good then "lightgreen"
      else if value >= Average then "orange"
      else if value >= Poor then "salmon"
      else "red"
    else "blue"
  }

  /** The order of the accuracy bands, worst first. */
  function BandRank(color: string): nat
  {
    if color == "red" then 0
    else if color == "salmon" then 1
    else if color == "orange" then 2
    else if color == "lightgreen" then 3
    else 4
  }

  /** Raising the value never moves it to a lower band. */
  lemma ColorMetricMonotone(low: real, high: real)
    requires low <= high
    ensures BandRank(ColorMetric(low, "accuracy")) <= BandRank(ColorMetric(high, "accuracy"))
  {
  }
}
