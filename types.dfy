/** The records the dashboard works on: the measurements delivered by the
    telemetry back end, the per-metric groups of the initial fetch, and the
    plot series handed to the chart. */
module DashboardTypes {

  datatype Option<T> = None | Some(value: T)

  /** A measured value. The dashboard only copies and compares values, so an
      integer stands for the numeric reading. */
  type Value = int

  /** One sample of a metric; `at` is a timestamp in milliseconds. */
  datatype Measurement = Measurement(metric: string, at: int, value: Value, unit: string)

  /** One group of the initial fetch: a metric with its measurements. */
  datatype MetricNode = MetricNode(metric: string, measurements: seq<Measurement>)

  /** The y-axis a series is drawn against: `''`, `'y'`, `'y2'` or `'y3'`. */
  datatype Axis = Unset | Y | Y2 | Y3

  /** A plot series: its name, its axis and its points, x and y side by side.
      The x coordinates are the timestamps themselves. */
  datatype Series = Series(name: string, axis: Axis, xs: seq<int>, ys: seq<Value>)

  /** Two events count as the same delivery when timestamp, value and metric
      agree; the unit takes no part in the comparison. */
  predicate SameEvent(a: Measurement, b: Measurement)
  {
    a.at == b.at && a.value == b.value && a.metric == b.metric
  }

  /** The zero placeholder used both for the "previous event" before any
      delivery and for each metric's latest value before live data arrives. */
  function ZeroReading(metric: string): Measurement
  {
    Measurement(metric, 0, 0, "")
  }
}
