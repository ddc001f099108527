/** Prometheus descriptors, compiled tables, and the metrics the exporter builds from them. */
module Metrics {
  import opened Prelude

  datatype ValueType = CounterValue | GaugeValue | UntypedValue

  datatype Desc = Desc(name: string, help: string, variableLabels: seq<string>, constLabels: map<string, string>)

  // One column as compiled. Discarded columns have no descriptor.
  datatype MetricMap = MetricMap(discard: bool, histogram: bool, vtype: Option<ValueType>, desc: Option<Desc>)

  // One namespace as compiled; every descriptor carries the same list of labels.
  datatype Namespace = Namespace(labels: seq<string>, columns: map<string, MetricMap>, master: bool, cacheSeconds: nat)

  type MetricMaps = map<string, Namespace>

  // Sample values are floats of which only the identity matters here.
  type Float(==) = real

  datatype Metric =
    | Const(desc: Desc, vtype: ValueType, value: Float, labelValues: seq<string>)
    | Histogram(desc: Desc, count: nat, sum: Float, buckets: map<Float, nat>, labelValues: seq<string>)

  // A query that ran, or one that failed fatally and delivered nothing.
  datatype Outcome = Rows(metrics: seq<Metric>) | Failed

  // A failed query is emitted, and cached, as an empty result.
  function Emitted(o: Outcome): seq<Metric> {
    match o
    case Rows(m) => m
    case Failed => []
  }
}
