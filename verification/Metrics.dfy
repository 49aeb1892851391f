/**
 Metrics (pkg/sdk/metrics/types.go) and their resolution label.  Instants are UTC
 nanoseconds, values are reals.
 */
module Metrics {
  import opened SeriesKeys

  datatype MetricType = Counter | Gauge | Histogram

  datatype Metric = Metric(name: string, typ: MetricType, value: real, labels: Labels, timestamp: int)

  /** A map lookup in Go: the empty string for a missing key. */
  function Lookup(labels: Labels, k: string): string { if k in labels then labels[k] else "" }

  const RESOLUTION := "__resolution__"

  function Resolution(m: Metric): string { Lookup(m.labels, RESOLUTION) }

  /** A raw sample carries no resolution, or an empty one. */
  predicate IsRaw(m: Metric) { Resolution(m) == "" }
}
