/**
 * The fixed set of metrics the agent's poll loop records on every tick:
 * 27 fields of Go's runtime.MemStats as gauges, a random gauge and the poll counter.
 */
module RuntimeMetrics {
  /** The runtime.MemStats fields, in the order both versions of `Update` write them. */
  const RuntimeNames: seq<string> := [
    "Alloc", "BuckHashSys", "Frees", "GCCPUFraction", "GCSys", "HeapAlloc", "HeapIdle",
    "HeapInuse", "HeapObjects", "HeapReleased", "HeapSys", "LastGC", "Lookups",
    "MCacheInuse", "MCacheSys", "MSpanInuse", "MSpanSys", "Mallocs", "NextGC",
    "NumForcedGC", "NumGC", "OtherSys", "PauseTotalNs", "StackInuse", "StackSys",
    "Sys", "TotalAlloc"]

  const RandomValueName: string := "RandomValue"
  const PollCountName: string := "PollCount"

  /** The poll counter is not a runtime field. */
  lemma PollCountIsNew()
    ensures |RuntimeNames| == 27 && PollCountName !in RuntimeNames
  {
  }
}
