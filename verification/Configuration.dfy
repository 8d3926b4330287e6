/** agent/config.py: the validated settings the engine reads. */
module Configuration {
  datatype Config = Config(interval: real, lowInterval: real, retentionHours: real,
                           beforeMinutes: real, afterMinutes: real,
                           temperatureCritical: real, memoryWarning: real, cpuWarning: real)
}
