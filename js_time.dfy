/** The units of JavaScript time arithmetic: a `Date` difference is in milliseconds. */
module JsTime {
  const MsPerSecond: int := 1000
  const MsPerMinute: int := 60000
  const MsPerHour: int := 3600000
  const MsPerDay: int := 86400000
}
