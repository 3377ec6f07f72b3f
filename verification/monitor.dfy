/** The debounced, hysteretic threshold checker of the sensor monitor.

    One `SensorCheck` value stands for the checker object: its configuration
    (the warning URL and the threshold) and its mutable state (two
    consecutive-run counters and the `warningSent` flag). `Update` consumes one
    `(value, timestamp)` sample and returns the next state together with the
    HTTP POST the checker makes, if any. */
module Monitor {
  import opened Wrappers

  /** Number of consecutive same-side samples that must be EXCEEDED before a
      side change is confirmed (six samples a minute for five minutes). */
  const TimesToWait: nat := 30

  /** The fixed text of every warning. */
  const WarningMessage: string := "threshold value exceeded"

  /** The checker object. `below` and `above` count consecutive samples on
      each side of the threshold; `warningSent` is true while a warning has
      been sent for the current episode and no confirmed below dwell has
      followed it. */
  datatype SensorCheck = SensorCheck(
    warningUrl: string,
    threshold: int,
    below: nat,
    above: nat,
    warningSent: bool)

  /** The form fields posted to the warning server. The timestamp is passed
      through untouched, so its type is left open. */
  datatype Warning<T> = Warning(message: string, lastSensorTimestamp: T, lastSensorValue: int)

  /** One outbound HTTP POST: the target URL and its form data. */
  datatype Post<T> = Post(url: string, data: Warning<T>)

  /** What one update yields: the checker's next state and the POST it made. */
  datatype Step<T> = Step(next: SensorCheck, post: Option<Post<T>>)

  /** Which side of the threshold a value falls on. A value equal to the
      threshold is on the `Above` side: only `value < threshold` is below. */
  datatype Side = Below | Above

  function SideOf(threshold: int, value: int): Side
  {
    if value < threshold then Below else Above
  }

  /** The counter that tracks runs on `side`. */
  function Counter(c: SensorCheck, side: Side): nat
  {
    match side
    case Below => c.below
    case Above => c.above
  }

  /** A freshly constructed checker: both counters zero, no warning sent. */
  function Init(warningUrl: string, threshold: int): SensorCheck
  {
    SensorCheck(warningUrl, threshold, 0, 0, false)
  }

  /** The warning a sample triggers: the fixed message with the triggering
      sample's own timestamp and value, posted to the configured URL. */
  function WarningFor<T>(c: SensorCheck, value: int, timestamp: T): Post<T>
  {
    Post(c.warningUrl, Warning(WarningMessage, timestamp, value))
  }

  /** Processes one sample. */
  function Update<T>(c: SensorCheck, value: int, timestamp: T): (r: Step<T>)
    // the configuration is never changed
    ensures r.next.warningUrl == c.warningUrl && r.next.threshold == c.threshold
    // the counter on the sample's side grows by one, the other restarts
    ensures Counter(r.next, SideOf(c.threshold, value)) == Counter(c, SideOf(c.threshold, value)) + 1
    ensures value < c.threshold ==> r.next.above == 0
    ensures value >= c.threshold ==> r.next.below == 0
    // hence at least one counter is zero and the sample's side is at least one
    ensures r.next.below == 0 || r.next.above == 0
    ensures Counter(r.next, SideOf(c.threshold, value)) >= 1
    // a warning goes out exactly when an armed checker sees the
    // (TimesToWait + 1)-th or later consecutive sample at or above threshold
    ensures r.post.Some? <==> value >= c.threshold && c.above + 1 > TimesToWait && !c.warningSent
    ensures r.post.Some? ==> r.post.value == WarningFor(c, value, timestamp)
    // warningSent is set only by the update that sends, and cleared only by a
    // below sample that exceeds the dwell
    ensures !c.warningSent && r.next.warningSent ==> r.post.Some?
    ensures r.post.Some? ==> r.next.warningSent
    ensures c.warningSent && !r.next.warningSent <==> c.warningSent && value < c.threshold && r.next.below > TimesToWait
  {
    if value < c.threshold then
      var below := c.below + 1;
      Step(c.(above := 0, below := below, warningSent := if below > TimesToWait then false else c.warningSent), None)
    else
      var above := c.above + 1;
      if above > TimesToWait && !c.warningSent then
        Step(c.(below := 0, above := above, warningSent := true), Some(WarningFor(c, value, timestamp)))
      else
        Step(c.(below := 0, above := above), None)
  }
}
