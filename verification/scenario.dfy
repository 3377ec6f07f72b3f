/** The worked example of the monitor's behaviour: threshold 25, thirty-one
    samples of 30, thirty-one of 10, thirty-one of 30. */
module Scenario {
  import opened Wrappers
  import opened Monitor
  import opened Runs
  import opened Episodes

  /** One sample of `value` per timestamp of `ts`, in order. */
  function Constant<T>(value: int, ts: seq<T>): seq<Sample<T>>
  {
    seq(|ts|, k requires 0 <= k < |ts| => Sample(value, ts[k]))
  }

  /** Exactly two warnings go out: one on the 31st sample of the first high
      episode and one on the 31st sample of the second, each carrying its
      own sample; the low episode in between re-arms the checker. */
  lemma {:induction false} TwoEpisodes<T>(warningUrl: string, t1: seq<T>, t2: seq<T>, t3: seq<T>)
    requires |t1| == |t2| == |t3| == TimesToWait + 1
    ensures var r := Run(Init(warningUrl, 25), Constant(30, t1) + Constant(10, t2) + Constant(30, t3));
            && Count(r.outputs) == 2
            && r.outputs[TimesToWait] == Some(Post(warningUrl, Warning(WarningMessage, t1[TimesToWait], 30)))
            && r.outputs[3 * TimesToWait + 2] == Some(Post(warningUrl, Warning(WarningMessage, t3[TimesToWait], 30)))
  {
    var c := Init(warningUrl, 25);
    var a, b, d := Constant(30, t1), Constant(10, t2), Constant(30, t3);
    assert AllOnSide(25, Above, a) && AllOnSide(25, Below, b) && AllOnSide(25, Above, d);
    ThreeRuns(c, a, b, d);
  }

  /** The same with any samples: a high run and a low run of TimesToWait + 1
      samples each, then another high run of the same length. */
  lemma {:induction false} ThreeRuns<T>(c: SensorCheck, a: seq<Sample<T>>, b: seq<Sample<T>>, d: seq<Sample<T>>)
    requires c.above == 0 && !c.warningSent
    requires |a| == |b| == |d| == TimesToWait + 1
    requires AllOnSide(c.threshold, Above, a) && AllOnSide(c.threshold, Below, b) && AllOnSide(c.threshold, Above, d)
    ensures var r := Run(c, a + b + d);
            && Count(r.outputs) == 2
            && r.outputs[TimesToWait] == Some(WarningFor(c, a[TimesToWait].value, a[TimesToWait].timestamp))
            && r.outputs[3 * TimesToWait + 2] == Some(WarningFor(c, d[TimesToWait].value, d[TimesToWait].timestamp))
  {
    HighThenLow(c, a, b);
    var rab := Run(c, a + b);
    var rd := Run(rab.final, d);
    DwellBoundary(rab.final, d);
    RunAppend(c, a + b, d);
    CountAppend(rab.outputs, rd.outputs);
    assert Run(c, a + b + d).outputs == rab.outputs + rd.outputs;
    assert (rab.outputs + rd.outputs)[3 * TimesToWait + 2] == rd.outputs[TimesToWait];
  }

  /** A high run then a low run, each of TimesToWait + 1 samples, from an
      armed state with no above run: one warning, on the last high sample,
      and the checker ends re-armed with no above run. */
  lemma {:induction false} HighThenLow<T>(c: SensorCheck, a: seq<Sample<T>>, b: seq<Sample<T>>)
    requires c.above == 0 && !c.warningSent
    requires |a| == |b| == TimesToWait + 1
    requires AllOnSide(c.threshold, Above, a) && AllOnSide(c.threshold, Below, b)
    ensures Run(c, a + b).final.above == 0 && !Run(c, a + b).final.warningSent
    ensures Count(Run(c, a + b).outputs) == 1
    ensures Run(c, a + b).outputs[TimesToWait] == Some(WarningFor(c, a[TimesToWait].value, a[TimesToWait].timestamp))
  {
    var ra := Run(c, a);
    DwellBoundary(c, a);
    AboveEpisode(c, a);
    var rb := Run(ra.final, b);
    BelowEpisode(ra.final, b);
    RunAppend(c, a, b);
    CountAppend(ra.outputs, rb.outputs);
    assert Run(c, a + b).outputs == ra.outputs + rb.outputs;
    assert (ra.outputs + rb.outputs)[TimesToWait] == ra.outputs[TimesToWait];
  }
}
