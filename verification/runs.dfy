/** Feeding a sequence of samples to the checker, one `Update` per sample in
    arrival order, and what the counters mean after such a run. */
module Runs {
  import opened Wrappers
  import opened Monitor

  /** One decoded message: a sensor value and its opaque timestamp. */
  datatype Sample<T> = Sample(value: int, timestamp: T)

  /** The checker's state after a run and, per sample, the POST it caused. */
  datatype RunResult<T> = RunResult(final: SensorCheck, outputs: seq<Option<Post<T>>>)

  /** Applies `Update` to every sample of `s` in order, starting from `c`. */
  function Run<T>(c: SensorCheck, s: seq<Sample<T>>): (r: RunResult<T>)
    ensures |r.outputs| == |s|
    ensures r.final.warningUrl == c.warningUrl && r.final.threshold == c.threshold
    decreases |s|
  {
    if |s| == 0 then RunResult(c, [])
    else
      var prev := Run(c, s[..|s| - 1]);
      var step := Update(prev.final, s[|s| - 1].value, s[|s| - 1].timestamp);
      RunResult(step.next, prev.outputs + [step.post])
  }

  /** The number of POSTs among `outputs`. */
  function Count<T>(outputs: seq<Option<Post<T>>>): (n: nat)
    ensures n <= |outputs|
    ensures n == 0 <==> forall k :: 0 <= k < |outputs| ==> outputs[k].None?
  {
    if |outputs| == 0 then 0
    else Count(outputs[..|outputs| - 1]) + (if outputs[|outputs| - 1].Some? then 1 else 0)
  }

  /** Every sample of `s` lies on `side` of `threshold`. */
  predicate AllOnSide<T>(threshold: int, side: Side, s: seq<Sample<T>>)
  {
    forall k :: 0 <= k < |s| ==> SideOf(threshold, s[k].value) == side
  }

  /** The length of the longest suffix of `s` lying on `side`. */
  function TrailingRun<T>(threshold: int, side: Side, s: seq<Sample<T>>): (n: nat)
    ensures n <= |s|
    ensures forall k :: |s| - n <= k < |s| ==> SideOf(threshold, s[k].value) == side
    ensures n < |s| ==> SideOf(threshold, s[|s| - n - 1].value) != side
  {
    if |s| == 0 || SideOf(threshold, s[|s| - 1].value) != side then 0
    else TrailingRun(threshold, side, s[..|s| - 1]) + 1
  }

  lemma {:induction false} CountAppend<T>(a: seq<Option<Post<T>>>, b: seq<Option<Post<T>>>)
    ensures Count(a + b) == Count(a) + Count(b)
    decreases |b|
  {
    if |b| > 0 {
      var b' := b[..|b| - 1];
      assert (a + b)[..|a + b| - 1] == a + b';
      CountAppend(a, b');
    } else {
      assert a + b == a;
    }
  }

  /** Running `a` and then `b` is running `a + b`. */
  lemma {:induction false} RunAppend<T>(c: SensorCheck, a: seq<Sample<T>>, b: seq<Sample<T>>)
    ensures var ra := Run(c, a);
            var rb := Run(ra.final, b);
            Run(c, a + b) == RunResult(rb.final, ra.outputs + rb.outputs)
    decreases |b|
  {
    var ra := Run(c, a);
    if |b| == 0 {
      assert a + b == a;
      assert ra.outputs + [] == ra.outputs;
    } else {
      var b' := b[..|b| - 1];
      assert (a + b)[..|a + b| - 1] == a + b';
      assert (a + b)[|a + b| - 1] == b[|b| - 1];
      RunAppend(c, a, b');
      var rb' := Run(ra.final, b');
      var step := Update(rb'.final, b[|b| - 1].value, b[|b| - 1].timestamp);
      assert ra.outputs + rb'.outputs + [step.post] == ra.outputs + (rb'.outputs + [step.post]);
    }
  }

  /** The POST caused by the `i`-th sample is what `Update` yields on it from
      the state the first `i` samples leave behind. */
  lemma {:induction false} OutputAt<T>(c: SensorCheck, s: seq<Sample<T>>, i: nat)
    requires i < |s|
    ensures Run(c, s).outputs[i] == Update(Run(c, s[..i]).final, s[i].value, s[i].timestamp).post
  {
    assert s == s[..i + 1] + s[i + 1..];
    RunAppend(c, s[..i + 1], s[i + 1..]);
    assert s[..i + 1][..i] == s[..i];
  }

  /** The `i`-th sample causes a warning exactly when it is at or above
      threshold, the checker was armed before it, and the samples before it
      had already run the above counter up to TimesToWait. */
  lemma {:induction false} WarningAt<T>(c: SensorCheck, s: seq<Sample<T>>, i: nat)
    requires i < |s|
    ensures var before := Run(c, s[..i]).final;
            Run(c, s).outputs[i].Some? <==>
              SideOf(c.threshold, s[i].value) == Above && before.above >= TimesToWait && !before.warningSent
  {
    OutputAt(c, s, i);
  }

  /** After any run each counter equals the length of the trailing run of
      samples on its side, plus its starting value when the whole run was on
      that side (the counter was never reset). */
  lemma {:induction false} CountersTrackTrailingRuns<T>(c: SensorCheck, s: seq<Sample<T>>, side: Side)
    ensures Counter(Run(c, s).final, side)
         == TrailingRun(c.threshold, side, s) + (if AllOnSide(c.threshold, side, s) then Counter(c, side) else 0)
    decreases |s|
  {
    if |s| > 0 {
      var p := s[..|s| - 1];
      CountersTrackTrailingRuns(c, p, side);
      if AllOnSide(c.threshold, side, s) {
        assert AllOnSide(c.threshold, side, p);
      }
      if !AllOnSide(c.threshold, side, p) && SideOf(c.threshold, s[|s| - 1].value) == side {
        var k :| 0 <= k < |p| && SideOf(c.threshold, p[k].value) != side;
        assert s[k] == p[k];
      }
    }
  }
}
