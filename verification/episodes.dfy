/** What the checker does over whole episodes: the dwell boundary on the way
    up, the re-arming boundary on the way down, at most one warning per
    episode, and the separation between two warnings. */
module Episodes {
  import opened Wrappers
  import opened Monitor
  import opened Runs

  /** A run of samples all at or above threshold, from any state: the above
      counter keeps growing, and exactly one warning goes out if the checker
      was armed and the run pushes the counter past the dwell. */
  lemma {:induction false} AboveEpisode<T>(c: SensorCheck, s: seq<Sample<T>>)
    requires AllOnSide(c.threshold, Above, s)
    ensures |s| > 0 ==> Run(c, s).final.below == 0
    ensures Run(c, s).final.above == c.above + |s|
    ensures Run(c, s).final.warningSent <==> c.warningSent || (|s| > 0 && c.above + |s| > TimesToWait)
    ensures Count(Run(c, s).outputs) == if !c.warningSent && |s| > 0 && c.above + |s| > TimesToWait then 1 else 0
    decreases |s|
  {
    if |s| > 0 {
      var p := s[..|s| - 1];
      assert AllOnSide(c.threshold, Above, p) by {
        forall k | 0 <= k < |p| ensures SideOf(c.threshold, p[k].value) == Above {
          assert p[k] == s[k];
        }
      }
      AboveEpisode(c, p);
      var m := Run(c, p).final;
      var x := s[|s| - 1];
      assert SideOf(c.threshold, x.value) == Above;
      var step := Update(m, x.value, x.timestamp);
      assert Run(c, s).final == step.next;
      assert step.next.warningSent <==> m.warningSent || m.above + 1 > TimesToWait;
    }
  }

  /** A run of samples all below threshold, from any state: no warning, the
      below counter keeps growing, and the checker is re-armed once that
      counter exceeds the dwell. */
  lemma {:induction false} BelowEpisode<T>(c: SensorCheck, s: seq<Sample<T>>)
    requires AllOnSide(c.threshold, Below, s)
    ensures |s| > 0 ==> Run(c, s).final.above == 0
    ensures Run(c, s).final.below == c.below + |s|
    ensures Run(c, s).final.warningSent <==> c.warningSent && (|s| == 0 || c.below + |s| <= TimesToWait)
    ensures Count(Run(c, s).outputs) == 0
    decreases |s|
  {
    if |s| > 0 {
      var p := s[..|s| - 1];
      assert AllOnSide(c.threshold, Below, p) by {
        forall k | 0 <= k < |p| ensures SideOf(c.threshold, p[k].value) == Below {
          assert p[k] == s[k];
        }
      }
      BelowEpisode(c, p);
      assert SideOf(c.threshold, s[|s| - 1].value) == Below;
    }
  }

  /** From a state with the above counter at zero and the checker armed, a
      run at or above threshold warns at its (TimesToWait + 1)-th sample and
      at no other, and that warning carries that sample's own timestamp and
      value. */
  lemma {:induction false} DwellBoundary<T>(c: SensorCheck, s: seq<Sample<T>>)
    requires c.above == 0 && !c.warningSent
    requires AllOnSide(c.threshold, Above, s)
    ensures forall i :: 0 <= i < |s| ==> (Run(c, s).outputs[i].Some? <==> i == TimesToWait)
    ensures |s| > TimesToWait ==>
      Run(c, s).outputs[TimesToWait] == Some(WarningFor(c, s[TimesToWait].value, s[TimesToWait].timestamp))
    ensures Count(Run(c, s).outputs) == if |s| > TimesToWait then 1 else 0
  {
    forall i | 0 <= i < |s|
      ensures Run(c, s).outputs[i] ==
        if i == TimesToWait then Some(WarningFor(c, s[i].value, s[i].timestamp)) else None
    {
      OutputAt(c, s, i);
      assert AllOnSide(c.threshold, Above, s[..i]) by {
        forall k | 0 <= k < i ensures SideOf(c.threshold, s[..i][k].value) == Above {
          assert s[..i][k] == s[k];
        }
      }
      AboveEpisode(c, s[..i]);
      assert SideOf(c.threshold, s[i].value) == Above;
    }
    AboveEpisode(c, s);
  }

  /** A freshly constructed checker needs no prior below dwell: its first
      TimesToWait samples at or above threshold send nothing and the next one
      sends the warning. */
  lemma {:induction false} FirstEpisodeFires<T>(warningUrl: string, threshold: int, s: seq<Sample<T>>)
    requires AllOnSide(threshold, Above, s)
    ensures forall i :: 0 <= i < |s| ==> (Run(Init(warningUrl, threshold), s).outputs[i].Some? <==> i == TimesToWait)
    ensures |s| > TimesToWait ==>
      Run(Init(warningUrl, threshold), s).outputs[TimesToWait]
        == Some(Post(warningUrl, Warning(WarningMessage, s[TimesToWait].timestamp, s[TimesToWait].value)))
  {
    DwellBoundary(Init(warningUrl, threshold), s);
  }

  /** However long an episode at or above threshold lasts, it sends at most
      one warning, and none at all if one was already sent. */
  lemma {:induction false} EpisodeSendsAtMostOnce<T>(c: SensorCheck, s: seq<Sample<T>>)
    requires AllOnSide(c.threshold, Above, s)
    ensures Count(Run(c, s).outputs) <= 1
    ensures c.warningSent ==> Count(Run(c, s).outputs) == 0
  {
    AboveEpisode(c, s);
  }

  /** Samples below threshold never cause a warning. */
  lemma {:induction false} BelowNeverWarns<T>(c: SensorCheck, s: seq<Sample<T>>)
    requires AllOnSide(c.threshold, Below, s)
    ensures forall i :: 0 <= i < |s| ==> Run(c, s).outputs[i].None?
  {
    BelowEpisode(c, s);
  }

  /** Right after a warning, TimesToWait samples below threshold leave the
      checker disarmed and the next one re-arms it. */
  lemma {:induction false} ReArmBoundary<T>(c: SensorCheck, x: Sample<T>, s: seq<Sample<T>>)
    requires Update(c, x.value, x.timestamp).post.Some?
    requires AllOnSide(c.threshold, Below, s)
    ensures var sent := Update(c, x.value, x.timestamp).next;
            Run(sent, s).final.warningSent <==> |s| <= TimesToWait
  {
    BelowEpisode(Update(c, x.value, x.timestamp).next, s);
  }

  /** From any state, a confirmed below dwell re-arms the checker so that a
      following run at or above threshold warns on its (TimesToWait + 1)-th
      sample, with that sample's own timestamp and value, and on no other. */
  lemma {:induction false} ReArmThenFire<T>(c: SensorCheck, b: seq<Sample<T>>, d: seq<Sample<T>>)
    requires |b| > TimesToWait
    requires AllOnSide(c.threshold, Below, b) && AllOnSide(c.threshold, Above, d)
    ensures forall k :: |b| <= k < |b| + |d| ==> (Run(c, b + d).outputs[k].Some? <==> k == |b| + TimesToWait)
    ensures |d| > TimesToWait ==>
      Run(c, b + d).outputs[|b| + TimesToWait] == Some(WarningFor(c, d[TimesToWait].value, d[TimesToWait].timestamp))
  {
    BelowEpisode(c, b);
    var m := Run(c, b).final;
    DwellBoundary(m, d);
    RunAppend(c, b, d);
    var outs := Run(c, b).outputs + Run(m, d).outputs;
    forall k | |b| <= k < |b| + |d| ensures outs[k] == Run(m, d).outputs[k - |b|] {
    }
  }

  /** The samples `s[e - TimesToWait..e + 1]` exist and all lie below
      threshold: a confirmed below dwell ends at index `e`. */
  predicate BelowDwellEndsAt<T>(threshold: int, s: seq<Sample<T>>, e: int)
  {
    && TimesToWait <= e < |s|
    && forall k :: e - TimesToWait <= k <= e ==> SideOf(threshold, s[k].value) == Below
  }

  /** Somewhere in `s` lie TimesToWait + 1 consecutive samples below threshold. */
  predicate HasBelowDwell<T>(threshold: int, s: seq<Sample<T>>)
  {
    exists e :: 0 <= e < |s| && BelowDwellEndsAt(threshold, s, e)
  }

  /** A sent warning stays sent across any run that holds no confirmed below
      dwell, so such a run sends nothing. */
  lemma {:induction false} SentPersists<T>(c: SensorCheck, s: seq<Sample<T>>)
    requires c.warningSent && c.below == 0
    requires !HasBelowDwell(c.threshold, s)
    ensures Run(c, s).final.warningSent
    ensures Count(Run(c, s).outputs) == 0
    decreases |s|
  {
    if |s| > 0 {
      var p := s[..|s| - 1];
      forall e ensures !BelowDwellEndsAt(c.threshold, p, e) {
        if BelowDwellEndsAt(c.threshold, p, e) {
          assert BelowDwellEndsAt(c.threshold, s, e) by {
            forall k | e - TimesToWait <= k <= e ensures SideOf(c.threshold, s[k].value) == Below {
              assert s[k] == p[k];
            }
          }
        }
      }
      SentPersists(c, p);
      var m := Run(c, p).final;
      var x := s[|s| - 1];
      if SideOf(c.threshold, x.value) == Below {
        CountersTrackTrailingRuns(c, p, Below);
        if m.below + 1 > TimesToWait {
          var n := TrailingRun(c.threshold, Below, p);
          assert BelowDwellEndsAt(c.threshold, s, |s| - 1) by {
            forall k | |s| - 1 - TimesToWait <= k <= |s| - 1 ensures SideOf(c.threshold, s[k].value) == Below {
              if k < |s| - 1 {
                assert s[k] == p[k];
              }
            }
          }
        }
      }
    }
  }

  /** Hysteresis: between any two warnings lies a confirmed below dwell, that
      is, TimesToWait + 1 consecutive samples below threshold strictly after
      the first warning and strictly before the second. */
  lemma {:induction false} WarningsSeparatedByBelowDwell<T>(c: SensorCheck, s: seq<Sample<T>>, i: nat, j: nat)
    requires i < j < |s|
    requires Run(c, s).outputs[i].Some? && Run(c, s).outputs[j].Some?
    ensures exists e :: i < e - TimesToWait && e < j && BelowDwellEndsAt(c.threshold, s, e)
  {
    var mid := s[i + 1..j];
    BelowDwellBetween(c, s, i, j);
    var e :| 0 <= e < |mid| && BelowDwellEndsAt(c.threshold, mid, e);
    assert TimesToWait <= e < j - i - 1;
    assert BelowDwellEndsAt(c.threshold, s, i + 1 + e) by {
      forall k | i + 1 + e - TimesToWait <= k <= i + 1 + e
        ensures SideOf(c.threshold, s[k].value) == Below
      {
        assert s[k] == mid[k - i - 1];
      }
    }
  }

  /** Between two warnings at `i` and `j`, the samples strictly between them
      hold a confirmed below dwell. */
  lemma {:induction false} BelowDwellBetween<T>(c: SensorCheck, s: seq<Sample<T>>, i: nat, j: nat)
    requires i < j < |s|
    requires Run(c, s).outputs[i].Some? && Run(c, s).outputs[j].Some?
    ensures HasBelowDwell(c.threshold, s[i + 1..j])
  {
    var mid := s[i + 1..j];
    if !HasBelowDwell(c.threshold, mid) {
      // the first warning leaves the checker disarmed with no below run,
      // and nothing in between re-arms it
      var m := Run(c, s[..i + 1]).final;
      AfterWarning(c, s, i);
      SentPersists(m, mid);
      assert s[..j] == s[..i + 1] + mid;
      RunAppend(c, s[..i + 1], mid);
      assert Run(c, s[..j]).final.warningSent;
      OutputAt(c, s, j);
      assert false;
    }
  }

  /** The sample that sends a warning leaves the checker disarmed with its
      below counter at zero. */
  lemma {:induction false} AfterWarning<T>(c: SensorCheck, s: seq<Sample<T>>, i: nat)
    requires i < |s| && Run(c, s).outputs[i].Some?
    ensures Run(c, s[..i + 1]).final.warningSent
    ensures Run(c, s[..i + 1]).final.below == 0
    ensures Run(c, s[..i + 1]).final.threshold == c.threshold
  {
    OutputAt(c, s, i);
    assert s[..i + 1] == s[..i] + [s[i]];
    RunAppend(c, s[..i], [s[i]]);
  }

  /** From a state with the above counter at zero (a fresh checker, say),
      every warning is sent on a sample that closes a run of TimesToWait + 1
      consecutive samples at or above threshold. */
  lemma {:induction false} WarningNeedsAboveDwell<T>(c: SensorCheck, s: seq<Sample<T>>, j: nat)
    requires c.above == 0
    requires j < |s| && Run(c, s).outputs[j].Some?
    ensures j >= TimesToWait
    ensures forall k :: j - TimesToWait <= k <= j ==> SideOf(c.threshold, s[k].value) == Above
  {
    var p := s[..j];
    AboveRunBeforeWarning(c, s, j);
    forall k | j - TimesToWait <= k <= j ensures SideOf(c.threshold, s[k].value) == Above {
      if k < j {
        assert s[k] == p[k];
      }
    }
  }

  /** Starting with no above run, the samples before a warning end in a run
      of at least TimesToWait samples at or above threshold. */
  lemma {:induction false} AboveRunBeforeWarning<T>(c: SensorCheck, s: seq<Sample<T>>, j: nat)
    requires c.above == 0
    requires j < |s| && Run(c, s).outputs[j].Some?
    ensures TrailingRun(c.threshold, Above, s[..j]) >= TimesToWait
    ensures SideOf(c.threshold, s[j].value) == Above
  {
    WarningAt(c, s, j);
    CountersTrackTrailingRuns(c, s[..j], Above);
  }
}
