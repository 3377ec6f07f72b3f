# Sensor monitor threshold checker in Dafny

The sensor monitor receives one sensor reading at a time from an MQTT topic.
When the reading has stayed at or above a configured threshold for more than
thirty consecutive samples, it sends one warning to a web server as an HTTP
POST. It does not warn again until the reading has stayed below the threshold
for more than thirty consecutive samples. All of that logic lives in the
`SensorCheck` class. This project models that class as a pure state machine
and proves how it behaves over whole sequences of samples.

- `wrappers.dfy`, module `Wrappers`: `Option`, which is what one update returns
  for "no POST" or "one POST".
- `monitor.dfy`, module `Monitor`: the checker object `SensorCheck`. It holds
  the warning URL, the threshold, the two consecutive-run counters and
  `warningSent`. The module also has the constant `TimesToWait = 30`, the
  constructor `Init`, the `Warning` payload, the `Post` that stands for the
  HTTP request, and `Update`, which processes one `(value, timestamp)` sample.
- `runs.dfy`, module `Runs`: `Run` folds `Update` over a sequence of samples and
  records, for each sample, the POST it caused. The module also holds the facts
  that connect the counters to the samples.
- `episodes.dfy`, module `Episodes`: what happens over whole episodes. This
  covers the dwell boundary, re-arming, at most one warning per episode, and
  the below-threshold dwell that must separate two warnings.
- `scenario.dfy`, module `Scenario`: the worked example. With threshold 25,
  the samples are thirty-one of 30, then thirty-one of 10, then thirty-one of
  30. Exactly two warnings go out.

Sensor values are `int`. The timestamp is a type parameter because the checker
only passes it through. A sample exactly equal to the threshold counts as
**above**. The code compares with `sensorvalue < threshold` and sends equality
to the `else` branch, and the model follows the code. The source's own comments
agree: the `<` test is marked "below threshold" (sensormonitor.py:83) and the
`else` is marked "above threshold" (sensormonitor.py:98).

`update` compares against a bare `threshold` and posts to a bare `warning_url`.
These are module globals that the program's start-up block sets to the same
values it passes to the constructor. The model therefore uses the checker's own
configured threshold and URL.

## Model

| member | source | states |
|---|---|---|
| Monitor.Update | sensormonitor.py:77-123 | The URL and threshold never change. The counter on the sample's side (value < threshold is below, everything else above) grows by one and the other counter drops to 0, so at least one counter is 0 and the sample's side is at least 1. A POST goes out exactly when the sample is at or above threshold, the above counter passes 30 and no warning was sent. The POST carries the fixed message and this call's own timestamp and value. `warningSent` becomes true only in the update that sends, and becomes false only on a below sample whose counter passes 30. |
| Runs.Run | sensormonitor.py:70-123 | Feeding samples one by one in order yields exactly one output per sample, and the configured URL and threshold are unchanged after any number of updates. |
| Runs.WarningAt | sensormonitor.py:98-123 | Within a run, sample i causes a warning exactly when it is at or above threshold and, just before it, the above counter was at least 30 and no warning had been sent. |
| Runs.CountersTrackTrailingRuns | sensormonitor.py:83-106 | After any run, each counter equals the length of the trailing run of samples on its side. The counter's starting value is added only when every sample of the run was on that side. So the counters count consecutive samples and reset on a side change. |
| Episodes.AboveEpisode | sensormonitor.py:98-123 | Over a nonempty run of samples at or above threshold, from any state: the below counter ends at 0 and the above counter grows by the run's length. `warningSent` ends true exactly when it already was or the counter passed 30. Exactly one warning is sent if the checker was armed and the counter passes 30, otherwise none. |
| Episodes.BelowEpisode | sensormonitor.py:83-96 | Over a run of samples below threshold, from any state: no warning is sent, the above counter ends at 0 and the below counter grows by the run's length. `warningSent` stays true only if it was true and the below counter stayed at or under 30. |
| Episodes.DwellBoundary | sensormonitor.py:81-123 | From a state with no above run and no warning sent, in a run at or above threshold the 31st sample sends a warning and no other sample does, however long the run is. That warning carries the 31st sample's own timestamp and value. |
| Episodes.FirstEpisodeFires | sensormonitor.py:70-75 | A freshly constructed checker needs no prior below dwell: its first 30 samples at or above threshold send nothing and the 31st sends the warning to the configured URL. |
| Episodes.EpisodeSendsAtMostOnce | sensormonitor.py:108-123 | A contiguous run at or above threshold of any length sends at most one warning, and none if a warning was already sent. |
| Episodes.BelowNeverWarns | sensormonitor.py:83-96 | Samples below threshold never cause a warning. |
| Episodes.ReArmBoundary | sensormonitor.py:93-95 | Right after an update that sent a warning, 30 samples below threshold leave `warningSent` true and the 31st clears it. |
| Episodes.ReArmThenFire | sensormonitor.py:81-123 | From any state, more than 30 consecutive below samples re-arm the checker: in a following run at or above threshold, the 31st sample sends a warning carrying its own timestamp and value, and no other sample of that run does. |
| Episodes.SentPersists | sensormonitor.py:93-123 | Start from a state where a warning has been sent and the below counter is 0. If a run contains no 31 consecutive below samples, `warningSent` is still true at its end and the run sends nothing. |
| Episodes.WarningsSeparatedByBelowDwell | sensormonitor.py:81-123 | Between any two warnings of a run there are 31 consecutive samples below threshold, all strictly after the first warning and strictly before the second. |
| Episodes.WarningNeedsAboveDwell | sensormonitor.py:98-119 | Start from a state with no above run, such as a new checker. Every warning is sent on a sample that closes 31 consecutive samples at or above threshold. |
| Scenario.ThreeRuns | sensormonitor.py:77-123 | From an armed state with no above run, feed 31 high samples, then 31 low, then 31 high. Exactly two warnings go out, on the 31st and the 93rd sample, and each carries its own sample. |
| Scenario.TwoEpisodes | sensormonitor.py:70-123 | A new checker with threshold 25, fed 31 samples of 30, then 31 of 10, then 31 of 30, sends exactly two warnings with value 30. They go out on the 31st and the 93rd sample and carry those samples' timestamps. |

## Left out

- `MyMQTTClass` (sensormonitor.py:28-60) is left out: connecting, subscribing and the network loop are I/O over the MQTT library. `Run` stands in for its delivery of samples in arrival order.
- JSON decoding of the message payload (sensormonitor.py:36-41) is left out: it is an adapter over the JSON library. Samples are assumed to be well-formed `(value, timestamp)` pairs.
- The HTTP request itself (sensormonitor.py:121-122) is left out: it is returned as a `Post` value, and the server's response is not modelled.
- Monitor.Update: assumes the POST always returns. If `requests.post` raised, the code would skip line 123 and leave `warning_sent` false while the exception propagated. Exceptions from the HTTP library are not modelled.
- All `print` diagnostics are left out: they do not affect state.
- The `__main__` block (sensormonitor.py:126-139) is left out: it is configuration-file loading and process wiring. `Init` takes the URL and threshold it would have read.
- Floating-point sensor values are left out: values are `int`, and Python's float comparison is not modelled.
- The dwell of 30 is a constant (`TimesToWait`), as in the code. It is not a configuration parameter.
