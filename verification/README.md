# Restaurant wait-time estimator: a verified model

The system watches restaurant queues with cameras. Every frame gives detections; a tracker gives them ids; a zone
engine per camera turns tracked people into ENTER and EXIT events with dwell times; a wait engine per location turns
those events, point-of-sale orders and camera heartbeats into published wait estimates; a matcher pairs seated checks
with queue exits; a trigger policy decides when to ask a vision-language model; a seasonal forecaster offers quiet
windows. This project models that pipeline and proves what it keeps over whole runs.

Modules, in reading order:

| file | what it models |
|---|---|
| `Schemas.dfy`, `Dicts.dfy`, `Sorting.dfy`, `Stats.dfy`, `Arithmetic.dfy` | data contracts, insertion-ordered dictionaries, stable sorting, percentiles and rounding |
| `Tracker.dfy`, `Overlap.dfy` | `IouTracker`: greedy association and id safety; intersection over union in pixels |
| `Polygon.dfy`, `Zones.dfy`, `ZoneRuns.dfy`, `Occupancy.dfy`, `Standing.dfy` | ray casting, the zone engine, its runs, its occupancy, and both in box corners |
| `Deques.dfy` | deques trimmed by popping stale heads, as the wait engine and the matcher keep them |
| `WaitTime.dfy`, `WaitRuns.dfy`, `Estimates.dfy` | the wait engine, its log, and what an estimate says of stays and orders |
| `Freshness.dfy` | zone engine and wait engine together: how old an estimate's stays can be |
| `Matcher.dfy`, `MatcherRuns.dfy` | vision-POS pairing |
| `Idempotency.dfy`, `Triggers.dfy`, `BestWindows.dfy`, `Forecast.dfy`, `Seasons.dfy` | webhook dedupe, trigger policy, best windows, forecasting and what it rests on |
| `Pipeline.dfy`, `PipelineRuns.dfy`, `Registration.dfy` | cameras, event delivery, registering again and queues as a protocol |
| `Application.dfy`, `Handlers.dfy` | `AppState`, composing the engine objects, and what its handlers pass on |

Classes of the source that update fields are classes here. Each method is tied to a function on values, and what the
system promises is proved about runs of those functions.

Conventions:

- Time is an integer number of microseconds, durations too. Floats are exact reals.
- Clocks, the ids of events (random in the source) and normalized webhook events are parameters.
- Hypotheses on time are explicit. "For any timestamps" lemmas assume nothing: the edge uplink posts the newest frame
  before replaying its spool, so frames can go backwards. `Ordered` allows repeats, `StrictlyOrdered` does not.
- Matcher and wait-engine runs are those of one location: both keep separate state per location, and the methods'
  contracts say that other locations do not change.
- The wait engine knows locations and cameras by name, whatever the tenant. Theorems about queues ask that a camera's
  name be free at its location (`Pipeline.NameFree`); `Registration.SharedNameLosesWaiter` shows why.

Where the code and its documentation part:

- The wait engine documents its queue as "ENTER - EXIT". It is that only up to delivery, and then if and only if, of
  each track, the last event delivered says what the last one sent says (`Pipeline.DeliveryOrderIff`, with
  `PipelineRuns.OvertakingLeavesWaiter` where it does not). Registering a camera again, wherever and whatever is under
  way, keeps it so if and only if nobody is in the camera's queue (`Registration.ReregisterAgreesIff`, with
  `Registration.ReregisterLeavesWaiter` where somebody is).
- The zone engine documents that a track not seen for `max_silence_s` is treated as gone. When a frame repeats the time
  of the previous one, or an older frame is replayed, that fails: `ZoneRuns.RunAgreesIff` gives the exact condition over
  runs, `ZoneRuns.StepAgreesIff` frame by frame, with two concrete runs beside it.
- The dwell window is documented as sliding. Exits of lost tracks are reported at a past time, so the deque is not sorted
  and may keep old samples; a replayed frame asks at an older time for samples already discarded.
  `WaitRuns.WindowExactIff` gives the exact condition, `WaitRuns.LateExitOverstays` and `WaitRuns.OlderQuestionMisses` a
  run for each way to fail it, and `Freshness.CamerasEstimateIsFresh` how old a kept sample can be.
- Settings name a wait window and a video staleness limit, but the application passes on only the minimum sample count:
  the two take effect if and only if they are the defaults (`Application.AppState.constructor`).

## Model

| member | source | states |
|---|---|---|
| `Tracker.IouLaws` | restaurant-wait-time-estimator/src/wte/vision/tracker.py:20-25 | IoU is symmetric, lies in [0, 1], and is 1 exactly for a box of positive area against itself, for any corner order |
| `Overlap.IouCountsPixels` | restaurant-wait-time-estimator/src/wte/vision/tracker.py:20-25 | on any pixel grid that two boxes fit, IoU is the number of pixels in both over the number in either |
| `Overlap.IouMoved` | restaurant-wait-time-estimator/src/wte/vision/tracker.py:20-25 | moving both boxes together does not change it, for any corners |
| `Overlap.IouOfStep` | restaurant-wait-time-estimator/src/wte/vision/tracker.py:20-25 | a box of width w against itself moved sideways by d <= w: (w - d) / (w + d) |
| `Tracker.NoBlockingPair` | restaurant-wait-time-estimator/src/wte/vision/tracker.py:45-65 | the greedy association is one-to-one, over pairs at or above the threshold, and every pair at or above it is matched or has its track or detection in a matched pair of at least that IoU |
| `Tracker.OnlyStableAssociation` | restaurant-wait-time-estimator/src/wte/vision/tracker.py:45-65 | no other one-to-one association over such pairs is without a blocking pair (ties ranked as the sort ranks them) |
| `Tracker.GreedyIsHalfOptimal` | restaurant-wait-time-estimator/src/wte/vision/tracker.py:45-65 | no one-to-one association at or above the threshold has more than twice the total IoU of the greedy one |
| `Tracker.IouTracker.Update` | restaurant-wait-time-estimator/src/wte/vision/tracker.py:44-82 | one update of the mutable tracker is the specified step on its tracks, next id and output |
| `Tracker.IouTracker.MatchPairs` | restaurant-wait-time-estimator/src/wte/vision/tracker.py:55-65 | the association loop with its early exit moves the matched tracks and labels their detections, and nothing else |
| `Tracker.IouTracker.AgeTracks` | restaurant-wait-time-estimator/src/wte/vision/tracker.py:67-74 | the ageing loop keeps exactly the matched tracks and those within the lost-track buffer, in order |
| `Tracker.IouTracker.StartTracks` | restaurant-wait-time-estimator/src/wte/vision/tracker.py:76-81 | every detection left over gets a track with a fresh id, in order, and no other detection changes |
| `Tracker.StepIds` | restaurant-wait-time-estimator/src/wte/vision/tracker.py:55-82 | every detection gets an id, ids of a frame are distinct, an old id belongs to a live track overlapping its detection by the threshold |
| `Tracker.StepTracks` | restaurant-wait-time-estimator/src/wte/vision/tracker.py:55-82 | which tracks are live after an update, from what it reported: those reported now, and those missed within the buffer |
| `Tracker.FrameIdsDistinct` | restaurant-wait-time-estimator/src/wte/vision/tracker.py:55-82 | on every run, ids within a frame are present and pairwise distinct |
| `Tracker.ReusedIdsOverlap` | restaurant-wait-time-estimator/src/wte/vision/tracker.py:55-65 | on every run, an id reported again was held by a live track overlapping the new detection by at least the threshold |
| `Overlap.ReusedIdsSharePixels` | restaurant-wait-time-estimator/src/wte/vision/tracker.py:55-65 | in pixels: at least the threshold of the pixels of the two boxes is common to both |
| `Tracker.DroppedIdsStayDropped` | restaurant-wait-time-estimator/src/wte/vision/tracker.py:67-82 | on every run, an id that was reported and then dropped is never live or reported again |
| `Tracker.LiveTracksAreRecentSightings` | restaurant-wait-time-estimator/src/wte/vision/tracker.py:67-82 | the live tracks are a pure function of the output log: `misses` m means reported m updates ago at that box, not since, m within the buffer |
| `Tracker.PopulationBound` | restaurant-wait-time-estimator/src/wte/vision/tracker.py:67-82 | live tracks never outnumber the detections of the last `lost_track_buffer` + 1 frames |
| `Polygon.PointInPolygon` | restaurant-wait-time-estimator/src/wte/vision/zones.py:19-34 | the toggling loop computes the parity of crossed edges of the closed polygon |
| `Polygon.InsideRotated` | restaurant-wait-time-estimator/src/wte/vision/zones.py:19-34 | the answer does not depend on where the vertex list starts |
| `Polygon.InsideReversed` | restaurant-wait-time-estimator/src/wte/vision/zones.py:19-34 | nor on the winding |
| `Polygon.InsideChord` | restaurant-wait-time-estimator/src/wte/vision/zones.py:19-34 | cut along the chord between any two vertices, a point is in the polygon exactly if it is in one part and not the other |
| `Polygon.InsideMoved` | restaurant-wait-time-estimator/src/wte/vision/zones.py:19-34 | moving point and polygon together changes nothing |
| `Polygon.InsideIsFan` | restaurant-wait-time-estimator/src/wte/vision/zones.py:19-34 | any polygon, concave or self-crossing, is the parity of the triangles of its fan |
| `Polygon.InsideBoundingBox` | restaurant-wait-time-estimator/src/wte/vision/zones.py:19-34 | a point inside lies in the half-open bounding box of the vertices |
| `Polygon.InsideRectangle` | restaurant-wait-time-estimator/src/wte/vision/zones.py:19-34 | for an axis-aligned rectangle the test is exactly the half-open box |
| `Polygon.InsideTriangle` | restaurant-wait-time-estimator/src/wte/vision/zones.py:19-34 | for a triangle of either winding, points strictly within are inside, and points inside are within or on an edge of a triangle that is not flat; nothing strictly outside is inside |
| `Zones.ZoneEngine.Update` | restaurant-wait-time-estimator/src/wte/vision/zones.py:65-90 | one frame changes both dictionaries and emits events as the three phases specify, in order |
| `Zones.ZoneEngine.Enter` | restaurant-wait-time-estimator/src/wte/vision/zones.py:69-81 | the detection loop: sightings noted, stays opened, ENTER events emitted once per key in the order met |
| `Zones.ZoneEngine.EnterZones` | restaurant-wait-time-estimator/src/wte/vision/zones.py:72-81 | the zone loop for one tracked detection |
| `Zones.ZoneEngine.Leave` | restaurant-wait-time-estimator/src/wte/vision/zones.py:83-87 | the exit loop closes exactly the keys not present whose track was last seen at this very time |
| `Zones.ZoneEngine.Expire` | restaurant-wait-time-estimator/src/wte/vision/zones.py:92-103 | silent tracks are closed as of their last sighting and forgotten |
| `Zones.ZoneEngine.CloseSilent` | restaurant-wait-time-estimator/src/wte/vision/zones.py:94-99 | the closing loop of expiry, on the keys open at its start |
| `Zones.ZoneEngine.ForgetSilent` | restaurant-wait-time-estimator/src/wte/vision/zones.py:100-102 | the forgetting loop of expiry, on the tracks remembered at its start |
| `Zones.ZoneEngine.Close` | restaurant-wait-time-estimator/src/wte/vision/zones.py:105-109 | the key is popped and its EXIT carries the clamped dwell |
| `Zones.NextIs` | restaurant-wait-time-estimator/src/wte/vision/zones.py:65-103 | key by key, which stays are open and which tracks remembered after a frame, from what the frame shows |
| `Standing.RectangleContains` | restaurant-wait-time-estimator/src/wte/core/schemas.py:36-39 | in box corners: a detection is in the rectangle exactly if left <= (x1 + x2) / 2 < right and top <= y2 < bottom |
| `Standing.OnlyFeetCount` | restaurant-wait-time-estimator/src/wte/core/schemas.py:36-39 | for any polygon, nothing counts but x1 + x2 and y2 |
| `Standing.ContainsMoved` | restaurant-wait-time-estimator/src/wte/vision/zones.py:42-43 | moving box and zone together changes nothing |
| `Standing.OpenAfterFrame` | restaurant-wait-time-estimator/src/wte/vision/zones.py:65-103 | for any timestamps, with rectangular zones: a stay is open after a frame exactly if the feet are in a zone of the kind, or it was open and the track is not shown, last seen at another time and recently |
| `ZoneRuns.StepKeyEvents` | restaurant-wait-time-estimator/src/wte/vision/zones.py:65-109 | the events of a key in one frame: at most an ENTER, then an EXIT for leaving or an EXIT for silence |
| `ZoneRuns.EntersFirst` | restaurant-wait-time-estimator/src/wte/vision/zones.py:69-103 | a frame reports all its ENTERs before any EXIT |
| `ZoneRuns.KeyStreamAlternates` | restaurant-wait-time-estimator/src/wte/vision/zones.py:65-109 | for any timestamps, a key's events alternate ENTER and EXIT starting with ENTER, dwells are clamped exit minus enter, and the key is open exactly after an ENTER |
| `ZoneRuns.DwellIsTimeSpent` | restaurant-wait-time-estimator/src/wte/vision/zones.py:65-109 | for frames in time order, repeats allowed: events in time order, dwell exactly exit minus enter, total dwell of a key within the time elapsed |
| `ZoneRuns.StepAgreesIff` | restaurant-wait-time-estimator/src/wte/vision/zones.py:83-103 | for any timestamps, a frame keeps the engine equal to the frame log's function if and only if the clock neither stood still nor went back on an absent track |
| `ZoneRuns.RunAgreesIff` | restaurant-wait-time-estimator/src/wte/vision/zones.py:65-103 | for any timestamps, the engine equals that function after every frame of a run if and only if every frame is so for every key |
| `ZoneRuns.RepeatedTimeClosesEarly` | restaurant-wait-time-estimator/src/wte/vision/zones.py:86 | two frames with one timestamp close a stay zero seconds after it was seen, though the log says open |
| `ZoneRuns.ReplayedFrameStaysClosed` | restaurant-wait-time-estimator/src/wte/vision/zones.py:92-103 | a replayed older frame does not bring back an expired stay, though the log says open |
| `ZoneRuns.OpenStaysAreRecentSightings` | restaurant-wait-time-estimator/src/wte/vision/zones.py:65-103 | with strictly increasing times a key is open exactly when the track's last sighting in the whole log is recent enough and was inside such a zone |
| `Standing.OpenStaysAreRecentFeet` | restaurant-wait-time-estimator/src/wte/vision/zones.py:65-103 | in box corners, with rectangular zones: exactly when the last frame that shows the track is recent enough and has its feet in a rectangle of the kind |
| `ZoneRuns.OccupancyIsLogOccupancy` | restaurant-wait-time-estimator/src/wte/vision/zones.py:62-63 | so `occupancy` is a pure function of the frame log |
| `Occupancy.OccupancyIsBalance` | restaurant-wait-time-estimator/src/wte/vision/zones.py:62-109 | for any timestamps, on every run: `occupancy` of a kind is the ENTERs emitted so far for zones of that kind less the EXITs |
| `WaitTime.WaitTimeEngine.OnZoneEvent` | restaurant-wait-time-estimator/src/wte/waittime/engine.py:61-73 | a zone event changes one location as specified: heartbeat, queue membership, sample of three seconds or more, trim |
| `WaitTime.WaitTimeEngine.OnPosEvent` | restaurant-wait-time-estimator/src/wte/waittime/engine.py:75-79 | a POS event appends an order if it is one, and trims |
| `WaitTime.WaitTimeEngine.OnHeartbeat` | restaurant-wait-time-estimator/src/wte/waittime/engine.py:81-84 | video time never goes back; nothing else changes |
| `WaitTime.WaitTimeEngine.Estimate` | restaurant-wait-time-estimator/src/wte/waittime/engine.py:88-119 | the estimate read off the trimmed state, branch by branch, wherever it is defined |
| `Estimates.EstimateIsPublished` | restaurant-wait-time-estimator/src/wte/waittime/engine.py:88-143 | what it says: with live video and enough stays, the 50th and 90th percentile by rank of the stays in minutes, in any ascending arrangement; zero waits for an empty queue; else people waiting times window over orders, and half as much again; without video the same for the rounded excess of recent orders; all to one decimal, with the tightest band; source, queue length and sample size |
| `Estimates.EstimateSaysLog` | restaurant-wait-time-estimator/src/wte/waittime/engine.py:61-143 | and on every run, for an estimate asked for no earlier than any trim so far, that of the stays, orders and people of the whole log |
| `WaitTime.WaitTimeEngine.Trim` | restaurant-wait-time-estimator/src/wte/waittime/engine.py:145-149 | the popping loops drop exactly the leading stale runs |
| `Stats.PercentileLaws` | restaurant-wait-time-estimator/src/wte/waittime/engine.py:95-97 | the interpolated percentile is monotone in q and within the range of the values |
| `Stats.PercentilePermutation` | restaurant-wait-time-estimator/src/wte/waittime/engine.py:95-97 | and does not depend on the order of the values |
| `Stats.MedianIsP50` | restaurant-wait-time-estimator/src/wte/forecast/service.py:46 | the median is the 50th percentile |
| `Stats.PercentileByRank` | restaurant-wait-time-estimator/src/wte/waittime/engine.py:97 | of n values in ascending order, the p-th percentile lies p (n - 1) / 100 steps up, weighing the two values there by the fraction of a step |
| `Stats.Round1Laws` | restaurant-wait-time-estimator/src/wte/waittime/engine.py:137-143 | rounding to one decimal, ties to even, is monotone and never crosses a whole number |
| `Stats.Round1IsRounded` | restaurant-wait-time-estimator/src/wte/waittime/engine.py:140-141 | it is the nearest tenth, the even one of two |
| `WaitRuns.BandLaws` | restaurant-wait-time-estimator/src/wte/waittime/engine.py:30-37 | the band is the tightest pair of multiples of the step around p50 and p90, one step wide where that is empty |
| `WaitRuns.EstimateSound` | restaurant-wait-time-estimator/src/wte/waittime/engine.py:88-119 | an estimate has no figures, or 0 <= low <= p50 <= p90 <= high and low < high after rounding, on the grid of one step |
| `WaitRuns.EveryEstimateSound` | restaurant-wait-time-estimator/src/wte/waittime/engine.py:61-119 | and that holds of every estimate on every run, whatever the timestamps |
| `WaitRuns.NoWaitIff` | restaurant-wait-time-estimator/src/wte/core/schemas.py:160-166 | the label is "no wait" exactly when p50 is under and p90 at most two minutes |
| `WaitRuns.PosOnlyBound` | restaurant-wait-time-estimator/src/wte/waittime/engine.py:123-135 | with the 15-minute window the POS-only wait exists exactly from three orders on and lies in [0, 45/4] minutes, for any order times |
| `WaitRuns.PosOnlyBand` | restaurant-wait-time-estimator/src/wte/waittime/engine.py:112-119 | so a POS-only band ends at 20 minutes at the latest, and with fewer than three orders there is no data |
| `WaitRuns.WaitingAreEntered` | restaurant-wait-time-estimator/src/wte/waittime/engine.py:66-70 | the queue kept incrementally is exactly the keys whose last queue event is an ENTER |
| `WaitRuns.StateIsLog` | restaurant-wait-time-estimator/src/wte/waittime/engine.py:61-84 | for any timestamps, each deque is exactly the log's samples or orders after the leading run that some trim since they came found too old; the queue is who entered last; video time is the latest |
| `Deques.TrimIsOnePass` | restaurant-wait-time-estimator/src/wte/waittime/engine.py:145-149 | popping stale heads at every event, at whatever times, leaves what one pass over the history with its trim times leaves |
| `WaitRuns.EstimateFromLog` | restaurant-wait-time-estimator/src/wte/waittime/engine.py:88-119 | asked no earlier than any trim so far, an estimate is a pure function of the full log |
| `WaitRuns.StateFromLogIff` | restaurant-wait-time-estimator/src/wte/waittime/engine.py:145-149 | at any time at all, what an estimate is read off is the log's if and only if every sample and order that earlier trims discarded is too old now as well |
| `WaitRuns.EstimatesDoNotInterfere` | restaurant-wait-time-estimator/src/wte/waittime/engine.py:88-90 | asking for estimates never changes a later answer |
| `WaitRuns.WindowExactIff` | restaurant-wait-time-estimator/src/wte/waittime/engine.py:145-149 | on every run and at any time asked, earlier than a trim included: the samples behind an estimate are exactly those of the log in the window if and only if all that earlier trims discarded is too old now as well, and no sample in the window was reported before one too old for it |
| `WaitRuns.WindowInLogIff` | restaurant-wait-time-estimator/src/wte/waittime/engine.py:145-149 | asked no earlier than any trim so far, if and only if no sample in the window was reported before one too old for it |
| `WaitRuns.OlderQuestionMisses` | restaurant-wait-time-estimator/src/wte/waittime/engine.py:145-149 | a wait dated 100 s, asked for at 2000 s and then at 1000 s with the 30-minute window: it is in the window and missing |
| `WaitRuns.WindowExactInOrder` | restaurant-wait-time-estimator/src/wte/waittime/engine.py:145-149 | in particular on runs whose exits are reported in time order |
| `WaitRuns.LateExitOverstays` | restaurant-wait-time-estimator/src/wte/waittime/engine.py:145-149 | two exits dated 100 s then 80 s: asked at 1890 s with the 30-minute window, the second still counts |
| `Deques.DropLeftIsKeepIff` | restaurant-wait-time-estimator/src/wte/waittime/engine.py:145-149 | popping stale heads of what earlier trims left filters the whole list if and only if all that is gone is stale and what is stale comes first |
| `Freshness.ReportsLagWithin` | restaurant-wait-time-estimator/src/wte/vision/zones.py:65-109 | with frames in time order at most delta apart, no event is dated more than `max_silence_s` + delta before an earlier one |
| `Freshness.EstimateIsFresh` | restaurant-wait-time-estimator/src/wte/waittime/engine.py:88-119 | if no report is dated more than a lag before an earlier one, no sample behind any estimate, asked for at any time, is older than the window by more than that lag |
| `Freshness.CameraEstimateIsFresh` | restaurant-wait-time-estimator/src/wte/waittime/engine.py:61-119 | zone engine and wait engine together, for a location with one camera: with its frames in time order at most delta apart, no stay behind an estimate ended more than window + `max_silence_s` + delta ago |
| `Freshness.CamerasEstimateIsFresh` | restaurant-wait-time-estimator/src/wte/waittime/engine.py:61-119 | for a location with any number of such cameras, whose events arrive interleaved in any way that keeps their clocks within sigma: no more than window + `max_silence_s` + delta + sigma ago |
| `Matcher.VisionPosMatcher.OnZoneEvent` | restaurant-wait-time-estimator/src/wte/connectors/matcher.py:34-47 | a queue exit is stored, both stores trimmed, and paired with the first check within tolerance; other locations unchanged |
| `Matcher.VisionPosMatcher.OnPosEvent` | restaurant-wait-time-estimator/src/wte/connectors/matcher.py:49-64 | a check takes the closest exit within tolerance or waits; other locations unchanged |
| `Matcher.VisionPosMatcher.FindClosest` | restaurant-wait-time-estimator/src/wte/connectors/matcher.py:53-57 | the best-so-far loop finds the specified closest exit |
| `Matcher.VisionPosMatcher.FindPending` | restaurant-wait-time-estimator/src/wte/connectors/matcher.py:41-46 | the scan over waiting checks stops at the first match |
| `Matcher.VisionPosMatcher.Trim` | restaurant-wait-time-estimator/src/wte/connectors/matcher.py:73-79 | the popping loops drop exactly the leading stale runs of both stores |
| `MatcherRuns.TrimmingIsInvisible` | restaurant-wait-time-estimator/src/wte/connectors/matcher.py:34-79 | if no event lags the latest earlier time at its location by more than keep - tolerance, the trimmed matcher returns the matches of one that never forgets |
| `MatcherRuns.LagBoundIsTight` | restaurant-wait-time-estimator/src/wte/connectors/matcher.py:73-79 | one microsecond more of lateness and they differ, for every tolerance and keep |
| `MatcherRuns.NothingMatchableWaits` | restaurant-wait-time-estimator/src/wte/connectors/matcher.py:34-64 | for any order of events, no stored exit and waiting check are within tolerance |
| `MatcherRuns.PairsAreClosest` | restaurant-wait-time-estimator/src/wte/connectors/matcher.py:34-71 | every pairing is within tolerance and no stored exit is closer to the check |
| `MatcherRuns.ClosestIs` | restaurant-wait-time-estimator/src/wte/connectors/matcher.py:53-57 | the exit found is of minimal distance, the first such in store order |
| `MatcherRuns.FirstWithinIs` | restaurant-wait-time-estimator/src/wte/connectors/matcher.py:41-46 | the check found is the first within tolerance |
| `MatcherRuns.CheckAnswer` | restaurant-wait-time-estimator/src/wte/connectors/matcher.py:49-64 | a check is answered exactly if it is a check_open and an exit is near: with the event id, track, camera and dwell of the first closest exit, and the distance to it, which is the least |
| `MatcherRuns.ExitAnswer` | restaurant-wait-time-estimator/src/wte/connectors/matcher.py:34-47 | a zone event is answered exactly if it leaves the queue and a waiting check is near: with the first such check and the same fields |
| `MatcherRuns.EveryEventAccountedFor` | restaurant-wait-time-estimator/src/wte/connectors/matcher.py:34-79 | every queue exit and every check_open is exactly one of paired once, stored, trimmed |
| `Idempotency.MemoryIdempotencyStore.Seen` | restaurant-wait-time-estimator/src/wte/connectors/base.py:43-54 | the answer and the new ordered store, evictions included |
| `Idempotency.KeysPerProvider` | restaurant-wait-time-estimator/src/wte/connectors/base.py:45 | keys of different events never collide when provider names hold no colon |
| `Idempotency.StoreIsRecentCalls` | restaurant-wait-time-estimator/src/wte/connectors/base.py:43-54 | after any run, size is within the limit, a key has behind it exactly the keys called since, it is gone only after that many others, and expires `ttl` after its last acceptance |
| `Idempotency.SeenIff` | restaurant-wait-time-estimator/src/wte/connectors/base.py:43-54 | for any clock, a call answers seen if and only if its key was called before with fewer than `max_size` other keys since and its last acceptance is less than `ttl` ago |
| `Idempotency.AcceptedTwice` | restaurant-wait-time-estimator/src/wte/connectors/base.py:43-54 | an event accepted twice was pushed out by `max_size` others or its acceptance expired |
| `BestWindows.BestWindows` | restaurant-wait-time-estimator/src/wte/core/schemas.py:184-194 | the greedy loop with early exit computes the specified selection in time order |
| `BestWindows.PickSpaced` | restaurant-wait-time-estimator/src/wte/core/schemas.py:187-193 | the loop with its early exit picks what the recursive greedy choice picks |
| `BestWindows.BestGuarantees` | restaurant-wait-time-estimator/src/wte/core/schemas.py:184-194 | results are forecast points, at least the gap apart, in time order; whoever is left out clashes with a chosen point of no larger q50 or is no quieter than all n chosen |
| `BestWindows.QuietestOffered` | restaurant-wait-time-estimator/src/wte/core/schemas.py:184-194 | the quietest point is always among them; of several equally quiet, the first listed |
| `BestWindows.EnoughWindows` | restaurant-wait-time-estimator/src/wte/core/schemas.py:184-194 | on a uniform grid of N points with a gap of g steps there are at least min(n, ceil(N / (2g - 1))) results |
| `Triggers.TriggerPolicy.Evaluate` | restaurant-wait-time-estimator/src/wte/vlm/triggers.py:47-65 | one evaluation: trigger, last fire and history of the camera, other cameras unchanged; it fires with the alarms if there are any and the minimum gap has passed, else with the timer once the cadence has |
| `Triggers.AnomaliesAreAlarms` | restaurant-wait-time-estimator/src/wte/vlm/triggers.py:67-85 | the four alarms over raw history and baseline: the oldest snapshot of the last minute had at least two queueing and under two thirds of now; the mean dwell is above the 95th percentile by rank of thirty or more; a long queue with nobody serving; a high queue and no snapshot of five minutes with fewer orders |
| `Triggers.HelpIsQuiet` | restaurant-wait-time-estimator/src/wte/vlm/triggers.py:67-85 | more people serving or more orders never make a camera fire that would not have |
| `Triggers.TriggerPolicy.RecordDwell` | restaurant-wait-time-estimator/src/wte/vlm/triggers.py:43-45 | a dwell is pushed onto the camera's bounded baseline |
| `Triggers.FireTimesSpaced` | restaurant-wait-time-estimator/src/wte/vlm/triggers.py:52-63 | for any order of snapshots, consecutive triggers are at least min(min_gap, cadence) apart |
| `Triggers.MinGapHoldsIff` | restaurant-wait-time-estimator/src/wte/vlm/triggers.py:52-63 | every run has its triggers `min_gap` apart if and only if `min_gap` is within the cadence; otherwise two snapshots one cadence apart show it |
| `Triggers.TriggerBudget` | restaurant-wait-time-estimator/src/wte/vlm/triggers.py:47-65 | at most floor(T / g) + 1 triggers in any span of length T, with g = min(min_gap, cadence) > 0 |
| `Triggers.TriggersKeepComing` | restaurant-wait-time-estimator/src/wte/vlm/triggers.py:47-65 | with snapshots in time order at most delta apart, consecutive triggers are less than cadence + delta apart |
| `Triggers.HistoryIsRecent` | restaurant-wait-time-estimator/src/wte/vlm/triggers.py:48-50 | the history looked at is exactly the last 120 snapshots |
| `Triggers.FirstFires` | restaurant-wait-time-estimator/src/wte/vlm/triggers.py:52-59 | the first snapshot of a camera always triggers |
| `Forecast.BucketHoldsIff` | restaurant-wait-time-estimator/src/wte/forecast/features.py:16-19 | buckets start on quarter hours, and a time lies in its bucket if and only if it is not before 1970 within the last second before a boundary |
| `Forecast.AggregateToBuckets` | restaurant-wait-time-estimator/src/wte/forecast/service.py:39-46 | strictly increasing buckets, exactly those hit by an observation, each with the median of exactly its observations; pooled over the buckets, every observation counts exactly once |
| `Forecast.SeasonalNaiveForecaster.Fit` | restaurant-wait-time-estimator/src/wte/forecast/models.py:47-53 | the three indexes answer every lookup as a plain scan of the series does |
| `Forecast.SeasonalNaiveForecaster.Predict` | restaurant-wait-time-estimator/src/wte/forecast/models.py:55-68 | the forecasts at the given number of times, one step apart |
| `Forecast.SeasonalNaiveForecaster.PredictOne` | restaurant-wait-time-estimator/src/wte/forecast/models.py:59-67 | one forecast: weekly slot, else daily slot, else everything, else zero |
| `Seasons.SameMinuteIff` | restaurant-wait-time-estimator/src/wte/forecast/models.py:50 | two times share a daily slot exactly if they are whole days apart, to the minute |
| `Seasons.SameSlotIff` | restaurant-wait-time-estimator/src/wte/forecast/models.py:51 | two times share a weekly slot exactly if they are whole weeks apart, to the minute |
| `Seasons.ForecastIs` | restaurant-wait-time-estimator/src/wte/forecast/models.py:47-68 | end to end: the forecast is the 10th, 50th and 90th percentile by rank of what was observed whole weeks from it, else whole days, else of everything |
| `Seasons.OthersDoNotMatter` | restaurant-wait-time-estimator/src/wte/forecast/models.py:47-68 | with enough observations whole weeks from it, no other value matters to a forecast; with enough whole days from it, none that is not whole days away |
| `Forecast.SlotsNest` | restaurant-wait-time-estimator/src/wte/forecast/models.py:47-53 | a weekly slot's values are among its daily slot's, and those among all |
| `Forecast.IndexedIsScanned` | restaurant-wait-time-estimator/src/wte/forecast/models.py:47-67 | a forecast from the fitted indexes is the forecast from a plain scan, fallback included |
| `Forecast.ForecastWithinRange` | restaurant-wait-time-estimator/src/wte/forecast/models.py:59-67 | q10 <= q50 <= q90, within the range of zero and the observed values |
| `Forecast.RepeatsWeekly` | restaurant-wait-time-estimator/src/wte/forecast/models.py:50-67 | forecasts repeat exactly seven days later |
| `Forecast.ServiceOffersThreeWindows` | restaurant-wait-time-estimator/src/wte/forecast/service.py:56-67 | a seasonal-naive service run's week of points is a uniform grid and always offers the three default best windows |
| `Pipeline.StepKeepsIff` | restaurant-wait-time-estimator/src/wte/api/state.py:114-182 | every frame, delivery, order and question keeps the invariant that zone engines and queues agree up to delivery, and a registration does if and only if the name is free at its location and nobody was in the queue of the camera it replaces |
| `Pipeline.AlwaysConsistent` | restaurant-wait-time-estimator/src/wte/api/state.py:122-131 | so they agree under every interleaving of steps of any number of cameras and locations, as long as registrations meet that condition |
| `Pipeline.RunConsistentIff` | restaurant-wait-time-estimator/src/wte/api/state.py:114-182 | on every run whatever: the invariant holds throughout if and only if every registration meets it |
| `Pipeline.QueueCatchesUp` | restaurant-wait-time-estimator/src/wte/api/state.py:167-172 | replaying the undelivered events addressed to a location onto its queue, in any interleaving that keeps each camera's order, gives exactly the open QUEUE stays of its cameras, also when some of the events come from cameras that have moved away |
| `Pipeline.DeliveryOrderIff` | restaurant-wait-time-estimator/src/wte/api/state.py:130-131 | events delivered to a location in any order at all, even some lost or repeated: the queue ends as the open stays if and only if, of each track, the last one delivered says what the last one made says |
| `Pipeline.TrackOrderSuffices` | restaurant-wait-time-estimator/src/wte/api/state.py:130-131 | so it is enough that each track's own events keep their order; tracks of one camera may overtake one another |
| `Pipeline.RegisterKeepsIff` | restaurant-wait-time-estimator/src/wte/api/state.py:114-118 | registering a camera, anew or again, at any location and with whatever under way, keeps the invariant if and only if its name is free there and nobody was in the queue of the camera it replaces |
| `Registration.ReregisterAgreesIff` | restaurant-wait-time-estimator/src/wte/api/state.py:114-118 | in terms of queues: at every point of the delivery of the camera's events under way, replaying what is undelivered, by the location each event was made for, gives the open stays if and only if nobody was in the camera's queue when it was registered again |
| `Registration.ReregisterLeavesWaiter` | restaurant-wait-time-estimator/src/wte/api/state.py:114-118 | the witness: someone enters, the ENTER is delivered, the camera is registered again; they stay in the queue of an empty engine |
| `Registration.SharedNameLosesWaiter` | restaurant-wait-time-estimator/src/wte/api/state.py:114-118 | why the name must be free: two cameras of a location under one camera id, each with a track 1 queueing; when one leaves, the queue loses both |
| `PipelineRuns.OvertakingLeavesWaiter` | restaurant-wait-time-estimator/src/wte/api/state.py:130-131 | the witness: an EXIT delivered before its ENTER leaves a waiter behind |
| `PipelineRuns.QueueLengthIsOccupancy` | restaurant-wait-time-estimator/src/wte/api/state.py:192-194 | with all delivered and video live, `queue_length` is the sum of the queue occupancies of the location's cameras |
| `PipelineRuns.QueueIsWhoWasSeen` | restaurant-wait-time-estimator/src/wte/api/state.py:122-131 | end to end: with each camera's frames in time order and nothing under way to the location, someone counts as queueing exactly if a camera of the location last saw them in a queue zone recently enough |
| `PipelineRuns.IngestedIsExact` | restaurant-wait-time-estimator/src/wte/api/state.py:122-146 | on the in-process bus, from any consistent state with nothing undelivered, after any frame engines and queues agree again, the published estimate is from vision, and its `queue_length` is the number of open stays of that location and the sum of its cameras' occupancies, for any frame time |
| `Application.AppState.constructor` | restaurant-wait-time-estimator/src/wte/api/state.py:80-102 | a new application for any settings: no cameras, estimates, triggers or orders, and engines and queues in agreement; the wait engine is the one the settings describe if and only if they say 30 minutes and 120 seconds |
| `Application.AppState.RegisterCamera` | restaurant-wait-time-estimator/src/wte/api/state.py:114-118 | a new empty engine replaces whatever was filed under the camera and the wait state stays; engines and queues go on agreeing if and only if the name is free at the location and nobody was in the camera's queue |
| `Application.AppState.IngestFrame` | restaurant-wait-time-estimator/src/wte/api/state.py:122-146 | an unknown camera is an error that changes nothing; otherwise the protocol step with all events handled, the matcher, trigger policy and recent orders updated, and the estimate stored: if engines and queues agreed they agree again, and the stored estimate is from vision with `queue_length` the number of open stays of the location |
| `Application.AppState.OnZoneEvent` | restaurant-wait-time-estimator/src/wte/api/state.py:167-172 | wait engine, matcher and dwell baseline each take the event; other locations and cameras unchanged |
| `Application.AppState.PublishAll` | restaurant-wait-time-estimator/src/wte/api/state.py:130-131 | a frame's events are handled in order, each before the next |
| `Application.AppState.Inspect` | restaurant-wait-time-estimator/src/wte/api/state.py:135-143 | the trigger policy sees occupancies, mean dwell and recent orders as of this frame; a trigger is appended if it fires; orders over five minutes old are forgotten |
| `Handlers.SnapshotIs` | restaurant-wait-time-estimator/src/wte/api/state.py:135-139 | what the policy is shown: the numbers of open QUEUE and of open SERVICE stays, the mean of the queue stays the frame ended, and the orders of the last five minutes |
| `Handlers.BaselineIs` | restaurant-wait-time-estimator/src/wte/api/state.py:171-172 | after a frame the baseline is the last recorded dwells, those of the queue stays it ended included |
| `Application.AppState.OnPosEvent` | restaurant-wait-time-estimator/src/wte/api/state.py:174-182 | wait engine, matcher and recent orders each take the event, and the estimate is stored; other locations, their estimates included, unchanged |
| `Application.AppState.OnBookingEvent` | restaurant-wait-time-estimator/src/wte/api/state.py:184-188 | a seated reservation publishes an estimate, other bookings do nothing |
| `Application.AppState.PublishEstimate` | restaurant-wait-time-estimator/src/wte/api/state.py:192-194 | the estimate of the location is computed and stored under tenant and location |
| `Application.AppState.Estimate` | restaurant-wait-time-estimator/src/wte/api/state.py:200-203 | the estimate given says what the stays, orders and people of the location make of it, is the one stored under tenant and location, and leaves engines and queues in agreement |
| `Application.AppState.OrdersLast5m` | restaurant-wait-time-estimator/src/wte/api/state.py:205-208 | orders over five minutes old are forgotten, the rest counted |
| `Application.AppState.IngestWebhook` | restaurant-wait-time-estimator/src/wte/api/state.py:148-163 | events seen before are skipped, the others counted, handled in order, orders and seated reservations each with a new estimate; other locations, their estimates included, unchanged; engines and queues still agree |
| `Application.RetryChangesNothing` | restaurant-wait-time-estimator/src/wte/api/state.py:157-163 | a webhook all of whose events are remembered accepts none and changes nothing but the store's order |
| `Handlers.NewWebhookHandled` | restaurant-wait-time-estimator/src/wte/api/state.py:157-182 | a webhook whose events are all new accepts every one, and keeps exactly the times of its orders created and checks opened, in order |
| `Handlers.NewEventPublishes` | restaurant-wait-time-estimator/src/wte/api/state.py:174-188 | a new POS event or seated reservation publishes what the stays, orders and people of its location say as of its arrival; other bookings change nothing but the count |

## Left out

- Detection models, the ByteTrack and BoT-SORT wrappers, face blurring, Prophet, Chronos and the vision-language client: foreign library calls without visible logic. `tier_for` and `make_forecaster` only choose among them.
- HTTP routes, websockets, tokens and signatures, the Postgres repository, Kafka itself, the widget: input, output and plumbing. In runs the bus is first-in-first-out per camera, as the in-process one is; for a broker that reorders a camera's events, `Pipeline.DeliveryOrderIff` says what it takes.
- Connector `verify` and `normalize`: field copying. Webhooks enter as normalized events; an unknown provider is refused before that.
- The uplink and its disk spool: only their consequence is kept, that frame times may go backwards.
- Floating-point rounding, time zones, daylight saving, holidays and calendar features.
- Asyncio interleavings inside one in-process publish: handlers run to the end. Interleavings between frames and deliveries are the protocol's steps.
- Fields no modelled code reads (frame size, order ids, party sizes, raw payloads), summary strings, and the published-event log of the in-memory bus.
- Tracks and per-location states are values inside their owner's fields. The source mutates track objects in place; no two owners share one, so what is not captured is aliasing that does not occur.
- Matcher.VisionPosMatcher.constructor: asks for keep >= 0; with a negative one the source can remove an exit it has just trimmed, which raises.
- WaitTime.WaitTimeEngine.Estimate: leaves out the two errors of the source, a percentile of no samples (sample minimum of zero or less) and a rate over no time; it asks that neither arise.
- Application.AppState.constructor: takes any settings, but the handlers' contracts then ask for a sample minimum of at least one, without which a handler may fail half-way.
- Forecast.SeasonalNaiveForecaster.Predict: asks for a fitted model and, where the slot minimum is zero or less, an observation in every weekly slot asked for; elsewhere the source takes a percentile of nothing.
- BestWindows.BestGuarantees: asks for n >= 1; with n = 0 the source returns one point.
- Idempotency.MemoryIdempotencyStore.Seen: sizes are natural numbers; a negative size would empty the store and fail.
- Tracker.PopulationBound: asks for a non-negative buffer; with a negative one matched tracks die at once as well.
