# Verification of the sensor fusion and ingest logic

A Dafny model of the parts of the repository that carry its hardest behaviour, with
proofs about all inputs and all runs. `dafny verify dfyconfig.toml` checks the whole
project.

| area | modules |
|---|---|
| event-time fusion, publication and offline replay | `Watermark`, `TrackManager`, `Correlation`, `Pipeline`, `Announcements`, `Cycles`, `DeltaSync`, `FetchBeyond` |
| geodetic track filter | `Matrix`, `Kalman`, `GeoFilter`, `GeoCorrection`, `GeoJacobian`, `GeoDerivative` |
| visual tracker | `TrackerFilter`, `Association`, `BoxOverlap`, `Suppression`, `Yolo`, `DeepSort`, `TrackReplay`, `Confirmation` |
| stream codecs | `Aivdm`, `LineFraming`, `Mjpeg`, `Jpeg` |
| document packing | `Chunking` |
| alert state | `Geofence`, `Ewma` |
| JavaScript's `sort`, `filter`, strings, `Math`, buffers | `StableSort`, `Filtering`, `Text`, `Reals`, `Octets`, `Wrappers` |

Classes of the source whose methods update fields are Dafny classes; each method's
contract gives the whole new state as a function of the old one, and the lemmas are about
those functions, over arbitrary sequences of calls.

Conventions:

- Numbers are reals; timestamps are strings read by a function parameter that stands for
  `Date.parse`. Sine, cosine, `atan2`, square root, great-circle distance and MGRS are
  function parameters. What is assumed about them, where a lemma needs it: sine and
  cosine are at most 1 in size and lie on the unit circle, and the cosine obeys Taylor's
  formula to second order (`GeoFilter.Trig.SecondOrder`).
- mathjs's `inv` is a function parameter that finds an inverse whenever there is one;
  where it throws, the model has `None`, and the filters are proved never to get there
  when process noise is at least 0 and the other noises are positive.
- What `randomUUID`, the clock, the no-strike query and the network would deliver are
  inputs. Where ids have to be fresh, a lemma says so.
- Redis stream ids only grow and are natural numbers; the cursor starts at 0.
- A column of SQL type `real` rounds, and `jsonb` may reorder keys: both are parameters.
  It is assumed that equal JSON texts come from equal values and that rounding twice is
  rounding once.
- The replay model lets Kafka deliver from any position not beyond `applied + 1`
  (`consumer.run` comes before the seeks), deliver again, and interleave partitions, and
  lets the node crash between the two writes. Before the first offset of a partition is
  recorded it may start anywhere. That fetches stay within `applied + 1` is assumed of
  `run` and `seek` together; `FetchBeyond.LostForGood` shows what depends on it.

Where the code differs from what is said about it:

- `deepSortTracker.ts` says a track is not reported until it has been matched in
  `minHitsToConfirm` consecutive frames; the code counts all hits
  (`Confirmation.ReportedExactly`). The promise holds exactly for the options that
  `Confirmation.PromiseExactly` gives; a run that breaks it is
  `Confirmation.ReportedAfterGap`.
- The watermark order is promised for events that may still be "beaten" from another
  domain. It holds exactly as long as no event arrives older than one already released;
  a flush can release above the watermark, so the floor that suffices is the highest
  watermark or flushed maximum so far (`Watermark.OnlineSort`,
  `Watermark.AboveFloorIsOnTime`; a run that breaks it is `Watermark.LateAdsb`).
- `extendedKalmanFilter.ts` calls the Jacobian's entry for longitude by latitude the
  derivative. It is exactly where the cosine is above the clamp or the entry has a zero
  factor, as it has on a track that does not move east
  (`GeoDerivative.LatitudeDerivative`; `GeoDerivative.EntryAtPole` is an input where it
  is not).
- `aivdmDecoder.ts` calls its armor formula unambiguous; characters 88 to 95, which are
  unused, decode like others (`Aivdm.ArmorCollisions`). Encoded text is not affected.
- The MJPEG splitter drops a lone FF at the end of a chunk between frames, so a start
  marker cut there is lost (`Mjpeg.ChunkIndependent` gives the exact condition,
  `Mjpeg.CutLosesFrame` an input).
- The JPEG walk does not skip the fill bytes that section B.1.1.2 of ITU-T T.81 allows
  before a marker: it takes the marker for a segment of at least 0xc000 bytes. It finds
  the size exactly when there are none (`Jpeg.FoundIffUnfilled`; `Jpeg.FillByteHides` is
  an input).

## Model

| member | source | states |
|---|---|---|
| `TrackerFilter.FilterIsFourAxes` | services/cv-inference-svc/src/tracker/kalmanFilter.ts:63-88 | For every history of `predict`/`update`: nothing ever fails to invert, and the 8-state filter equals four 2-state filters side by side, all cross-covariances 0, one common 2x2 block |
| `TrackerFilter.StepRefines` | services/cv-inference-svc/src/tracker/kalmanFilter.ts:71-88 | One call of the 8-state filter is one call of each 2-state filter |
| `TrackerFilter.CorrectionLandsBetween` | services/cv-inference-svc/src/tracker/kalmanFilter.ts:77-88 | After any history a correction puts each coordinate strictly between prediction and measurement, and its variance below both its prior and the measurement noise |
| `TrackerFilter.AxisUpdateOk` | services/cv-inference-svc/src/tracker/kalmanFilter.ts:77-88 | The same for one coordinate, with the velocity moving with the innovation and the 2x2 block staying positive definite |
| `TrackerFilter.RunKeepsSpd` | services/cv-inference-svc/src/tracker/kalmanFilter.ts:71-88 | Covariance and innovation covariance are symmetric positive definite after any history |
| `TrackerFilter.BuildTransitionMatrix` | services/cv-inference-svc/src/tracker/kalmanFilter.ts:37-45 | The loop builds the constant-velocity transition |
| `TrackerFilter.BuildMeasurementMatrix` | services/cv-inference-svc/src/tracker/kalmanFilter.ts:47-53 | The loop builds the matrix that selects the measured states |
| `TrackerFilter.KalmanFilter.constructor` | services/cv-inference-svc/src/tracker/kalmanFilter.ts:63-68 | State, covariance and noise matrices of a new filter |
| `TrackerFilter.KalmanFilter.Predict` | services/cv-inference-svc/src/tracker/kalmanFilter.ts:71-74 | The whole new state, as the specification function |
| `TrackerFilter.KalmanFilter.Update` | services/cv-inference-svc/src/tracker/kalmanFilter.ts:77-88 | The whole new state, or unchanged where the matrix has no inverse |
| `TrackerFilter.KalmanFilter.Box` | services/cv-inference-svc/src/tracker/kalmanFilter.ts:90-93 | The first four states are the reported box |
| `Matrix.InverseUnique` | services/cv-inference-svc/src/tracker/kalmanFilter.ts:83 | The inverse that `inv` returns is the only one |
| `Kalman.JosephForm` | services/cv-inference-svc/src/tracker/kalmanFilter.ts:82-87 | The short covariance update equals the Joseph form, whatever the dimensions |
| `Kalman.UpdateKeepsSpd` | services/fusion-svc/src/ekf/extendedKalmanFilter.ts:140-145 | `(I - K H) P` is symmetric positive definite again if `P` and the noise were |
| `Kalman.PosteriorBelowNoise` | services/fusion-svc/src/ekf/extendedKalmanFilter.ts:140-145 | After a correction the variance in any measured direction is below the sensor's |
| `GeoFilter.RunHealthy` | services/fusion-svc/src/ekf/extendedKalmanFilter.ts:84-146 | For every sequence of `predict` and `update`, every latitude and time step: the inverse exists, the covariance is symmetric positive definite, and altitude and climb rate stay uncorrelated with the horizontal states |
| `GeoFilter.PredictHealthy` | services/fusion-svc/src/ekf/extendedKalmanFilter.ts:103-132 | `predict` keeps that, given only the clamped cosine |
| `GeoFilter.UpdateHealthy` | services/fusion-svc/src/ekf/extendedKalmanFilter.ts:135-146 | `update` keeps that and never fails |
| `GeoFilter.UpdatedVariance` | services/fusion-svc/src/ekf/extendedKalmanFilter.ts:135-146 | Right after `update` each measured coordinate has less variance than its sensor |
| `GeoFilter.AccuracyDefined` | services/fusion-svc/src/ekf/extendedKalmanFilter.ts:173-178 | The square root in `accuracyM` is of a positive number |
| `GeoFilter.DefaultAccuracy` | services/fusion-svc/src/ekf/extendedKalmanFilter.ts:63-70 | With default measurement noise `accuracyM` squared is at most 128 (8 times the square root of 2, squared) right after any update |
| `GeoJacobian.JacobianColumn` | services/fusion-svc/src/ekf/extendedKalmanFilter.ts:110-128 | Every entry but longitude by latitude is exact: moving a state before the prediction moves each component of the prediction by that multiple of the entry |
| `GeoDerivative.LatitudeDerivative` | services/fusion-svc/src/ekf/extendedKalmanFilter.ts:114-119 | Longitude by latitude is the derivative of the predicted longitude if and only if the cosine is above the clamp or the entry has a zero factor (eastward velocity, time step, sine) |
| `GeoDerivative.PoleDerivative` | services/fusion-svc/src/ekf/extendedKalmanFilter.ts:114-119 | Where the sine is not zero at the clamp, as at a pole, that is if and only if the cosine is above the clamp or nothing moves east |
| `GeoDerivative.EntryAtPole` | services/fusion-svc/src/ekf/extendedKalmanFilter.ts:114-119 | At the pole, moving east at 100 m/s for a second: the entry is not zero and not the derivative, and the predicted longitude stays where it is wherever the cosine is clamped |
| `GeoFilter.MetersPerDegLon` | services/fusion-svc/src/ekf/extendedKalmanFilter.ts:31-37 | Positive at every latitude, at most the metres per degree of latitude |
| `GeoFilter.ExtrapolateIsPrediction` | services/fusion-svc/src/pipeline/geo.ts:24-32 | Dead reckoning used for gating agrees with the filter's own prediction |
| `GeoFilter.ExtendedKalmanFilter.constructor` | services/fusion-svc/src/ekf/extendedKalmanFilter.ts:84-100 | A new filter's state, covariance and noise matrices |
| `GeoFilter.ExtendedKalmanFilter.Predict` | services/fusion-svc/src/ekf/extendedKalmanFilter.ts:103-132 | State and covariance after the Jacobian is filled in entry by entry |
| `GeoFilter.ExtendedKalmanFilter.Update` | services/fusion-svc/src/ekf/extendedKalmanFilter.ts:135-146 | State and covariance after a correction, as the value-level correction that `GeoCorrection.UpdateCorrects` decides; unchanged where the inverse throws |
| `GeoCorrection.UpdateCorrects` | services/fusion-svc/src/ekf/extendedKalmanFilter.ts:135-146 | A correction of any healthy filter moves each state component by its covariances with latitude, longitude and altitude, each times what remains of that measured difference over the sensor's variance for it |
| `GeoCorrection.CorrectsOnce` | services/fusion-svc/src/ekf/extendedKalmanFilter.ts:135-146 | Only one state satisfies these equations, so they decide the corrected state |
| `GeoCorrection.RunCorrects` | services/fusion-svc/src/ekf/extendedKalmanFilter.ts:103-146 | Both over every history of `predict` and `update` |
| `GeoCorrection.OwnPositionMovesNothing` | services/fusion-svc/src/ekf/extendedKalmanFilter.ts:135-146 | A fix at the filter's own position changes no state component |
| `GeoCorrection.AltitudeBetween` | services/fusion-svc/src/ekf/extendedKalmanFilter.ts:135-146 | Altitude lands strictly between the filter's and the fix's, unless they agree |
| `GeoCorrection.StartsAt` | services/fusion-svc/src/ekf/extendedKalmanFilter.ts:89-95 | A new filter stands still at its first fix, with the configured variance for each state and no covariances |
| `GeoCorrection.PredictGrows` | services/fusion-svc/src/ekf/extendedKalmanFilter.ts:110-131 | A prediction carries every covariance along two rows of the Jacobian and adds to each state's variance its own process noise |
| `GeoCorrection.VerticalGrows` | services/fusion-svc/src/ekf/extendedKalmanFilter.ts:110-131 | How altitude's and climb rate's variances grow, written out |
| `Kalman.InnovationSplit` | services/fusion-svc/src/ekf/extendedKalmanFilter.ts:140-141 | `H P H^T e` is what `S` gives `e` less what `R` gives it |
| `Association.IouRange` | services/cv-inference-svc/src/tracker/trackAssociation.ts:3-19 | IoU is in [0, 1] and symmetric for all real boxes, negative sizes included; what it measures is `BoxOverlap.IouIs` |
| `BoxOverlap.CommonPart` | services/cv-inference-svc/src/tracker/trackAssociation.ts:4-15 | Two boxes with a common interior point have a rectangle as their common part: a point is in it exactly when it is in both |
| `BoxOverlap.CommonPartIs` | services/cv-inference-svc/src/tracker/trackAssociation.ts:13-15 | The points decide that rectangle's corners, and they are where the boxes' own sides put them |
| `BoxOverlap.IouIs` | services/cv-inference-svc/src/tracker/trackAssociation.ts:17-18 | IoU times the union is the intersection: the area of the common part from its corners, and the two areas less that |
| `BoxOverlap.IouZero` | services/cv-inference-svc/src/tracker/trackAssociation.ts:13-18 | IoU is 0 exactly for boxes with no interior point in common, so in particular where the union is not positive |
| `BoxOverlap.IouOne` | services/cv-inference-svc/src/tracker/trackAssociation.ts:17-18 | IoU is 1 exactly for a box with an interior and itself |
| `Association.Associate` | services/cv-inference-svc/src/tracker/trackAssociation.ts:43-69 | The loops, the stable descending sort and the two sets compute the specified matching, over pairs of boxes whose IoU, as `BoxOverlap.IouIs` measures it, is at least the threshold |
| `Association.AssociateIsStable` | services/cv-inference-svc/src/tracker/trackAssociation.ts:43-69 | One-to-one; every eligible pair left out shares an endpoint with a match of at least its IoU; the unmatched lists are exactly the other indices, in order |
| `Association.AssociateHalfOptimal` | services/cv-inference-svc/src/tracker/trackAssociation.ts:33-42 | Any one-to-one pairing of eligible pairs has total IoU at most twice that of the matches |
| `Association.AssociateUnique` | services/cv-inference-svc/src/tracker/trackAssociation.ts:43-69 | With distinct scores the matches are the only pairing that blocks everything it leaves out |
| `Suppression.NonMaxSuppression` | services/cv-inference-svc/src/inference/postprocess.ts:67-79 | The loop computes the specified suppression |
| `Suppression.NmsByPosition` | services/cv-inference-svc/src/inference/postprocess.ts:67-79 | In the input sorted by confidence, exactly those positions are kept, in order, that no kept position before them suppresses |
| `Suppression.NmsCharacterised` | services/cv-inference-svc/src/inference/postprocess.ts:67-79 | Kept boxes come from the input, most confident first, no two of a class overlap above the threshold, and every detection whose value is not among the kept has a kept one of its class, at least as confident, that overlaps it above the threshold |
| `Suppression.NmsIdempotent` | services/cv-inference-svc/src/inference/postprocess.ts:67-79 | Suppressing twice changes nothing |
| `Suppression.NmsPerClass` | services/cv-inference-svc/src/inference/postprocess.ts:67-79 | Suppression commutes with restricting to one class |
| `Yolo.ArgMax` | services/cv-inference-svc/src/inference/postprocess.ts:34-42 | The inner loop finds the greatest positive score, the first class on ties |
| `Yolo.BestIsUnique` | services/cv-inference-svc/src/inference/postprocess.ts:34-42 | That class is the only one with this property |
| `Yolo.DecodeYoloOutput` | services/cv-inference-svc/src/inference/postprocess.ts:23-65 | Anchor by anchor the candidates, then suppression |
| `Yolo.CandidatesAre` | services/cv-inference-svc/src/inference/postprocess.ts:30-60 | One candidate for exactly each anchor where some class scores positively and high enough, in order: rows 0 to 3 of the anchor's column are its letterboxed centre and size, its confidence is its class's row, and no class scores more, no earlier one as much |
| `Yolo.UnfitFit` | services/cv-inference-svc/src/inference/postprocess.ts:50-54 | Undoing the letterbox transform gives back the frame coordinates |
| `DeepSort.DeepSortTracker.Step` | services/cv-inference-svc/src/tracker/deepSortTracker.ts:60-116 | The whole new track list and the reported objects; what they hold is `TrackReplay.RunReplays` and `TrackReplay.ReportsExactly` |
| `DeepSort.RunIsSteps` | services/cv-inference-svc/src/tracker/deepSortTracker.ts:60-116 | No filter ever throws over any sequence of frames, and the tagged run is the tracker's own run |
| `TrackReplay.RunReplays` | services/cv-inference-svc/src/tracker/deepSortTracker.ts:61-96 | Over any sequence of frames each live track's filter is the Kalman filter run from its first detection's box, with one prediction per frame since and one correction, by the feeding detection's box, in each frame that fed it |
| `TrackReplay.MatchesExpected` | services/cv-inference-svc/src/tracker/deepSortTracker.ts:61-69 | Each frame associates its detections with the boxes that these runs predict, in order |
| `TrackReplay.FedByMatch` | services/cv-inference-svc/src/tracker/deepSortTracker.ts:71-80 | A track is fed by the detection it was associated with and by no other of that frame |
| `TrackReplay.ReportsExactly` | services/cv-inference-svc/src/tracker/deepSortTracker.ts:103-115 | The reported objects are, in order, those of the tracks that enough detections fed: id drawn at birth, box and velocity of the track's run, class and confidence of its last detection, and both counters, all from feeds and frames |
| `TrackReplay.SecondSighting` | services/cv-inference-svc/src/tracker/kalmanFilter.ts:63-88 | After two successive sightings a box is 21/22 of the way to the second and moves 10/22 of it per frame |
| `DeepSort.RunTagsOk` | services/cv-inference-svc/src/tracker/deepSortTracker.ts:71-101 | `hits` is the number of detections that fed a track, `age` the frames since its birth, `framesSinceUpdate` the frames since the last feed; no detection feeds two tracks; nothing stale stays |
| `DeepSort.PopulationBound` | services/cv-inference-svc/src/tracker/deepSortTracker.ts:101 | Live tracks number at most the detections of the last maxMissedFrames + 1 frames |
| `DeepSort.IdsUnique` | services/cv-inference-svc/src/tracker/deepSortTracker.ts:88-99 | Live tracks have different ids if `randomUUID` never repeats |
| `DeepSort.EachDetectionOnce` | services/cv-inference-svc/src/tracker/deepSortTracker.ts:71-99 | Each detection feeds or creates exactly one track |
| `DeepSort.DroppedExactly` | services/cv-inference-svc/src/tracker/deepSortTracker.ts:82-101 | A track is dropped exactly on its (maxMissedFrames + 1)-th consecutive miss |
| `Confirmation.ReportedExactly` | services/cv-inference-svc/src/tracker/deepSortTracker.ts:103-104 | After any frames the reported tracks are, in order, those that at least minHitsToConfirm detections fed |
| `Confirmation.PromiseExactly` | services/cv-inference-svc/src/tracker/deepSortTracker.ts:43-45 | Over all runs in which `randomUUID` never repeats, every reported track was fed in minHitsToConfirm consecutive frames if and only if minHitsToConfirm <= 1, maxMissedFrames <= 0 or iouThreshold > 1 |
| `Confirmation.ReportedAfterGap` | services/cv-inference-svc/src/tracker/deepSortTracker.ts:43-45 | A run that breaks the promise: two hits asked for, one missed frame survived, one box detected in frames 0 and 2 only, with any classes, confidences and ids |
| `Confirmation.CountersWithinAge` | services/cv-inference-svc/src/tracker/deepSortTracker.ts:71-86 | For every live track hits + framesSinceUpdate <= age, and age is at most the number of frames |
| `Watermark.WatermarkWindow.Poll` | packages/redis/src/watermarkWindow.ts:54-96 | Released events and the new window of one poll |
| `Watermark.WatermarkWindow.ReadStream` | packages/redis/src/watermarkWindow.ts:70-81 | Cursor, buffer and maximum after one stream's entries; malformed ones only move the cursor |
| `Watermark.WatermarkWindow.SplitBuffer` | packages/redis/src/watermarkWindow.ts:86-93 | The buffer divided at the watermark, order kept |
| `Watermark.WatermarkWindow.FlushAll` | packages/redis/src/watermarkWindow.ts:98-102 | Everything buffered, sorted |
| `Watermark.RunConserves` | packages/redis/src/watermarkWindow.ts:54-102 | Over any run every event read is released or buffered, as often as it was read, ties in read order |
| `Watermark.CursorsExact` | packages/redis/src/watermarkWindow.ts:68-81 | On append-only streams every entry is consumed exactly once; each domain's events are its well-formed entries in stream order |
| `Watermark.OnlineSort` | packages/redis/src/watermarkWindow.ts:13-17 | The releases followed by the sorted buffer are the stable sort of everything read if and only if no event arrived older than one already released |
| `Watermark.LateDomain` | packages/redis/src/watermarkWindow.ts:54-96 | Whenever a second domain delivers an event older than one already released, it is released after it: the releases are out of order |
| `Watermark.LateAdsb` | packages/redis/src/watermarkWindow.ts:54-96 | One such run of two polls, entry by entry |
| `Watermark.AboveFloorIsOnTime` | packages/redis/src/watermarkWindow.ts:48-53 | Feeds that never fall below the floor (highest watermark, or maximum at a flush) meet that condition |
| `Watermark.FlushCompletes` | packages/redis/src/watermarkWindow.ts:63-66 | After an idle blocking poll the releases are the whole stable sort, under exactly the same condition |
| `Watermark.BufferIsNewer` | packages/redis/src/watermarkWindow.ts:86-93 | Without flushes the buffer is exactly what was read and is newer than the watermark, in read order |
| `Watermark.MaxIsGreatest` | packages/redis/src/watermarkWindow.ts:78-79 | The kept maximum is the greatest timestamp read |
| `StableSort.SortCharacterised` | packages/redis/src/watermarkWindow.ts:94 | A sequence is the stable sort exactly when it is sorted and keeps the order within each key |
| `DeltaSync.EachMessage` | services/edge-sync-svc/src/sync/deltaSync.ts:44-54 | The handler: skips what is null or already recorded, otherwise writes row and offset |
| `DeltaSync.SeekTargets` | services/edge-sync-svc/src/sync/deltaSync.ts:57-62 | Seeks go to applied + 1, for exactly the partitions with a recorded offset |
| `DeltaSync.LocalStore.SetOffset` | services/edge-sync-svc/src/db/localStore.ts:59-61 | One offset changes, nothing else |
| `DeltaSync.LocalStore.ApplyEntityUpsert` | services/edge-sync-svc/src/db/localStore.ts:62-64 | One row changes, nothing else |
| `DeltaSync.HandlerIsSteps` | services/edge-sync-svc/src/sync/deltaSync.ts:44-54 | The handler is the two writes of the step relation when nothing crashes between them |
| `DeltaSync.RunInv` | services/edge-sync-svc/src/sync/deltaSync.ts:43-62 | The invariant of every run of appends, redeliveries, crashes between the two writes and restarts |
| `DeltaSync.MirrorExact` | services/edge-sync-svc/src/sync/deltaSync.ts:8-12 | Once an offset is recorded the mirror shows each partition's log up to it, or one message further while that write is in flight; the recorded offsets are those of every message, once each, in order |
| `DeltaSync.RecordingAdvances` | services/edge-sync-svc/src/sync/deltaSync.ts:46-52 | A recorded offset is greater than any before it, and leaves the partition exact |
| `DeltaSync.CaughtUpMirror` | services/edge-sync-svc/src/sync/deltaSync.ts:8-12 | A caught-up partition shows the last message of every entity it received |
| `DeltaSync.InterleavingIrrelevant` | services/fusion-svc/src/kafka/entityProducer.ts:28-36 | Two nodes with different crashes, redeliveries and interleavings agree once caught up, because messages are keyed by entity |
| `FetchBeyond.LostForGood` | services/edge-sync-svc/src/sync/deltaSync.ts:57-62 | Were a session to start beyond applied + 1, past a message, then once a later offset is recorded that message is never written to the mirror, whatever happens afterwards |
| `DeltaSync.SeekIsAllowed` | services/edge-sync-svc/src/sync/deltaSync.ts:57-62 | The seek is the furthest fetch position the run model allows |
| `TrackManager.TrackManager.Observe` | services/fusion-svc/src/pipeline/trackManager.ts:89-140 | The observation goes to the earliest of the nearest candidates, or starts a track exactly when there is none; the whole new track list. `Correlation.CandidateIs` and `Correlation.ObserveJoins` say which tracks are candidates |
| `TrackManager.TrackManager.UpdateTrack` | services/fusion-svc/src/pipeline/trackManager.ts:104-122 | Every field of the matched track, the others untouched |
| `TrackManager.TrackManager.EvictStale` | services/fusion-svc/src/pipeline/trackManager.ts:143-154 | The new statuses, and exactly the tracks that just became lost |
| `TrackManager.NearestIs` | services/fusion-svc/src/pipeline/trackManager.ts:92-102 | The scan picks track i if and only if i is a candidate, no earlier one is as near and no later one nearer |
| `Correlation.CandidateIs` | services/fusion-svc/src/pipeline/trackManager.ts:84-99 | A track is a candidate exactly when it is not LOST, the observation is 0 to the maximal gap in seconds after its last fix, and its filter's prediction for that moment is within the gate: the caller's for the domain, else 1500, 3000, 8000 or 300 for ais, adsb, ewrf and iot, else 2000 |
| `Correlation.ObserveJoins` | services/fusion-svc/src/pipeline/trackManager.ts:89-140 | In any run an observation joins the first of the tracks predicted nearest to it, changing no other, or starts one with the drawn id exactly when it may join none |
| `Correlation.OnCourse` | services/fusion-svc/src/pipeline/trackManager.ts:97-99 | An observation where one of the filters predicts its track never starts a track |
| `Correlation.FixMovesTrack` | services/fusion-svc/src/pipeline/trackManager.ts:105-107 | In any run the joined track's filter is its own prediction for that moment, corrected by the observed position as `GeoCorrection.Corrects` says |
| `Correlation.SweepLoses` | services/fusion-svc/src/pipeline/trackManager.ts:143-152 | A sweep makes a track LOST exactly when its last fix is longer ago than the timeout, and changes nothing else |
| `Correlation.SweepReports` | services/fusion-svc/src/pipeline/trackManager.ts:143-154 | It returns exactly the tracks it made LOST, in order |
| `TrackManager.RunExplained` | services/fusion-svc/src/pipeline/trackManager.ts:89-154 | Over any run each track is explained by the observations assigned to it: filter, last min(200, n) fused points, highest confidence, set of sensors, last known affiliation, status; each of them was inside the gate when assigned |
| `TrackManager.EkfIsReplay` | services/fusion-svc/src/pipeline/trackManager.ts:106-107 | A track's filter is the EKF run on its own observations, and no inversion failed |
| `TrackManager.LaterGrows` | services/fusion-svc/src/pipeline/trackManager.ts:108-119 | From any moment to any later one: timestamps never decrease, confidence and sensors only grow, a known affiliation never reverts, LOST never changes again |
| `TrackManager.NeverBehind` | services/fusion-svc/src/pipeline/trackManager.ts:95 | On time-sorted input no track's last fix is later than the next observation, so the negative-dt skip never fires |
| `Pipeline.FusionPipeline.RunOnce` | services/fusion-svc/src/pipeline/pipeline.ts:70-119 | Window, tracks, rows, emissions and topic after one cycle; what rows, emissions and messages then say of each track is `Pipeline.RunView`, field by field |
| `Pipeline.FusionPipeline.ProcessBatch` | services/fusion-svc/src/pipeline/pipeline.ts:74-102 | The first loop, event by event |
| `Pipeline.FusionPipeline.SweepStale` | services/fusion-svc/src/pipeline/pipeline.ts:104-116 | The second loop, lost track by lost track |
| `Pipeline.FusionPipeline.PublishEntity` | services/fusion-svc/src/pipeline/pipeline.ts:81-99 | Insert, update or nothing, with the emission and message that belong to it |
| `Pipeline.DiffFields` | services/fusion-svc/src/db/upsertEntity.ts:65-81 | The list of changed names, in order |
| `Pipeline.UnchangedIsCurrent` | services/fusion-svc/src/db/upsertEntity.ts:45-49 | `last_updated` is not compared, yet an unchanged row is up to date, because the compared trajectory ends with it |
| `Pipeline.CycleIsSteps` | services/fusion-svc/src/pipeline/pipeline.ts:70-119 | A cycle is a run of processing steps and a sweep |
| `Pipeline.RunView` | services/fusion-svc/src/pipeline/pipeline.ts:81-116 | Over any run with fresh ids each entity is announced as `new updated* lost?`, its messages are non-null and then at most one null, in step with that; its row holds its track's filter state as latitude, longitude and rounded altitude, and its class, confidence, status, affiliation, sensors, motion and parsed timestamps; so does the last message of a live track, MGRS included; and the gateway's last word on a lost one is its last position |
| `Announcements.ProcessAnnounces` | services/fusion-svc/src/pipeline/pipeline.ts:78-99 | In any state, one observation: the entity said to be new or updated is the track's field by field, an update names exactly the stored values that differ, nothing is said if none does, and the row then holds the zone query's answer |
| `Announcements.DiffIsChanged` | services/fusion-svc/src/db/upsertEntity.ts:65-81 | Which name stands for which stored value |
| `Announcements.LoseSays` | services/fusion-svc/src/pipeline/pipeline.ts:105-115 | One lost track: its position goes out, null is published, and its row is no longer marked no-strike |
| `Announcements.ObservationsAre` | services/fusion-svc/src/pipeline/pipeline.ts:29-43 | One observation for each event of the four domains that the domain's own mapper can place, in order |
| `Pipeline.RunAbsent` | services/fusion-svc/src/db/upsertEntity.ts:36-43 | Nothing is ever stored or said about an id no track has |
| `Pipeline.MirrorAgrees` | services/fusion-svc/src/pipeline/pipeline.ts:94-115 | End to end: a caught-up edge mirror holds, for every live track, an entity at the filter's latitude and longitude and with all that its row shows, and null exactly for lost ones |
| `Cycles.CycledMirrorAgrees` | services/fusion-svc/src/pipeline/pipeline.ts:70-119 | The same over any sequence of cycles, whatever their polls find |
| `Cycles.OnTimeFeed` | services/fusion-svc/src/pipeline/pipeline.ts:71-78 | The observations of the releases of a feed that is on time are in time order |
| `Cycles.CyclesAreSteps` | services/fusion-svc/src/pipeline/pipeline.ts:70-119 | Any sequence of cycles is one run of processing steps and sweeps |
| `Cycles.ObservedIsReleased` | services/fusion-svc/src/pipeline/pipeline.ts:71-78 | Over any sequence of cycles the correlator is given exactly the observations of what the window has released, in that order |
| `Cycles.NothingPassedOver` | services/fusion-svc/src/pipeline/trackManager.ts:95 | Over any sequence of cycles on a feed that is on time, at every observation processed every track's last fix is no later than it, so none is passed over for a negative time difference |
| `Pipeline.SameTracks` | services/fusion-svc/src/pipeline/pipeline.ts:78 | The pipeline's tracks are a run of the track manager |
| `Chunking.ChunkDoctrine` | packages/qdrant/src/chunk.ts:11-34 | The chunks of a document, with no visible character lost |
| `Chunking.ChunkParagraphs` | packages/qdrant/src/chunk.ts:17-31 | Every chunk fits or is a single paragraph, indices count up, no chunk had room for the next paragraph |
| `Chunking.ChunksLossless` | packages/qdrant/src/chunk.ts:17-31 | The chunks rejoined are the paragraphs rejoined |
| `Chunking.NothingLost` | packages/qdrant/src/chunk.ts:12-15 | Splitting at blank lines, trimming and dropping empty paragraphs loses only white space |
| `Chunking.FewestChunks` | packages/qdrant/src/chunk.ts:20-28 | No order-preserving packing that meets the rule has fewer chunks |
| `Aivdm.DecodeAivdmPositionReport` | services/ingest-svc/src/ais/aivdmDecoder.ts:61-116 | The decoder, tag block, guards and sentinels included |
| `Aivdm.SixBitAsciiToBits` | services/ingest-svc/src/ais/aivdmDecoder.ts:38-46 | The armor's bits, for any characters |
| `Aivdm.ArmorInverts` | services/ingest-svc/tests/helpers/testAivdmEncoder.ts:17-19 | All 64 values survive the armor |
| `Aivdm.ArmorCollisions` | services/ingest-svc/src/ais/aivdmDecoder.ts:32-37 | Exactly which character codes decode to the same value |
| `Aivdm.BitsToSixBitAscii` | services/ingest-svc/tests/helpers/testAivdmEncoder.ts:14-22 | The encoder's loop |
| `Aivdm.ArmorRoundTrip` | services/ingest-svc/src/ais/aivdmDecoder.ts:38-46 | Taking the armor off gives back the bits |
| `Aivdm.DecodedIsOnEarth` | services/ingest-svc/src/ais/aivdmDecoder.ts:102-104 | Whatever is received, a decoded position is a number strictly inside the sentinels |
| `Aivdm.FieldIsNumber` | services/ingest-svc/src/ais/aivdmDecoder.ts:48-50 | `parseInt` never yields NaN on a field of a decoded payload, whatever its characters |
| `Aivdm.RoundTrip` | services/ingest-svc/tests/helpers/testAivdmEncoder.ts:35-56 | Decoding an encoded report gives back every in-range field, two's complement and sentinels included, or null exactly when it should |
| `LineFraming.LineAdapter.Data` | services/ingest-svc/src/ais/aisAdapter.ts:32-40 | Events and buffer after one chunk |
| `LineFraming.SplitIsFramed` | services/ingest-svc/src/adsb/adsbAdapter.ts:37-38 | Splitting at the regular expression is reading character by character |
| `LineFraming.ChunkIndependent` | services/ingest-svc/src/adsb/adsbAdapter.ts:35-43 | For every cut of a stream the events and the residual buffer are those of the whole text |
| `LineFraming.AisStream` | services/ingest-svc/src/ais/aisAdapter.ts:32-40 | CRLF-joined encoded reports reach the decoder once each, in order, and decode to what they mean, for every cut |
| `Mjpeg.MjpegFrameSplitter.Push` | services/ingest-svc/src/rtsp/frameExtractor.ts:66-87 | Frames and buffer after one chunk; the loop ends |
| `Mjpeg.ExtractIsScan` | services/ingest-svc/src/rtsp/frameExtractor.ts:70-84 | The loop finds what one pass over the bytes finds, and keeps nothing or a frame that has begun |
| `Mjpeg.ChunkIndependent` | services/ingest-svc/src/rtsp/frameExtractor.ts:66-87 | Frames and buffer are independent of chunking if and only if no cut separates FF from D8 of a start marker between frames |
| `Mjpeg.CutLosesFrame` | services/ingest-svc/src/rtsp/frameExtractor.ts:66-87 | FF and then D8 FF D9: one frame in one pass, none in two pushes |
| `Mjpeg.Tiling` | services/ingest-svc/src/rtsp/frameExtractor.ts:54-58 | Every frame starts with SOI and ends at the first following EOI; frames are disjoint, in order, and only stretches without a start marker lie between them |
| `Jpeg.ParseJpegDimensions` | services/ingest-svc/src/jpeg/dimensions.ts:16-46 | Ends and stays in bounds on any buffer |
| `Jpeg.FindsDimensions` | services/ingest-svc/src/jpeg/dimensions.ts:19-43 | After any mix of standalone markers and well-formed segments it returns the size in the first complete SOF0 |
| `Jpeg.DimensionsStandThere` | services/ingest-svc/src/jpeg/dimensions.ts:28-33 | Whatever is returned stands in a complete SOF0 |
| `Jpeg.FoundIffUnfilled` | services/ingest-svc/src/jpeg/dimensions.ts:19-43 | For any header of standalone markers, segments and SOF0, each behind any number of fill bytes (behind exactly one only markers from 0xc0 up), provided no complete SOF0 stands 0xc000 bytes or more after the start of the walk: the size is found if all the numbers are 0, and nothing otherwise |
| `Jpeg.FoundIffUnfilledSmall` | services/ingest-svc/src/jpeg/dimensions.ts:19-43 | In buffers of at most 0xc000 bytes the size is found if and only if there are no fill bytes, and nothing else is ever returned |
| `Jpeg.FillByteHides` | services/ingest-svc/src/jpeg/dimensions.ts:40-42 | One 12-byte header with a fill byte before SOF0, where nothing is found, and the same without it, where 16 by 32 is |
| `Geofence.ZoneStore.CheckTransitions` | services/alert-svc/src/geofence/checkZones.ts:29-68 | The transitions of one check, and the whole store after it |
| `Geofence.CheckSays` | services/alert-svc/src/geofence/checkZones.ts:43-58 | What one check says of a zone is what its trigger wants said of the change |
| `Geofence.OwnConsecutive` | services/alert-svc/src/geofence/checkZones.ts:39-65 | Over any run of checks of any entities each check finds what the last check of the same entity stored |
| `Geofence.StoreAlternates` | services/alert-svc/src/geofence/checkZones.ts:23-28 | Over any such run a BOTH zone's events for one entity strictly alternate from ENTRY, with one ENTRY more exactly when the store has the entity inside |
| `Geofence.StoreOneWay` | services/alert-svc/src/geofence/checkZones.ts:23-28 | Over any such run a one-way zone fires once each time the stored answer changes that way and never otherwise |
| `Ewma.EwmaAnomalyDetector.UpdateEwma` | services/alert-svc/src/anomaly/ewmaDetector.ts:25-43 | The updated average, and the score against the baseline before it |
| `Ewma.EwmaAnomalyDetector.Update` | services/alert-svc/src/anomaly/ewmaDetector.ts:97-124 | The new state of the entity and the result |
| `Ewma.EwmaAnomalyDetector.Reset` | services/alert-svc/src/anomaly/ewmaDetector.ts:126-128 | One entity forgotten |
| `Ewma.AverageWithin` | services/alert-svc/src/anomaly/ewmaDetector.ts:25-43 | Any average stays in whatever range its values lie in, and its variance in the square of that range |
| `Ewma.AverageIsWeighted` | services/alert-svc/src/anomaly/ewmaDetector.ts:25-43 | The mean is the values' weighted sum, each weight 1 - alpha times the next newer one's, and the variance that of the squared differences from the means before |
| `Ewma.WeightsAddUp` | services/alert-svc/src/anomaly/ewmaDetector.ts:25-43 | The weights add up to one |
| `Ewma.ScoresAre` | services/alert-svc/src/anomaly/ewmaDetector.ts:97-124 | On any interleaved stream a score times the standard deviation, of at least 0.000001, is the distance of the entity's value from the weighted mean of its own values before; for headings the value is the deviation from the direction of the weighted mean vector |
| `Ewma.RunBounded` | services/alert-svc/src/anomaly/ewmaDetector.ts:25-43 | That holds of the speed, of both components of the heading and of the deviation, each with its own values; deviations are within half a turn and the smoothed heading stays in the unit disc |
| `Ewma.DeviationIsShortest` | services/alert-svc/src/anomaly/ewmaDetector.ts:45-50 | The deviation is congruent to the difference, at most half a turn, and no other such angle is smaller |
| `Ewma.EntitiesAreIndependent` | services/alert-svc/src/anomaly/ewmaDetector.ts:97-124 | On an interleaved stream each entity's state is that of its own samples |
| `Ewma.FlaggedOnlyAfterWarmup` | services/alert-svc/src/anomaly/ewmaDetector.ts:119-122 | The first five samples are never flagged, later ones exactly on their scores |

## Left out

- Floating-point rounding, NaN timestamps and integer limits of JavaScript numbers: arithmetic is exact.
- Chunking.Fits: counts Unicode scalars where JavaScript counts UTF-16 units, so the packing differs on characters outside the Basic Multilingual Plane.
- Aliasing: a track returned by the source keeps changing after the call; tracks here are values held in the manager's list, in the map's insertion order.
- `randomUUID` handing out an id twice: the source's map would then replace a track; ids are assumed fresh where it matters.
- A payload that is not JSON or fails its schema makes the source throw in the middle of a poll or a cycle; failures inside a cycle and several fusion replicas are not part of this model.
- The geofence queue and the list `runPipelineOnce` returns: they follow the same condition as the emission.
- Heading and speed of a reported object, which are functions of the velocity it carries.
- The wire mappers, MGRS, heading and speed getters, haversine distance and PostGIS containment: parameters.
- JSON round trips of the mirrored entity: a row holds the entity itself.
- UTF-8 characters cut in two by a chunk boundary: the line framing works on characters.
- Parsing of the NMEA checksum and of numerals: `Number` is a parameter of the decoder, known only to read "1" as 1.
- JPEG decoding beyond the header walk, ffmpeg, and the frame throttle.
- Retention on the topic: a log only grows, though its offsets may have gaps.
- Threat scoring, audit log, roles, reports, dispatch, inventory alerts and all HTTP, socket, queue and database wiring: small or input and output only.
