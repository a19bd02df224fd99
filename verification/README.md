# MyStreetGuide core in Dafny

MyStreetGuide is a React Native camera app. You point the phone at a building and take a photo. The app then projects points 1, 2, 4, …, 64 metres ahead along the compass bearing. It reverse-geocodes each point and shows the address of the first building it finds. This project models two pieces of that logic as pure functions over exact reals and proves properties about them.

The first piece is the **compass calibration hook** (`useCalibratedMagnetometer.js` and its older copy). It is a state machine driven by four events:

- `calibrate`
- a compass reading
- `finishCalibration`
- the expiry of the ten-second timeout

The second piece is the **address search and heading arithmetic** of `App.tsx` and of the earlier screen `app-changed.tsx`. It covers:

- the true-heading and bearing formula
- the display smoother
- the longitude wrap
- `formatAddress`
- the progress step list
- the `takePhoto` guards and busy flag
- the doubling search `findBuildingAddress` and its per-probe step `computeEndCoordinates`

Modules, one per file:

| file | module | what |
|---|---|---|
| wrappers.dfy | Wrappers | `Option` |
| js_number.dfy | JsNumber | JavaScript's `%` (remainder truncated toward zero) and `Math.abs` on reals |
| angles.dfy | Angles | true heading / bearing, shortest-arc smoother tick, longitude wrap |
| projection.dfy | Projection | `getDestinationPoint`; the spherical trigonometry is a function parameter |
| geocoding.dfy | Geocoding | the reverse-geocoder reply and `formatAddress` |
| steps.dfy | Steps | the four-stage progress list and its update by id |
| address_search.dfy | AddressSearch | the probe schedule, the geocoder as an oracle, an independent "first hit" reference |
| app.dfy | App | App.tsx: heading target, `computeEndCoordinates`, `findBuildingAddress`, `takePhoto` |
| app_changed.dfy | AppChanged | app-changed.tsx: the same search storing `display_name`, without busy flag or steps |
| calibration.dfy | Calibration | useCalibratedMagnetometer.js as a state machine |
| calibration_old.dfy | CalibrationOld | useCalibratedMagnetometerOLD.js, reduced to `Calibration` by an event translation |

Conventions used throughout:

- **The geocoder.** It is a sequence of replies, and the k-th geocode call of a run receives reply k. A missing reply behaves like a failed fetch, which `reverseGeocode` turns into `null`.
- **Strings.** A JavaScript string field that is absent is falsy, and so is an empty one. Both are written as the empty string.
- **Timeouts.** Each timeout is named by the id it was armed with. A timeout fires only if it is still the pending one, which models `clearTimeout`.

## Model

| member | source | states |
|---|---|---|
| JsNumber.Rem | App.tsx:162-163 | JavaScript's `%` for a positive modulus: the result keeps the dividend's sign and stays within one modulus of zero |
| JsNumber.RemMultiple | App.tsx:162-163 | the remainder equals the dividend less the modulus times the quotient truncated toward zero, the definition of JavaScript's `%` |
| JsNumber.RemOfDecomposition | App.tsx:176 | a dividend written as whole moduli plus a remainder in [0, m) gives back exactly that remainder |
| Angles.TrueHeading | App.tsx:162-163 | `(h + d + 360) % 360` lies in [0, 360) when h + d ≥ -360 and in (-360, 0] below that |
| Angles.TrueHeadingFixesCanonical | App.tsx:269-270 | a sum h + d already in [0, 360) is returned unchanged |
| Angles.TrueHeadingCanBeNegative | App.tsx:269-270 | the formula does not normalise: heading -358.5 with declination -5 gives -3.5 |
| Angles.ShortestArc | App.tsx:173 | the smoother's signed delta lies in [-180, 180) for any target and previous angle within 540 degrees |
| Angles.ShortestArcAcrossNorth | App.tsx:173 | from 350 to 10 degrees the delta is +20, the short way across north |
| Angles.SmoothStep | App.tsx:171-177 | every smoother tick yields an angle in [0, 360), whatever the inputs |
| Angles.SmoothStepFixedPoint | App.tsx:171-177 | a displayed angle equal to its target has zero delta and stays put |
| Angles.SmoothStepContracts | App.tsx:172-177 | for angles in [0, 360), one tick multiplies the signed shortest-arc gap by exactly 0.82: it converges the short way and never overshoots |
| Angles.WrapLongitude | App.tsx:110 | `((x + 3π) % 2π) - π` lies in [-π, π) for x ≥ -3π |
| Angles.WrapLongitudeFixesCanonical | App.tsx:109-110 | a longitude already in [-π, π) is not moved |
| Angles.WrapLongitudeWholeTurns | App.tsx:110 | the wrap moves a longitude by a whole number of turns |
| Projection.DestinationPoint | App.tsx:84-116 | with a start longitude in [-180, 180] and an `atan2` term in [-π, π], the end longitude lands in [-180, 180); if no wrap is needed, it is the start longitude plus the term in degrees |
| Geocoding.CityName | App.tsx:138 | the settlement is empty exactly when city, town and village all are, and is one of them |
| Geocoding.CityPreferred | App.tsx:138 | city wins over town, and town wins over village |
| Geocoding.NonEmpty | App.tsx:139 | `filter(Boolean)` keeps only non-empty parts taken from the input |
| Geocoding.FormatAddress | App.tsx:135-136 | no reply or no `address` object gives "" |
| Geocoding.Join | App.tsx:140 | `parts.join(sep)`: no parts give "", one part gives itself, and the result starts with the first part |
| Geocoding.HouseNumberShown | App.tsx:321-322 | a reply that passes `geoData.address.house_number` has an address object, and its formatted address ends with the house number |
| Geocoding.FormatAddressCases | App.tsx:135-141 | for each of the eight combinations of present parts, the result is exactly those parts in the order city, road, house number, with single ", " separators and none at either end |
| Geocoding.FormatAddressEmpty | App.tsx:136-140 | the result is "" if and only if there is no address object, or none of city, town, village, road or house number is set |
| Geocoding.NonEmptyOfThree | App.tsx:139 | filtering three parts keeps each part exactly when it is non-empty, in order |
| Steps.SetStatus | App.tsx:265-267 | an update by id keeps the length, order, ids and captions; matching entries get the status and the others are untouched |
| Steps.SetStatusIdempotent | App.tsx:298-300 | setting the same status twice equals setting it once |
| Steps.SetStatusCommutes | App.tsx:265-288 | updates of different ids commute |
| Steps.ProbeUpdatesSteps | App.tsx:264-300 | one probe's updates, applied to any four-stage list, give loc, dir and calc done; osm is done iff the reply had an address, otherwise in progress |
| AddressSearch.Pow2 | App.tsx:313-315 | every probe distance is at least the initial 1 metre |
| AddressSearch.WithinBound | App.tsx:318 | the distance after k doublings passes `distance <= maxDistance` iff k < 7: exactly seven probes |
| AddressSearch.Doubling | App.tsx:341 | probe distances never decrease along the run |
| AddressSearch.BeyondBound | App.tsx:318 | after seven doublings the distance (128) is past the bound |
| AddressSearch.FirstHouseFrom | App.tsx:318-329 | the first probe from k on whose reply has a house number, with no house number before it; None means none of the remaining probes has one |
| AddressSearch.ProbesMade | App.tsx:318-342 | a run with a position makes between 1 and 7 calls; every call but the last missed a house number, and fewer than 7 means the last one hit |
| AddressSearch.LastAddressed | App.tsx:293-296 | the last of the first n replies that carried an address object, with none after it; None means none did |
| AddressSearch.Probes | App.tsx:276-281 | the first n probes, nearest first, probe i at distance 2^i along the bearing |
| App.TrackTarget | App.tsx:160-165 | with no calibrated heading the smoother's target is unchanged; otherwise it is the true heading, in [0, 360) when heading + declination ≥ -360 |
| App.SearchLoop | App.tsx:318-342 | the `while` loop only appends geocode calls, leaves a run that already found a house as it is, and ends a successful search with an address set; `App.SearchLoopFrom` gives its exact result |
| App.FindBuildingAddress | App.tsx:312-348 | the search starts from `found` false, only appends calls, sets an address when it succeeds, and without a position changes nothing else; `App.FindBuildingAddressOutcome` gives its exact result |
| App.ComputeEndCoordinates | App.tsx:259-310 | with no coordinates it returns null and changes nothing; otherwise it appends one probe at the given distance along the bearing and returns this call's reply |
| App.ProbeAdvances | App.tsx:259-310 | one call at probe j of a run that has not found a house moves it to the state after j + 1 probes |
| App.SearchLoopFrom | App.tsx:318-342 | from any probe j that follows only misses, the loop ends in the state the reference `Outcome` computes from the replies alone |
| App.LoopExhausted | App.tsx:318 | after seven misses the loop exits with the reference outcome |
| App.LoopHits | App.tsx:321-329 | the first reply with a house number ends the loop with `found` and that reply's formatted address |
| App.LoopMisses | App.tsx:330-341 | a reply without a house number doubles the distance, so the run ends where the run from the next probe ends |
| App.FirstHouseSkips | App.tsx:318-341 | when the first j probes miss, the first hit overall is the first hit from j on |
| App.FindBuildingAddressOutcome | App.tsx:312-348 | from the state `takePhoto` starts with, `findBuildingAddress` ends exactly as the reference `Outcome` says |
| App.FindBuildingAddressProperties | App.tsx:224-347 | distances 1, 2, 4, … in order; at most 7 calls; stops right after the first house number; `found` iff any of the 7 replies has one, and then `address` is that reply formatted; `address` is the last addressed reply formatted, or null if no reply had an address; the steps reflect the last reply |
| App.OutcomeProperties | App.tsx:224-347 | the same promises, stated of the reference outcome |
| App.SearchLoopWithoutPosition | App.tsx:260-263 | with no coordinates the loop runs to 64 m without a single geocode call and changes nothing |
| App.TakePhoto | App.tsx:220-360 | a press while busy changes nothing; a failed guard ends not busy, with steps hidden and no call; a throwing capture ends not busy, with steps shown and no call; every non-busy press ends not busy |
| App.TakePhotoSearches | App.tsx:350-355 | a press that passes the guards with a position shows the search's calls, address and steps, and hides the overlay iff a building was found |
| App.TakePhotoWithoutPosition | App.tsx:259-263 | with no position the press finds nothing, makes no call and leaves the initial steps shown |
| AppChanged.SearchLoop | app-changed.tsx:194-210 | the `while` loop only appends geocode calls, leaves a finished run as it is, and ends a successful search with an address set; `AppChanged.SearchLoopFrom` gives its exact result |
| AppChanged.FindBuildingAddress | app-changed.tsx:188-216 | a successful search shows an address, and without a position nothing is called and the previous address stays; `AppChanged.FindBuildingAddressOutcome` gives its exact result |
| AppChanged.ShownTextDiffers | app-changed.tsx:172-174 | on the same replies both screens stop at the same building, but this one shows its raw `display_name` (the text of `DisplayName`) where App.tsx shows `formatAddress` of it |
| AppChanged.ComputeEndCoordinates | app-changed.tsx:160-186 | null and no change without coordinates; otherwise one probe is appended, and a reply with an address object sets `address` to its `display_name` |
| AppChanged.ProbeAdvances | app-changed.tsx:160-186 | one call at probe j moves a run to the state after j + 1 probes |
| AppChanged.SearchLoopFrom | app-changed.tsx:194-211 | the loop from any probe that follows only misses ends in the reference outcome |
| AppChanged.LoopExhausted | app-changed.tsx:194 | after seven misses the loop exits with the reference outcome |
| AppChanged.LoopHits | app-changed.tsx:197-202 | the first house number ends the loop with that reply's `display_name` |
| AppChanged.LoopMisses | app-changed.tsx:203-210 | a miss doubles the distance, so the run ends where the run from the next probe ends |
| AppChanged.FindBuildingAddressOutcome | app-changed.tsx:188-216 | the search ends as the reference outcome, starting from whatever address was already shown |
| AppChanged.OutcomeAddress | app-changed.tsx:172-175 | on success `address` is the first house-numbered reply's `display_name`; with no addressed reply the previous address stays; `found` iff one of the 7 replies has a house number |
| AppChanged.SameProbesAsApp | app-changed.tsx:188-216 | both screens send the same geocode requests and agree on `found` for the same inputs |
| AppChanged.SearchLoopWithoutPosition | app-changed.tsx:161-164 | with no coordinates no geocode call is made |
| AppChanged.TakePhoto | app-changed.tsx:135-224 | a failed guard or a throwing capture leaves the address as it was and makes no call; never more than 7 calls |
| AppChanged.TakePhotoProbes | app-changed.tsx:160-216 | a search makes at most 7 calls, and none without a position |
| AppChanged.TakePhotoSearches | app-changed.tsx:149-219 | a press past the guards with a position shows the last addressed reply's `display_name`, and the winning one on success |
| Calibration.Adjust | useCalibratedMagnetometer.js:86 | `(h + 360) % 360` lies in (-360, 360), in [0, 360) for h ≥ -360, and fixes readings already in [0, 360) |
| Calibration.Initial | useCalibratedMagnetometer.js:11-21 | before mounting: heading null, offset 0, calibrating, empty message, no samples counted, no timeout; one `calibrate` from here gives a state satisfying the invariant |
| Calibration.Mean | useCalibratedMagnetometer.js:35 | the mean of the `reduce` sum, taken once per sample, gives back the total |
| Calibration.SumOfSteady | useCalibratedMagnetometer.js:35 | the left-fold `reduce((a, b) => a + b, 0)` of n equal readings x is n times x |
| Calibration.MeanOfSteady | useCalibratedMagnetometer.js:34-36 | a phone held still through calibration gets its one reading as the offset |
| Calibration.OffsetOf | useCalibratedMagnetometer.js:34-39 | the stored offset lies within the samples' range: in [0, 360) for samples in [0, 360), and in (-360, 360) for samples there |
| Calibration.MeanBetween | useCalibratedMagnetometer.js:35 | the mean of readings between two bounds lies between them: within [lo, hi), (lo, hi) or [lo, hi] when every reading is |
| Calibration.SumAbove | useCalibratedMagnetometer.js:35 | the `reduce` sum is at least n times any lower bound of the readings |
| Calibration.SumBelow | useCalibratedMagnetometer.js:35 | the `reduce` sum is at most n times any upper bound of the readings |
| Calibration.StartCalibration | useCalibratedMagnetometer.js:46-61 | from any state: samples, last and count reset, calibrating with "Калибровка...", a new timeout armed with a fresh id that differs from the pending one; offset and heading kept |
| Calibration.Collect | useCalibratedMagnetometer.js:87-91 | a reading moved at least 2 (plain absolute difference) from the last kept one, or the first reading, is appended and becomes last, with count = number of samples, however many samples there already are; any other reading changes nothing |
| Calibration.FinishCalibration | useCalibratedMagnetometer.js:25-44 | the timeout is dropped; offset = mean of the samples, or 0 if there are none; not calibrating, message ""; samples kept |
| Calibration.Track | useCalibratedMagnetometer.js:132-135 | after calibration the heading plus the offset equals the normalised reading; nothing else changes |
| Calibration.Step | useCalibratedMagnetometer.js:25-138 | readings never change mode, offset, timeout or message; they leave the samples alone when no calibration subscription exists, and leave the heading alone while calibrating; finish ends calibration; a timeout that is not the pending one changes nothing |
| Calibration.Run | useCalibratedMagnetometer.js:25-138 | the events on one timeline, in order: timeout ids only grow, and without readings the heading stays as it was |
| Calibration.Mounted | useCalibratedMagnetometer.js:102-112 | after mounting, the hook is calibrating with no samples and satisfies the invariant |
| Calibration.StepPreservesValid | useCalibratedMagnetometer.js:25-138 | every event keeps the invariant: count = number of samples; last = last sample; consecutive samples at least 2 apart; samples and offset in (-360, 360) and the heading in (-720, 720); a timeout pending exactly while calibrating; the message matching the mode |
| Calibration.RunPreservesValid | useCalibratedMagnetometer.js:25-138 | any event sequence from a valid state keeps the invariant |
| Calibration.StepPreservesCanonical | useCalibratedMagnetometer.js:86 | with readings from -360 up, samples and offset stay in [0, 360) and the heading in (-360, 360) |
| Calibration.RunPreservesCanonical | useCalibratedMagnetometer.js:132-134 | the same over any sequence of such readings |
| Calibration.FinishIdempotent | useCalibratedMagnetometer.js:25-44 | finishing twice equals finishing once |
| Calibration.PendingTimeoutFinishes | useCalibratedMagnetometer.js:96-99 | the pending timeout acts exactly like `finishCalibration` |
| Calibration.StaleTimeoutIgnored | useCalibratedMagnetometer.js:52-55 | right after a new `calibrate`, a timeout armed earlier does nothing |
| Calibration.StepKeepsStale | useCalibratedMagnetometer.js:52-55 | no event makes an earlier, cleared timeout the pending one again: timeout ids are never reused |
| Calibration.StaleTimeoutNeverFires | useCalibratedMagnetometer.js:46-99 | a timeout armed before a `calibrate` never fires later, whatever readings, finishes, timeouts or calibrates come in between |
| Calibration.TrackingReportsRelativeHeading | useCalibratedMagnetometer.js:115-138 | once calibrated, a reading h sets the heading to `(h + 360) % 360 - offset`, unnormalised, and adds no sample |
| Calibration.ThinSnoc | useCalibratedMagnetometer.js:87-91 | readings are decided one at a time in arrival order: a new reading is appended after all earlier kept ones exactly when it is at least 2 from the last one kept so far, and dropped otherwise |
| Calibration.Thin | useCalibratedMagnetometer.js:87-91 | the reference for the kept readings: no longer than the input, drawn from it, consecutive ones at least 2 apart, the first at least 2 from the previous last one, and the first reading always kept when nothing was kept before |
| Calibration.CollectStream | useCalibratedMagnetometer.js:84-92 | during calibration a stream of readings appends exactly the thinned readings and changes nothing but samples, last and count |
| Calibration.RunAppend | useCalibratedMagnetometer.js:25-138 | running two event sequences one after the other equals running their concatenation |
| Calibration.CalibrationSession | useCalibratedMagnetometer.js:25-100 | `calibrate`, readings, then a tap or the timer: the samples are the thinned readings, the offset is their mean (0 if none), calibration is over, and the heading is untouched |
| Calibration.HeadingNullUntilCalibrated | useCalibratedMagnetometer.js:11 | the calibrated heading is null throughout the first calibration session |
| Calibration.EmptySessionZeroOffset | useCalibratedMagnetometer.js:38-39 | a session with no readings leaves offset 0 |
| CalibrationOld.Translate | useCalibratedMagnetometerOLD.js:58-68 | each non-zero raw reading becomes a compass reading of its `atan2` angle; `atan2` angles are valid compass readings |
| CalibrationOld.Step | useCalibratedMagnetometerOLD.js:58-99 | the zero vector changes nothing; while calibrating a reading can only append its normalised angle; afterwards it sets heading = normalised angle - offset |
| CalibrationOld.TranslateAll | useCalibratedMagnetometerOLD.js:59 | dropping zero vectors never lengthens the stream, and `atan2` angles translate to valid compass readings |
| CalibrationOld.RunMatchesCurrent | useCalibratedMagnetometerOLD.js:21-103 | any run of the old hook ends where the current hook ends on the translated events |
| CalibrationOld.RunPreservesValid | useCalibratedMagnetometerOLD.js:21-103 | the old hook keeps the same invariant |
| CalibrationOld.RunPreservesCanonical | useCalibratedMagnetometerOLD.js:60-61 | with angles from `atan2` the samples and offset stay in [0, 360) and the heading in (-360, 360) |

## Left out

- The spherical trigonometry of `getDestinationPoint` (`asin`, `atan2`, `sin`, `cos`) is floating-point transcendental arithmetic. It is the parameter `Spherical`. Only the unit conversion and the longitude wrap are modelled.
- The `atan2` derivation of the old hook's angle is floating-point trigonometry. The angle arrives with each raw reading as an arbitrary real. Only its range [-180, 180] is used (`Math.atan2(-0, x)` with x < 0 gives -180), and only where stated.
- `reverseGeocode` and the HTTP fetch are network I/O. The geocoder is a sequence of replies. Only `address` (city, town, village, road, house_number) and `display_name` are modelled.
- useLocationAndDeclination.js is not part of this model: it holds the permission request, geolocation and the declination fetch. The position is an `Option<Coordinates>` and the declination an input real. The `?? 0` fallback for a null declination is not modelled.
- The following are platform plumbing with no logic the search depends on. A capture that throws is the boolean `captureSucceeds`:
  - camera capture
  - RNFS file moves
  - permission checks
  - AppState handling
  - device selection
  - rendering and styles
- Sensor subscriptions, `setTimeout` and `setInterval` are events on one sequential timeline. The 50 ms smoother interval is a single tick function. The ten-second delay itself is not modelled, only which timeout is pending. The unmount cleanup is not modelled.
- The single-listener behaviour of the native `CompassHeading` module is not modelled. The tracking effect's cleanup calls `CompassHeading.stop()`, and that call could also stop a calibration listener started by a later `calibrate`.
- React state batching, asynchronous interleaving of `await`s and stale closures are a framework and concurrency artefact: for example, two presses of app-changed.tsx's shutter overlapping, since it has no busy flag. Each press runs to completion before the next event.
- Floating point in general: angles are exact reals. So `SmoothStepContracts` holds exactly, not up to rounding.
- The `Семплов: n / NUM_CALIBRATION_SAMPLES` overlay text is rendering. The constant 50 is never a cap on samples, and `Collect` accepts readings regardless of the count.
- The console logging and the `type` field of a reply are not modelled: both only feed log messages.
- The test `__tests__/App.test.tsx` is a render smoke test with no assertions. The vision-camera mock has no logic.
- Facts of the code the model keeps as they are:
  - The hook has no tilt gating and no smoothing filter.
  - Collection does not stop at 50 samples.
  - The search makes seven geocode calls because the bound 64 is inclusive.
  - The wrapped longitude lies in [-180, 180).
  - The true heading can be negative when heading + declination < -360 (`Angles.TrueHeadingCanBeNegative`).
