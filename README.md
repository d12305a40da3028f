# GpsTracker: position filtering and upload decisions

A Dafny model of the core of GpsTracker, a daemon that reads decoded NMEA
sentences from a GPS receiver on a serial port and every interval may upload
the last significant position to an HTTP collector.

The model has three modules:

- `Rounding` (`rounding.dfy`): `Math.Round(x, 5)` on exact reals. The value
  is scaled by 10^5 and rounded to the nearest integer, ties to even, which
  is .NET's default midpoint rule. The rounded value lies on the five-digit
  grid and within 0.000005 of the input. Rounding is idempotent and
  monotone.
- `Positions` (`positions.dfy`): the position record `Pos(lat, lon, alt)`
  and the decoded sentence `NmeaMessage`, which is `Gga`, `Rmc` or
  `Unhandled`. The `valid` flag is false when the receiver reported NaN for
  the latitude or the longitude. The factory functions `FromGga` and
  `FromRmc` round both coordinates. `FromGga` copies the altitude. `FromRmc`
  leaves it at the default 0.
- `Tracking` (`tracking.dfy`): the two static fields of `Program`, which
  are the last accepted fix and the last uploaded position. They are
  modelled twice:
  - as pure step functions `Ingest` and `Tick` over a `TrackerState`
    snapshot, with `Run` folding a sequence of events over them;
  - as the class `Tracker`, whose handlers `OnNmeaMessageReceived`,
    `OnTimedEvent` and `DoUpload` update the fields step by step with the
    source's early returns. Each handler is proved to agree with the step
    function.

  The distance between positions is a parameter `dist` of type
  `(Pos, Pos) -> real` and is not interpreted. The HTTP upload is reduced
  to its outcome, the parameter `uploadSucceeds`. When the upload throws,
  `uploadSucceeds` is false.

The code stores no explicit "unknown" altitude. An RMC-derived position
has altitude 0, and the upload gate tests `altitude != 0` (the predicate
`Positions.HasAltitude`).

## Model

| member | source | states |
|---|---|---|
| `Rounding.RoundHalfEven` | GpsTracker/GpsPositionFactory.cs:35-36 | the result is an integer within 1/2 of the input, and on an exact tie it is the even neighbour (`Math.Round`'s default midpoint rule) |
| `Rounding.RoundHalfEvenUnique` | GpsTracker/GpsPositionFactory.cs:35-36 | any integer within 1/2 of the input that is even on a tie is the rounded value, so the two properties fully determine the rounding |
| `Rounding.RoundHalfEvenMonotone` | GpsTracker/GpsPositionFactory.cs:35-36 | rounding to an integer preserves `<=` |
| `Rounding.RoundHalfEvenOfInteger` | GpsTracker/GpsPositionFactory.cs:35-36 | an integer rounds to itself |
| `Rounding.Round5` | GpsTracker/GpsPositionFactory.cs:46-47 | `Math.Round(x, 5)` is a whole number of 0.00001 units and lies within 0.000005 of `x` |
| `Rounding.Round5OnGrid` | GpsTracker/GpsPositionFactory.cs:46-47 | a value with at most five fractional digits is returned unchanged |
| `Rounding.Round5Idempotent` | GpsTracker/GpsPositionFactory.cs:35-36 | rounding an already rounded coordinate changes nothing |
| `Rounding.Round5Monotone` | GpsTracker/GpsPositionFactory.cs:35-36 | rounding keeps the order of coordinates |
| `Positions.FromGga` | GpsTracker/GpsPositionFactory.cs:31-40 | the altitude is copied unchanged; latitude and longitude lie on the five-digit grid, each within 0.000005 of the sentence's value |
| `Positions.FromRmc` | GpsTracker/GpsPositionFactory.cs:42-51 | the altitude is 0, so the position never counts as having an altitude; latitude and longitude lie on the five-digit grid, each within 0.000005 of the sentence's value |
| `Positions.GgaRmcSameCoordinates` | GpsTracker/GpsPositionFactory.cs:31-51 | GGA and RMC sentences with the same coordinates give positions with the same latitude and longitude |
| `Positions.FromGgaIdempotent` | GpsTracker/GpsPositionFactory.cs:31-40 | passing a GGA-built position back through `FromGga` returns it unchanged |
| `Positions.FromRmcIdempotent` | GpsTracker/GpsPositionFactory.cs:42-51 | passing an RMC-built position back through `FromRmc` returns it unchanged |
| `Tracking.Normalize` | GpsTracker/Program.cs:128-153 | a sentence yields no position exactly when it is neither GGA nor RMC or has a NaN coordinate; otherwise it yields exactly `FromGga` of a GGA sentence (altitude carried) or `FromRmc` of an RMC sentence (no altitude), rounded to the grid |
| `Tracking.ShouldUpload` | GpsTracker/Program.cs:90-96 | false when nothing has been accepted; true for any accepted fix, altitude 0 included, when nothing was uploaded yet; afterwards true exactly when the fix has an altitude (`Positions.HasAltitude`, the `Altitude != 0` test of GpsTracker/Program.cs:93) and is at least 33 m from the last uploaded position |
| `Tracking.Ingest` | GpsTracker/Program.cs:126-163 | receiving a sentence never changes the last uploaded position; an unusable sentence or a fix within 33 m of the last accepted one (`Tracking.IsNoise`, the test of GpsTracker/Program.cs:155-158) changes nothing; any other fix becomes the last accepted one, and the first fix always does |
| `Tracking.Tick` | GpsTracker/Program.cs:98-124 | a tick never changes the last accepted fix; when the gate holds and the upload succeeds, the last uploaded position becomes the last accepted fix; otherwise nothing changes |
| `Tracking.UploadedWasAccepted` | GpsTracker/Program.cs:98-124 | over any run of events, the last uploaded position is empty or equal to a value the last accepted fix held at some earlier point |
| `Tracking.AcceptedWasReceived` | GpsTracker/Program.cs:126-163 | over any run of events, the last accepted fix is empty or the position of a sentence received during the run |
| `Tracking.UploadedIsRounded` | GpsTracker/Program.cs:106-118 | every uploaded position has latitude and longitude on the five-digit grid |
| `Tracking.RmcFixWithheld` | GpsTracker/Program.cs:90-96 | once something has been uploaded, a tick whose last accepted fix is `FromRmc` of some RMC sentence uploads nothing, however far it has moved |
| `Tracking.FailedUploadRetried` | GpsTracker/Program.cs:106-124 | a failed upload leaves the state as it was, so the gate still holds at the next tick |
| `Tracking.RepeatedMessageIgnored` | GpsTracker/Program.cs:155-162 | assuming `dist(p, p) == 0`, receiving the same sentence twice in a row changes the state at most once |
| `Tracking.NoReuploadWithoutNewFix` | GpsTracker/Program.cs:90-104 | assuming `dist(p, p) == 0`, after a successful upload the next tick uploads nothing unless a new fix has been accepted |
| `Tracking.Tracker.constructor` | GpsTracker/Program.cs:38-39 | both fields start out empty |
| `Tracking.Tracker.OnNmeaMessageReceived` | GpsTracker/Program.cs:126-163 | the handler with its early returns leaves the fields exactly as `Ingest` says, and keeps the invariant that both fields hold values the last accepted fix has held |
| `Tracking.Tracker.DoUpload` | GpsTracker/Program.cs:106-124 | the uploaded position is remembered only when the upload succeeds; the last accepted fix is untouched |
| `Tracking.Tracker.OnTimedEvent` | GpsTracker/Program.cs:98-104 | the tick handler leaves the fields exactly as `Tick` says and keeps the invariant |

## Left out

- `Main` (GpsTracker/Program.cs:41-88) is not modelled. It covers argument parsing, the 60 s default interval, listing and opening the serial port, wiring the timer and sleeping forever.
- The haversine distance in GpsTracker/Utils.cs is floating-point trigonometry. It is the uninterpreted parameter `dist`. Nothing is proved about it. `dist(p, p) == 0` appears only as an explicit precondition. The two-position overload (GpsTracker/Utils.cs:31-34) passes each latitude into a parameter named for the longitude and each longitude into one named for the latitude. This only matters for the trigonometry, which is not modelled.
- GpsTracker/UploadService.cs (HTTP POST, JSON serialisation, console output) is reduced to the boolean `uploadSucceeds`. The JSON payload shape and the device name are left out.
- Concurrency between the serial callback and the timer thread is not modelled. Each event is one atomic step. `OnTimedEvent` reads `_lastPosition` once, where the source reads it twice without a lock.
- Console and error logging are not modelled.
- A NaN distance is not modelled. GpsTracker/Utils.cs:47 takes a square root of `1.0 - d3` with no clamp, so the distance can be NaN. For a NaN distance both `< 33` and `>= 33` are false. A fix whose distance to the last accepted fix is NaN is accepted (GpsTracker/Program.cs:155). Once something has been uploaded, a fix whose distance to the last uploaded position is NaN is withheld (GpsTracker/Program.cs:94). `dist` is real-valued, so in the model `dist(a, b) < 33` and `dist(a, b) >= 33` always have opposite truth values.
- IEEE NaN is not modelled. An invalid latitude or longitude is the flag `valid == false` on the sentence. A NaN altitude in a GGA sentence is not modelled.
- `Rounding.Round5`: exact real arithmetic. .NET scales the binary double by 10^5 before rounding, so a tie that is exact in decimal may land on either side in floating point.
- The source of the `GpsPosition` class is not among the repository files this model is built from. The value `Pos` stands in for it and assumes that `Altitude` is a plain `double` defaulting to 0. Were it a nullable `double?`, `null != 0` would hold at GpsTracker/Program.cs:93, and every RMC fix would count as having an altitude.
