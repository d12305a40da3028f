/**
 The tracking state machine of the daemon (Program): two remembered
 positions, the last accepted fix and the last uploaded one, driven by two
 events. A decoded NMEA sentence arriving from the serial device may replace
 the last accepted fix (the noise filter); a timer tick may upload the last
 accepted fix and, when the upload does not fail, remember it as uploaded
 (the upload gate).

 The distance between two positions is a parameter `dist`; nothing is
 assumed about it beyond being a function of the two positions. The upload
 itself is reduced to its outcome, `uploadSucceeds`.
 */
module Tracking {
  import opened Rounding
  import opened Positions

  datatype Option<T> = None | Some(value: T)

  /** Distance in metres between two positions (the haversine formula of the
      program, left uninterpreted). */
  type Distance = (Pos, Pos) -> real

  /** Both the noise filter and the upload gate use this many metres. */
  const DifferenceThresholdMeters: int := 33

  /** The position a decoded sentence contributes, if any: GGA and RMC
      sentences with a fix go through the factory; a sentence without a fix
      (NaN latitude or longitude) and every other sentence type give none. */
  function Normalize(message: NmeaMessage): (r: Option<Pos>)
    ensures r.None? <==> message.Unhandled? || !message.valid
    ensures r.Some? ==> OnGrid(r.value.lat) && OnGrid(r.value.lon)
    ensures r.Some? && message.Gga? ==> r.value == FromGga(message) && r.value.alt == message.alt
    ensures r.Some? && message.Rmc? ==> r.value == FromRmc(message) && !HasAltitude(r.value)
  {
    match message
    case Gga(_, _, _, valid) => if valid then Some(FromGga(message)) else None
    case Rmc(_, _, valid) => if valid then Some(FromRmc(message)) else None
    case Unhandled => None
  }

  /** `candidate` is closer than the threshold to the last accepted fix. */
  predicate IsNoise(lastPosition: Option<Pos>, candidate: Pos, dist: Distance) {
    lastPosition.Some? && dist(candidate, lastPosition.value) < DifferenceThresholdMeters as real
  }

  /** The upload gate: nothing to send before a fix is accepted; the first
      accepted fix is always sent; after that, only a fix with an altitude
      that has moved at least the threshold from the last uploaded one. */
  function ShouldUpload(candidate: Option<Pos>, lastPositionUploaded: Option<Pos>, dist: Distance): (b: bool)
    ensures candidate.None? ==> !b
    ensures candidate.Some? && lastPositionUploaded.None? ==> b
    ensures candidate.Some? && lastPositionUploaded.Some? ==>
      (b <==>
        HasAltitude(candidate.value) &&
        dist(candidate.value, lastPositionUploaded.value) >= DifferenceThresholdMeters as real)
  {
    candidate.Some? &&
      (lastPositionUploaded.None? ||
        (candidate.value.alt != 0.0 &&
          dist(candidate.value, lastPositionUploaded.value) >= DifferenceThresholdMeters as real))
  }

  /** A snapshot of the two fields. */
  datatype TrackerState = TrackerState(lastPosition: Option<Pos>, lastPositionUploaded: Option<Pos>)

  /** Both fields start out empty. */
  const Init: TrackerState := TrackerState(None, None)

  /** What receiving one sentence does to the state. */
  function Ingest(s: TrackerState, message: NmeaMessage, dist: Distance): (t: TrackerState)
    ensures t.lastPositionUploaded == s.lastPositionUploaded
    ensures Normalize(message).None? ==> t == s
    ensures Normalize(message).Some? && IsNoise(s.lastPosition, Normalize(message).value, dist) ==> t == s
    ensures Normalize(message).Some? && !IsNoise(s.lastPosition, Normalize(message).value, dist) ==>
      t.lastPosition == Normalize(message)
    ensures s.lastPosition.None? && Normalize(message).Some? ==> t.lastPosition == Normalize(message)
  {
    match Normalize(message)
    case None => s
    case Some(p) => if IsNoise(s.lastPosition, p, dist) then s else s.(lastPosition := Some(p))
  }

  /** What one timer tick does to the state, given the outcome of the upload
      it may attempt. */
  function Tick(s: TrackerState, uploadSucceeds: bool, dist: Distance): (t: TrackerState)
    ensures t.lastPosition == s.lastPosition
    ensures ShouldUpload(s.lastPosition, s.lastPositionUploaded, dist) && uploadSucceeds ==>
      t.lastPositionUploaded == s.lastPosition
    ensures !ShouldUpload(s.lastPosition, s.lastPositionUploaded, dist) || !uploadSucceeds ==> t == s
  {
    if ShouldUpload(s.lastPosition, s.lastPositionUploaded, dist) && uploadSucceeds
    then s.(lastPositionUploaded := s.lastPosition)
    else s
  }

  /** One event seen by the daemon. */
  datatype Event =
    | MessageReceived(message: NmeaMessage)
    | TimerElapsed(uploadSucceeds: bool)

  function Step(s: TrackerState, e: Event, dist: Distance): (t: TrackerState) {
    match e
    case MessageReceived(message) => Ingest(s, message, dist)
    case TimerElapsed(uploadSucceeds) => Tick(s, uploadSucceeds, dist)
  }

  /** The state after a sequence of events, starting from `Init`. */
  function Run(events: seq<Event>, dist: Distance): (s: TrackerState)
    decreases |events|
  {
    if events == [] then Init
    else Step(Run(events[..|events| - 1], dist), events[|events| - 1], dist)
  }

  /** Whatever was last uploaded is a value the last accepted fix held at
      some earlier point of the run. */
  lemma {:induction false} UploadedWasAccepted(events: seq<Event>, dist: Distance)
    ensures Run(events, dist).lastPositionUploaded.None? ||
      exists k :: 0 <= k <= |events| &&
        Run(events[..k], dist).lastPosition == Run(events, dist).lastPositionUploaded
  {
    if events != [] {
      var n := |events|;
      var before := events[..n - 1];
      var s := Run(before, dist);
      var t := Run(events, dist);
      UploadedWasAccepted(before, dist);
      if t.lastPositionUploaded.Some? {
        if t.lastPositionUploaded == s.lastPositionUploaded {
          var k :| 0 <= k <= |before| && Run(before[..k], dist).lastPosition == s.lastPositionUploaded;
          assert before[..k] == events[..k];
        } else {
          assert events[n - 1].TimerElapsed?;
          assert t.lastPositionUploaded == s.lastPosition;
          assert Run(events[..n - 1], dist).lastPosition == t.lastPositionUploaded;
        }
      }
    }
  }

  /** Whatever was last accepted is the position of some sentence received
      during the run. */
  lemma {:induction false} AcceptedWasReceived(events: seq<Event>, dist: Distance)
    ensures Run(events, dist).lastPosition.None? ||
      exists i :: 0 <= i < |events| && events[i].MessageReceived? &&
        Normalize(events[i].message) == Run(events, dist).lastPosition
  {
    if events != [] {
      var n := |events|;
      var before := events[..n - 1];
      var s := Run(before, dist);
      var t := Run(events, dist);
      AcceptedWasReceived(before, dist);
      if t.lastPosition.Some? {
        if t.lastPosition == s.lastPosition {
          var i :| 0 <= i < |before| && before[i].MessageReceived? &&
            Normalize(before[i].message) == s.lastPosition;
          assert events[i] == before[i];
        } else {
          assert events[n - 1].MessageReceived?;
          assert Normalize(events[n - 1].message) == t.lastPosition;
        }
      }
    }
  }

  /** Every uploaded position has its coordinates on the five-digit grid. */
  lemma UploadedIsRounded(events: seq<Event>, dist: Distance)
    ensures Run(events, dist).lastPositionUploaded.Some? ==>
      OnGrid(Run(events, dist).lastPositionUploaded.value.lat) &&
      OnGrid(Run(events, dist).lastPositionUploaded.value.lon)
  {
    UploadedWasAccepted(events, dist);
    if Run(events, dist).lastPositionUploaded.Some? {
      var k :| 0 <= k <= |events| &&
        Run(events[..k], dist).lastPosition == Run(events, dist).lastPositionUploaded;
      AcceptedWasReceived(events[..k], dist);
    }
  }

  /** Once something has been uploaded, a fix from an RMC sentence (which
      has no altitude) is never uploaded, however far it has moved. */
  lemma RmcFixWithheld(s: TrackerState, rmc: NmeaMessage, uploadSucceeds: bool, dist: Distance)
    requires rmc.Rmc?
    requires s.lastPositionUploaded.Some? && s.lastPosition == Some(FromRmc(rmc))
    ensures Tick(s, uploadSucceeds, dist) == s
  {
  }

  /** A failed upload changes nothing, so the next tick tries again with the
      same gate. */
  lemma FailedUploadRetried(s: TrackerState, dist: Distance)
    requires ShouldUpload(s.lastPosition, s.lastPositionUploaded, dist)
    ensures Tick(s, false, dist) == s
    ensures ShouldUpload(Tick(s, false, dist).lastPosition, Tick(s, false, dist).lastPositionUploaded, dist)
  {
  }

  /** Assuming a position is at distance 0 from itself: receiving the same
      sentence twice in a row changes the state at most once. */
  lemma RepeatedMessageIgnored(s: TrackerState, message: NmeaMessage, dist: Distance)
    requires forall p :: dist(p, p) == 0.0
    ensures Ingest(Ingest(s, message, dist), message, dist) == Ingest(s, message, dist)
  {
  }

  /** Assuming a position is at distance 0 from itself: after an upload
      succeeds, further ticks with no new fix upload nothing. */
  lemma NoReuploadWithoutNewFix(s: TrackerState, uploadSucceeds: bool, dist: Distance)
    requires forall p :: dist(p, p) == 0.0
    requires ShouldUpload(s.lastPosition, s.lastPositionUploaded, dist)
    ensures var t := Tick(s, true, dist);
      !ShouldUpload(t.lastPosition, t.lastPositionUploaded, dist) && Tick(t, uploadSucceeds, dist) == t
  {
  }

  /** The program's two static fields, with the two event handlers. */
  class Tracker {
    var lastPosition: Option<Pos>
    var lastPositionUploaded: Option<Pos>
    const dist: Distance

    /** Every value `lastPosition` has been given, in order. */
    ghost var history: seq<Pos>

    /** The last accepted fix and the last uploaded position are both values
        `lastPosition` has held. */
    ghost predicate Valid()
      reads this
    {
      (lastPosition.Some? ==> lastPosition.value in history) &&
      (lastPositionUploaded.Some? ==> lastPositionUploaded.value in history)
    }

    function State(): (s: TrackerState)
      reads this
    {
      TrackerState(lastPosition, lastPositionUploaded)
    }

    constructor (dist: Distance)
      ensures Valid() && State() == Init && history == [] && this.dist == dist
    {
      this.dist := dist;
      lastPosition := None;
      lastPositionUploaded := None;
      history := [];
    }

    /** OnNmeaMessageReceived: drop sentences without a fix, sentences of
        other types and fixes within the threshold of the last accepted one;
        otherwise accept the fix. */
    method OnNmeaMessageReceived(message: NmeaMessage)
      requires Valid()
      modifies this
      ensures Valid()
      ensures State() == Ingest(old(State()), message, dist)
      ensures history == old(history) ||
        (lastPosition.Some? && history == old(history) + [lastPosition.value])
    {
      var gpsPosition: Option<Pos> := None;
      if message.Gga? {
        if !message.valid {
          return;
        }
        gpsPosition := Some(FromGga(message));
      } else if message.Rmc? {
        if !message.valid {
          return;
        }
        gpsPosition := Some(FromRmc(message));
      }

      if gpsPosition.None? {
        return;
      }

      if lastPosition.Some? && dist(gpsPosition.value, lastPosition.value) < DifferenceThresholdMeters as real {
        return;
      }

      lastPosition := gpsPosition;
      history := history + [gpsPosition.value];
    }

    /** DoUpload: remember `gpsPosition` as uploaded unless the upload fails. */
    method DoUpload(gpsPosition: Pos, uploadSucceeds: bool)
      requires Valid() && gpsPosition in history
      modifies this
      ensures Valid() && history == old(history)
      ensures lastPosition == old(lastPosition)
      ensures lastPositionUploaded == if uploadSucceeds then Some(gpsPosition) else old(lastPositionUploaded)
    {
      if !uploadSucceeds {
        return;
      }
      lastPositionUploaded := Some(gpsPosition);
    }

    /** OnTimedEvent: upload the last accepted fix when the gate allows it. */
    method OnTimedEvent(uploadSucceeds: bool)
      requires Valid()
      modifies this
      ensures Valid() && history == old(history)
      ensures State() == Tick(old(State()), uploadSucceeds, dist)
    {
      var candidate := lastPosition;
      if ShouldUpload(candidate, lastPositionUploaded, dist) {
        DoUpload(candidate.value, uploadSucceeds);
      }
    }
  }
}
