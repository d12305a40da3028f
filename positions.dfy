/**
 Positions and the factory that builds them from decoded NMEA sentences
 (GpsPositionFactory). A position holds latitude and longitude in decimal
 degrees, rounded to five fractional digits, and an altitude in metres
 whose default, 0, also stands for "no altitude known".
 */
module Positions {
  import opened Rounding

  /** A resolved fix (GpsPosition). */
  datatype Pos = Pos(lat: real, lon: real, alt: real)

  /** A decoded NMEA sentence as the serial device delivers it. `valid` is
      false when the receiver reported NaN for the latitude or the longitude
      (no satellite fix yet). GGA sentences carry an altitude, RMC sentences
      do not; every other sentence type is `Unhandled`. */
  datatype NmeaMessage =
    | Gga(lat: real, lon: real, alt: real, valid: bool)
    | Rmc(lat: real, lon: real, valid: bool)
    | Unhandled

  /** The altitude of `p` is something other than the default 0. */
  predicate HasAltitude(p: Pos) {
    p.alt != 0.0
  }

  /** FromGga: latitude and longitude rounded to five digits, altitude copied. */
  function FromGga(gga: NmeaMessage): (p: Pos)
    requires gga.Gga?
    ensures p.alt == gga.alt
    ensures OnGrid(p.lat) && -HalfUnit <= p.lat - gga.lat <= HalfUnit
    ensures OnGrid(p.lon) && -HalfUnit <= p.lon - gga.lon <= HalfUnit
  {
    Pos(Round5(gga.lat), Round5(gga.lon), gga.alt)
  }

  /** FromRmc: latitude and longitude rounded to five digits; the altitude is
      left at its default, so the position never counts as having one. */
  function FromRmc(rmc: NmeaMessage): (p: Pos)
    requires rmc.Rmc?
    ensures p.alt == 0.0 && !HasAltitude(p)
    ensures OnGrid(p.lat) && -HalfUnit <= p.lat - rmc.lat <= HalfUnit
    ensures OnGrid(p.lon) && -HalfUnit <= p.lon - rmc.lon <= HalfUnit
  {
    Pos(Round5(rmc.lat), Round5(rmc.lon), 0.0)
  }

  /** A GGA and an RMC sentence reporting the same coordinates yield
      positions with the same latitude and longitude. */
  lemma GgaRmcSameCoordinates(lat: real, lon: real, alt: real, ggaValid: bool, rmcValid: bool)
    ensures FromGga(Gga(lat, lon, alt, ggaValid)).lat == FromRmc(Rmc(lat, lon, rmcValid)).lat
    ensures FromGga(Gga(lat, lon, alt, ggaValid)).lon == FromRmc(Rmc(lat, lon, rmcValid)).lon
  {
  }

  /** Feeding a GGA-built position back through the factory returns it unchanged. */
  lemma FromGgaIdempotent(gga: NmeaMessage)
    requires gga.Gga?
    ensures var p := FromGga(gga); FromGga(Gga(p.lat, p.lon, p.alt, gga.valid)) == p
  {
  }

  /** Feeding an RMC-built position back through the factory returns it unchanged. */
  lemma FromRmcIdempotent(rmc: NmeaMessage)
    requires rmc.Rmc?
    ensures var p := FromRmc(rmc); FromRmc(Rmc(p.lat, p.lon, rmc.valid)) == p
  {
  }
}
