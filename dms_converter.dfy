/**
 * Conversion between decimal degrees and degree/minute/second points.
 * Coordinates are real numbers; PHP's float rounding is not modelled.
 */
module DmsConverter {
  import opened DmsPoints

  function Abs(x: real): real {
    if x < 0.0 then -x else x
  }

  /** PHP `round()` to an integer: halves go away from zero. */
  function PhpRound(x: real): (r: int)
    ensures x >= 0.0 ==> r >= 0 && x - 0.5 < r as real <= x + 0.5
    ensures x < 0.0 ==> r <= 0 && x - 0.5 <= r as real < x + 0.5
  {
    if x >= 0.0 then (x + 0.5).Floor else -((-x + 0.5).Floor)
  }

  predicate Integral(x: real) {
    x == x.Floor as real
  }

  /** The magnitude a component denotes: degrees + minutes/60 + seconds/3600. */
  function Magnitude(c: DmsComponent): real {
    c.degrees + c.minutes / 60.0 + c.seconds / 3600.0
  }

  /**
   * One axis of `decimalToDms`: floor of the absolute value, floor of the
   * remainder in minutes, rounded remainder in seconds.
   */
  function ToComponent(v: real, positive: string, negative: string): (c: DmsComponent)
    ensures c.orientation == (if v < 0.0 then negative else positive)
    ensures Integral(c.degrees) && c.degrees <= Abs(v) < c.degrees + 1.0
    ensures Integral(c.minutes) && 0.0 <= c.minutes <= 59.0
    ensures Integral(c.seconds) && 0.0 <= c.seconds <= 60.0
    ensures Abs(Magnitude(c) - Abs(v)) <= 1.0 / 7200.0
    ensures c.minutes == ((Abs(v) - c.degrees) * 60.0).Floor as real
    ensures c.seconds == PhpRound(((Abs(v) - c.degrees) * 60.0 - c.minutes) * 60.0) as real
  {
    var a := Abs(v);
    var degrees := a.Floor;
    var minutesDecimal := (a - degrees as real) * 60.0;
    var minutes := minutesDecimal.Floor;
    var secondsDecimal := (minutesDecimal - minutes as real) * 60.0;
    var seconds := PhpRound(secondsDecimal);
    DmsComponent(if v < 0.0 then negative else positive, degrees as real, minutes as real, seconds as real)
  }

  /** One axis of `dmsToDecimal`: the magnitude, negated only for the given orientation. */
  function ToDecimal(c: DmsComponent, negative: string): (v: real)
    ensures Abs(v) == Abs(Magnitude(c))
    ensures c.orientation != negative ==> v == Magnitude(c)
    ensures c.orientation == negative ==> v == -Magnitude(c)
  {
    var magnitude := c.degrees + c.minutes / 60.0 + c.seconds / 3600.0;
    if c.orientation == negative then -1.0 * magnitude else magnitude
  }

  /** `decimalToDms($lon, $lat)`: a new point, longitude component first. */
  method DecimalToDms(lon: real, lat: real) returns (p: DmsPoint)
    ensures fresh(p)
    ensures p.GetLon() == ToComponent(lon, "E", "W")
    ensures p.GetLat() == ToComponent(lat, "N", "S")
  {
    p := new DmsPoint(ToComponent(lon, "E", "W"), ToComponent(lat, "N", "S"));
  }

  /** `dmsToDecimal($point)`: the pair [lon, lat]. */
  function DmsToDecimal(p: DmsPoint): (r: (real, real))
    reads p
    ensures r.0 == ToDecimal(p.GetLon(), "W") && r.1 == ToDecimal(p.GetLat(), "S")
  {
    (ToDecimal(p.GetLon(), "W"), ToDecimal(p.GetLat(), "S"))
  }

  /** Orientation letters: 'W'/'S' exactly for negative values, 'E'/'N' otherwise (zero included). */
  lemma OrientationSign(lon: real, lat: real)
    ensures ToComponent(lon, "E", "W").orientation == "W" <==> lon < 0.0
    ensures ToComponent(lat, "N", "S").orientation == "S" <==> lat < 0.0
    ensures ToComponent(0.0, "N", "S").orientation == "N"
  {
  }

  /** Converting to DMS and back moves each axis by at most half a second of arc. */
  lemma RoundTrip(v: real, positive: string, negative: string)
    requires positive != negative
    ensures Abs(ToDecimal(ToComponent(v, positive, negative), negative) - v) <= 1.0 / 7200.0
  {
    var c := ToComponent(v, positive, negative);
    assert Magnitude(c) >= 0.0;
    if v < 0.0 {
      assert ToDecimal(c, negative) == -Magnitude(c);
    } else {
      assert ToDecimal(c, negative) == Magnitude(c);
    }
  }

  /** The same bound for a whole point built by `DecimalToDms`. */
  method RoundTripPoint(lon: real, lat: real) returns (back: (real, real))
    ensures Abs(back.0 - lon) <= 1.0 / 7200.0 && Abs(back.1 - lat) <= 1.0 / 7200.0
  {
    var p := DecimalToDms(lon, lat);
    back := DmsToDecimal(p);
    RoundTrip(lon, "E", "W");
    RoundTrip(lat, "N", "S");
  }

  /** Latitude 17.76972 is 17 degrees, 46 minutes, 11 seconds north. */
  lemma SeventeenDegreesNorth()
    ensures ToComponent(17.76972, "N", "S") == DmsComponent("N", 17.0, 46.0, 11.0)
  {
    assert (17.76972).Floor == 17;
    assert ((17.76972 - 17.0) * 60.0).Floor == 46;
    assert (((17.76972 - 17.0) * 60.0 - 46.0) * 60.0 + 0.5).Floor == 11;
  }

  /** Seconds that round up to 60 are not carried into the minutes. */
  lemma SixtySecondsNotCarried()
    ensures ToComponent(0.99998, "N", "S") == DmsComponent("N", 0.0, 59.0, 60.0)
  {
    assert (0.99998).Floor == 0;
    assert (0.99998 * 60.0).Floor == 59;
    assert ((0.99998 * 60.0 - 59.0) * 60.0 + 0.5).Floor == 60;
  }
}
