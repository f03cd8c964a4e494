/**
 * The geofield field item: a WKT value plus columns derived from its geometry.
 */
module GeofieldItems {
  import opened Php
  import opened GeoPhp

  /** The property values handed to `setValue`; absent properties are NULL. */
  datatype ItemValues = ItemValues(
    value: Option<string>,
    geoType: Option<string>,
    lon: Option<real>,
    lat: Option<real>,
    left: Option<real>,
    top: Option<real>,
    right: Option<real>,
    bottom: Option<real>,
    geohash: Option<string>,
    latlon: Option<string>)

  /** `substr($hash, 0, $length)`. */
  function Substr0(s: string, length: nat): (r: string)
    ensures |r| <= length && StartsWith(s, r)
    ensures |r| == length || r == s
  {
    if |s| <= length then s else s[..length]
  }

  class GeofieldItem {
    var value: Option<string>
    var geoType: Option<string>
    var lon: Option<real>
    var lat: Option<real>
    var left: Option<real>
    var top: Option<real>
    var right: Option<real>
    var bottom: Option<real>
    var geohash: Option<string>
    var latlon: Option<string>

    /** The item's current properties as one record. */
    function Values(): ItemValues
      reads this
    {
      ItemValues(value, geoType, lon, lat, left, top, right, bottom, geohash, latlon)
    }

    constructor ()
      ensures Values() == ItemValues(None, None, None, None, None, None, None, None, None, None)
    {
      value, geoType, lon, lat := None, None, None, None;
      left, top, right, bottom := None, None, None, None;
      geohash, latlon := None, None;
    }

    /** Empty means no value or exactly the empty string ("0" is a value). */
    predicate IsEmpty()
      reads this
      ensures !IsEmpty() <==> value.Some? && |value.value| > 0
    {
      !value.Some? || value.value == ""
    }

    /**
     * Recomputes the derived columns from the geometry of `value`. When the
     * value does not load, nothing is touched. `numberToString` is PHP's
     * float-to-string conversion and `hashLength` the site's geohash length.
     */
    method PopulateComputedValues(load: Loader, numberToString: real -> string, hashLength: nat)
      modifies this
      ensures value == old(value)
      ensures load(old(value)).None? ==> Values() == old(Values())
      ensures load(old(value)).Some? ==>
        var g := load(old(value)).value;
        && geoType == Some(g.geometryType)
        && lon == Some(g.centroidX) && lat == Some(g.centroidY)
        && left == Some(g.minX) && top == Some(g.maxY)
        && right == Some(g.maxX) && bottom == Some(g.minY)
        && geohash == Some(Substr0(g.geohash, hashLength))
        && latlon == Some(numberToString(g.centroidY) + "," + numberToString(g.centroidX))
    {
      var geom := load(value);
      if geom.Some? {
        var g := geom.value;
        geoType := Some(g.geometryType);
        lon := Some(g.centroidX);
        lat := Some(g.centroidY);
        left := Some(g.minX);
        top := Some(g.maxY);
        right := Some(g.maxX);
        bottom := Some(g.minY);
        geohash := Some(Substr0(g.geohash, hashLength));
        latlon := Some(numberToString(g.centroidY) + "," + numberToString(g.centroidX));
      }
    }

    /** Stores every property first, then recomputes the derived ones from the new value. */
    method SetValue(values: ItemValues, load: Loader, numberToString: real -> string, hashLength: nat)
      modifies this
      ensures value == values.value
      ensures load(values.value).None? ==> Values() == values
      ensures load(values.value).Some? ==>
        var g := load(values.value).value;
        && geoType == Some(g.geometryType)
        && lon == Some(g.centroidX) && lat == Some(g.centroidY)
        && left == Some(g.minX) && top == Some(g.maxY)
        && right == Some(g.maxX) && bottom == Some(g.minY)
        && geohash == Some(Substr0(g.geohash, hashLength))
        && latlon == Some(numberToString(g.centroidY) + "," + numberToString(g.centroidX))
    {
      value, geoType, lon, lat := values.value, values.geoType, values.lon, values.lat;
      left, top, right, bottom := values.left, values.top, values.right, values.bottom;
      geohash, latlon := values.geohash, values.latlon;
      PopulateComputedValues(load, numberToString, hashLength);
    }
  }
}
