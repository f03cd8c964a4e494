/**
 * A point in degree/minute/second notation: one component per axis, both
 * replaceable in place.
 */
module DmsPoints {
  import opened Php

  /** One axis: an orientation letter and three magnitudes. */
  datatype DmsComponent = DmsComponent(orientation: string, degrees: real, minutes: real, seconds: real)

  class DmsPoint {
    var lon: DmsComponent
    var lat: DmsComponent

    /** The first argument is the longitude, the second the latitude. */
    constructor (lon: DmsComponent, lat: DmsComponent)
      ensures this.lon == lon && this.lat == lat
    {
      this.lat := lat;
      this.lon := lon;
    }

    /** Property lookup by name: only "lon" and "lat" exist, anything else is NULL. */
    function Get(property: string): (r: Option<DmsComponent>)
      reads this
      ensures r.Some? <==> property in {"lon", "lat"}
      ensures r == Some(lon) <== property == "lon"
      ensures r == Some(lat) <== property == "lat"
    {
      if property == "lon" then Some(lon)
      else if property == "lat" then Some(lat)
      else None
    }

    function GetLon(): DmsComponent
      reads this
    {
      lon
    }

    function GetLat(): DmsComponent
      reads this
    {
      lat
    }

    method SetLon(c: DmsComponent)
      modifies this
      ensures GetLon() == c && GetLat() == old(GetLat())
    {
      lon := c;
    }

    method SetLat(c: DmsComponent)
      modifies this
      ensures GetLat() == c && GetLon() == old(GetLon())
    {
      lat := c;
    }
  }
}
