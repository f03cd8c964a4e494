/**
 * What the modelled code reads from a geoPHP geometry. Parsing, centroid,
 * bounding box, geohash and GeoJSON output are computed by the library; the
 * model only carries their results.
 */
module GeoPhp {
  import opened Php

  datatype Geometry = Geometry(
    geometryType: string,
    centroidX: real,
    centroidY: real,
    minX: real,
    minY: real,
    maxX: real,
    maxY: real,
    geohash: string,
    json: string)

  /** `geofield.geophp->load($value)`: a geometry, or nothing when the text does not parse. */
  type Loader = Option<string> -> Option<Geometry>
}
