/**
 * The map-field helpers shared by the geofield map widget and formatter:
 * GeoJSON feature assembly, the zoom validators and the map-type filter.
 */
module GeofieldMapField {
  import opened Php
  import opened GeoPhp

  // ---------------------------------------------------------------------------
  // GeoJSON features (section 3.2 of RFC 7946)

  /** What `getGeoJsonData` may be handed: field items or raw WKT strings. */
  datatype MapItem = FieldItem(value: Option<string>) | Raw(text: string)

  /** A Feature object: its geometry is the geometry's GeoJSON text. */
  datatype Feature<D> = Feature(featureType: string, geometry: string, description: Option<string>, data: D)

  /**
   * The test `preg_match('/^(POINT).*\(.*.*\)$/', $s)`: "POINT" first, a '('
   * later, ')' last, no newline in between; `$` also matches before one
   * final newline.
   */
  predicate IsPointWkt(s: string) {
    var c := if |s| > 0 && s[|s| - 1] == '\n' then s[..|s| - 1] else s;
    && |c| >= 7
    && c[..5] == "POINT"
    && c[|c| - 1] == ')'
    && '\n' !in c[5..|c| - 1]
    && '(' in c[5..|c| - 1]
  }

  /** `$description[$delta]` if set, else `$description[0]` if set, else NULL. */
  function Describe(description: seq<Option<string>>, delta: nat): (r: Option<string>)
    ensures delta < |description| && description[delta].Some? ==> r == description[delta]
    ensures r.Some? ==> r in description
    ensures r.None? <==> (delta >= |description| || description[delta].None?) && (|description| == 0 || description[0].None?)
  {
    if delta < |description| && description[delta].Some? then description[delta]
    else if |description| > 0 && description[0].Some? then description[0]
    else None
  }

  /** The geometry after looking at one item: a parse replaces it, anything else keeps the previous one. */
  function NextGeometry(item: MapItem, load: Loader, carried: Option<Geometry>): Option<Geometry> {
    match item
    case FieldItem(Some(v)) => load(Some(v))
    case Raw(s) => if IsPointWkt(s) then load(Some(s)) else carried
    case _ => carried
  }

  /** The features emitted for `items[i..]` when `carried` is the geometry left by `items[..i]`. */
  function FeaturesFrom<D>(items: seq<MapItem>, description: seq<Option<string>>, data: D, load: Loader,
                           i: nat, carried: Option<Geometry>): seq<Feature<D>>
    requires i <= |items|
    decreases |items| - i
  {
    if i == |items| then []
    else
      var g := NextGeometry(items[i], load, carried);
      (if g.Some? then [Feature("Feature", g.value.json, Describe(description, i), data)] else [])
      + FeaturesFrom(items, description, data, load, i + 1, g)
  }

  /** `getGeoJsonData($items, $description, $additional_data)`. */
  method GetGeoJsonData<D>(items: seq<MapItem>, description: seq<Option<string>>, additionalData: D, load: Loader)
    returns (data: seq<Feature<D>>)
    ensures data == FeaturesFrom(items, description, additionalData, load, 0, None)
  {
    data := [];
    var geometry: Option<Geometry> := None;
    var delta := 0;
    while delta < |items|
      invariant delta <= |items|
      invariant data + FeaturesFrom(items, description, additionalData, load, delta, geometry)
             == FeaturesFrom(items, description, additionalData, load, 0, None)
    {
      ghost var carried := geometry;
      geometry := ItemGeometry(items[delta], load, geometry);
      FeaturesFromStep(items, description, additionalData, load, delta, carried);
      if geometry.Some? {
        var datum := Feature("Feature", geometry.value.json, Describe(description, delta), additionalData);
        data := data + [datum];
      }
      delta := delta + 1;
    }
  }

  /** The geometry the loop holds after one item: a field value or a POINT string is parsed, anything else keeps the last one. */
  method ItemGeometry(item: MapItem, load: Loader, carried: Option<Geometry>) returns (geometry: Option<Geometry>)
    ensures geometry == NextGeometry(item, load, carried)
  {
    geometry := carried;
    if item.FieldItem? && item.value.Some? {
      geometry := load(item.value);
    } else if item.Raw? && IsPointWkt(item.text) {
      geometry := load(Some(item.text));
    }
  }

  lemma FeaturesFromStep<D>(items: seq<MapItem>, description: seq<Option<string>>, data: D, load: Loader,
                            i: nat, carried: Option<Geometry>)
    requires i < |items|
    ensures var g := NextGeometry(items[i], load, carried);
      FeaturesFrom(items, description, data, load, i, carried)
        == (if g.Some? then [Feature("Feature", g.value.json, Describe(description, i), data)] else [])
           + FeaturesFrom(items, description, data, load, i + 1, g)
  {
  }

  lemma {:induction false} FeaturesShape<D>(items: seq<MapItem>, description: seq<Option<string>>, data: D, load: Loader,
                                            i: nat, carried: Option<Geometry>)
    requires i <= |items|
    ensures |FeaturesFrom(items, description, data, load, i, carried)| <= |items| - i
    ensures forall f :: f in FeaturesFrom(items, description, data, load, i, carried) ==>
      f.featureType == "Feature" && f.data == data
    decreases |items| - i
  {
    if i < |items| {
      FeaturesShape(items, description, data, load, i + 1, NextGeometry(items[i], load, carried));
    }
  }

  /** No items, no features; otherwise at most one feature per item, each a "Feature" carrying the additional data. */
  lemma GeoJsonDataShape<D>(items: seq<MapItem>, description: seq<Option<string>>, data: D, load: Loader)
    ensures items == [] ==> FeaturesFrom(items, description, data, load, 0, None) == []
    ensures |FeaturesFrom(items, description, data, load, 0, None)| <= |items|
    ensures forall f :: f in FeaturesFrom(items, description, data, load, 0, None) ==>
      f.featureType == "Feature" && f.data == data
  {
    FeaturesShape(items, description, data, load, 0, None);
  }

  /** When every item is a field item whose value loads, feature k belongs to item k, in order. */
  lemma {:induction false} OneFeaturePerLoadedItem<D>(items: seq<MapItem>, description: seq<Option<string>>, data: D,
                                                      load: Loader, i: nat, carried: Option<Geometry>)
    requires i <= |items|
    requires forall k :: i <= k < |items| ==> items[k].FieldItem? && items[k].value.Some? && load(items[k].value).Some?
    ensures var r := FeaturesFrom(items, description, data, load, i, carried);
      && |r| == |items| - i
      && forall k :: 0 <= k < |r| ==>
           r[k] == Feature("Feature", load(items[i + k].value).value.json, Describe(description, i + k), data)
    decreases |items| - i
  {
    if i < |items| {
      var g := NextGeometry(items[i], load, carried);
      OneFeaturePerLoadedItem(items, description, data, load, i + 1, g);
      var rest := FeaturesFrom(items, description, data, load, i + 1, g);
      var r := FeaturesFrom(items, description, data, load, i, carried);
      assert r == [Feature("Feature", g.value.json, Describe(description, i), data)] + rest;
      forall k | 0 <= k < |r|
        ensures r[k] == Feature("Feature", load(items[i + k].value).value.json, Describe(description, i + k), data)
      {
        if k > 0 {
          assert r[k] == rest[k - 1];
        }
      }
    }
  }

  /**
   * The geometry is never cleared by an item that does not parse: after a
   * point, an unparsable string re-emits that point with its own description.
   */
  lemma StaleGeometryReEmitted(g: Geometry)
    ensures var load: Loader := (s: Option<string>) => if s == Some("POINT (1 2)") then Some(g) else None;
      FeaturesFrom([Raw("POINT (1 2)"), Raw("garbage")], [Some("a"), Some("b")], 0, load, 0, None)
        == [Feature("Feature", g.json, Some("a"), 0), Feature("Feature", g.json, Some("b"), 0)]
  {
    var load: Loader := (s: Option<string>) => if s == Some("POINT (1 2)") then Some(g) else None;
    PointLiteral();
    GarbageLiteral();
  }

  /** Before any item parses, unparsable items emit nothing. */
  lemma NothingBeforeFirstParse<D>(description: seq<Option<string>>, data: D, load: Loader)
    ensures FeaturesFrom([Raw("garbage"), FieldItem(None)], description, data, load, 0, None) == []
  {
    GarbageLiteral();
  }

  lemma PointLiteral()
    ensures IsPointWkt("POINT (1 2)")
  {
    var c := "POINT (1 2)";
    assert c[5..|c| - 1][1] == c[6] == '(';
    assert c[..5] == "POINT";
    var mid := c[5..|c| - 1];
    forall j | 0 <= j < |mid| ensures mid[j] != '\n' {
      assert mid[j] == c[5 + j];
    }
  }

  lemma GarbageLiteral()
    ensures !IsPointWkt("garbage")
  {
    var c := "garbage";
    assert c[..5][0] == 'g';
  }

  // ---------------------------------------------------------------------------
  // Zoom validation

  /**
   * The submitted form values: integers (numeric form input is compared by
   * its value), NULL, or nested groups keyed by element name.
   */
  datatype FormTree = Level(n: Option<int>) | Group(children: PhpArray<FormTree>)

  /** A form element: its `#parents` path and its `#value`. */
  datatype ZoomElement = ZoomElement(parents: seq<string>, value: Option<int>)

  /** `$values[$key]`: NULL when `$values` is not an array or lacks the key. */
  function Child(values: Option<FormTree>, key: string): Option<FormTree> {
    if values.Some? && values.value.Group? then Get(values.value.children, key) else None
  }

  /** The values reached by following `path` from the root. */
  function Walk(values: FormTree, path: seq<string>): Option<FormTree>
    decreases |path|
  {
    if path == [] then Some(values) else Child(Walk(values, path[..|path| - 1]), path[|path| - 1])
  }

  /** The sibling values of an element: `#parents` without its last entry. */
  function Siblings(values: FormTree, parents: seq<string>): Option<FormTree> {
    Walk(values, if |parents| == 0 then [] else parents[..|parents| - 1])
  }

  /** The number stored under `key`, NULL when missing or not a number. */
  function NumberAt(values: Option<FormTree>, key: string): Option<int> {
    var c := Child(values, key);
    if c.Some? && c.value.Level? then c.value.n else None
  }

  /** PHP truthiness of an integer or NULL. */
  predicate AsBool(x: Option<int>) {
    x.Some? && x.value != 0
  }

  /** PHP `$a < $b` on integers or NULL: numeric when both are set, on booleans otherwise. */
  predicate Less(a: Option<int>, b: Option<int>) {
    if a.Some? && b.Some? then a.value < b.value else !AsBool(a) && AsBool(b)
  }

  /** PHP `$a <= $b` on integers or NULL. */
  predicate LessEq(a: Option<int>, b: Option<int>) {
    if a.Some? && b.Some? then a.value <= b.value else !AsBool(a) || AsBool(b)
  }

  /** The loop that walks `#parents` minus its last entry. */
  method SiblingValues(values: FormTree, parents: seq<string>) returns (r: Option<FormTree>)
    ensures r == Siblings(values, parents)
  {
    r := Some(values);
    var i := 0;
    while i < |parents| - 1
      invariant 0 <= i <= if |parents| == 0 then 0 else |parents| - 1
      invariant r == Walk(values, parents[..i])
    {
      assert parents[..i + 1][..i] == parents[..i];
      r := Child(r, parents[i]);
      i := i + 1;
    }
    if |parents| > 0 {
      assert parents[..|parents| - 1] == parents[..i];
    }
  }

  /** `zoomLevelValidate`: an error iff the zoom is below the sibling 'min' or above the sibling 'max'. */
  method ZoomLevelValidate(element: ZoomElement, values: FormTree) returns (error: bool)
    ensures var sib := Siblings(values, element.parents);
      error <==> Less(element.value, NumberAt(sib, "min")) || Less(NumberAt(sib, "max"), element.value)
  {
    var sib := SiblingValues(values, element.parents);
    var zoom := element.value;
    var minZoom := NumberAt(sib, "min");
    var maxZoom := NumberAt(sib, "max");
    error := Less(zoom, minZoom) || Less(maxZoom, zoom);
  }

  /** `maxZoomLevelValidate`: an error iff the max zoom is truthy and not above the sibling 'min'. */
  method MaxZoomLevelValidate(element: ZoomElement, values: FormTree) returns (error: bool)
    ensures var sib := Siblings(values, element.parents);
      error <==> AsBool(element.value) && LessEq(element.value, NumberAt(sib, "min"))
  {
    var sib := SiblingValues(values, element.parents);
    var minZoom := NumberAt(sib, "min");
    var maxZoom := element.value;
    error := AsBool(maxZoom) && LessEq(maxZoom, minZoom);
  }

  /** With all three levels set, the zoom error is exactly "outside [min, max]". */
  lemma ZoomErrorWhenSet(zoom: int, min: int, max: int)
    ensures Less(Some(zoom), Some(min)) || Less(Some(max), Some(zoom)) <==> zoom < min || zoom > max
  {
  }

  /** A max zoom of 0 or a missing 'min' never raises the max-zoom error; otherwise it is max <= min. */
  lemma MaxZoomErrorCases(max: Option<int>, min: Option<int>)
    ensures max == Some(0) ==> !(AsBool(max) && LessEq(max, min))
    ensures AsBool(max) && min.None? ==> !LessEq(max, min)
    ensures max.Some? && min.Some? && max.value != 0 ==> (LessEq(max, min) <==> max.value <= min.value)
  {
  }

  /** With no 'max' sibling, any non-zero zoom counts as above it. */
  lemma ZoomAboveMissingMax(zoom: int)
    requires zoom != 0
    ensures Less(None, Some(zoom))
  {
  }

  // ---------------------------------------------------------------------------
  // Map settings pre-processing

  /** The keys whose checkbox value is not the integer 0, in their original order. */
  function KeptTypeIds(ids: PhpArray<Scalar>): (r: seq<string>)
    ensures |r| <= |ids|
    ensures forall k :: k in r <==> exists v :: (k, v) in ids && v != IntVal(0)
    decreases |ids|
  {
    if ids == [] then []
    else
      var rest := KeptTypeIds(ids[1..]);
      assert forall e :: e in ids <==> e == ids[0] || e in ids[1..];
      if ids[0].1 != IntVal(0) then [ids[0].0] + rest else rest
  }

  /** `array_keys(array_filter($ids, fn($v) => $v !== 0))`. */
  method FilterTypeIds(ids: PhpArray<Scalar>) returns (kept: seq<string>)
    ensures kept == KeptTypeIds(ids)
  {
    kept := [];
    var i := |ids|;
    while i > 0
      invariant 0 <= i <= |ids|
      invariant kept == KeptTypeIds(ids[i..])
    {
      i := i - 1;
      assert ids[i..][1..] == ids[i + 1..];
      if ids[i].1 != IntVal(0) {
        kept := [ids[i].0] + kept;
      }
    }
    assert ids[0..] == ids;
  }

  /** The map-type setting before (checkbox values) and after (list of kept ids) pre-processing. */
  datatype TypeIdSetting = Checkboxes(choices: PhpArray<Scalar>) | TypeIdList(ids: seq<string>)

  /** The map settings `preProcessMapSettings` edits in place. */
  class MapSettings {
    var gmapApiKey: string
    var typeIds: TypeIdSetting
    var iconImagePath: string

    constructor (typeIds: TypeIdSetting, iconImagePath: string)
      ensures this.gmapApiKey == "" && this.typeIds == typeIds && this.iconImagePath == iconImagePath
    {
      this.gmapApiKey := "";
      this.typeIds := typeIds;
      this.iconImagePath := iconImagePath;
    }

    /**
     * Stores the API key, turns the map-type checkboxes into the list of kept
     * ids, and makes a non-empty local icon path absolute.
     */
    method PreProcessMapSettings(apiKey: string, isExternal: string -> bool, absoluteUrl: string -> string)
      modifies this
      requires typeIds.Checkboxes?
      ensures gmapApiKey == apiKey
      ensures typeIds == TypeIdList(KeptTypeIds(old(typeIds).choices))
      ensures iconImagePath == if !EmptyStr(old(iconImagePath)) && !isExternal(old(iconImagePath))
                               then absoluteUrl(old(iconImagePath)) else old(iconImagePath)
    {
      gmapApiKey := apiKey;
      var kept := FilterTypeIds(typeIds.choices);
      typeIds := TypeIdList(kept);
      var path := iconImagePath;
      if !EmptyStr(path) && !isExternal(path) {
        iconImagePath := absoluteUrl(path);
      }
    }
  }
}
