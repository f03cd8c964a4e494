/**
 * The Google map formatter's `viewElements`: a re-entrancy guard, the choice
 * of infowindow descriptions, and the empty-map rule.
 */
module GeofieldGoogleMapFormatter {
  import opened Php
  import opened GeoPhp
  import opened GeofieldMapField

  /** The formatter settings `viewElements` reads. */
  datatype FormatterSettings = FormatterSettings(
    infowindowField: Option<string>,
    multivalueSplit: bool,
    emptyBehaviour: Scalar,
    emptyMessage: string)

  /**
   * The entity being displayed: its label, its rendering in the configured
   * view mode, and its fields by machine name, each a list of the values'
   * 'value' entries (NULL where unset).
   */
  datatype Entity = Entity(entityLabel: Option<string>, rendered: string, fields: PhpArray<seq<Option<string>>>)

  /** A FeatureCollection object (section 3.3 of RFC 7946). */
  datatype FeatureCollection = FeatureCollection(collectionType: string, features: seq<Feature<()>>)

  /** What `viewElements` returns: nothing, the 'empty-geofield' div, or the map. */
  datatype Element = NoElements | EmptyDiv(text: string) | MapElement(data: FeatureCollection)

  /** The descriptions taken from a field's values: each 'value', or "" when unset. */
  function ValueTexts(values: seq<Option<string>>): (r: seq<Option<string>>)
    ensures |r| == |values|
    ensures forall i :: 0 <= i < |r| ==> r[i] == Some(values[i].GetOr(""))
  {
    seq(|values|, i requires 0 <= i < |values| => Some(values[i].GetOr("")))
  }

  /**
   * The infowindow descriptions: the rendered entity, the label for 'title',
   * or the values of the field named by the lower-cased setting (only the
   * first unless multivalue_split is on); none when the setting is unset.
   */
  function DescriptionsFor(field: Option<string>, entity: Entity, multivalueSplit: bool): seq<Option<string>> {
    if field.None? then []
    else if field.value == "#rendered_entity" then [Some(entity.rendered)]
    else if field.value == "title" then [entity.entityLabel]
    else
      var values := Get(entity.fields, ToLower(field.value));
      if values.None? then []
      else if multivalueSplit || |values.value| == 0 then ValueTexts(values.value)
      else ValueTexts(values.value[..1])
  }

  /** The description loop of `viewElements`, with its `break` after the first value. */
  method Descriptions(field: Option<string>, entity: Entity, multivalueSplit: bool) returns (description: seq<Option<string>>)
    ensures description == DescriptionsFor(field, entity, multivalueSplit)
  {
    description := [];
    if field.Some? && field.value == "#rendered_entity" {
      description := description + [Some(entity.rendered)];
    } else if field.Some? {
      var name := ToLower(field.value);
      if field.value == "title" {
        description := description + [entity.entityLabel];
      } else if HasKey(entity.fields, name) {
        var values := Get(entity.fields, name).value;
        var k := 0;
        while k < |values|
          invariant 0 <= k <= |values|
          invariant description == ValueTexts(values[..k])
          invariant !multivalueSplit ==> k == 0
        {
          description := description + [Some(values[k].GetOr(""))];
          assert values[..k + 1] == values[..k] + [values[k]];
          k := k + 1;
          if !multivalueSplit {
            break;
          }
        }
        assert multivalueSplit ==> values[..k] == values;
        assert !multivalueSplit && |values| > 0 ==> values[..k] == values[..1];
      } else {
        assert Get(entity.fields, name).None?;
      }
    }
  }

  /** 'title' and '#rendered_entity' give exactly one description; a field gives one per value only with multivalue_split. */
  lemma DescriptionRules(field: string, entity: Entity, multivalueSplit: bool)
    ensures field == "#rendered_entity" ==> DescriptionsFor(Some(field), entity, multivalueSplit) == [Some(entity.rendered)]
    ensures field == "title" ==> DescriptionsFor(Some(field), entity, multivalueSplit) == [entity.entityLabel]
    ensures field != "#rendered_entity" && field != "title" ==>
      var values := Get(entity.fields, ToLower(field));
      var d := DescriptionsFor(Some(field), entity, multivalueSplit);
      && (values.None? ==> d == [])
      && (values.Some? ==> |d| == if multivalueSplit then |values.value| else if |values.value| == 0 then 0 else 1)
      && (forall i :: 0 <= i < |d| ==> d[i] == Some(values.value[i].GetOr("")))
  {
  }

  /**
   * No feature data gives the 'empty-geofield' div unless the behaviour is
   * exactly the string "2"; its text is the message only for the string "1".
   */
  function EmptyOrMap(data: seq<Feature<()>>, emptyBehaviour: Scalar, emptyMessage: string): (e: Element)
    ensures e.EmptyDiv? <==> data == [] && emptyBehaviour != StrVal("2")
    ensures e.EmptyDiv? ==> e.text == if emptyBehaviour == StrVal("1") then emptyMessage else ""
    ensures !e.EmptyDiv? ==> e == MapElement(FeatureCollection("FeatureCollection", data))
  {
    if data == [] && emptyBehaviour != StrVal("2") then
      EmptyDiv(if emptyBehaviour == StrVal("1") then emptyMessage else "")
    else
      MapElement(FeatureCollection("FeatureCollection", data))
  }

  /** The comparisons are strict: the integer 2 still hides the map, the integer 1 shows no message. */
  lemma StrictEmptyBehaviour(message: string)
    ensures EmptyOrMap([], IntVal(2), message) == EmptyDiv("")
    ensures EmptyOrMap([], IntVal(1), message) == EmptyDiv("")
    ensures EmptyOrMap([], StrVal("2"), message) == MapElement(FeatureCollection("FeatureCollection", []))
  {
  }

  /** The drupal_static in-progress flag shared by every formatter instance. */
  class ViewState {
    var inProgress: bool

    constructor ()
      ensures !inProgress
    {
      inProgress := false;
    }

    /**
     * `viewElements`: while a view is in progress (a map rendered inside an
     * infowindow) it returns nothing; otherwise it builds the element and
     * clears the flag again on both the empty and the map path.
     */
    method ViewElements(items: seq<MapItem>, entity: Entity, settings: FormatterSettings, load: Loader)
      returns (e: Element)
      modifies this
      ensures inProgress == old(inProgress)
      ensures old(inProgress) ==> e == NoElements
      ensures !old(inProgress) ==>
        var description := DescriptionsFor(settings.infowindowField, entity, settings.multivalueSplit);
        e == EmptyOrMap(FeaturesFrom(items, description, (), load, 0, None), settings.emptyBehaviour, settings.emptyMessage)
    {
      if inProgress {
        return NoElements;
      }
      inProgress := true;
      var description := Descriptions(settings.infowindowField, entity, settings.multivalueSplit);
      var data := GetGeoJsonData(items, description, (), load);
      if data == [] && settings.emptyBehaviour != StrVal("2") {
        inProgress := false;
        return EmptyDiv(if settings.emptyBehaviour == StrVal("1") then settings.emptyMessage else "");
      }
      e := MapElement(FeatureCollection("FeatureCollection", data));
      inProgress := false;
    }
  }
}
