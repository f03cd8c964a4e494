/**
 * The Display Suite field plugin that renders a copy of an existing field: the
 * render key and field definition it derives from a dotted field id, and the
 * formatter configuration it passes on.
 */
module DisplayFieldCopyField {
  import opened Php

  /** The plugin id of the `@DsField` annotation. */
  const PluginId := "display_field_copy"

  /** A field definition, as the entity field manager or the field_config storage returns it. */
  datatype FieldDefinition = FieldDefinition(name: string, fieldType: string)

  /** The options handed to the formatter plugin manager's `getInstance`. */
  datatype FormatterInstance = FormatterInstance(
    fieldDefinition: Option<FieldDefinition>,
    viewMode: string,
    prepare: bool,
    formatterType: Option<string>,
    settings: PhpArray<string>)

  /** `explode('.', $field_id)`. */
  function Pieces(fieldId: string): (r: seq<string>)
    ensures |r| >= 1
    ensures forall k :: 0 <= k < |r| ==> '.' !in r[k]
  {
    Split(fieldId, {'.'})
  }

  /** `getRenderKey`: `end()` of the pieces. */
  function RenderKey(fieldId: string): string {
    var pieces := Pieces(fieldId);
    pieces[|pieces| - 1]
  }

  /**
   * The render key is the text after the last '.' of the field id, and the
   * whole id when it has no '.'.
   */
  lemma RenderKeyIsLastSegment(fieldId: string)
    ensures '.' !in RenderKey(fieldId)
    ensures '.' !in fieldId ==> RenderKey(fieldId) == fieldId
    ensures '.' in fieldId ==> exists prefix :: fieldId == prefix + "." + RenderKey(fieldId)
  {
    var pieces := Pieces(fieldId);
    if '.' !in fieldId {
      SplitNoSeparator(fieldId, {'.'});
    } else {
      SplitHasSeparator(fieldId, '.');
      SplitImplode(fieldId, '.');
      ImplodeLast(".", pieces);
      assert fieldId == Implode(".", pieces[..|pieces| - 1]) + "." + RenderKey(fieldId);
    }
  }

  /** The lookup of `getFieldDefinition`: a three-piece id from field_config, any other from the base fields. */
  function LookupDefinition(fieldId: string, loadFieldConfig: string -> Option<FieldDefinition>,
                            baseFields: string -> PhpArray<FieldDefinition>): Option<FieldDefinition>
  {
    var pieces := Pieces(fieldId);
    if |pieces| == 3 then loadFieldConfig(fieldId)
    else Get(baseFields(pieces[0]), if |pieces| >= 2 then pieces[1] else "")
  }

  /** A base-field id `entity_type.field` resolves to that field of that entity type. */
  lemma BaseFieldLookup(entityType: string, field: string, loadFieldConfig: string -> Option<FieldDefinition>,
                        baseFields: string -> PhpArray<FieldDefinition>)
    requires '.' !in entityType && '.' !in field
    ensures LookupDefinition(entityType + "." + field, loadFieldConfig, baseFields) == Get(baseFields(entityType), field)
  {
    SplitTwo(entityType, '.', field);
  }

  /** A configurable-field id `entity_type.bundle.field` is loaded whole from field_config. */
  lemma ConfigFieldLookup(entityType: string, bundle: string, field: string,
                          loadFieldConfig: string -> Option<FieldDefinition>, baseFields: string -> PhpArray<FieldDefinition>)
    requires '.' !in entityType && '.' !in bundle && '.' !in field
    ensures var id := entityType + "." + bundle + "." + field;
      LookupDefinition(id, loadFieldConfig, baseFields) == loadFieldConfig(id)
  {
    SplitThree(entityType, '.', bundle, field);
  }

  /** A dot-free id is looked up as base field "" of the entity type it names (PHP reads the missing `$pieces[1]` as NULL). */
  lemma PlainIdLookup(fieldId: string, loadFieldConfig: string -> Option<FieldDefinition>,
                      baseFields: string -> PhpArray<FieldDefinition>)
    requires '.' !in fieldId
    ensures LookupDefinition(fieldId, loadFieldConfig, baseFields) == Get(baseFields(fieldId), "")
  {
    SplitNoSeparator(fieldId, {'.'});
  }

  /** The plugin, with its memoised field definition. */
  class DisplayFieldCopy {
    /** `properties.field_id` of the field configuration (used for the render key). */
    const configuredFieldId: string
    /** `properties.field_id` of the plugin definition (used for the field definition). */
    const definitionFieldId: string
    /** The `formatter` entry of the plugin configuration, if set. */
    const formatter: Option<PhpArray<string>>
    const viewMode: string
    var fieldDefinition: Option<FieldDefinition>
    /** How many times the definition was looked up. */
    var lookups: nat

    constructor (configuredFieldId: string, definitionFieldId: string, formatter: Option<PhpArray<string>>, viewMode: string)
      ensures this.configuredFieldId == configuredFieldId && this.definitionFieldId == definitionFieldId
      ensures this.formatter == formatter && this.viewMode == viewMode
      ensures fieldDefinition.None? && lookups == 0
    {
      this.configuredFieldId := configuredFieldId;
      this.definitionFieldId := definitionFieldId;
      this.formatter := formatter;
      this.viewMode := viewMode;
      fieldDefinition := None;
      lookups := 0;
    }

    /** `getRenderKey`: the last dot-separated segment of the configured field id. */
    function GetRenderKey(): (r: string)
      reads this
      ensures '.' !in r
      ensures '.' !in configuredFieldId ==> r == configuredFieldId
      ensures '.' in configuredFieldId ==> exists prefix :: configuredFieldId == prefix + "." + r
    {
      RenderKeyIsLastSegment(configuredFieldId);
      RenderKey(configuredFieldId)
    }

    /** `getFieldDefinition`: looks up once, then answers from the cache; a lookup that found nothing is retried next time. */
    method GetFieldDefinition(loadFieldConfig: string -> Option<FieldDefinition>,
                              baseFields: string -> PhpArray<FieldDefinition>) returns (r: Option<FieldDefinition>)
      modifies this
      ensures old(fieldDefinition).Some? ==> r == old(fieldDefinition) && fieldDefinition == old(fieldDefinition) && lookups == old(lookups)
      ensures old(fieldDefinition).None? ==>
        r == LookupDefinition(definitionFieldId, loadFieldConfig, baseFields) && fieldDefinition == r && lookups == old(lookups) + 1
    {
      if fieldDefinition.None? {
        var pieces := Split(definitionFieldId, {'.'});
        var entityTypeId := pieces[0];
        if |pieces| == 3 {
          fieldDefinition := loadFieldConfig(definitionFieldId);
        } else {
          var id := if |pieces| >= 2 then pieces[1] else "";
          fieldDefinition := Get(baseFields(entityTypeId), id);
        }
        lookups := lookups + 1;
      }
      r := fieldDefinition;
    }

    /** `getFormatterConfiguration`: the `formatter` entry, or [] when it is not set. */
    function GetFormatterConfiguration(): (r: PhpArray<string>)
      reads this
      ensures formatter.Some? ==> r == formatter.value
      ensures formatter.None? ==> r == []
    {
      formatter.GetOr([])
    }

    /** `getFormatter`: settings the caller gave win; only missing ones come from the formatter configuration. */
    method GetFormatter(formatterType: Option<string>, settings: Option<PhpArray<string>>,
                        loadFieldConfig: string -> Option<FieldDefinition>,
                        baseFields: string -> PhpArray<FieldDefinition>) returns (r: FormatterInstance)
      modifies this
      ensures settings.Some? ==> r.settings == settings.value
      ensures settings.None? ==> r.settings == GetFormatterConfiguration()
      ensures r.formatterType == formatterType && r.prepare && r.viewMode == viewMode
      ensures r.fieldDefinition == fieldDefinition
      ensures old(fieldDefinition).Some? ==> fieldDefinition == old(fieldDefinition) && lookups == old(lookups)
      ensures old(fieldDefinition).None? ==>
        fieldDefinition == LookupDefinition(definitionFieldId, loadFieldConfig, baseFields) && lookups == old(lookups) + 1
    {
      var s := if settings.Some? then settings.value else GetFormatterConfiguration();
      var definition := GetFieldDefinition(loadFieldConfig, baseFields);
      r := FormatterInstance(definition, viewMode, true, formatterType, s);
    }
  }
}
