/**
 * The Display Suite form that configures a "copy field": the options it lists
 * (one per base or configurable field of every content entity type and bundle)
 * and what submitting a chosen field id does to the submitted values.
 */
module DisplayFieldCopyForm {
  import opened Php
  import PhpArrayLaws
  import DisplayFieldCopyField

  /** `DisplayFieldCopyForm::TYPE`. */
  const Type := "display_field_copy"

  /** `getType`: the dynamic field type, which is the id of the plugin that renders it. */
  function GetType(): (r: string)
    ensures r == DisplayFieldCopyField.PluginId
  {
    Type
  }

  /** `getProperties`: the one property `field_id`, from the submitted value. */
  function GetProperties(fieldId: string): (r: PhpArray<string>)
    ensures Keys(r) == ["field_id"]
    ensures Get(r, "field_id") == Some(fieldId)
  {
    [("field_id", fieldId)]
  }

  // ---------------------------------------------------------------------------
  // buildForm: the select options

  /** An entity type definition: its label, and whether it is a content entity type. */
  datatype EntityTypeDef = EntityTypeDef(typeLabel: string, isContent: bool)

  /** A field definition of a bundle: a base field, a configurable field (with its own id), or anything else. */
  datatype FieldDef =
    | BaseField(baseLabel: string)
    | ConfigField(configId: string, configLabel: string)
    | OtherField

  /** The services the form reads: bundle info per entity type and field definitions per entity type and bundle. */
  datatype Sources = Sources(
    bundleInfo: string -> PhpArray<string>,
    fieldDefinitions: (string, string) -> PhpArray<FieldDef>)

  /** The option one field contributes, if any. */
  function FieldOption(entityTypeId: string, typeLabel: string, bundleLabel: string, field: (string, FieldDef)): Option<(string, string)> {
    match field.1
    case BaseField(l) => Some((entityTypeId + "." + field.0, typeLabel + " - " + l))
    case ConfigField(id, l) => Some((id, typeLabel + " (" + bundleLabel + ") - " + l))
    case OtherField => None
  }

  function AddOption(options: PhpArray<string>, o: Option<(string, string)>): PhpArray<string> {
    if o.Some? then Put(options, o.value.0, o.value.1) else options
  }

  /** The innermost loop: the fields of one bundle, in order. */
  function FieldOptions(options: PhpArray<string>, entityTypeId: string, typeLabel: string, bundleLabel: string,
                        fields: PhpArray<FieldDef>): PhpArray<string>
    decreases |fields|
  {
    if fields == [] then options
    else AddOption(FieldOptions(options, entityTypeId, typeLabel, bundleLabel, fields[..|fields| - 1]),
                   FieldOption(entityTypeId, typeLabel, bundleLabel, fields[|fields| - 1]))
  }

  /** The middle loop: the bundles of one entity type, in order. */
  function BundleOptions(options: PhpArray<string>, entityTypeId: string, typeLabel: string,
                         bundles: PhpArray<string>, src: Sources): PhpArray<string>
    decreases |bundles|
  {
    if bundles == [] then options
    else
      var b := bundles[|bundles| - 1];
      FieldOptions(BundleOptions(options, entityTypeId, typeLabel, bundles[..|bundles| - 1], src),
                   entityTypeId, typeLabel, b.1, src.fieldDefinitions(entityTypeId, b.0))
  }

  /** The outer loop: every entity type definition; those that are not content entity types are skipped. */
  function TypeOptions(options: PhpArray<string>, types: PhpArray<EntityTypeDef>, src: Sources): PhpArray<string>
    decreases |types|
  {
    if types == [] then options
    else
      var t := types[|types| - 1];
      var before := TypeOptions(options, types[..|types| - 1], src);
      if t.1.isContent then BundleOptions(before, t.0, t.1.typeLabel, src.bundleInfo(t.0), src) else before
  }

  /** The key a field gives its option. */
  predicate FieldGivesKey(entityTypeId: string, field: (string, FieldDef), k: string) {
    match field.1
    case BaseField(_) => k == entityTypeId + "." + field.0
    case ConfigField(id, _) => k == id
    case OtherField => false
  }

  predicate BundleGivesKey(entityTypeId: string, fields: PhpArray<FieldDef>, k: string) {
    exists f :: f in fields && FieldGivesKey(entityTypeId, f, k)
  }

  predicate TypeGivesKey(t: (string, EntityTypeDef), src: Sources, k: string) {
    t.1.isContent && exists b :: b in src.bundleInfo(t.0) && BundleGivesKey(t.0, src.fieldDefinitions(t.0, b.0), k)
  }

  lemma AddOptionKeys(options: PhpArray<string>, o: Option<(string, string)>, k: string)
    ensures HasKey(AddOption(options, o), k) <==> HasKey(options, k) || (o.Some? && o.value.0 == k)
    ensures UniqueKeys(options) ==> UniqueKeys(AddOption(options, o))
  {
    if o.Some? {
      PhpArrayLaws.PutHasKey(options, o.value.0, o.value.1, k);
    }
  }

  lemma {:induction false} FieldOptionsKeys(options: PhpArray<string>, entityTypeId: string, typeLabel: string,
                                            bundleLabel: string, fields: PhpArray<FieldDef>, k: string)
    ensures HasKey(FieldOptions(options, entityTypeId, typeLabel, bundleLabel, fields), k)
        <==> HasKey(options, k) || BundleGivesKey(entityTypeId, fields, k)
    ensures UniqueKeys(options) ==> UniqueKeys(FieldOptions(options, entityTypeId, typeLabel, bundleLabel, fields))
    decreases |fields|
  {
    if fields != [] {
      var init := fields[..|fields| - 1];
      var last := fields[|fields| - 1];
      FieldOptionsKeys(options, entityTypeId, typeLabel, bundleLabel, init, k);
      AddOptionKeys(FieldOptions(options, entityTypeId, typeLabel, bundleLabel, init),
                    FieldOption(entityTypeId, typeLabel, bundleLabel, last), k);
      assert fields == init + [last];
      var o := FieldOption(entityTypeId, typeLabel, bundleLabel, last);
      assert FieldGivesKey(entityTypeId, last, k) <==> o.Some? && o.value.0 == k;
      if BundleGivesKey(entityTypeId, init, k) {
        var f :| f in init && FieldGivesKey(entityTypeId, f, k);
        assert f in fields;
      }
      if BundleGivesKey(entityTypeId, fields, k) && !BundleGivesKey(entityTypeId, init, k) {
        var f :| f in fields && FieldGivesKey(entityTypeId, f, k);
        assert f == last;
      }
    }
  }

  lemma {:induction false} BundleOptionsKeys(options: PhpArray<string>, entityTypeId: string, typeLabel: string,
                                             bundles: PhpArray<string>, src: Sources, k: string)
    ensures HasKey(BundleOptions(options, entityTypeId, typeLabel, bundles, src), k)
        <==> HasKey(options, k) || exists b :: b in bundles && BundleGivesKey(entityTypeId, src.fieldDefinitions(entityTypeId, b.0), k)
    ensures UniqueKeys(options) ==> UniqueKeys(BundleOptions(options, entityTypeId, typeLabel, bundles, src))
    decreases |bundles|
  {
    if bundles != [] {
      var init := bundles[..|bundles| - 1];
      var last := bundles[|bundles| - 1];
      BundleOptionsKeys(options, entityTypeId, typeLabel, init, src, k);
      FieldOptionsKeys(BundleOptions(options, entityTypeId, typeLabel, init, src), entityTypeId, typeLabel, last.1,
                       src.fieldDefinitions(entityTypeId, last.0), k);
      assert bundles == init + [last];
    }
  }

  /**
   * An option key is present exactly when some bundle of some content entity
   * type has a base field giving `entity_type.field` or a configurable field
   * with that id; the keys are distinct.
   */
  lemma {:induction false} TypeOptionsKeys(options: PhpArray<string>, types: PhpArray<EntityTypeDef>, src: Sources, k: string)
    ensures HasKey(TypeOptions(options, types, src), k) <==> HasKey(options, k) || exists t :: t in types && TypeGivesKey(t, src, k)
    ensures UniqueKeys(options) ==> UniqueKeys(TypeOptions(options, types, src))
    decreases |types|
  {
    if types != [] {
      var init := types[..|types| - 1];
      var last := types[|types| - 1];
      TypeOptionsKeys(options, init, src, k);
      var before := TypeOptions(options, init, src);
      assert TypeOptions(options, types, src)
          == if last.1.isContent then BundleOptions(before, last.0, last.1.typeLabel, src.bundleInfo(last.0), src) else before;
      if last.1.isContent {
        BundleOptionsKeys(TypeOptions(options, init, src), last.0, last.1.typeLabel, src.bundleInfo(last.0), src, k);
      }
      assert types == init + [last];
      if exists t :: t in init && TypeGivesKey(t, src, k) {
        var t :| t in init && TypeGivesKey(t, src, k);
        assert t in types;
      }
      if exists t :: t in types && TypeGivesKey(t, src, k) {
        var t :| t in types && TypeGivesKey(t, src, k);
        assert t in init || t == last;
      }
      if last.1.isContent {
        assert HasKey(TypeOptions(options, types, src), k) <==> HasKey(before, k) || TypeGivesKey(last, src, k);
      } else {
        assert !TypeGivesKey(last, src, k);
      }
    }
  }

  /** The options of `buildForm`, with every key accounted for. */
  lemma BuildOptionsKeys(types: PhpArray<EntityTypeDef>, src: Sources, k: string)
    ensures HasKey(TypeOptions([], types, src), k) <==> exists t :: t in types && TypeGivesKey(t, src, k)
    ensures UniqueKeys(TypeOptions([], types, src))
  {
    TypeOptionsKeys([], types, src, k);
  }

  /** A base field's option reads "<entity type> - <field>", a configurable field's "<entity type> (<bundle>) - <field>". */
  lemma FieldOptionLabels(entityTypeId: string, typeLabel: string, bundleLabel: string, field: (string, FieldDef))
    ensures field.1.BaseField? ==>
      FieldOption(entityTypeId, typeLabel, bundleLabel, field) == Some((entityTypeId + "." + field.0, typeLabel + " - " + field.1.baseLabel))
    ensures field.1.ConfigField? ==>
      FieldOption(entityTypeId, typeLabel, bundleLabel, field) == Some((field.1.configId, typeLabel + " (" + bundleLabel + ") - " + field.1.configLabel))
    ensures field.1.OtherField? <==> FieldOption(entityTypeId, typeLabel, bundleLabel, field).None?
  {
  }

  method AddFieldOptions(options0: PhpArray<string>, entityTypeId: string, typeLabel: string, bundleLabel: string,
                         fields: PhpArray<FieldDef>) returns (options: PhpArray<string>)
    ensures options == FieldOptions(options0, entityTypeId, typeLabel, bundleLabel, fields)
  {
    options := options0;
    var i := 0;
    while i < |fields|
      invariant 0 <= i <= |fields|
      invariant options == FieldOptions(options0, entityTypeId, typeLabel, bundleLabel, fields[..i])
    {
      var field := fields[i];
      match field.1 {
        case BaseField(l) =>
          options := Put(options, entityTypeId + "." + field.0, typeLabel + " - " + l);
        case ConfigField(id, l) =>
          options := Put(options, id, typeLabel + " (" + bundleLabel + ") - " + l);
        case OtherField =>
      }
      assert fields[..i + 1][..i] == fields[..i];
      i := i + 1;
    }
    assert fields[..i] == fields;
  }

  method AddBundleOptions(options0: PhpArray<string>, entityTypeId: string, typeLabel: string,
                          bundles: PhpArray<string>, src: Sources) returns (options: PhpArray<string>)
    ensures options == BundleOptions(options0, entityTypeId, typeLabel, bundles, src)
  {
    options := options0;
    var i := 0;
    while i < |bundles|
      invariant 0 <= i <= |bundles|
      invariant options == BundleOptions(options0, entityTypeId, typeLabel, bundles[..i], src)
    {
      var fields := src.fieldDefinitions(entityTypeId, bundles[i].0);
      options := AddFieldOptions(options, entityTypeId, typeLabel, bundles[i].1, fields);
      assert bundles[..i + 1][..i] == bundles[..i];
      i := i + 1;
    }
    assert bundles[..i] == bundles;
  }

  /** The nested loops of `buildForm` that fill `$options`. */
  method BuildOptions(types: PhpArray<EntityTypeDef>, src: Sources) returns (options: PhpArray<string>)
    ensures options == TypeOptions([], types, src)
  {
    options := [];
    var i := 0;
    while i < |types|
      invariant 0 <= i <= |types|
      invariant options == TypeOptions([], types[..i], src)
    {
      var entityTypeId := types[i].0;
      if types[i].1.isContent {
        var bundles := src.bundleInfo(entityTypeId);
        options := AddBundleOptions(options, entityTypeId, types[i].1.typeLabel, bundles, src);
      }
      assert types[..i + 1][..i] == types[..i];
      i := i + 1;
    }
    assert types[..i] == types;
  }

  // ---------------------------------------------------------------------------
  // submitForm

  /** Every entry of the `entities` checkboxes unticked (set to 0), keys and order kept. */
  function Unticked(entities: PhpArray<Scalar>): (r: PhpArray<Scalar>)
    ensures Keys(r) == Keys(entities)
  {
    seq(|entities|, i requires 0 <= i < |entities| => (entities[i].0, IntVal(0)))
  }

  /** The `entities` value `submitForm` stores. */
  function SubmittedEntities(entities: PhpArray<Scalar>, fieldId: string): PhpArray<Scalar> {
    var entityTypeId := Split(fieldId, {'.'})[0];
    Put(Unticked(entities), entityTypeId, StrVal(entityTypeId))
  }

  /** The `ui_limit` value `submitForm` stores: "<bundle>|*" for a three-piece id, otherwise the submitted one. */
  function SubmittedUiLimit(uiLimit: string, fieldId: string): string {
    var pieces := Split(fieldId, {'.'});
    if |pieces| == 3 then pieces[1] + "|*" else uiLimit
  }

  /**
   * After submission exactly the old keys and the entity type of the chosen
   * field are present; the entity type maps to its own id and every other
   * key to 0.
   */
  lemma SubmittedEntitiesFacts(entities: PhpArray<Scalar>, fieldId: string, k: string)
    requires UniqueKeys(entities)
    ensures var r := SubmittedEntities(entities, fieldId);
      var entityTypeId := Split(fieldId, {'.'})[0];
      && UniqueKeys(r)
      && (HasKey(r, k) <==> HasKey(entities, k) || k == entityTypeId)
      && Get(r, entityTypeId) == Some(StrVal(entityTypeId))
      && (k != entityTypeId && HasKey(entities, k) ==> Get(r, k) == Some(IntVal(0)))
  {
    var z := Unticked(entities);
    var entityTypeId := Split(fieldId, {'.'})[0];
    assert UniqueKeys(z) by {
      forall i, j | 0 <= i < j < |z| ensures z[i].0 != z[j].0 {
        assert z[i].0 == entities[i].0 && z[j].0 == entities[j].0;
      }
    }
    SameKeysIndexOf(z, entities, k);
    PhpArrayLaws.PutHasKey(z, entityTypeId, StrVal(entityTypeId), k);
  }

  /** The entity type of a field id is its first dot-piece: `node` for both `node.title` and `node.article.body`. */
  lemma SubmittedEntityType(entityType: string, bundle: string, field: string)
    requires '.' !in entityType && '.' !in bundle && '.' !in field
    ensures Split(entityType + "." + field, {'.'})[0] == entityType
    ensures Split(entityType + "." + bundle + "." + field, {'.'})[0] == entityType
  {
    SplitTwo(entityType, '.', field);
    SplitThree(entityType, '.', bundle, field);
  }

  /** A configurable-field id limits the field to its bundle; a base-field id leaves the limit as submitted. */
  lemma SubmittedUiLimitCases(uiLimit: string, entityType: string, bundle: string, field: string)
    requires '.' !in entityType && '.' !in bundle && '.' !in field
    ensures SubmittedUiLimit(uiLimit, entityType + "." + bundle + "." + field) == bundle + "|*"
    ensures SubmittedUiLimit(uiLimit, entityType + "." + field) == uiLimit
    ensures SubmittedUiLimit(uiLimit, entityType) == uiLimit
  {
    SplitThree(entityType, '.', bundle, field);
    SplitTwo(entityType, '.', field);
    SplitNoSeparator(entityType, {'.'});
  }

  /** The submitted form values `submitForm` reads and rewrites. */
  class FormState {
    var fieldId: string
    var entities: PhpArray<Scalar>
    var uiLimit: string

    constructor (fieldId: string, entities: PhpArray<Scalar>, uiLimit: string)
      ensures this.fieldId == fieldId && this.entities == entities && this.uiLimit == uiLimit
    {
      this.fieldId := fieldId;
      this.entities := entities;
      this.uiLimit := uiLimit;
    }
  }

  /** `submitForm`, up to the hand-over to the parent form. */
  method SubmitForm(formState: FormState)
    requires UniqueKeys(formState.entities)
    modifies formState
    ensures formState.fieldId == old(formState.fieldId)
    ensures formState.entities == SubmittedEntities(old(formState.entities), old(formState.fieldId))
    ensures formState.uiLimit == SubmittedUiLimit(old(formState.uiLimit), old(formState.fieldId))
  {
    var fieldId := formState.fieldId;
    var pieces := Split(fieldId, {'.'});
    var entityTypeId := pieces[0];
    var entities := Untick(formState.entities);
    entities := Put(entities, entityTypeId, StrVal(entityTypeId));
    formState.entities := entities;
    if |pieces| == 3 {
      var bundleId := pieces[1];
      formState.uiLimit := bundleId + "|*";
    }
  }

  /** The loop of `submitForm` that writes 0 under every key of `entities`. */
  method Untick(entities0: PhpArray<Scalar>) returns (entities: PhpArray<Scalar>)
    requires UniqueKeys(entities0)
    ensures entities == Unticked(entities0)
  {
    entities := entities0;
    var i := 0;
    while i < |entities0|
      invariant 0 <= i <= |entities0| && |entities| == |entities0|
      invariant forall j :: 0 <= j < i ==> entities[j] == (entities0[j].0, IntVal(0))
      invariant forall j :: i <= j < |entities0| ==> entities[j] == entities0[j]
      invariant UniqueKeys(entities)
    {
      var key := entities0[i].0;
      IndexOfUnique(entities, i);
      PhpArrayLaws.PutAtIndex(entities, key, IntVal(0), i);
      entities := Put(entities, key, IntVal(0));
      i := i + 1;
    }
  }

  /** In an array with distinct keys, each key is found at its own position. */
  lemma IndexOfUnique<V>(a: PhpArray<V>, i: int)
    requires UniqueKeys(a) && 0 <= i < |a|
    ensures IndexOf(a, a[i].0) == i
  {
  }
}
