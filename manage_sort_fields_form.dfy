/**
 * The form that manages the sort fields of one search display: its table of
 * sortable fields, the validation of the submitted labels and the saving of
 * one sort setting per row.
 */
module ManageSortFields {
  import opened Php
  import opened PhpArrayLaws
  import opened ConfigIdEscape
  import opened WeightSort
  import opened SortsManager

  /** A field of the search index. */
  datatype IndexField = IndexField(identifier: string, fieldLabel: string, fieldType: string)

  /** One row of the table, keyed by field identifier. */
  datatype FieldRow = FieldRow(
    status: bool,
    defaultSort: bool,
    defaultOrder: string,
    field: string,
    fieldType: string,
    title: string,
    weight: int)

  /** The dummy relevance row; `translate` is `t()`. */
  function RelevanceRow(translate: string -> string): FieldRow {
    FieldRow(false, false, "desc", "Relevance", "decimal", translate("Relevance"), 0)
  }

  /** Full-text and multi-value fields cannot be sorted on. */
  predicate Sortable(f: IndexField) {
    !(f.fieldType == "text" || Occurs(f.fieldType, "list<"))
  }

  function DefaultRow(f: IndexField): FieldRow {
    FieldRow(false, false, "asc", f.fieldLabel, f.fieldType, f.fieldLabel, 0)
  }

  /** Some sortable index field has identifier `k`. */
  predicate SortableField(fields: seq<IndexField>, k: string) {
    exists j :: 0 <= j < |fields| && Sortable(fields[j]) && fields[j].identifier == k
  }

  /**
   * `buildSearchApiSortsFieldsDefaultValues`: the relevance row first, then one
   * disabled, unweighted row per sortable index field.
   */
  function DefaultRows(fields: seq<IndexField>, translate: string -> string): (r: PhpArray<FieldRow>)
    ensures UniqueKeys(r) && |r| >= 1 && r[0].0 == Relevance
    ensures forall e :: e in r ==> !e.1.status && !e.1.defaultSort && e.1.weight == 0
    ensures forall k :: HasKey(r, k) <==> k == Relevance || SortableField(fields, k)
    decreases |fields|
  {
    if fields == [] then [(Relevance, RelevanceRow(translate))]
    else
      var init := fields[..|fields| - 1];
      var f := fields[|fields| - 1];
      var rows := DefaultRows(init, translate);
      assert forall j :: 0 <= j < |init| ==> init[j] == fields[j];
      if Sortable(f) then
        var r := Put(rows, f.identifier, DefaultRow(f));
        PutMembers(rows, f.identifier, DefaultRow(f));
        assert r[0].0 == Relevance by {
          if HasKey(rows, f.identifier) {
            assert Keys(r)[0] == Keys(rows)[0];
          } else {
            assert r[0] == rows[0];
          }
        }
        assert forall k :: HasKey(r, k) <==> k == Relevance || SortableField(fields, k) by {
          forall k ensures HasKey(r, k) <==> k == Relevance || SortableField(fields, k) {
            PutHasKey(rows, f.identifier, DefaultRow(f), k);
            if SortableField(fields, k) && k != f.identifier {
              var j :| 0 <= j < |fields| && Sortable(fields[j]) && fields[j].identifier == k;
              assert j < |init|;
            }
          }
        }
        r
      else
        assert forall k :: SortableField(fields, k) ==> SortableField(init, k) by {
          forall k | SortableField(fields, k) ensures SortableField(init, k) {
            var j :| 0 <= j < |fields| && Sortable(fields[j]) && fields[j].identifier == k;
            assert j < |init|;
          }
        }
        rows
  }

  /**
   * The relevance row stays as built unless a sortable index field is itself
   * called `search_api_relevance`; every other sortable field gets the row of
   * the last sortable field with its identifier.
   */
  lemma {:induction false} DefaultRowsValues(fields: seq<IndexField>, translate: string -> string, j: int)
    ensures !SortableField(fields, Relevance) ==> Get(DefaultRows(fields, translate), Relevance) == Some(RelevanceRow(translate))
    ensures 0 <= j < |fields| && Sortable(fields[j])
        && (forall t :: j < t < |fields| && Sortable(fields[t]) ==> fields[t].identifier != fields[j].identifier)
      ==> Get(DefaultRows(fields, translate), fields[j].identifier) == Some(DefaultRow(fields[j]))
    decreases |fields|
  {
    if fields != [] {
      var init := fields[..|fields| - 1];
      assert forall t :: 0 <= t < |init| ==> init[t] == fields[t];
      assert SortableField(init, Relevance) ==> SortableField(fields, Relevance) by {
        if SortableField(init, Relevance) {
          var t :| 0 <= t < |init| && Sortable(init[t]) && init[t].identifier == Relevance;
          assert fields[t] == init[t];
        }
      }
      DefaultRowsValues(init, translate, j);
    }
  }

  /** The loop building the default table. */
  method BuildDefaults(fields: seq<IndexField>, translate: string -> string) returns (rows: PhpArray<FieldRow>)
    ensures rows == DefaultRows(fields, translate)
  {
    rows := [(Relevance, RelevanceRow(translate))];
    var i := 0;
    while i < |fields|
      invariant 0 <= i <= |fields|
      invariant rows == DefaultRows(fields[..i], translate)
    {
      assert fields[..i + 1][..i] == fields[..i];
      var f := fields[i];
      if !(f.fieldType == "text" || Occurs(f.fieldType, "list<")) {
        rows := Put(rows, f.identifier, FieldRow(false, false, "asc", f.fieldLabel, f.fieldType, f.fieldLabel, 0));
      }
      i := i + 1;
    }
    assert fields[..i] == fields;
  }

  /** The stored values a saved sort setting brings into its row; `field` and `type` stay. */
  function Overlay(row: FieldRow, e: SortEntity): FieldRow {
    row.(status := e.status, defaultSort := e.defaultSort, defaultOrder := e.defaultOrder,
         title := e.displayLabel, weight := e.weight)
  }

  /** The overlay loop of `fillSearchApiSortsFieldsValues`: only identifiers already in the table are touched. */
  function Overlaid(rows: PhpArray<FieldRow>, loaded: seq<SortEntity>): (r: PhpArray<FieldRow>)
    ensures Keys(r) == Keys(rows)
    ensures forall i :: 0 <= i < |r| ==> r[i].1.field == rows[i].1.field && r[i].1.fieldType == rows[i].1.fieldType
    decreases |loaded|
  {
    if loaded == [] then rows
    else
      var r := Overlaid(rows, loaded[..|loaded| - 1]);
      var e := loaded[|loaded| - 1];
      var i := IndexOf(r, e.fieldIdentifier);
      if i == -1 then r
      else
        PutAtIndex(r, e.fieldIdentifier, Overlay(r[i].1, e), i);
        Put(r, e.fieldIdentifier, Overlay(r[i].1, e))
  }

  /** The last loaded setting touches only its own identifier's row, and only when that row exists. */
  lemma OverlaidLastStep(rows: PhpArray<FieldRow>, loaded: seq<SortEntity>, k: string)
    requires loaded != []
    ensures var r := Overlaid(rows, loaded[..|loaded| - 1]);
      var e := loaded[|loaded| - 1];
      && (e.fieldIdentifier != k ==> Get(Overlaid(rows, loaded), k) == Get(r, k))
      && (e.fieldIdentifier == k && Get(r, k).Some? ==> Get(Overlaid(rows, loaded), k) == Some(Overlay(Get(r, k).value, e)))
  {
  }

  /** Overlaying keeps 'field' and 'type', so it does not matter which earlier values a row had. */
  lemma OverlayForgetsEarlier(rows: PhpArray<FieldRow>, init: seq<SortEntity>, k: string, row: FieldRow, e: SortEntity)
    requires Get(rows, k) == Some(row)
    ensures Get(Overlaid(rows, init), k).Some?
    ensures Overlay(Get(Overlaid(rows, init), k).value, e) == Overlay(row, e)
  {
    var r := Overlaid(rows, init);
    SameKeysIndexOf(rows, r, k);
    var i := IndexOf(rows, k);
    assert r[i].1.field == rows[i].1.field && r[i].1.fieldType == rows[i].1.fieldType;
  }

  /** A row that no loaded setting names keeps its own values. */
  lemma {:induction false} OverlaidKeepsRow(rows: PhpArray<FieldRow>, loaded: seq<SortEntity>, k: string, row: FieldRow)
    requires Get(rows, k) == Some(row)
    requires forall t :: 0 <= t < |loaded| ==> loaded[t].fieldIdentifier != k
    ensures Get(Overlaid(rows, loaded), k) == Some(row)
    decreases |loaded|
  {
    if loaded != [] {
      var init := loaded[..|loaded| - 1];
      OverlaidLastStep(rows, loaded, k);
      assert forall t :: 0 <= t < |init| ==> init[t] == loaded[t];
      OverlaidKeepsRow(rows, init, k, row);
    }
  }

  /** A row takes the values of the last loaded setting with its identifier. */
  lemma {:induction false} OverlaidLastWins(rows: PhpArray<FieldRow>, loaded: seq<SortEntity>, k: string, row: FieldRow, j: int)
    requires Get(rows, k) == Some(row)
    requires 0 <= j < |loaded| && loaded[j].fieldIdentifier == k
    requires forall t :: j < t < |loaded| ==> loaded[t].fieldIdentifier != k
    ensures Get(Overlaid(rows, loaded), k) == Some(Overlay(row, loaded[j]))
    decreases |loaded|
  {
    var n := |loaded| - 1;
    var init := loaded[..n];
    OverlaidLastStep(rows, loaded, k);
    if j == n {
      OverlayForgetsEarlier(rows, init, k, row, loaded[n]);
    } else {
      assert loaded[n].fieldIdentifier != k;
      assert forall t :: 0 <= t < n ==> init[t] == loaded[t];
      OverlaidLastWins(rows, init, k, row, j);
    }
  }

  /** The settings saved for a display, in storage order (`loadByProperties` on `display_id`). */
  function LoadByDisplay(entities: PhpArray<SortEntity>, escapedDisplayId: string): (r: PhpArray<SortEntity>)
    ensures forall e :: e in r <==> e in entities && e.1.displayId == escapedDisplayId
    ensures UniqueKeys(entities) ==> UniqueKeys(r)
    ensures KeyedById(entities) ==> KeyedById(r)
    decreases |entities|
  {
    if entities == [] then []
    else
      var rest := LoadByDisplay(entities[1..], escapedDisplayId);
      assert entities == [entities[0]] + entities[1..];
      if entities[0].1.displayId == escapedDisplayId then
        assert UniqueKeys(entities) ==> UniqueKeys([entities[0]] + rest) by {
          if UniqueKeys(entities) {
            forall i, j | 0 <= i < j < |[entities[0]] + rest| ensures ([entities[0]] + rest)[i].0 != ([entities[0]] + rest)[j].0 {
              if i == 0 {
                assert ([entities[0]] + rest)[j] in entities[1..];
              }
            }
          }
        }
        [entities[0]] + rest
      else rest
  }

  function EntityValues(entities: PhpArray<SortEntity>): seq<SortEntity> {
    seq(|entities|, i requires 0 <= i < |entities| => entities[i].1)
  }

  function FieldRowWeight(row: FieldRow): int {
    row.weight
  }

  /** `getSearchApiSortsFieldsValues`: the default table, overlaid with the display's saved settings, ordered by weight. */
  function FieldsValues(fields: seq<IndexField>, translate: string -> string,
                        entities: PhpArray<SortEntity>, displayPluginId: string): PhpArray<FieldRow>
  {
    var loaded := LoadByDisplay(entities, EscapedConfigId(displayPluginId));
    SortByWeight(Overlaid(DefaultRows(fields, translate), EntityValues(loaded)), FieldRowWeight)
  }

  /** The table has the relevance row and one row per sortable field, ordered by weight, with distinct keys. */
  lemma FieldsValuesShape(fields: seq<IndexField>, translate: string -> string,
                          entities: PhpArray<SortEntity>, displayPluginId: string)
    ensures var r := FieldsValues(fields, translate, entities, displayPluginId);
      && UniqueKeys(r)
      && SortedByWeight(r, FieldRowWeight)
      && (forall k :: HasKey(r, k) <==> k == Relevance || SortableField(fields, k))
  {
    var d := DefaultRows(fields, translate);
    var loaded := LoadByDisplay(entities, EscapedConfigId(displayPluginId));
    var o := Overlaid(d, EntityValues(loaded));
    assert forall k :: HasKey(o, k) <==> HasKey(d, k) by {
      forall k ensures HasKey(o, k) <==> HasKey(d, k) {
        if HasKey(o, k) {
          var i :| 0 <= i < |o| && o[i].0 == k;
          assert Keys(o)[i] == Keys(d)[i];
        }
        if HasKey(d, k) {
          var i :| 0 <= i < |d| && d[i].0 == k;
          assert Keys(o)[i] == Keys(d)[i];
        }
      }
    }
    assert UniqueKeys(o) by {
      forall i, j | 0 <= i < j < |o| ensures o[i].0 != o[j].0 {
        assert Keys(o)[i] == Keys(d)[i] && Keys(o)[j] == Keys(d)[j];
      }
    }
    SortKeepsRows(o, FieldRowWeight);
    PermutationKeepsUniqueKeys(o, SortByWeight(o, FieldRowWeight));
  }

  /** One more loaded setting: it overlays its identifier's row when the table has one. */
  lemma OverlaidPrefixStep(rows: PhpArray<FieldRow>, loaded: seq<SortEntity>, i: int)
    requires 0 <= i < |loaded|
    ensures var r := Overlaid(rows, loaded[..i]);
      var e := loaded[i];
      var at := IndexOf(r, e.fieldIdentifier);
      Overlaid(rows, loaded[..i + 1]) == if at == -1 then r else Put(r, e.fieldIdentifier, Overlay(r[at].1, e))
  {
    assert loaded[..i + 1][..i] == loaded[..i];
    assert loaded[..i + 1][i] == loaded[i];
  }

  /** The overlay loop followed by `uasort`. */
  method FillValues(rows: PhpArray<FieldRow>, entities: PhpArray<SortEntity>, displayPluginId: string)
    returns (filled: PhpArray<FieldRow>)
    ensures filled == SortByWeight(Overlaid(rows, EntityValues(LoadByDisplay(entities, EscapedConfigId(displayPluginId)))), FieldRowWeight)
  {
    var loaded := EntityValues(LoadByDisplay(entities, EscapedConfigId(displayPluginId)));
    filled := rows;
    var i := 0;
    while i < |loaded|
      invariant 0 <= i <= |loaded|
      invariant filled == Overlaid(rows, loaded[..i])
    {
      OverlaidPrefixStep(rows, loaded, i);
      var e := loaded[i];
      var at := IndexOf(filled, e.fieldIdentifier);
      if at != -1 {
        var row := filled[at].1;
        filled := Put(filled, e.fieldIdentifier,
                      row.(status := e.status, defaultSort := e.defaultSort, defaultOrder := e.defaultOrder,
                           title := e.displayLabel, weight := e.weight));
        assert filled == Put(Overlaid(rows, loaded[..i]), e.fieldIdentifier, Overlay(row, e));
      }
      i := i + 1;
    }
    assert loaded[..i] == loaded;
    filled := SortByWeight(filled, FieldRowWeight);
  }

  /** `getSearchApiSortsFieldsValues`, as the form calls it. */
  method GetFieldsValues(fields: seq<IndexField>, translate: string -> string,
                         entities: PhpArray<SortEntity>, displayPluginId: string) returns (rows: PhpArray<FieldRow>)
    ensures rows == FieldsValues(fields, translate, entities, displayPluginId)
  {
    rows := BuildDefaults(fields, translate);
    rows := FillValues(rows, entities, displayPluginId);
  }

  // ---------------------------------------------------------------------------
  // validateForm

  /** A submitted row of the table. */
  datatype SubmittedRow = SubmittedRow(status: bool, defaultOrder: string, title: string, weight: int)

  datatype LabelError = EmptyLabel | LabelTooLong(tooLong: string, count: nat)

  /** The error set on one row, if any; `|title|` stands for `strlen`. */
  function RowError(v: SubmittedRow): (r: Option<LabelError>)
    ensures r.Some? <==> v.status && (EmptyStr(v.title) || |v.title| > 80)
    ensures r == Some(EmptyLabel) <==> v.status && EmptyStr(v.title)
  {
    if !v.status then None
    else if EmptyStr(v.title) then Some(EmptyLabel)
    else if |v.title| > 80 then Some(LabelTooLong(v.title, |v.title|))
    else None
  }

  /** The name of the label element of row `key`. */
  function LabelElement(key: string): string {
    "sorts][" + key + "][label"
  }

  /** The errors of `validateForm`, in row order. */
  function FormErrors(values: PhpArray<SubmittedRow>): (r: seq<(string, LabelError)>)
    ensures |r| <= |values|
    decreases |values|
  {
    if values == [] then []
    else
      var init := FormErrors(values[..|values| - 1]);
      var last := values[|values| - 1];
      match RowError(last.1)
      case Some(err) => init + [(LabelElement(last.0), err)]
      case None => init
  }

  /** The error of row `i`, on its label element. */
  predicate ErrorOfRow(values: PhpArray<SubmittedRow>, i: int, e: (string, LabelError))
    requires 0 <= i < |values|
  {
    RowError(values[i].1) == Some(e.1) && e.0 == LabelElement(values[i].0)
  }

  /** Exactly the enabled rows with an empty or too long label get an error, on their label element. */
  lemma {:induction false} FormErrorsRows(values: PhpArray<SubmittedRow>)
    ensures forall e :: e in FormErrors(values) ==> exists i :: 0 <= i < |values| && ErrorOfRow(values, i, e)
    ensures forall i :: 0 <= i < |values| && RowError(values[i].1).Some? ==>
      (LabelElement(values[i].0), RowError(values[i].1).value) in FormErrors(values)
    ensures FormErrors(values) == [] <==> forall i :: 0 <= i < |values| ==> RowError(values[i].1).None?
    decreases |values|
  {
    if values != [] {
      var init := values[..|values| - 1];
      assert forall i :: 0 <= i < |init| ==> init[i] == values[i];
      FormErrorsRows(init);
      forall e | e in FormErrors(values) ensures exists i :: 0 <= i < |values| && ErrorOfRow(values, i, e) {
        if e in FormErrors(init) {
          var i :| 0 <= i < |init| && ErrorOfRow(init, i, e);
          assert ErrorOfRow(values, i, e);
        } else {
          assert ErrorOfRow(values, |values| - 1, e);
        }
      }
    }
  }

  /** An error names its row: two different keys never share a label element. */
  lemma LabelElementInjective(a: string, b: string)
    requires LabelElement(a) == LabelElement(b)
    ensures a == b
  {
    var p := "sorts][";
    var s := "][label";
    assert LabelElement(a) == p + (a + s);
    assert LabelElement(b) == p + (b + s);
    assert (p + (a + s))[|p|..] == a + s;
    assert (p + (b + s))[|p|..] == b + s;
    assert a == (a + s)[..|a|];
    assert b == (b + s)[..|b|];
  }

  /** `validateForm`. */
  method ValidateForm(values: PhpArray<SubmittedRow>) returns (errors: seq<(string, LabelError)>)
    ensures errors == FormErrors(values)
  {
    errors := [];
    var i := 0;
    while i < |values|
      invariant 0 <= i <= |values|
      invariant errors == FormErrors(values[..i])
    {
      assert values[..i + 1][..i] == values[..i];
      var key := values[i].0;
      var v := values[i].1;
      if v.status {
        if v.title == "" || v.title == "0" {
          errors := errors + [("sorts][" + key + "][label", EmptyLabel)];
        } else if |v.title| > 80 {
          errors := errors + [("sorts][" + key + "][label", LabelTooLong(v.title, |v.title|))];
        }
      }
      i := i + 1;
    }
    assert values[..i] == values;
  }

  // ---------------------------------------------------------------------------
  // submitForm

  /** The configuration storage of the sort settings, keyed by config id. */
  class SortsFieldStorage {
    var entities: PhpArray<SortEntity>

    constructor (entities: PhpArray<SortEntity>)
      ensures this.entities == entities
    {
      this.entities := entities;
    }

    /** `save()`: stores the entity under its id. */
    method Save(e: SortEntity)
      modifies this
      ensures entities == Put(old(entities), e.id, e)
    {
      entities := Put(entities, e.id, e);
    }
  }

  /** The config id of row `key`. */
  function RowConfigId(escapedDisplayId: string, key: string): string {
    escapedDisplayId + "_" + key
  }

  /** The entity saved for one submitted row: the loaded one with that id, or a new one, with the row's values set. */
  function SubmittedEntity(loaded: PhpArray<SortEntity>, escapedDisplayId: string, key: string,
                           v: SubmittedRow, radio: Option<string>): (r: SortEntity)
    ensures r.status == v.status && r.defaultOrder == v.defaultOrder && r.displayLabel == v.title && r.weight == v.weight
    ensures r.defaultSort <==> LooseEq(key, radio)
    ensures !HasKey(loaded, RowConfigId(escapedDisplayId, key)) ==>
      r.id == RowConfigId(escapedDisplayId, key) && r.fieldIdentifier == key && r.displayId == escapedDisplayId
    ensures HasKey(loaded, RowConfigId(escapedDisplayId, key)) ==>
      var old_ := Get(loaded, RowConfigId(escapedDisplayId, key)).value;
      r.id == old_.id && r.fieldIdentifier == old_.fieldIdentifier && r.displayId == old_.displayId
  {
    var id := RowConfigId(escapedDisplayId, key);
    var base := match Get(loaded, id)
      case Some(e) => e
      case None => SortEntity(id, false, escapedDisplayId, key, false, "", "", 0);
    base.(status := v.status, defaultSort := LooseEq(key, radio), defaultOrder := v.defaultOrder,
          displayLabel := v.title, weight := v.weight)
  }

  /** The storage after the rows `values` were saved one by one. */
  function AfterSubmit(entities: PhpArray<SortEntity>, loaded: PhpArray<SortEntity>, escapedDisplayId: string,
                       values: PhpArray<SubmittedRow>, radio: Option<string>): PhpArray<SortEntity>
    decreases |values|
  {
    if values == [] then entities
    else
      var last := values[|values| - 1];
      var e := SubmittedEntity(loaded, escapedDisplayId, last.0, last.1, radio);
      Put(AfterSubmit(entities, loaded, escapedDisplayId, values[..|values| - 1], radio), e.id, e)
  }

  lemma AfterSubmitStep(entities: PhpArray<SortEntity>, loaded: PhpArray<SortEntity>, escapedDisplayId: string,
                        values: PhpArray<SubmittedRow>, radio: Option<string>, i: int)
    requires 0 <= i < |values|
    ensures var e := SubmittedEntity(loaded, escapedDisplayId, values[i].0, values[i].1, radio);
      AfterSubmit(entities, loaded, escapedDisplayId, values[..i + 1], radio)
        == Put(AfterSubmit(entities, loaded, escapedDisplayId, values[..i], radio), e.id, e)
  {
    assert values[..i + 1][..i] == values[..i];
  }

  /** The body of the submit loop for one row: load or create the entity, set its values, save it. */
  method SubmitRow(storage: SortsFieldStorage, loaded: PhpArray<SortEntity>, escaped: string,
                   key: string, v: SubmittedRow, radio: Option<string>)
    modifies storage
    ensures var e := SubmittedEntity(loaded, escaped, key, v, radio);
      storage.entities == Put(old(storage.entities), e.id, e)
  {
    var entity: SortEntity;
    var id := escaped + "_" + key;
    if HasKey(loaded, id) {
      entity := Get(loaded, id).value;
    } else {
      entity := SortEntity(id, false, escaped, key, false, "", "", 0);
    }
    entity := entity.(status := v.status, defaultSort := LooseEq(key, radio));
    entity := entity.(defaultOrder := v.defaultOrder, displayLabel := v.title, weight := v.weight);
    storage.Save(entity);
  }

  /** `submitForm`: saves one sort setting per submitted row. */
  method SubmitForm(storage: SortsFieldStorage, displayPluginId: string, values: PhpArray<SubmittedRow>, radio: Option<string>)
    modifies storage
    ensures var escaped := EscapedConfigId(displayPluginId);
      storage.entities == AfterSubmit(old(storage.entities), LoadByDisplay(old(storage.entities), escaped), escaped, values, radio)
  {
    var escaped := EscapedConfigId(displayPluginId);
    var loaded := LoadByDisplay(storage.entities, escaped);
    ghost var start := storage.entities;
    var i := 0;
    while i < |values|
      invariant 0 <= i <= |values|
      invariant storage.entities == AfterSubmit(start, loaded, escaped, values[..i], radio)
    {
      AfterSubmitStep(start, loaded, escaped, values, radio, i);
      SubmitRow(storage, loaded, escaped, values[i].0, values[i].1, radio);
      i := i + 1;
    }
    assert values[..i] == values;
  }

  /** Every stored entity sits under its own id. */
  predicate KeyedById(entities: PhpArray<SortEntity>) {
    forall t :: 0 <= t < |entities| ==> entities[t].0 == entities[t].1.id
  }

  lemma RowConfigIdInjective(escapedDisplayId: string, a: string, b: string)
    requires RowConfigId(escapedDisplayId, a) == RowConfigId(escapedDisplayId, b)
    ensures a == b
  {
    var p := escapedDisplayId + "_";
    assert RowConfigId(escapedDisplayId, a) == p + a;
    assert RowConfigId(escapedDisplayId, b) == p + b;
    assert (p + a)[|p|..] == a;
    assert (p + b)[|p|..] == b;
  }

  /** With the loaded entities under their own ids, a row's entity has the row's config id. */
  lemma SubmittedEntityId(loaded: PhpArray<SortEntity>, escapedDisplayId: string, key: string,
                          v: SubmittedRow, radio: Option<string>)
    requires KeyedById(loaded)
    ensures SubmittedEntity(loaded, escapedDisplayId, key, v, radio).id == RowConfigId(escapedDisplayId, key)
  {
    var id := RowConfigId(escapedDisplayId, key);
    if HasKey(loaded, id) {
      var t := IndexOf(loaded, id);
      assert loaded[t].0 == loaded[t].1.id;
    }
  }

  /** After a submit the config id of row `i` holds the entity built from that row. */
  lemma {:induction false} SubmitSavesRow(entities: PhpArray<SortEntity>, loaded: PhpArray<SortEntity>, escapedDisplayId: string,
                                          values: PhpArray<SubmittedRow>, radio: Option<string>, i: int)
    requires KeyedById(loaded) && UniqueKeys(values) && 0 <= i < |values|
    ensures Get(AfterSubmit(entities, loaded, escapedDisplayId, values, radio), RowConfigId(escapedDisplayId, values[i].0))
      == Some(SubmittedEntity(loaded, escapedDisplayId, values[i].0, values[i].1, radio))
    decreases |values|
  {
    var n := |values| - 1;
    var init := values[..n];
    var prev := AfterSubmit(entities, loaded, escapedDisplayId, init, radio);
    var e := SubmittedEntity(loaded, escapedDisplayId, values[n].0, values[n].1, radio);
    var key := RowConfigId(escapedDisplayId, values[i].0);
    assert AfterSubmit(entities, loaded, escapedDisplayId, values, radio) == Put(prev, e.id, e);
    SubmittedEntityId(loaded, escapedDisplayId, values[n].0, values[n].1, radio);
    if i < n {
      assert init[i] == values[i];
      UniqueKeysPrefix(values, n);
      SubmitSavesRow(entities, loaded, escapedDisplayId, init, radio, i);
      assert values[i].0 != values[n].0;
      if key == e.id {
        RowConfigIdInjective(escapedDisplayId, values[i].0, values[n].0);
      }
      assert Get(Put(prev, e.id, e), key) == Get(prev, key);
    } else {
      assert Get(Put(prev, e.id, e), e.id) == Some(e);
    }
  }

  /** A prefix of a PHP array has distinct keys when the array has. */
  lemma UniqueKeysPrefix<V>(values: PhpArray<V>, n: int)
    requires UniqueKeys(values) && 0 <= n <= |values|
    ensures UniqueKeys(values[..n])
  {
    assert forall a :: 0 <= a < n ==> values[..n][a] == values[a];
  }

  /** A submit changes no config id other than those of its rows. */
  lemma {:induction false} SubmitKeepsOthers(entities: PhpArray<SortEntity>, loaded: PhpArray<SortEntity>, escapedDisplayId: string,
                                             values: PhpArray<SubmittedRow>, radio: Option<string>, id: string)
    requires KeyedById(loaded)
    requires forall i :: 0 <= i < |values| ==> id != RowConfigId(escapedDisplayId, values[i].0)
    ensures Get(AfterSubmit(entities, loaded, escapedDisplayId, values, radio), id) == Get(entities, id)
    decreases |values|
  {
    if values != [] {
      var n := |values| - 1;
      var init := values[..n];
      assert forall i :: 0 <= i < n ==> init[i] == values[i];
      SubmitKeepsOthers(entities, loaded, escapedDisplayId, init, radio, id);
      SubmittedEntityId(loaded, escapedDisplayId, values[n].0, values[n].1, radio);
    }
  }

  /** The entity stored under `id` is a default sort. */
  predicate IsDefaultAt(entities: PhpArray<SortEntity>, id: string) {
    match Get(entities, id)
    case Some(e) => e.defaultSort
    case None => false
  }

  /** The radio value makes at most one of the submitted rows' entities the default sort. */
  lemma AtMostOneDefault(entities: PhpArray<SortEntity>, loaded: PhpArray<SortEntity>, escapedDisplayId: string,
                         values: PhpArray<SubmittedRow>, radio: Option<string>)
    requires KeyedById(loaded) && UniqueKeys(values)
    ensures var after := AfterSubmit(entities, loaded, escapedDisplayId, values, radio);
      forall i, j :: 0 <= i < j < |values| ==>
        !(IsDefaultAt(after, RowConfigId(escapedDisplayId, values[i].0))
          && IsDefaultAt(after, RowConfigId(escapedDisplayId, values[j].0)))
  {
    forall i | 0 <= i < |values|
      ensures Get(AfterSubmit(entities, loaded, escapedDisplayId, values, radio), RowConfigId(escapedDisplayId, values[i].0))
        == Some(SubmittedEntity(loaded, escapedDisplayId, values[i].0, values[i].1, radio))
    {
      SubmitSavesRow(entities, loaded, escapedDisplayId, values, radio, i);
    }
  }
}
