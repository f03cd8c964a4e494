/**
 * The SpamSpan settings trait: reading a setting with defaults merged on
 * demand, and flattening the nested `use_form` settings group on validation.
 */
module SpamspanSettings {
  import opened Php

  /** A PHP value as it appears in plugin settings and form state. */
  datatype Value = Null | Bool(b: bool) | Int(i: int) | Str(s: string) | Arr(entries: PhpArray<Value>)

  /** Every PHP array has distinct keys, at every depth. */
  predicate WellFormed(v: Value)
    decreases v
  {
    v.Arr? ==> UniqueKeys(v.entries) && forall i :: 0 <= i < |v.entries| ==> WellFormed(v.entries[i].1)
  }

  /** `isset($settings[$key]) ? $settings[$key] : NULL`. */
  function Setting(settings: PhpArray<Value>, key: string): (r: Value)
    ensures r != Null <==> Get(settings, key).Some? && Get(settings, key).value != Null
    ensures r != Null ==> Get(settings, key) == Some(r)
  {
    match Get(settings, key)
    case None => Null
    case Some(v) => v
  }

  /** Whether `getSetting($key)` merges the defaults first. */
  predicate MergesDefaults(hasMergeDefaults: bool, defaultSettingsMerged: bool, settings: PhpArray<Value>, key: string) {
    hasMergeDefaults && !defaultSettingsMerged && !HasKey(settings, key)
  }

  /** A plugin using the trait: its settings and, when it has `mergeDefaults`, its defaults. */
  class SettingsPlugin {
    var settings: PhpArray<Value>
    var defaultSettingsMerged: bool
    const hasMergeDefaults: bool
    const defaults: PhpArray<Value>

    constructor (settings: PhpArray<Value>, hasMergeDefaults: bool, defaults: PhpArray<Value>)
      ensures this.settings == settings && !defaultSettingsMerged
      ensures this.hasMergeDefaults == hasMergeDefaults && this.defaults == defaults
    {
      this.settings := settings;
      defaultSettingsMerged := false;
      this.hasMergeDefaults := hasMergeDefaults;
      this.defaults := defaults;
    }

    /** `mergeDefaults()`: `$settings += defaultSettings()`, once. */
    method MergeDefaults()
      requires UniqueKeys(defaults)
      modifies this
      ensures settings == Union(old(settings), defaults) && defaultSettingsMerged
    {
      settings := Union(settings, defaults);
      defaultSettingsMerged := true;
    }

    /** `getSetting($key)`. */
    method GetSetting(key: string) returns (r: Value)
      requires UniqueKeys(defaults)
      modifies this
      ensures var merge := MergesDefaults(hasMergeDefaults, old(defaultSettingsMerged), old(settings), key);
        settings == (if merge then Union(old(settings), defaults) else old(settings))
        && defaultSettingsMerged == (old(defaultSettingsMerged) || merge)
      ensures r == SettingRead(old(settings), old(defaultSettingsMerged), hasMergeDefaults, defaults, key)
    {
      if hasMergeDefaults && !defaultSettingsMerged && !HasKey(settings, key) {
        MergeDefaults();
      }
      r := Setting(settings, key);
    }
  }

  /** The value `getSetting` returns, from the state before the call. */
  function SettingRead(settings: PhpArray<Value>, merged: bool, hasMergeDefaults: bool,
                       defaults: PhpArray<Value>, key: string): Value
    requires UniqueKeys(defaults)
  {
    if MergesDefaults(hasMergeDefaults, merged, settings, key) then Setting(Union(settings, defaults), key)
    else Setting(settings, key)
  }

  /**
   * A stored key is read as stored (NULL when its value is NULL); a missing key
   * reads the default when defaults are still to be merged, and NULL otherwise.
   */
  lemma SettingReadCases(settings: PhpArray<Value>, merged: bool, hasMergeDefaults: bool,
                         defaults: PhpArray<Value>, key: string)
    requires UniqueKeys(defaults)
    ensures HasKey(settings, key) ==> SettingRead(settings, merged, hasMergeDefaults, defaults, key) == Get(settings, key).value
    ensures !HasKey(settings, key) && hasMergeDefaults && !merged ==>
      SettingRead(settings, merged, hasMergeDefaults, defaults, key) == Setting(defaults, key)
    ensures !HasKey(settings, key) && !(hasMergeDefaults && !merged) ==>
      SettingRead(settings, merged, hasMergeDefaults, defaults, key) == Null
  {
    UnionGet(settings, defaults, key);
  }

  /** The settings after `validateSettingsForm`: `use_form` removed and its entries added under the others. */
  function Flattened(settings: PhpArray<Value>, useForm: PhpArray<Value>): PhpArray<Value>
    requires UniqueKeys(useForm)
  {
    Union(Remove(settings, "use_form"), useForm)
  }

  /** The entries of the `use_form` group, when the settings are an array holding one. */
  function UseFormGroup(v: Value): (r: Option<PhpArray<Value>>)
    requires WellFormed(v)
    ensures r.Some? <==> v.Arr? && Get(v.entries, "use_form").Some? && Get(v.entries, "use_form").value.Arr?
    ensures r.Some? ==> UniqueKeys(r.value) && Get(v.entries, "use_form") == Some(Arr(r.value))
  {
    if v.Arr? && Get(v.entries, "use_form").Some? && Get(v.entries, "use_form").value.Arr? then
      var i := IndexOf(v.entries, "use_form");
      assert WellFormed(v.entries[i].1);
      Some(Get(v.entries, "use_form").value.entries)
    else None
  }

  /** The form state, reduced to the value at `filters][filter_spamspan][settings`. */
  class FilterFormState {
    var filterSettings: Value

    constructor (filterSettings: Value)
      ensures this.filterSettings == filterSettings
    {
      this.filterSettings := filterSettings;
    }

    /**
     * `validateSettingsForm`. On an array `+=` needs an array operand, so PHP
     * stops with a fatal error when `use_form` is missing or not an array; on
     * NULL or false, reading and unsetting `use_form` do nothing and `NULL + NULL`
     * stores the integer 0. Any other scalar cannot have an offset unset, which
     * is fatal too. `ok` is false exactly on a fatal error, and nothing changes then.
     */
    method ValidateSettingsForm() returns (ok: bool)
      requires WellFormed(filterSettings)
      modifies this
      ensures ok <==> UseFormGroup(old(filterSettings)).Some? || old(filterSettings) in {Null, Bool(false)}
      ensures UseFormGroup(old(filterSettings)).Some? ==>
        filterSettings == Arr(Flattened(old(filterSettings).entries, UseFormGroup(old(filterSettings)).value))
      ensures old(filterSettings) in {Null, Bool(false)} ==> filterSettings == Int(0)
      ensures !ok ==> filterSettings == old(filterSettings)
    {
      ok := false;
      if filterSettings.Arr? {
        var settings := filterSettings.entries;
        var useForm := Get(settings, "use_form");
        if useForm.Some? && useForm.value.Arr? {
          assert UseFormGroup(filterSettings) == Some(useForm.value.entries);
          settings := Remove(settings, "use_form");
          settings := Union(settings, useForm.value.entries);
          filterSettings := Arr(settings);
          ok := true;
        }
      } else if filterSettings == Null || filterSettings == Bool(false) {
        filterSettings := Int(0);
        ok := true;
      }
    }
  }

  /**
   * After flattening: `use_form` is gone (unless the group itself has that key),
   * every key of the group is present, a key present at both levels keeps its
   * top-level value, every other top-level value is kept, and the remaining
   * top-level entries come first in their order.
   */
  lemma FlattenedSettings(settings: PhpArray<Value>, useForm: PhpArray<Value>, k: string)
    requires UniqueKeys(useForm)
    ensures !HasKey(useForm, "use_form") ==> !HasKey(Flattened(settings, useForm), "use_form")
    ensures HasKey(useForm, k) ==> HasKey(Flattened(settings, useForm), k)
    ensures k != "use_form" && HasKey(settings, k) ==> Get(Flattened(settings, useForm), k) == Get(settings, k)
    ensures k != "use_form" && !HasKey(settings, k) ==> Get(Flattened(settings, useForm), k) == Get(useForm, k)
    ensures Flattened(settings, useForm)[..|Remove(settings, "use_form")|] == Remove(settings, "use_form")
  {
    var rest := Remove(settings, "use_form");
    var r := Flattened(settings, useForm);
    UnionGet(rest, useForm, k);
    if !HasKey(useForm, "use_form") {
      forall i | 0 <= i < |r| ensures r[i].0 != "use_form" {
        assert r[i] in r;
        if r[i] in useForm {
          var j :| 0 <= j < |useForm| && useForm[j] == r[i];
        }
      }
    }
    if HasKey(useForm, k) {
      var i :| 0 <= i < |useForm| && useForm[i].0 == k;
      assert useForm[i] in useForm;
      if HasKey(rest, k) {
        var j :| 0 <= j < |rest| && rest[j].0 == k;
        assert r[j] == rest[j];
      } else {
        assert useForm[i] in r;
      }
    }
    if k != "use_form" {
      RemoveGet(settings, "use_form", k);
      if HasKey(settings, k) {
        assert HasKey(rest, k) by {
          var i := IndexOf(settings, k);
          assert settings[i] in settings;
          assert settings[i] in rest;
        }
      } else {
        forall j | 0 <= j < |rest| ensures rest[j].0 != k {
          assert rest[j] in rest;
          var t :| 0 <= t < |settings| && settings[t] == rest[j];
        }
      }
    }
  }

  /** The complete settings form, reduced to its `#validate` handler list. */
  class CompleteForm {
    var validate: seq<string>

    constructor (validate: seq<string>)
      ensures this.validate == validate
    {
      this.validate := validate;
    }

    /** `processSettingsForm`: registers the validation handler and hands the element back. */
    method ProcessSettingsForm(element: Value) returns (r: Value)
      modifies this
      ensures r == element
      ensures validate == old(validate) + ["validateSettingsForm"]
    {
      validate := validate + ["validateSettingsForm"];
      r := element;
    }
  }
}
