/**
 * The geofield map widget: turning the submitted lon/lat inputs into a WKT
 * point, and choosing the initial lon/lat of the form element.
 */
module GeofieldMapWidget {
  import opened Php

  /** The widget's components, in the order they are checked. */
  const Components: seq<string> := ["lon", "lat"]

  // ---------------------------------------------------------------------------
  // PHP 7 `is_numeric` on a string

  predicate IsDigit(c: char) {
    '0' <= c <= '9'
  }

  /** The whitespace `is_numeric` accepts before a number. */
  const NumericWhitespace: set<char> := {' ', '\t', '\n', '\r', '\U{000B}', '\U{000C}'}

  /** The number of leading decimal digits. */
  function DigitRun(s: string): (n: nat)
    ensures n <= |s|
    ensures forall i :: 0 <= i < n ==> IsDigit(s[i])
    ensures n < |s| ==> !IsDigit(s[n])
    decreases |s|
  {
    if |s| > 0 && IsDigit(s[0]) then 1 + DigitRun(s[1..]) else 0
  }

  function DropSign(s: string): string {
    if |s| > 0 && (s[0] == '+' || s[0] == '-') then s[1..] else s
  }

  /** Nothing, or an exponent: 'e' or 'E', an optional sign and at least one digit. */
  predicate ExponentOrNothing(s: string) {
    s == "" || (s[0] in {'e', 'E'} && var d := DropSign(s[1..]); |d| > 0 && DigitRun(d) == |d|)
  }

  /**
   * Leading whitespace, an optional sign, digits with an optional decimal
   * point (at least one digit overall), an optional exponent, and nothing after.
   */
  predicate IsNumeric(s: string) {
    var u := DropSign(TrimLeft(s, NumericWhitespace));
    var whole := DigitRun(u);
    var afterWhole := u[whole..];
    if |afterWhole| > 0 && afterWhole[0] == '.' then
      var fraction := DigitRun(afterWhole[1..]);
      (whole > 0 || fraction > 0) && ExponentOrNothing(afterWhole[1 + fraction..])
    else
      whole > 0 && ExponentOrNothing(afterWhole)
  }

  // ---------------------------------------------------------------------------
  // massageFormValues

  /** A delta's 'value' entry: the submitted inputs by component name, or the WKT it is rewritten to. */
  datatype DeltaValue = Inputs(inputs: PhpArray<string>) | Wkt(text: string)

  /** One submitted delta: its 'value' entry and its other entries, which are passed through. */
  datatype Delta = Delta(value: DeltaValue, others: PhpArray<string>)

  /** `!empty($v) && is_numeric($v)` for one component; a missing component fails. */
  predicate ComponentOk(inputs: PhpArray<string>, component: string) {
    var v := Get(inputs, component);
    v.Some? && !EmptyStr(v.value) && IsNumeric(v.value)
  }

  predicate AllComponentsOk(inputs: PhpArray<string>) {
    forall j :: 0 <= j < |Components| ==> ComponentOk(inputs, Components[j])
  }

  /** The new 'value' of one delta: the WKT point (longitude first), or "" when a component is unusable. */
  function MassagedValue(inputs: PhpArray<string>, buildPoint: (string, string) -> string): DeltaValue {
    if AllComponentsOk(inputs) then
      assert ComponentOk(inputs, Components[0]) && ComponentOk(inputs, Components[1]);
      Wkt(buildPoint(Get(inputs, "lon").value, Get(inputs, "lat").value))
    else Wkt("")
  }

  /** The component loop of one delta: `ok` is false as soon as a component is unusable. */
  method CheckComponents(inputs: PhpArray<string>) returns (ok: bool)
    ensures ok == AllComponentsOk(inputs)
  {
    var j := 0;
    ok := true;
    while j < |Components| && ok
      invariant 0 <= j <= |Components|
      invariant ok ==> forall c :: 0 <= c < j ==> ComponentOk(inputs, Components[c])
      invariant !ok ==> !AllComponentsOk(inputs)
      decreases |Components| - j, if ok then 1 else 0
    {
      var v := Get(inputs, Components[j]);
      if v.None? || EmptyStr(v.value) || !IsNumeric(v.value) {
        assert !ComponentOk(inputs, Components[j]);
        ok := false;
      } else {
        j := j + 1;
      }
    }
  }

  /** `massageFormValues`: every delta's 'value' is rewritten, nothing else changes. */
  method MassageFormValues(values: seq<Delta>, buildPoint: (string, string) -> string) returns (r: seq<Delta>)
    requires forall d :: 0 <= d < |values| ==> values[d].value.Inputs?
    ensures |r| == |values|
    ensures forall d :: 0 <= d < |r| ==>
      r[d].others == values[d].others && r[d].value == MassagedValue(values[d].value.inputs, buildPoint)
  {
    r := values;
    var delta := 0;
    while delta < |values|
      invariant 0 <= delta <= |values| && |r| == |values|
      invariant forall d :: 0 <= d < delta ==>
        r[d].others == values[d].others && r[d].value == MassagedValue(values[d].value.inputs, buildPoint)
      invariant forall d :: delta <= d < |values| ==> r[d] == values[d]
    {
      var inputs := values[delta].value.inputs;
      var ok := CheckComponents(inputs);
      if !ok {
        r := r[delta := values[delta].(value := Wkt(""))];
      } else {
        assert ComponentOk(inputs, Components[0]) && ComponentOk(inputs, Components[1]);
        var lon := Get(inputs, "lon").value;
        var lat := Get(inputs, "lat").value;
        r := r[delta := values[delta].(value := Wkt(buildPoint(lon, lat)))];
      }
      delta := delta + 1;
    }
  }

  /** Because of `empty()`, a longitude of "0" is treated as missing: the value becomes "". */
  lemma ZeroComponentClears(inputs: PhpArray<string>, buildPoint: (string, string) -> string)
    requires Get(inputs, "lon") == Some("0")
    ensures MassagedValue(inputs, buildPoint) == Wkt("")
  {
    assert !ComponentOk(inputs, Components[0]);
  }

  /** Two non-empty numeric components give the point built from (lon, lat), longitude first. */
  lemma NumericComponentsBuildPoint(inputs: PhpArray<string>, lon: string, lat: string,
                                    buildPoint: (string, string) -> string)
    requires Get(inputs, "lon") == Some(lon) && Get(inputs, "lat") == Some(lat)
    requires !EmptyStr(lon) && IsNumeric(lon) && !EmptyStr(lat) && IsNumeric(lat)
    ensures MassagedValue(inputs, buildPoint) == Wkt(buildPoint(lon, lat))
  {
    assert Components[0] == "lon" && Components[1] == "lat";
    assert ComponentOk(inputs, Components[0]) && ComponentOk(inputs, Components[1]);
    assert AllComponentsOk(inputs);
  }

  // ---------------------------------------------------------------------------
  // formElement: the initial lon/lat

  /**
   * For each component: the stored item value when set, else the widget's
   * 'default_value' setting for it (NULL when that is missing too).
   */
  method InitialLatLon(item: PhpArray<real>, defaults: PhpArray<real>) returns (latlon: PhpArray<Option<real>>)
    ensures Keys(latlon) == Components
    ensures forall j :: 0 <= j < |Components| ==>
      latlon[j].1 == if HasKey(item, Components[j]) then Get(item, Components[j]) else Get(defaults, Components[j])
  {
    latlon := [];
    var j := 0;
    while j < |Components|
      invariant 0 <= j <= |Components|
      invariant Keys(latlon) == Components[..j]
      invariant forall i :: 0 <= i < j ==>
        latlon[i].1 == if HasKey(item, Components[i]) then Get(item, Components[i]) else Get(defaults, Components[i])
    {
      var component := Components[j];
      var v := if HasKey(item, component) then Get(item, component) else Get(defaults, component);
      assert !HasKey(latlon, component) by {
        assert forall i :: 0 <= i < |latlon| ==> latlon[i].0 == Components[i] != component;
      }
      latlon := Put(latlon, component, v);
      assert Keys(latlon) == Components[..j + 1];
      j := j + 1;
    }
  }
}
