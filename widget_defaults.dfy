/** The initial widget values of a freshly added node. */
module WidgetDefaults {
  import opened Wrappers
  import opened Json
  import opened ObjectInfo

  /** What `buildWidgetDefaults` computes: the inputs in order, a later name overwriting an earlier one. */
  function WidgetDefaultsOf(inputs: seq<InputSlot>): map<string, WidgetValue> {
    if inputs == [] then map[]
    else
      var last := inputs[|inputs| - 1];
      var values := WidgetDefaultsOf(inputs[..|inputs| - 1]);
      match GetWidgetSpec(last)
      case None => values
      case Some(spec) => values[last.name := spec.defaultValue]
  }

  /** The default value of every input of `schema` that gets a widget, keyed by input name. */
  method BuildWidgetDefaults(schema: Option<NodeSchema>) returns (values: map<string, WidgetValue>)
    ensures schema.None? ==> values == map[]
    ensures schema.Some? ==> values == WidgetDefaultsOf(schema.value.inputs)
  {
    if schema.None? {
      return map[];
    }
    var inputs := schema.value.inputs;
    values := map[];
    for i := 0 to |inputs|
      invariant values == WidgetDefaultsOf(inputs[..i])
    {
      var input := inputs[i];
      var spec := GetWidgetSpec(input);
      if spec.Some? {
        values := values[input.name := spec.value.defaultValue];
      }
      assert inputs[..i + 1][..i] == inputs[..i];
    }
    assert inputs[..|inputs|] == inputs;
  }

  /** Input `i` is called `k` and gets a widget. */
  predicate WidgetInputAt(inputs: seq<InputSlot>, i: int, k: string) {
    0 <= i < |inputs| && inputs[i].name == k && GetWidgetSpec(inputs[i]).Some?
  }

  /** The defaults hold exactly the names of the inputs that get a widget. */
  lemma {:induction false} WidgetDefaultsKeys(inputs: seq<InputSlot>, k: string)
    ensures k in WidgetDefaultsOf(inputs) <==> exists i :: WidgetInputAt(inputs, i, k)
  {
    if inputs != [] {
      var init := inputs[..|inputs| - 1];
      WidgetDefaultsKeys(init, k);
      if exists i :: WidgetInputAt(init, i, k) {
        var i :| WidgetInputAt(init, i, k);
        assert WidgetInputAt(inputs, i, k);
      }
      if exists i :: WidgetInputAt(inputs, i, k) {
        var i :| WidgetInputAt(inputs, i, k);
        if i < |init| {
          assert WidgetInputAt(init, i, k);
        }
      }
      var last := inputs[|inputs| - 1];
      if k in WidgetDefaultsOf(inputs) && k !in WidgetDefaultsOf(init) {
        assert WidgetInputAt(inputs, |inputs| - 1, k);
      }
    }
  }

  /**
   * A name's value is the default of the last input with that name that gets
   * a widget, and it always fits that widget's kind.
   */
  lemma {:induction false} WidgetDefaultsLastWins(inputs: seq<InputSlot>, i: nat)
    requires i < |inputs| && WidgetInputAt(inputs, i, inputs[i].name)
    requires forall j | i < j < |inputs| :: !WidgetInputAt(inputs, j, inputs[i].name)
    ensures inputs[i].name in WidgetDefaultsOf(inputs)
    ensures WidgetDefaultsOf(inputs)[inputs[i].name] == GetWidgetSpec(inputs[i]).value.defaultValue
    ensures ValueFitsKind(WidgetDefaultsOf(inputs)[inputs[i].name], GetWidgetSpec(inputs[i]).value.kind)
  {
    WidgetSpecPolicy(inputs[i]);
    if i < |inputs| - 1 {
      var init := inputs[..|inputs| - 1];
      assert init[i] == inputs[i];
      forall j | i < j < |init|
        ensures !WidgetInputAt(init, j, init[i].name)
      {
        assert init[j] == inputs[j];
        assert !WidgetInputAt(inputs, j, inputs[i].name);
      }
      assert !WidgetInputAt(inputs, |inputs| - 1, inputs[i].name);
      WidgetDefaultsLastWins(init, i);
    }
  }

  /** A test input: required, typed STRING, supporting a widget, not forced. */
  function TestInput(name: string, valueType: Option<string>, options: seq<string>, config: Json): InputSlot {
    InputSlot(name, Required, TypeName("STRING"), valueType, options, config, None, true, false)
  }

  /** Declared defaults are taken as they are. */
  lemma DeclaredDefaultsExample()
    ensures WidgetDefaultsOf([
      TestInput("int_input", Some("INT"), [], JObject(map["default" := JNumber(42)])),
      TestInput("bool_input", Some("BOOLEAN"), [], JObject(map["default" := JBool(true)])),
      TestInput("string_input", Some("STRING"), [], JObject(map["default" := JString("default text")]))])
      == map["int_input" := WNumber(42), "bool_input" := WBoolean(true), "string_input" := WString("default text")]
  {
    var a := TestInput("int_input", Some("INT"), [], JObject(map["default" := JNumber(42)]));
    var b := TestInput("bool_input", Some("BOOLEAN"), [], JObject(map["default" := JBool(true)]));
    var c := TestInput("string_input", Some("STRING"), [], JObject(map["default" := JString("default text")]));
    assert GetWidgetSpec(a).value.defaultValue == WNumber(42);
    assert GetWidgetSpec(b).value.defaultValue == WBoolean(true);
    assert GetWidgetSpec(c).value.defaultValue == WString("default text");
    assert [a, b, c][..2] == [a, b];
    assert [a, b][..1] == [a];
    assert [a][..0] == [];
    assert WidgetDefaultsOf([a]) == map["int_input" := WNumber(42)];
    assert WidgetDefaultsOf([a, b]) == map["int_input" := WNumber(42), "bool_input" := WBoolean(true)];
  }

  /** A missing config falls back to `0`, `""` and `false`. */
  lemma MissingConfigExample()
    ensures WidgetDefaultsOf([
      TestInput("int_input", Some("INT"), [], JNull),
      TestInput("string_input", Some("STRING"), [], JNull),
      TestInput("bool_input", Some("BOOLEAN"), [], JNull)])
      == map["int_input" := WNumber(0), "string_input" := WString(""), "bool_input" := WBoolean(false)]
  {
    var a := TestInput("int_input", Some("INT"), [], JNull);
    var b := TestInput("string_input", Some("STRING"), [], JNull);
    var c := TestInput("bool_input", Some("BOOLEAN"), [], JNull);
    assert GetWidgetSpec(a).value.defaultValue == WNumber(0);
    assert GetWidgetSpec(b).value.defaultValue == WString("");
    assert GetWidgetSpec(c).value.defaultValue == WBoolean(false);
    assert [a, b, c][..2] == [a, b];
    assert [a, b][..1] == [a];
    assert [a][..0] == [];
    assert WidgetDefaultsOf([a]) == map["int_input" := WNumber(0)];
    assert WidgetDefaultsOf([a, b]) == map["int_input" := WNumber(0), "string_input" := WString("")];
  }

  /** A select takes its declared default when it is an option, else its first option. */
  lemma SelectDefaultsExample()
    ensures WidgetDefaultsOf([TestInput("select_input", None, ["A", "B", "C"], JObject(map["default" := JString("B")]))])
      == map["select_input" := WString("B")]
    ensures WidgetDefaultsOf([TestInput("select_no_default", None, ["X", "Y", "Z"], JObject(map[]))])
      == map["select_no_default" := WString("X")]
  {
    var a := TestInput("select_input", None, ["A", "B", "C"], JObject(map["default" := JString("B")]));
    var b := TestInput("select_no_default", None, ["X", "Y", "Z"], JObject(map[]));
    assert [a][..0] == [];
    assert [b][..0] == [];
  }

  /** Inputs without widget support, and force-input ones, get no value. */
  lemma WiredInputsExample()
    ensures WidgetDefaultsOf([TestInput("model_input", Some("MODEL"), [], JNull).(supportsWidget := false)]) == map[]
    ensures WidgetDefaultsOf([TestInput("forced_input", Some("INT"), [], JObject(map["default" := JNumber(10)])).(forceInput := true)])
      == map[]
  {
    var a := TestInput("model_input", Some("MODEL"), [], JNull).(supportsWidget := false);
    var b := TestInput("forced_input", Some("INT"), [], JObject(map["default" := JNumber(10)])).(forceInput := true);
    assert [a][..0] == [];
    assert [b][..0] == [];
  }
}
