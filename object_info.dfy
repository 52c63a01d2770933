/**
 * The schema normaliser: turns the backend's raw node-definition catalog
 * (`/object_info`) into uniform node schemas with typed input and output
 * slots, and picks the widget kind and default value of an input slot.
 */
module ObjectInfo {
  import opened Wrappers
  import opened Json
  import opened Collections
  import Text

  // ---------------------------------------------------------------------
  // Raw catalog, as the backend serves it
  // ---------------------------------------------------------------------

  /** `string | string[]`: a single type name or an enumerated option list. */
  datatype RawInputType = TypeName(name: string) | OptionList(options: seq<string>)

  /** `[rawType]` (config `None`) or `[rawType, config]`. */
  datatype RawInputSlot = RawInputSlot(rawType: RawInputType, config: Option<Json>)

  /** A JSON object as its `Object.entries`, in enumeration order. */
  type Entries<V> = seq<(string, V)>

  datatype RawInputs = RawInputs(
    required: Option<Entries<RawInputSlot>>,
    optional: Option<Entries<RawInputSlot>>,
    hidden: Option<Entries<RawInputType>>)

  datatype RawInputOrder = RawInputOrder(
    required: Option<seq<string>>,
    optional: Option<seq<string>>,
    hidden: Option<seq<string>>)

  datatype RawObjectInfo = RawObjectInfo(
    input: Option<RawInputs>,
    inputOrder: Option<RawInputOrder>,
    output: Option<seq<string>>,
    outputIsList: Option<seq<bool>>,
    outputName: Option<seq<string>>,
    outputTooltips: Option<seq<string>>,
    name: Option<string>,
    displayName: Option<string>,
    description: Option<string>,
    pythonModule: Option<string>,
    category: Option<string>,
    outputNode: Option<bool>)

  // ---------------------------------------------------------------------
  // Normalised schemas
  // ---------------------------------------------------------------------

  datatype InputGroup = Required | Optional | Hidden

  datatype InputSlot = InputSlot(
    name: string,
    group: InputGroup,
    rawType: RawInputType,
    valueType: Option<string>,
    options: seq<string>,
    config: Json,
    tooltip: Option<string>,
    supportsWidget: bool,
    forceInput: bool)

  datatype OutputSlot = OutputSlot(name: string, outputType: string, isList: bool, tooltip: Option<string>)

  datatype NodeSchema = NodeSchema(
    name: string,
    displayName: string,
    description: string,
    category: string,
    inputs: seq<InputSlot>,
    outputs: seq<OutputSlot>,
    isOutputNode: bool,
    searchValue: string,
    pythonModule: Option<string>)

  type NodeSchemaMap = map<string, NodeSchema>

  datatype NodeCatalogEntry = NodeCatalogEntry(
    name: string, displayName: string, description: string, category: string, searchValue: string)

  datatype WidgetKind = StringWidget | NumberWidget | BooleanWidget | SelectWidget

  datatype WidgetValue = WString(s: string) | WNumber(n: int) | WBoolean(b: bool) | WNull

  datatype WidgetSpec = WidgetSpec(
    kind: WidgetKind, defaultValue: WidgetValue, options: Option<seq<string>>, multiline: Option<bool>)

  /** The primitive types a standalone widget can edit. */
  const ValueWidgetTypes: set<string> := {"INT", "FLOAT", "STRING", "BOOLEAN"}

  // ---------------------------------------------------------------------
  // Records
  // ---------------------------------------------------------------------

  /** `Object.keys(r)`. */
  function KeysOf<V>(r: Entries<V>): (ks: seq<string>)
    ensures |ks| == |r|
    ensures forall i | 0 <= i < |r| :: ks[i] == r[i].0
  {
    if r == [] then [] else [r[0].0] + KeysOf(r[1..])
  }

  /** `r[k]` for a key `k` of `r`. */
  function Lookup<V>(r: Entries<V>, k: string): V
    requires k in KeysOf(r)
  {
    if r[0].0 == k then r[0].1 else Lookup(r[1..], k)
  }

  /** `a[i]`, `undefined` past the end. */
  function At<T>(a: seq<T>, i: nat): Option<T> {
    if i < |a| then Some(a[i]) else None
  }

  // ---------------------------------------------------------------------
  // Input slots
  // ---------------------------------------------------------------------

  /** `config ?? null`. */
  function ConfigOrNull(config: Option<Json>): Json {
    match config
    case None => JNull
    case Some(JUndefined) => JNull
    case Some(c) => c
  }

  /** Normalises one required or optional raw input. */
  function NormalizeInputSlot(name: string, rawSlot: RawInputSlot, group: InputGroup): InputSlot
  {
    var rawType := rawSlot.rawType;
    var config := rawSlot.config.GetOr(JUndefined);
    var options := if rawType.OptionList? then rawType.options else [];
    var valueType := if rawType.TypeName? then Some(rawType.name) else None;
    var supportsWidget :=
      rawType.OptionList? || (if valueType.Some? && valueType.value != "" then valueType.value in ValueWidgetTypes else false);
    InputSlot(
      name, group, rawType, valueType, options, ConfigOrNull(rawSlot.config),
      GetString(config, "tooltip"), supportsWidget, Truthy(Get(config, "forceInput")))
  }

  /**
   * A required or optional slot keeps its name, group and raw type; a list
   * type gives the options and no value type, a name gives the value type
   * and no options; it supports a widget exactly when it has a list type or
   * a primitive value type, is force-input exactly when its config's
   * `forceInput` is truthy, and carries its config's tooltip when that is a
   * string.
   */
  lemma InputSlotPolicy(name: string, rawSlot: RawInputSlot, group: InputGroup)
    ensures var slot := NormalizeInputSlot(name, rawSlot, group);
      && slot.name == name && slot.group == group && slot.rawType == rawSlot.rawType
      && slot.options == (if rawSlot.rawType.OptionList? then rawSlot.rawType.options else [])
      && slot.valueType == (if rawSlot.rawType.TypeName? then Some(rawSlot.rawType.name) else None)
      && (slot.supportsWidget <==> rawSlot.rawType.OptionList? || slot.valueType.value in ValueWidgetTypes)
      && (slot.forceInput <==> Truthy(Get(ConfigOrNull(rawSlot.config), "forceInput")))
      && slot.config == ConfigOrNull(rawSlot.config)
      && slot.tooltip == GetString(rawSlot.config.GetOr(JUndefined), "tooltip")
  {
  }

  /** Normalises one hidden raw input: always wired, never a widget, no config. */
  function NormalizeHiddenInput(name: string, rawType: RawInputType): (slot: InputSlot)
    ensures slot.name == name && slot.group == Hidden && slot.rawType == rawType
    ensures slot.valueType == if rawType.TypeName? then Some(rawType.name) else None
    ensures slot.options == if rawType.OptionList? then rawType.options else []
    ensures !slot.supportsWidget && slot.forceInput && slot.config == JNull && slot.tooltip == None
  {
    InputSlot(
      name, Hidden, rawType,
      if rawType.TypeName? then Some(rawType.name) else None,
      if rawType.OptionList? then rawType.options else [],
      JNull, None, false, true)
  }

  /**
   * The keys of a raw input group in the order the hint gives: the hint's
   * known keys in hint order, then the keys the hint does not name, in
   * their own order. The length shortcut assumes the hint has no
   * duplicates (see OrderedKeysDuplicateHintLosesKey).
   */
  function OrderedKeys(keys: seq<string>, order: Option<seq<string>>): (r: seq<string>)
    ensures forall i | 0 <= i < |r| :: r[i] in keys
    ensures order.None? || order.value == [] ==> r == keys
  {
    if order.None? || order.value == [] then keys
    else
      var ordered := Keep(order.value, keys);
      if |ordered| == |keys| then ordered
      else ordered + Drop(keys, ordered)
  }

  /**
   * With a duplicate-free hint, the result is the hint's known keys followed
   * by the rest, and it is a permutation of the keys.
   */
  lemma OrderedKeysPermutation(keys: seq<string>, order: seq<string>)
    requires NoDuplicates(keys) && NoDuplicates(order) && order != []
    ensures OrderedKeys(keys, Some(order)) == Keep(order, keys) + Drop(keys, Keep(order, keys))
    ensures multiset(OrderedKeys(keys, Some(order))) == multiset(keys)
  {
    var ordered := Keep(order, keys);
    var remaining := Drop(keys, ordered);
    KeepNoDuplicates(order, keys);
    KeepNoDuplicates(keys, ordered);
    // The keys the hint names are exactly the hint's known keys.
    SameElementsSameMultiset(Keep(keys, ordered), ordered);
    KeepDropMultiset(keys, ordered);
    assert multiset(ordered + remaining) == multiset(keys);
    if |ordered| == |keys| {
      assert |multiset(ordered + remaining)| == |ordered| + |remaining|;
      assert remaining == [];
      assert ordered + remaining == ordered;
    }
  }

  /** A duplicated hint entry pushes a key out of the result. */
  lemma OrderedKeysDuplicateHintLosesKey()
    ensures OrderedKeys(["a", "b"], Some(["a", "a"])) == ["a", "a"]
    ensures "b" !in OrderedKeys(["a", "b"], Some(["a", "a"]))
  {
    var keys := ["a", "b"];
    var order := ["a", "a"];
    assert order[1..] == ["a"];
    assert Keep(order, keys) == ["a", "a"];
  }

  /** The slots of one required or optional group, in key order. */
  function GroupSlots(group: Entries<RawInputSlot>, names: seq<string>, g: InputGroup): seq<InputSlot>
    requires forall i | 0 <= i < |names| :: names[i] in KeysOf(group)
  {
    seq(|names|, i requires 0 <= i < |names| => NormalizeInputSlot(names[i], Lookup(group, names[i]), g))
  }

  /** The slots of the hidden group, in key order. */
  function HiddenSlots(group: Entries<RawInputType>, names: seq<string>): seq<InputSlot>
    requires forall i | 0 <= i < |names| :: names[i] in KeysOf(group)
  {
    seq(|names|, i requires 0 <= i < |names| => NormalizeHiddenInput(names[i], Lookup(group, names[i])))
  }

  function RequiredKeys(input: RawInputs, order: Option<RawInputOrder>): seq<string> {
    OrderedKeys(KeysOf(input.required.GetOr([])), if order.Some? then order.value.required else None)
  }

  function OptionalKeys(input: RawInputs, order: Option<RawInputOrder>): seq<string> {
    OrderedKeys(KeysOf(input.optional.GetOr([])), if order.Some? then order.value.optional else None)
  }

  function HiddenKeys(input: RawInputs, order: Option<RawInputOrder>): seq<string> {
    OrderedKeys(KeysOf(input.hidden.GetOr([])), if order.Some? then order.value.hidden else None)
  }

  /** What `normalizeInputs` computes: required, then optional, then hidden slots, one per key. */
  function NormalizedInputs(raw: RawObjectInfo): (inputs: seq<InputSlot>)
    ensures raw.input.None? ==> inputs == []
    ensures raw.input.Some? ==>
      |inputs| == |RequiredKeys(raw.input.value, raw.inputOrder)|
                + |OptionalKeys(raw.input.value, raw.inputOrder)|
                + |HiddenKeys(raw.input.value, raw.inputOrder)|
  {
    match raw.input
    case None => []
    case Some(input) =>
      GroupSlots(input.required.GetOr([]), RequiredKeys(input, raw.inputOrder), Required)
      + GroupSlots(input.optional.GetOr([]), OptionalKeys(input, raw.inputOrder), Optional)
      + HiddenSlots(input.hidden.GetOr([]), HiddenKeys(input, raw.inputOrder))
  }

  function GroupRank(g: InputGroup): nat {
    match g
    case Required => 0
    case Optional => 1
    case Hidden => 2
  }

  /** Slots come group by group: all required, then all optional, then all hidden. */
  predicate GroupsInOrder(inputs: seq<InputSlot>) {
    forall i, j | 0 <= i < j < |inputs| :: GroupRank(inputs[i].group) <= GroupRank(inputs[j].group)
  }

  /** Every slot of a required or optional group is in that group. */
  lemma GroupSlotsInGroup(group: Entries<RawInputSlot>, names: seq<string>, g: InputGroup)
    requires forall i | 0 <= i < |names| :: names[i] in KeysOf(group)
    ensures forall s | s in GroupSlots(group, names, g) :: s.group == g
  {
    var slots := GroupSlots(group, names, g);
    forall s | s in slots
      ensures s.group == g
    {
      var i :| 0 <= i < |slots| && slots[i] == s;
      InputSlotPolicy(names[i], Lookup(group, names[i]), g);
    }
  }

  /** Every hidden slot is in the hidden group, wired, never a widget, and carries no config. */
  lemma HiddenSlotsWired(group: Entries<RawInputType>, names: seq<string>)
    requires forall i | 0 <= i < |names| :: names[i] in KeysOf(group)
    ensures forall s | s in HiddenSlots(group, names) ::
      s.group == Hidden && !s.supportsWidget && s.forceInput && s.config == JNull
  {
  }

  lemma GroupsInOrderConcat(r: seq<InputSlot>, o: seq<InputSlot>, h: seq<InputSlot>)
    requires forall s | s in r :: s.group == Required
    requires forall s | s in o :: s.group == Optional
    requires forall s | s in h :: s.group == Hidden
    ensures GroupsInOrder(r + o + h)
  {
    var all := r + o + h;
    forall i | 0 <= i < |all|
      ensures GroupRank(all[i].group) == if i < |r| then 0 else if i < |r| + |o| then 1 else 2
    {
      if i < |r| {
        assert all[i] == r[i];
      } else if i < |r| + |o| {
        assert all[i] == o[i - |r|];
      } else {
        assert all[i] == h[i - |r| - |o|];
      }
    }
  }

  /** The normalised inputs come group by group: all required, then all optional, then all hidden. */
  lemma NormalizedInputsInGroupOrder(raw: RawObjectInfo)
    ensures GroupsInOrder(NormalizedInputs(raw))
  {
    if raw.input.Some? {
      var input := raw.input.value;
      GroupSlotsInGroup(input.required.GetOr([]), RequiredKeys(input, raw.inputOrder), Required);
      GroupSlotsInGroup(input.optional.GetOr([]), OptionalKeys(input, raw.inputOrder), Optional);
      HiddenSlotsWired(input.hidden.GetOr([]), HiddenKeys(input, raw.inputOrder));
      GroupsInOrderConcat(
        GroupSlots(input.required.GetOr([]), RequiredKeys(input, raw.inputOrder), Required),
        GroupSlots(input.optional.GetOr([]), OptionalKeys(input, raw.inputOrder), Optional),
        HiddenSlots(input.hidden.GetOr([]), HiddenKeys(input, raw.inputOrder)));
    }
  }

  /** Hidden slots are always wired, never widgets, and carry no config. */
  lemma NormalizedHiddenSlotsWired(raw: RawObjectInfo)
    ensures forall s | s in NormalizedInputs(raw) ::
      s.group == Hidden ==> !s.supportsWidget && s.forceInput && s.config == JNull
  {
    if raw.input.Some? {
      var input := raw.input.value;
      GroupSlotsInGroup(input.required.GetOr([]), RequiredKeys(input, raw.inputOrder), Required);
      GroupSlotsInGroup(input.optional.GetOr([]), OptionalKeys(input, raw.inputOrder), Optional);
      HiddenSlotsWired(input.hidden.GetOr([]), HiddenKeys(input, raw.inputOrder));
    }
  }

  /** Normalises the slots of one required or optional group, key by key. */
  method CollectGroup(group: Entries<RawInputSlot>, names: seq<string>, g: InputGroup)
    returns (slots: seq<InputSlot>)
    requires forall i | 0 <= i < |names| :: names[i] in KeysOf(group)
    ensures slots == GroupSlots(group, names, g)
  {
    slots := [];
    for i := 0 to |names|
      invariant slots == GroupSlots(group, names[..i], g)
    {
      var name := names[i];
      slots := slots + [NormalizeInputSlot(name, Lookup(group, name), g)];
      assert slots == GroupSlots(group, names[..i + 1], g) by {
        assert forall k | 0 <= k < i :: names[..i + 1][k] == names[..i][k];
      }
    }
    assert names[..|names|] == names;
  }

  /** Normalises the slots of the hidden group, key by key. */
  method CollectHidden(group: Entries<RawInputType>, names: seq<string>)
    returns (slots: seq<InputSlot>)
    requires forall i | 0 <= i < |names| :: names[i] in KeysOf(group)
    ensures slots == HiddenSlots(group, names)
  {
    slots := [];
    for i := 0 to |names|
      invariant slots == HiddenSlots(group, names[..i])
    {
      var name := names[i];
      slots := slots + [NormalizeHiddenInput(name, Lookup(group, name))];
      assert slots == HiddenSlots(group, names[..i + 1]) by {
        assert forall k | 0 <= k < i :: names[..i + 1][k] == names[..i][k];
      }
    }
    assert names[..|names|] == names;
  }

  /** Flattens the three raw input groups in group order, each in hint order. */
  method NormalizeInputs(raw: RawObjectInfo) returns (inputs: seq<InputSlot>)
    ensures inputs == NormalizedInputs(raw)
  {
    if raw.input.None? {
      return [];
    }
    var input := raw.input.value;
    var required := CollectGroup(input.required.GetOr([]), RequiredKeys(input, raw.inputOrder), Required);
    var optional := CollectGroup(input.optional.GetOr([]), OptionalKeys(input, raw.inputOrder), Optional);
    var hidden := CollectHidden(input.hidden.GetOr([]), HiddenKeys(input, raw.inputOrder));
    inputs := required + optional + hidden;
  }

  // ---------------------------------------------------------------------
  // Output slots
  // ---------------------------------------------------------------------

  /** Zips the four parallel output arrays, position by position. */
  function NormalizeOutputs(raw: RawObjectInfo): (outputs: seq<OutputSlot>)
    ensures |outputs| == |raw.output.GetOr([])|
    ensures forall i | 0 <= i < |outputs| ::
      var types := raw.output.GetOr([]);
      var names := raw.outputName.GetOr([]);
      var lists := raw.outputIsList.GetOr([]);
      var tips := raw.outputTooltips.GetOr([]);
      && outputs[i].outputType == types[i]
      && outputs[i].name == (if i < |names| then names[i] else types[i])
      && (outputs[i].isList <==> i < |lists| && lists[i])
      && outputs[i].tooltip == (if i < |tips| then Some(tips[i]) else None)
  {
    var types := raw.output.GetOr([]);
    var names := raw.outputName.GetOr([]);
    var lists := raw.outputIsList.GetOr([]);
    var tips := raw.outputTooltips.GetOr([]);
    seq(|types|, i requires 0 <= i < |types| =>
      OutputSlot(At(names, i).GetOr(types[i]), types[i], At(lists, i).GetOr(false), At(tips, i)))
  }

  // ---------------------------------------------------------------------
  // Widgets
  // ---------------------------------------------------------------------

  /** `slot.config?.default`. */
  function DeclaredDefault(slot: InputSlot): Json {
    Get(slot.config, "default")
  }

  /** The declared default when it is one of the options, else the first option, else `""`. */
  function ResolveSelectDefault(slot: InputSlot): (r: string)
    ensures slot.options != [] ==> r in slot.options
    ensures slot.options == [] ==> r == ""
    ensures DeclaredDefault(slot).JString? && DeclaredDefault(slot).s in slot.options ==> r == DeclaredDefault(slot).s
    ensures !(DeclaredDefault(slot).JString? && DeclaredDefault(slot).s in slot.options) && slot.options != [] ==>
      r == slot.options[0]
  {
    var d := DeclaredDefault(slot);
    if d.JString? && d.s in slot.options then d.s
    else if slot.options != [] then slot.options[0]
    else ""
  }

  function ResolveNumberDefault(slot: InputSlot): int {
    match DeclaredDefault(slot)
    case JNumber(n) => n
    case _ => 0
  }

  function ResolveStringDefault(slot: InputSlot): string {
    match DeclaredDefault(slot)
    case JString(s) => s
    case _ => ""
  }

  function ResolveBooleanDefault(slot: InputSlot): bool {
    match DeclaredDefault(slot)
    case JBool(b) => b
    case _ => false
  }

  /** The widget an input slot gets, or `None` when it must be wired. */
  function GetWidgetSpec(slot: InputSlot): Option<WidgetSpec> {
    if !slot.supportsWidget || slot.forceInput then None
    else if |slot.options| > 0 then
      Some(WidgetSpec(SelectWidget, WString(ResolveSelectDefault(slot)), Some(slot.options), None))
    else if slot.valueType == Some("STRING") then
      Some(WidgetSpec(StringWidget, WString(ResolveStringDefault(slot)), None, Some(Truthy(Get(slot.config, "multiline")))))
    else if slot.valueType == Some("INT") || slot.valueType == Some("FLOAT") then
      Some(WidgetSpec(NumberWidget, WNumber(ResolveNumberDefault(slot)), None, None))
    else if slot.valueType == Some("BOOLEAN") then
      Some(WidgetSpec(BooleanWidget, WBoolean(ResolveBooleanDefault(slot)), None, None))
    else None
  }

  /** The value a widget of kind `kind` holds. */
  predicate ValueFitsKind(v: WidgetValue, kind: WidgetKind) {
    match kind
    case StringWidget => v.WString?
    case SelectWidget => v.WString?
    case NumberWidget => v.WNumber?
    case BooleanWidget => v.WBoolean?
  }

  /**
   * The widget policy: no widget for a slot that cannot have one or must be
   * wired; a select when there are options, whose default is an option;
   * otherwise the kind follows the primitive type and the default the
   * declared value when it has the right type, else `""`, `0` or `false`.
   * The default always fits the kind.
   */
  lemma WidgetSpecPolicy(slot: InputSlot)
    ensures !slot.supportsWidget || slot.forceInput ==> GetWidgetSpec(slot).None?
    ensures GetWidgetSpec(slot).Some? ==> ValueFitsKind(GetWidgetSpec(slot).value.defaultValue, GetWidgetSpec(slot).value.kind)
    ensures GetWidgetSpec(slot).Some? && GetWidgetSpec(slot).value.kind == SelectWidget ==>
      GetWidgetSpec(slot).value.defaultValue.s in slot.options
    ensures GetWidgetSpec(slot).Some? && GetWidgetSpec(slot).value.kind == SelectWidget ==>
      && GetWidgetSpec(slot).value.defaultValue == WString(ResolveSelectDefault(slot))
      && GetWidgetSpec(slot).value.options == Some(slot.options)
    ensures GetWidgetSpec(slot).Some? && GetWidgetSpec(slot).value.kind == StringWidget ==>
      GetWidgetSpec(slot).value.multiline == Some(Truthy(Get(slot.config, "multiline")))
    ensures slot.supportsWidget && !slot.forceInput ==>
      match GetWidgetSpec(slot)
      case Some(spec) =>
        (spec.kind == SelectWidget <==> slot.options != [])
        && (spec.kind == StringWidget ==>
              slot.valueType == Some("STRING")
              && spec.defaultValue == WString(if DeclaredDefault(slot).JString? then DeclaredDefault(slot).s else ""))
        && (spec.kind == NumberWidget ==>
              slot.valueType in {Some("INT"), Some("FLOAT")}
              && spec.defaultValue == WNumber(if DeclaredDefault(slot).JNumber? then DeclaredDefault(slot).n else 0))
        && (spec.kind == BooleanWidget ==>
              slot.valueType == Some("BOOLEAN")
              && spec.defaultValue == WBoolean(DeclaredDefault(slot).JBool? && DeclaredDefault(slot).b))
      case None =>
        slot.options == [] && slot.valueType !in {Some("STRING"), Some("INT"), Some("FLOAT"), Some("BOOLEAN")}
  {
  }

  /**
   * For a slot the normaliser built, a widget exists exactly when the slot
   * is not force-input and has options or a primitive value type; an empty
   * option list with no value type gives none although it "supports" one.
   */
  lemma NormalizedSlotWidget(name: string, rawSlot: RawInputSlot, group: InputGroup)
    ensures var slot := NormalizeInputSlot(name, rawSlot, group);
      GetWidgetSpec(slot).Some? <==>
        !slot.forceInput && (slot.options != [] || (slot.valueType.Some? && slot.valueType.value in ValueWidgetTypes))
  {
  }

  /** Hidden slots never get a widget. */
  lemma HiddenSlotHasNoWidget(name: string, rawType: RawInputType)
    ensures GetWidgetSpec(NormalizeHiddenInput(name, rawType)).None?
  {
  }

  // ---------------------------------------------------------------------
  // Catalog
  // ---------------------------------------------------------------------

  /** `s?.trim() || fallback`. */
  function TrimmedOr(s: Option<string>, fallback: string): (r: string)
    ensures r == fallback || (s.Some? && r == Text.Trim(s.value) && r != "")
    ensures s.Some? && Text.Trim(s.value) != "" ==> r == Text.Trim(s.value)
    ensures s.None? || Text.Trim(s.value) == "" ==> r == fallback
  {
    if s.Some? && Text.Trim(s.value) != "" then Text.Trim(s.value) else fallback
  }

  /** The name a catalog entry is keyed under: its trimmed `name`, or the catalog key. */
  function SchemaName(key: string, node: RawObjectInfo): string {
    TrimmedOr(node.name, key)
  }

  /** The schema one catalog entry normalises to. */
  function SchemaOf(key: string, node: RawObjectInfo): (schema: NodeSchema)
    ensures schema.name == SchemaName(key, node)
  {
    var name := SchemaName(key, node);
    var displayName := TrimmedOr(node.displayName, name);
    var description := TrimmedOr(node.description, "");
    var category := TrimmedOr(node.category, "");
    NodeSchema(
      name, displayName, description, category,
      NormalizedInputs(node), NormalizeOutputs(node),
      node.outputNode == Some(true),
      SearchValue(displayName, name, description, category),
      node.pythonModule)
  }

  /** `[displayName, name, description, category].filter(Boolean).join(" ")`. */
  function SearchValue(displayName: string, name: string, description: string, category: string): string {
    Text.Join(Text.NonEmptyParts([displayName, name, description, category]), " ")
  }

  /** What `normalizeObjectInfo` computes: entries in order, a later name overwriting an earlier one. */
  function NormalizedObjectInfo(raw: Entries<RawObjectInfo>): NodeSchemaMap {
    if raw == [] then map[]
    else
      var last := raw[|raw| - 1];
      NormalizedObjectInfo(raw[..|raw| - 1])[SchemaName(last.0, last.1) := SchemaOf(last.0, last.1)]
  }

  /** Normalises every catalog entry, keyed by schema name. */
  method NormalizeObjectInfo(raw: Entries<RawObjectInfo>) returns (result: NodeSchemaMap)
    ensures result == NormalizedObjectInfo(raw)
    ensures forall k | k in result :: result[k].name == k
  {
    result := map[];
    for i := 0 to |raw|
      invariant result == NormalizedObjectInfo(raw[..i])
    {
      var (key, node) := raw[i];
      result := result[SchemaName(key, node) := SchemaOf(key, node)];
      assert raw[..i + 1][..i] == raw[..i];
    }
    assert raw[..|raw|] == raw;
    NormalizedKeyedByName(raw);
  }

  /** Every schema is stored under its own name. */
  lemma {:induction false} NormalizedKeyedByName(raw: Entries<RawObjectInfo>)
    ensures forall k | k in NormalizedObjectInfo(raw) :: NormalizedObjectInfo(raw)[k].name == k
  {
    if raw != [] {
      NormalizedKeyedByName(raw[..|raw| - 1]);
    }
  }

  /** The names the entries of a raw catalog normalise to. */
  function EntryNames(raw: Entries<RawObjectInfo>): set<string> {
    set i | 0 <= i < |raw| :: SchemaName(raw[i].0, raw[i].1)
  }

  lemma EntryNamesSnoc(raw: Entries<RawObjectInfo>)
    requires raw != []
    ensures EntryNames(raw) == EntryNames(raw[..|raw| - 1]) + {SchemaName(raw[|raw| - 1].0, raw[|raw| - 1].1)}
  {
    var init := raw[..|raw| - 1];
    var n := |raw| - 1;
    forall k | k in EntryNames(raw)
      ensures k in EntryNames(init) + {SchemaName(raw[n].0, raw[n].1)}
    {
      var i :| 0 <= i < |raw| && SchemaName(raw[i].0, raw[i].1) == k;
      if i < n {
        assert init[i] == raw[i];
      }
    }
    forall k | k in EntryNames(init)
      ensures k in EntryNames(raw)
    {
      var i :| 0 <= i < |init| && SchemaName(init[i].0, init[i].1) == k;
      assert init[i] == raw[i];
    }
  }

  /** The normalised catalog holds one schema per distinct entry name, and no other. */
  lemma {:induction false} NormalizedNames(raw: Entries<RawObjectInfo>)
    ensures NormalizedObjectInfo(raw).Keys == EntryNames(raw)
  {
    if raw != [] {
      NormalizedNames(raw[..|raw| - 1]);
      EntryNamesSnoc(raw);
    }
  }

  /** A name's schema is that of the last entry carrying the name: later entries overwrite earlier ones. */
  lemma {:induction false} NormalizedLastEntryWins(raw: Entries<RawObjectInfo>, i: nat)
    requires i < |raw|
    requires forall j | i < j < |raw| :: SchemaName(raw[j].0, raw[j].1) != SchemaName(raw[i].0, raw[i].1)
    ensures SchemaName(raw[i].0, raw[i].1) in NormalizedObjectInfo(raw)
    ensures NormalizedObjectInfo(raw)[SchemaName(raw[i].0, raw[i].1)] == SchemaOf(raw[i].0, raw[i].1)
  {
    if i < |raw| - 1 {
      var init := raw[..|raw| - 1];
      assert init[i] == raw[i];
      forall j | i < j < |init|
        ensures SchemaName(init[j].0, init[j].1) != SchemaName(init[i].0, init[i].1)
      {
        assert init[j] == raw[j];
      }
      NormalizedLastEntryWins(init, i);
    }
  }

  /** A schema's display name falls back to its name, and its search string holds each non-empty field. */
  lemma SchemaNamesAndSearch(key: string, node: RawObjectInfo)
    ensures var s := SchemaOf(key, node);
      && s.displayName == TrimmedOr(node.displayName, s.name)
      && (s.name != "" ==> s.displayName != "")
      && (forall part | part in [s.displayName, s.name, s.description, s.category] && part != "" ::
            Text.IsInfix(part, s.searchValue))
  {
    var s := SchemaOf(key, node);
    var parts := [s.displayName, s.name, s.description, s.category];
    forall part | part in parts && part != ""
      ensures Text.IsInfix(part, s.searchValue)
    {
      Text.PartIsInfixOfJoin(Text.NonEmptyParts(parts), " ", part);
    }
  }

  /** The catalog entry of a schema: its five display fields. */
  function CatalogEntry(schema: NodeSchema): NodeCatalogEntry {
    NodeCatalogEntry(schema.name, schema.displayName, schema.description, schema.category, schema.searchValue)
  }

  /** `Object.values(schemaMap).map(...)`, as a set: one entry per schema. */
  function BuildNodeCatalog(schemaMap: NodeSchemaMap): (catalog: set<NodeCatalogEntry>)
    ensures forall k | k in schemaMap :: CatalogEntry(schemaMap[k]) in catalog
    ensures forall e | e in catalog :: exists k | k in schemaMap :: e == CatalogEntry(schemaMap[k])
  {
    set k | k in schemaMap :: CatalogEntry(schemaMap[k])
  }

  /** In a catalog keyed by schema name, each entry leads back by name to the schema it shows. */
  lemma CatalogEntryFindsItsSchema(schemaMap: NodeSchemaMap, e: NodeCatalogEntry)
    requires forall k | k in schemaMap :: schemaMap[k].name == k
    requires e in BuildNodeCatalog(schemaMap)
    ensures e.name in schemaMap && CatalogEntry(schemaMap[e.name]) == e
  {
  }
}
