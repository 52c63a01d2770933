/**
 * The schema-level part of connection autosnap: while a connection is being
 * dragged over a node, pick the first slot of that node that fits the
 * dragged handle and build the connection the drop would create.
 */
module ConnectionAutosnap {
  import opened Wrappers
  import opened Collections
  import opened ObjectInfo
  import opened GraphValidation

  /** Which side of a connection a handle is. */
  datatype HandleType = SourceHandle | TargetHandle

  datatype HandlePosition = Left | Right

  /** The handle a drag started from: its id and its type, either of which may be missing. */
  datatype FromHandle = FromHandle(id: Option<string>, handleType: Option<HandleType>)

  /** The connection in progress: the node and the handle it was dragged from. */
  datatype DragState = DragState(fromNode: Option<GraphNode>, fromHandle: Option<FromHandle>)

  /** The handle the drag snaps to, with the placeholder geometry the candidate carries. */
  datatype SnapHandle = SnapHandle(
    id: string, nodeId: string, handleType: HandleType, position: HandlePosition,
    x: int, y: int, width: int, height: int)

  datatype SnapCandidate = SnapCandidate(connection: GraphEdge, handle: SnapHandle)

  /** An input a connection carrying `outputType` can attach to: visible, with exactly that value type. */
  predicate TakesType(slot: InputSlot, outputType: string) {
    slot.group != Hidden && slot.valueType == Some(outputType)
  }

  /** The first input of `schema`, in schema order, that takes `outputType`. */
  function FindFirstCompatibleInput(schema: NodeSchema, outputType: string): (r: Option<InputSlot>)
    ensures r.None? <==> forall i | 0 <= i < |schema.inputs| :: !TakesType(schema.inputs[i], outputType)
    ensures r.Some? ==> exists k | 0 <= k < |schema.inputs| ::
      && schema.inputs[k] == r.value && TakesType(r.value, outputType)
      && forall j | 0 <= j < k :: !TakesType(schema.inputs[j], outputType)
  {
    Find(schema.inputs, (slot: InputSlot) => TakesType(slot, outputType))
  }

  /** The first output of `schema`, in schema order, whose type is `inputType`. */
  function FindFirstCompatibleOutput(schema: NodeSchema, inputType: string): (r: Option<OutputSlot>)
    ensures r.None? <==> forall i | 0 <= i < |schema.outputs| :: schema.outputs[i].outputType != inputType
    ensures r.Some? ==> exists k | 0 <= k < |schema.outputs| ::
      && schema.outputs[k] == r.value && r.value.outputType == inputType
      && forall j | 0 <= j < k :: schema.outputs[j].outputType != inputType
  {
    Find(schema.outputs, (slot: OutputSlot) => slot.outputType == inputType)
  }

  /** The node type of a node, when it has a non-empty one that `schemas` knows. */
  predicate KnownType(node: GraphNode, schemas: NodeSchemaMap) {
    Present(node.nodeType) && node.nodeType.value in schemas
  }

  /** The drag starts from a known node and from a handle with an id and a type. */
  predicate DragReady(drag: DragState, hovered: GraphNode, schemas: NodeSchemaMap) {
    && drag.fromNode.Some? && KnownType(drag.fromNode.value, schemas)
    && KnownType(hovered, schemas)
    && drag.fromHandle.Some? && Present(drag.fromHandle.value.id) && drag.fromHandle.value.handleType.Some?
  }

  /**
   * The connection a drop on `hovered` would make. Dragging from an output
   * `out-<name>` attaches it to the first compatible input of the hovered
   * node; dragging from an input `in-<name>` with a value type attaches the
   * first output of the hovered node of that type to it, reversing the
   * direction. Any missing piece gives no candidate.
   */
  function BuildSnapCandidate(drag: DragState, hovered: GraphNode, schemas: NodeSchemaMap): (r: Option<SnapCandidate>)
    ensures !DragReady(drag, hovered, schemas) ==> r.None?
    ensures r.Some? ==>
      && r.value.handle.nodeId == hovered.id
      && r.value.connection.sourceHandle.Some?
      && r.value.connection.targetHandle.Some?
    ensures r.Some? && drag.fromHandle.value.handleType == Some(SourceHandle) ==>
      && r.value.handle.handleType == TargetHandle
      && r.value.connection.target == Some(hovered.id)
      && r.value.handle.id == r.value.connection.targetHandle.value
    ensures r.Some? && drag.fromHandle.value.handleType == Some(TargetHandle) ==>
      && r.value.handle.handleType == SourceHandle
      && r.value.connection.source == Some(hovered.id)
      && r.value.handle.id == r.value.connection.sourceHandle.value
  {
    if !DragReady(drag, hovered, schemas) then None
    else
      var fromNode := drag.fromNode.value;
      var fromSchema := schemas[fromNode.nodeType.value];
      var hoveredSchema := schemas[hovered.nodeType.value];
      var fromHandleId := drag.fromHandle.value.id.value;
      if drag.fromHandle.value.handleType.value == SourceHandle then
        var slotName := ParseHandleSlotName(Some(fromHandleId), "out-");
        if slotName.None? then None
        else
          var outputSlot := Find(fromSchema.outputs, (slot: OutputSlot) => slot.name == slotName.value);
          if outputSlot.None? then None
          else
            var compatibleInput := FindFirstCompatibleInput(hoveredSchema, outputSlot.value.outputType);
            if compatibleInput.None? then None
            else
              var targetHandleId := "in-" + compatibleInput.value.name;
              Some(SnapCandidate(
                GraphEdge(Some(fromNode.id), Some(hovered.id), Some(fromHandleId), Some(targetHandleId)),
                SnapHandle(targetHandleId, hovered.id, TargetHandle, Left, 0, 0, 1, 1)))
      else
        var slotName := ParseHandleSlotName(Some(fromHandleId), "in-");
        if slotName.None? then None
        else
          var inputSlot := Find(fromSchema.inputs, (slot: InputSlot) => slot.name == slotName.value);
          if inputSlot.None? || !Present(inputSlot.value.valueType) then None
          else
            var compatibleOutput := FindFirstCompatibleOutput(hoveredSchema, inputSlot.value.valueType.value);
            if compatibleOutput.None? then None
            else
              var sourceHandleId := "out-" + compatibleOutput.value.name;
              Some(SnapCandidate(
                GraphEdge(Some(hovered.id), Some(fromNode.id), Some(sourceHandleId), Some(fromHandleId)),
                SnapHandle(sourceHandleId, hovered.id, SourceHandle, Right, 0, 0, 1, 1)))
  }

  /** The first slot in `s` called `name` is at `k`. */
  predicate FirstNamedOutput(s: seq<OutputSlot>, name: string, k: int) {
    0 <= k < |s| && s[k].name == name && forall j | 0 <= j < k :: s[j].name != name
  }

  predicate FirstNamedInput(s: seq<InputSlot>, name: string, k: int) {
    0 <= k < |s| && s[k].name == name && forall j | 0 <= j < k :: s[j].name != name
  }

  /**
   * Dragging from an output: the candidate runs from the dragged node and
   * handle to the hovered node, into the first visible input of the hovered
   * schema whose value type is the type of the first output named by the
   * dragged handle.
   */
  lemma SourceDragCandidate(drag: DragState, hovered: GraphNode, schemas: NodeSchemaMap)
    requires BuildSnapCandidate(drag, hovered, schemas).Some?
    requires drag.fromHandle.value.handleType == Some(SourceHandle)
    ensures var r := BuildSnapCandidate(drag, hovered, schemas).value;
      var fromSchema := schemas[drag.fromNode.value.nodeType.value];
      var inputs := schemas[hovered.nodeType.value].inputs;
      && r.connection.source == Some(drag.fromNode.value.id)
      && r.connection.sourceHandle == drag.fromHandle.value.id
      && (exists m, name ::
            && ParseHandleSlotName(r.connection.sourceHandle, "out-") == Some(name)
            && FirstNamedOutput(fromSchema.outputs, name, m)
            && exists k | 0 <= k < |inputs| ::
                 && r.connection.targetHandle == Some("in-" + inputs[k].name)
                 && TakesType(inputs[k], fromSchema.outputs[m].outputType)
                 && forall j | 0 <= j < k :: !TakesType(inputs[j], fromSchema.outputs[m].outputType))
      && r.handle == SnapHandle(r.connection.targetHandle.value, hovered.id, TargetHandle, Left, 0, 0, 1, 1)
  {
    var fromSchema := schemas[drag.fromNode.value.nodeType.value];
    var name := ParseHandleSlotName(drag.fromHandle.value.id, "out-").value;
    var outputSlot := Find(fromSchema.outputs, (slot: OutputSlot) => slot.name == name);
    var m :| 0 <= m < |fromSchema.outputs| && fromSchema.outputs[m] == outputSlot.value
      && forall j | 0 <= j < m :: fromSchema.outputs[j].name != name;
    assert FirstNamedOutput(fromSchema.outputs, name, m);
  }

  /**
   * Dragging from an input: the candidate is reversed. It runs from the
   * hovered node, out of the first output of the hovered schema whose type
   * is the value type of the first input named by the dragged handle, into
   * the dragged node and handle.
   */
  lemma TargetDragCandidate(drag: DragState, hovered: GraphNode, schemas: NodeSchemaMap)
    requires BuildSnapCandidate(drag, hovered, schemas).Some?
    requires drag.fromHandle.value.handleType == Some(TargetHandle)
    ensures var r := BuildSnapCandidate(drag, hovered, schemas).value;
      var fromSchema := schemas[drag.fromNode.value.nodeType.value];
      var outputs := schemas[hovered.nodeType.value].outputs;
      && r.connection.target == Some(drag.fromNode.value.id)
      && r.connection.targetHandle == drag.fromHandle.value.id
      && (exists m, name ::
            && ParseHandleSlotName(r.connection.targetHandle, "in-") == Some(name)
            && FirstNamedInput(fromSchema.inputs, name, m)
            && Present(fromSchema.inputs[m].valueType)
            && exists k | 0 <= k < |outputs| ::
                 && r.connection.sourceHandle == Some("out-" + outputs[k].name)
                 && Some(outputs[k].outputType) == fromSchema.inputs[m].valueType
                 && forall j | 0 <= j < k :: Some(outputs[j].outputType) != fromSchema.inputs[m].valueType)
      && r.handle == SnapHandle(r.connection.sourceHandle.value, hovered.id, SourceHandle, Right, 0, 0, 1, 1)
  {
    var fromSchema := schemas[drag.fromNode.value.nodeType.value];
    var name := ParseHandleSlotName(drag.fromHandle.value.id, "in-").value;
    var inputSlot := Find(fromSchema.inputs, (slot: InputSlot) => slot.name == name);
    var m :| 0 <= m < |fromSchema.inputs| && fromSchema.inputs[m] == inputSlot.value
      && forall j | 0 <= j < m :: fromSchema.inputs[j].name != name;
    assert FirstNamedInput(fromSchema.inputs, name, m);
  }

  /**
   * Conversely, a drag from an output named by its handle yields a candidate
   * whenever the hovered schema has a visible input of that output's type.
   */
  lemma SourceDragFindsCompatible(drag: DragState, hovered: GraphNode, schemas: NodeSchemaMap, m: int, slot: InputSlot)
    requires DragReady(drag, hovered, schemas) && drag.fromHandle.value.handleType == Some(SourceHandle)
    requires ParseHandleSlotName(drag.fromHandle.value.id, "out-").Some?
    requires FirstNamedOutput(schemas[drag.fromNode.value.nodeType.value].outputs,
                              ParseHandleSlotName(drag.fromHandle.value.id, "out-").value, m)
    requires slot in schemas[hovered.nodeType.value].inputs
    requires TakesType(slot, schemas[drag.fromNode.value.nodeType.value].outputs[m].outputType)
    ensures BuildSnapCandidate(drag, hovered, schemas).Some?
  {
    var outputs := schemas[drag.fromNode.value.nodeType.value].outputs;
    var name := ParseHandleSlotName(drag.fromHandle.value.id, "out-").value;
    var found := Find(outputs, (s: OutputSlot) => s.name == name);
    assert found.Some?;
    var k :| 0 <= k < |outputs| && outputs[k] == found.value && forall j | 0 <= j < k :: outputs[j].name != name;
    assert k == m;
    var inputs := schemas[hovered.nodeType.value].inputs;
    var i :| 0 <= i < |inputs| && inputs[i] == slot;
    assert FindFirstCompatibleInput(schemas[hovered.nodeType.value], outputs[m].outputType).Some?;
  }

  /**
   * Conversely, a drag from an input named by its handle, with a value type,
   * yields a candidate whenever the hovered schema has an output of that type.
   */
  lemma TargetDragFindsCompatible(drag: DragState, hovered: GraphNode, schemas: NodeSchemaMap, m: int, slot: OutputSlot)
    requires DragReady(drag, hovered, schemas) && drag.fromHandle.value.handleType == Some(TargetHandle)
    requires ParseHandleSlotName(drag.fromHandle.value.id, "in-").Some?
    requires FirstNamedInput(schemas[drag.fromNode.value.nodeType.value].inputs,
                             ParseHandleSlotName(drag.fromHandle.value.id, "in-").value, m)
    requires Present(schemas[drag.fromNode.value.nodeType.value].inputs[m].valueType)
    requires slot in schemas[hovered.nodeType.value].outputs
    requires Some(slot.outputType) == schemas[drag.fromNode.value.nodeType.value].inputs[m].valueType
    ensures BuildSnapCandidate(drag, hovered, schemas).Some?
  {
    var inputs := schemas[drag.fromNode.value.nodeType.value].inputs;
    var name := ParseHandleSlotName(drag.fromHandle.value.id, "in-").value;
    var found := Find(inputs, (s: InputSlot) => s.name == name);
    assert found.Some?;
    var k :| 0 <= k < |inputs| && inputs[k] == found.value && forall j | 0 <= j < k :: inputs[j].name != name;
    assert k == m;
    var outputs := schemas[hovered.nodeType.value].outputs;
    var i :| 0 <= i < |outputs| && outputs[i] == slot;
    assert FindFirstCompatibleOutput(schemas[hovered.nodeType.value], inputs[m].valueType.value).Some?;
  }

  /** Outputs with distinct, non-empty names and non-empty types. */
  predicate WellNamedOutputs(s: seq<OutputSlot>) {
    && (forall i, j | 0 <= i < j < |s| :: s[i].name != s[j].name)
    && (forall i | 0 <= i < |s| :: s[i].name != "" && s[i].outputType != "")
  }

  /** Inputs with distinct, non-empty names. */
  predicate WellNamedInputs(s: seq<InputSlot>) {
    && (forall i, j | 0 <= i < j < |s| :: s[i].name != s[j].name)
    && (forall i | 0 <= i < |s| :: s[i].name != "")
  }

  /** In a sequence of distinctly named outputs, the name picks out the slot. */
  lemma OutputByName(s: seq<OutputSlot>, o: OutputSlot, k: int)
    requires WellNamedOutputs(s) && o in s && 0 <= k < |s| && o.name == s[k].name
    ensures o == s[k]
  {
    var i :| 0 <= i < |s| && s[i] == o;
  }

  lemma InputByName(s: seq<InputSlot>, slot: InputSlot, k: int)
    requires WellNamedInputs(s) && slot in s && 0 <= k < |s| && slot.name == s[k].name
    ensures slot == s[k]
  {
    var i :| 0 <= i < |s| && s[i] == slot;
  }

  /** Once a connection resolves with matching types, the validator decides it by the cycle check alone. */
  lemma AcceptsByCycleCheck(c: GraphEdge, nodes: seq<GraphNode>, edges: seq<GraphEdge>, schemas: NodeSchemaMap)
    requires ResolveConnectionSlots(c, nodes, schemas).Some?
    requires IsTypeCompatible(ResolveConnectionSlots(c, nodes, schemas).value)
    ensures Accepts(c, nodes, edges, schemas) <==> !Reachable(edges, c.target.value, c.source.value)
  {
  }

  /**
   * A connection between two nodes on the canvas, with distinct non-empty
   * ids, from a well-named output to a well-named input whose value type is
   * that output's type, resolves to exactly those slots and type-checks.
   */
  lemma WellTypedConnectionResolves(
    c: GraphEdge, nodes: seq<GraphNode>, schemas: NodeSchemaMap, src: GraphNode, tgt: GraphNode, m: int, k: int)
    requires UniqueIds(nodes) && src in nodes && tgt in nodes && src.id != "" && tgt.id != ""
    requires KnownType(src, schemas) && KnownType(tgt, schemas)
    requires WellNamedOutputs(schemas[src.nodeType.value].outputs) && 0 <= m < |schemas[src.nodeType.value].outputs|
    requires WellNamedInputs(schemas[tgt.nodeType.value].inputs) && 0 <= k < |schemas[tgt.nodeType.value].inputs|
    requires c == GraphEdge(Some(src.id), Some(tgt.id),
      Some("out-" + schemas[src.nodeType.value].outputs[m].name),
      Some("in-" + schemas[tgt.nodeType.value].inputs[k].name))
    requires schemas[tgt.nodeType.value].inputs[k].valueType == Some(schemas[src.nodeType.value].outputs[m].outputType)
    ensures ResolveConnectionSlots(c, nodes, schemas).Some?
    ensures IsTypeCompatible(ResolveConnectionSlots(c, nodes, schemas).value)
  {
    var outputs := schemas[src.nodeType.value].outputs;
    var inputs := schemas[tgt.nodeType.value].inputs;
    HandleRoundTrip("out-", outputs[m].name);
    HandleRoundTrip("in-", inputs[k].name);
    assert outputs[m] in outputs && inputs[k] in inputs;
    ResolveConnectionSlotsComplete(c, nodes, schemas, src, tgt);
    var v := ResolveConnectionSlots(c, nodes, schemas).value;
    OutputByName(outputs, v.sourceSlot, m);
    InputByName(inputs, v.targetSlot, k);
  }

  /**
   * When both nodes are on the canvas under distinct, non-empty ids and the
   * slots involved are well named, a candidate from an output resolves to
   * the slots it names and their types match: the validator can reject it
   * only for closing a cycle.
   */
  lemma SourceCandidateTypeChecks(
    drag: DragState, hovered: GraphNode, schemas: NodeSchemaMap, nodes: seq<GraphNode>, edges: seq<GraphEdge>)
    requires BuildSnapCandidate(drag, hovered, schemas).Some?
    requires drag.fromHandle.value.handleType == Some(SourceHandle)
    requires UniqueIds(nodes) && drag.fromNode.value in nodes && hovered in nodes
    requires drag.fromNode.value.id != "" && hovered.id != ""
    requires WellNamedOutputs(schemas[drag.fromNode.value.nodeType.value].outputs)
    requires WellNamedInputs(schemas[hovered.nodeType.value].inputs)
    ensures var c := BuildSnapCandidate(drag, hovered, schemas).value.connection;
      && ResolveConnectionSlots(c, nodes, schemas).Some?
      && IsTypeCompatible(ResolveConnectionSlots(c, nodes, schemas).value)
      && (Accepts(c, nodes, edges, schemas) <==> !Reachable(edges, c.target.value, c.source.value))
  {
    var c := BuildSnapCandidate(drag, hovered, schemas).value.connection;
    var fromNode := drag.fromNode.value;
    var outputs := schemas[fromNode.nodeType.value].outputs;
    var inputs := schemas[hovered.nodeType.value].inputs;
    SourceDragCandidate(drag, hovered, schemas);
    var m, name :| && ParseHandleSlotName(c.sourceHandle, "out-") == Some(name)
                   && FirstNamedOutput(outputs, name, m)
                   && exists k | 0 <= k < |inputs| ::
                        && c.targetHandle == Some("in-" + inputs[k].name)
                        && TakesType(inputs[k], outputs[m].outputType)
                        && forall j | 0 <= j < k :: !TakesType(inputs[j], outputs[m].outputType);
    var k :| 0 <= k < |inputs| && c.targetHandle == Some("in-" + inputs[k].name)
             && TakesType(inputs[k], outputs[m].outputType);
    WellTypedConnectionResolves(c, nodes, schemas, fromNode, hovered, m, k);
    AcceptsByCycleCheck(c, nodes, edges, schemas);
  }

  /**
   * The same for a candidate from an input: it resolves to the slots it
   * names, and the output's type is the input's value type.
   */
  lemma TargetCandidateTypeChecks(
    drag: DragState, hovered: GraphNode, schemas: NodeSchemaMap, nodes: seq<GraphNode>, edges: seq<GraphEdge>)
    requires BuildSnapCandidate(drag, hovered, schemas).Some?
    requires drag.fromHandle.value.handleType == Some(TargetHandle)
    requires UniqueIds(nodes) && drag.fromNode.value in nodes && hovered in nodes
    requires drag.fromNode.value.id != "" && hovered.id != ""
    requires WellNamedInputs(schemas[drag.fromNode.value.nodeType.value].inputs)
    requires WellNamedOutputs(schemas[hovered.nodeType.value].outputs)
    ensures var c := BuildSnapCandidate(drag, hovered, schemas).value.connection;
      && ResolveConnectionSlots(c, nodes, schemas).Some?
      && IsTypeCompatible(ResolveConnectionSlots(c, nodes, schemas).value)
      && (Accepts(c, nodes, edges, schemas) <==> !Reachable(edges, c.target.value, c.source.value))
  {
    var c := BuildSnapCandidate(drag, hovered, schemas).value.connection;
    var fromNode := drag.fromNode.value;
    var inputs := schemas[fromNode.nodeType.value].inputs;
    var outputs := schemas[hovered.nodeType.value].outputs;
    TargetDragCandidate(drag, hovered, schemas);
    var m, name :| && ParseHandleSlotName(c.targetHandle, "in-") == Some(name)
                   && FirstNamedInput(inputs, name, m)
                   && Present(inputs[m].valueType)
                   && exists k | 0 <= k < |outputs| ::
                        && c.sourceHandle == Some("out-" + outputs[k].name)
                        && Some(outputs[k].outputType) == inputs[m].valueType
                        && forall j | 0 <= j < k :: Some(outputs[j].outputType) != inputs[m].valueType;
    var k :| 0 <= k < |outputs| && c.sourceHandle == Some("out-" + outputs[k].name)
             && Some(outputs[k].outputType) == inputs[m].valueType;
    WellTypedConnectionResolves(c, nodes, schemas, hovered, fromNode, k, m);
    AcceptsByCycleCheck(c, nodes, edges, schemas);
  }

  /**
   * The preview gate: a candidate is shown only when the connection
   * validator accepts its connection against the current graph.
   */
  method SnapPreview(drag: DragState, hovered: GraphNode, nodes: seq<GraphNode>, edges: seq<GraphEdge>, schemas: NodeSchemaMap)
    returns (preview: Option<SnapCandidate>)
    ensures var candidate := BuildSnapCandidate(drag, hovered, schemas);
      preview.Some? <==> candidate.Some? && Accepts(candidate.value.connection, nodes, edges, schemas)
    ensures preview.Some? ==> preview == BuildSnapCandidate(drag, hovered, schemas)
    ensures preview.Some? && Acyclic(edges) ==> Acyclic(edges + [preview.value.connection])
  {
    var candidate := BuildSnapCandidate(drag, hovered, schemas);
    if candidate.None? {
      return None;
    }
    var valid := IsConnectionValid(candidate.value.connection, nodes, edges, schemas);
    if !valid {
      return None;
    }
    if Acyclic(edges) {
      ValidConnectionKeepsAcyclic(candidate.value.connection, nodes, edges, schemas);
    }
    return candidate;
  }
}
