/**
 * The execution monitor as an object: the execution state and the alias map
 * are fields, and each message handler updates them in place. Every handler
 * is proved to do what the matching function of ExecutionReducer says.
 */
module ExecutionMonitor {
  import opened Wrappers
  import opened Json
  import opened ExecutionReducer

  /** The files of an array of output entries, collected one entry at a time. */
  method ParseFileOutputs(value: Json) returns (results: Option<seq<FileOutput>>)
    ensures results == FileOutputsOf(value)
  {
    if !value.JArray? {
      return None;
    }
    var entries := value.items;
    var collected: seq<FileOutput> := [];
    for i := 0 to |entries|
      invariant collected == FileEntries(entries[..i])
    {
      var file := FileOutputOf(entries[i]);
      if file.Some? {
        collected := collected + [file.value];
      }
      assert entries[..i + 1][..i] == entries[..i];
    }
    assert entries[..|entries|] == entries;
    if |collected| > 0 {
      return Some(collected);
    }
    return None;
  }

  /** The output of an `executed` message, from its image and latent lists. */
  method ReadNodeOutput(value: Json) returns (output: Option<NodeOutput>)
    ensures output == ParseNodeOutput(value)
  {
    if !IsRecord(value) {
      return None;
    }
    var images := ParseFileOutputs(Get(value, "images"));
    var latents := ParseFileOutputs(Get(value, "latents"));
    if images.None? && latents.None? {
      return None;
    }
    return Some(NodeOutput(images, latents));
  }

  class Monitor {
    var state: ExecutionState
    var displayNodeById: map<string, string>

    /** The monitor's state as a value. */
    function Current(): MonitorState
      reads this
    {
      MonitorState(state, displayNodeById)
    }

    constructor ()
      ensures Current() == MonitorState(EmptyState, map[])
      ensures AliasesValid(displayNodeById)
    {
      state := EmptyState;
      displayNodeById := map[];
    }

    /** Resolves a node id, recording the alias when a display id comes with it. */
    method ResolveNodeId(nodeId: Option<string>, displayNodeId: Option<string>) returns (resolved: Option<string>)
      modifies this
      ensures var r := ExecutionReducer.ResolveNodeId(old(displayNodeById), nodeId, displayNodeId);
        resolved == r.resolved && displayNodeById == r.aliases
      ensures state == old(state)
    {
      if !Present(nodeId) {
        return None;
      }
      if Present(displayNodeId) {
        displayNodeById := displayNodeById[nodeId.value := displayNodeId.value];
        return displayNodeId;
      }
      if nodeId.value in displayNodeById {
        return Some(displayNodeById[nodeId.value]);
      }
      return nodeId;
    }

    method MarkPromptQueued(promptId: Option<string>)
      modifies this
      ensures Current() == ExecutionReducer.MarkPromptQueued(old(Current()), promptId)
    {
      if !Present(promptId) {
        return;
      }
      displayNodeById := map[];
      state := EmptyState.(phase := Queued, promptId := promptId, queueRemaining := state.queueRemaining);
    }

    method OnStatus(queueRemaining: Option<int>)
      modifies this
      ensures Current() == ExecutionReducer.OnStatus(old(Current()), queueRemaining)
    {
      if queueRemaining.Some? {
        state := state.(queueRemaining := queueRemaining);
      }
    }

    method OnExecutionStart(promptId: Option<string>, timestamp: Option<int>, now: int)
      modifies this
      ensures Current() == ExecutionReducer.OnExecutionStart(old(Current()), promptId, timestamp, now)
    {
      var startedAt := if timestamp.Some? then timestamp.value else now;
      displayNodeById := map[];
      state := EmptyState.(phase := Running, promptId := promptId, startedAt := Some(startedAt),
                           queueRemaining := state.queueRemaining);
    }

    /** Marks every string entry of `nodes` cached, in order. */
    method OnExecutionCached(nodes: Option<seq<Json>>)
      modifies this
      ensures Current() == ExecutionReducer.OnExecutionCached(old(Current()), nodes)
    {
      if nodes.None? {
        return;
      }
      var items := nodes.value;
      var nextStatuses := state.nodeStatuses;
      for i := 0 to |items|
        invariant state == old(state) && displayNodeById == old(displayNodeById)
        invariant nextStatuses == MarkCached(old(state.nodeStatuses), old(displayNodeById), items[..i])
      {
        assert items[..i + 1][..i] == items[..i];
        var entry := items[i];
        if !entry.JString? {
          continue;
        }
        var resolved := ResolveNodeId(Some(entry.s), None);
        if resolved.None? {
          continue;
        }
        nextStatuses := nextStatuses[resolved.value := NodeCached];
      }
      assert items[..|items|] == items;
      state := state.(nodeStatuses := nextStatuses);
    }

    method OnExecuting(node: Option<string>, displayNode: Option<string>)
      modifies this
      ensures Current() == ExecutionReducer.OnExecuting(old(Current()), node, displayNode)
    {
      if !Present(node) {
        state := state.(phase := Idle, currentNodeId := None, startedAt := None);
        return;
      }
      var resolved := ResolveNodeId(node, displayNode);
      if resolved.None? {
        return;
      }
      state := state.(phase := Running, currentNodeId := resolved,
                      nodeStatuses := state.nodeStatuses[resolved.value := NodeRunning]);
    }

    method OnExecuted(node: Option<string>, displayNode: Option<string>, output: Json)
      modifies this
      ensures Current() == ExecutionReducer.OnExecuted(old(Current()), node, displayNode, output)
    {
      if !Present(node) {
        return;
      }
      var resolved := ResolveNodeId(node, displayNode);
      if resolved.None? {
        return;
      }
      var parsed := ReadNodeOutput(output);
      var k := resolved.value;
      var nextOutputs := if parsed.Some? then state.nodeOutputs[k := parsed.value] else state.nodeOutputs - {k};
      state := state.(nodeStatuses := state.nodeStatuses[k := MergeStatus(StatusOf(state.nodeStatuses, k), NodeCompleted)],
                      nodeOutputs := nextOutputs);
    }

    method OnExecutionError(nodeId: Option<string>, exceptionMessage: Option<string>)
      modifies this
      ensures Current() == ExecutionReducer.OnExecutionError(old(Current()), nodeId, exceptionMessage)
    {
      var messageText := if exceptionMessage.Some? then exceptionMessage.value else "Execution error";
      var resolved := ResolveNodeId(nodeId, None);
      if resolved.None? {
        state := state.(phase := Error, currentNodeId := None);
        return;
      }
      state := state.(phase := Error, currentNodeId := None,
                      nodeStatuses := state.nodeStatuses[resolved.value := NodeError],
                      nodeErrors := state.nodeErrors[resolved.value := messageText]);
    }

    method OnExecutionInterrupted(nodeId: Option<string>)
      modifies this
      ensures Current() == ExecutionReducer.OnExecutionInterrupted(old(Current()), nodeId)
    {
      var resolved := ResolveNodeId(nodeId, None);
      if resolved.None? {
        state := state.(phase := Interrupted, currentNodeId := None);
        return;
      }
      state := state.(phase := Interrupted, currentNodeId := None,
                      nodeStatuses := state.nodeStatuses[resolved.value := NodeInterrupted]);
    }

    method OnExecutionSuccess()
      modifies this
      ensures Current() == ExecutionReducer.OnExecutionSuccess(old(Current()))
    {
      state := state.(phase := Idle, currentNodeId := None, startedAt := None);
    }

    method OnProgress(node: Option<string>, value: Option<int>, max: Option<int>)
      modifies this
      ensures Current() == ExecutionReducer.OnProgress(old(Current()), node, value, max)
    {
      if !Present(node) || value.None? || max.None? {
        return;
      }
      var resolved := ResolveNodeId(node, None);
      if resolved.None? {
        return;
      }
      state := state.(nodeProgress := state.nodeProgress[resolved.value := NodeProgress(value.value, max.value)]);
    }

    /** Applies each entry's progress and status, in order, recording the aliases the entries reveal. */
    method OnProgressState(entries: Option<seq<Json>>)
      modifies this
      ensures Current() == ExecutionReducer.OnProgressState(old(Current()), entries)
    {
      if entries.None? {
        return;
      }
      var items := entries.value;
      ghost var start := Tables(state.nodeStatuses, state.nodeProgress, displayNodeById);
      var nextStatuses := state.nodeStatuses;
      var nextProgress := state.nodeProgress;
      for i := 0 to |items|
        invariant state == old(state)
        invariant Tables(nextStatuses, nextProgress, displayNodeById) == ProgressEntries(start, items[..i])
      {
        assert items[..i + 1][..i] == items[..i];
        var entry := items[i];
        if !IsRecord(entry) {
          continue;
        }
        var nodeId := GetString(entry, "node_id");
        if !Present(nodeId) {
          continue;
        }
        var resolved := ResolveNodeId(nodeId, GetString(entry, "display_node_id"));
        if resolved.None? {
          continue;
        }
        var k := resolved.value;
        var value := GetNumber(entry, "value");
        var max := GetNumber(entry, "max");
        if value.Some? && max.Some? {
          nextProgress := nextProgress[k := NodeProgress(value.value, max.value)];
        }
        var mapped := MapProgressState(Get(entry, "state"));
        if mapped.Some? {
          nextStatuses := nextStatuses[k := MergeStatus(StatusOf(nextStatuses, k), mapped.value)];
        }
      }
      assert items[..|items|] == items;
      state := state.(nodeStatuses := nextStatuses, nodeProgress := nextProgress);
    }

    /** Dispatches a message of the progress stream to its handler. */
    method HandleMessage(msg: Message, now: int)
      modifies this
      ensures Current() == Step(old(Current()), msg, now)
      ensures old(AliasesValid(displayNodeById)) ==> AliasesValid(displayNodeById)
    {
      if AliasesValid(displayNodeById) {
        StepKeepsAliasesValid(Current(), msg, now);
      }
      match msg {
        case Status(q) => OnStatus(q);
        case ExecutionStart(p, ts) => OnExecutionStart(p, ts, now);
        case ExecutionCached(nodes) => OnExecutionCached(nodes);
        case Executing(n, d) => OnExecuting(n, d);
        case Executed(n, d, o) => OnExecuted(n, d, o);
        case ExecutionError(n, e) => OnExecutionError(n, e);
        case ExecutionInterrupted(n) => OnExecutionInterrupted(n);
        case ExecutionSuccess => OnExecutionSuccess();
        case Progress(n, v, mx) => OnProgress(n, v, mx);
        case ProgressState(entries) => OnProgressState(entries);
        case Unknown =>
      }
    }
  }
}
