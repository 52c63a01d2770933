/**
 * The execution monitor's state machine, as pure functions: how each
 * message of the backend's progress stream, and the local "prompt queued"
 * notice, changes the execution state and the alias map from raw node ids
 * to display node ids.
 */
module ExecutionReducer {
  import opened Wrappers
  import opened Json

  datatype Phase = Idle | Queued | Running | Error | Interrupted

  datatype NodeStatus = NodeRunning | NodeCompleted | NodeCached | NodeError | NodeInterrupted

  datatype NodeProgress = NodeProgress(value: int, max: int)

  datatype FileOutput = FileOutput(filename: string, subfolder: Option<string>, fileType: Option<string>)

  datatype NodeOutput = NodeOutput(images: Option<seq<FileOutput>>, latents: Option<seq<FileOutput>>)

  datatype ExecutionState = ExecutionState(
    phase: Phase,
    promptId: Option<string>,
    currentNodeId: Option<string>,
    queueRemaining: Option<int>,
    startedAt: Option<int>,
    nodeStatuses: map<string, NodeStatus>,
    nodeProgress: map<string, NodeProgress>,
    nodeErrors: map<string, string>,
    nodeOutputs: map<string, NodeOutput>)

  /** The state before any prompt: idle, with nothing recorded. */
  const EmptyState := ExecutionState(Idle, None, None, None, None, map[], map[], map[], map[])

  /** The execution state together with the alias map the monitor keeps beside it. */
  datatype MonitorState = MonitorState(state: ExecutionState, aliases: map<string, string>)

  /**
   * A message of the progress stream, with the fields the monitor reads
   * already taken out of its payload (a string or number field of the
   * wrong type is `None`). The node lists keep their raw entries.
   */
  datatype Message =
    | Status(queueRemaining: Option<int>)
    | ExecutionStart(promptId: Option<string>, timestamp: Option<int>)
    | ExecutionCached(cachedNodes: Option<seq<Json>>)
    | Executing(node: Option<string>, displayNode: Option<string>)
    | Executed(node: Option<string>, displayNode: Option<string>, output: Json)
    | ExecutionError(nodeId: Option<string>, exceptionMessage: Option<string>)
    | ExecutionInterrupted(nodeId: Option<string>)
    | ExecutionSuccess
    | Progress(node: Option<string>, value: Option<int>, max: Option<int>)
    | ProgressState(nodeValues: Option<seq<Json>>)
    | Unknown

  // ---------------------------------------------------------------------
  // Statuses
  // ---------------------------------------------------------------------

  /** The status a `progress_state` entry reports, if it names one. */
  function MapProgressState(state: Json): (r: Option<NodeStatus>)
    ensures r == Some(NodeRunning) <==> state == JString("running")
    ensures r == Some(NodeCompleted) <==> state == JString("finished")
    ensures r == Some(NodeError) <==> state == JString("error")
    ensures r != Some(NodeCached) && r != Some(NodeInterrupted)
  {
    if state == JString("running") then Some(NodeRunning)
    else if state == JString("finished") then Some(NodeCompleted)
    else if state == JString("error") then Some(NodeError)
    else None
  }

  /** A node's status after a merging update to `next`. */
  function MergeStatus(current: Option<NodeStatus>, next: NodeStatus): NodeStatus {
    if current == Some(NodeCached) && next == NodeCompleted then current.value
    else if current == Some(NodeError) || current == Some(NodeInterrupted) then current.value
    else next
  }

  /** A failed or interrupted node keeps its status, a cached one is not demoted to completed, and otherwise the update wins. */
  lemma MergeStatusPolicy(current: Option<NodeStatus>, next: NodeStatus)
    ensures current == Some(NodeError) || current == Some(NodeInterrupted) ==> MergeStatus(current, next) == current.value
    ensures current == Some(NodeCached) && next == NodeCompleted ==> MergeStatus(current, next) == NodeCached
    ensures current != Some(NodeError) && current != Some(NodeInterrupted) && !(current == Some(NodeCached) && next == NodeCompleted)
      ==> MergeStatus(current, next) == next
    ensures MergeStatus(current, next) == next || Some(MergeStatus(current, next)) == current
  {
  }

  /** Merging the same update twice is merging it once. */
  lemma MergeStatusIdempotent(current: Option<NodeStatus>, next: NodeStatus)
    ensures MergeStatus(Some(MergeStatus(current, next)), next) == MergeStatus(current, next)
  {
  }

  /** A status that is error or interrupted. */
  predicate Terminal(s: NodeStatus) {
    s == NodeError || s == NodeInterrupted
  }

  /** The status recorded for `k`, if any. */
  function StatusOf(statuses: map<string, NodeStatus>, k: string): Option<NodeStatus> {
    if k in statuses then Some(statuses[k]) else None
  }

  // ---------------------------------------------------------------------
  // Outputs
  // ---------------------------------------------------------------------

  /** The file an output entry describes: a record with a non-empty string filename. */
  function FileOutputOf(entry: Json): (r: Option<FileOutput>)
    ensures r.Some? ==> IsRecord(entry) && GetString(entry, "filename") == Some(r.value.filename) && r.value.filename != ""
    ensures r.Some? <==> IsRecord(entry) && Present(GetString(entry, "filename"))
  {
    if !IsRecord(entry) then None
    else
      var filename := GetString(entry, "filename");
      if !Present(filename) then None
      else Some(FileOutput(filename.value, GetString(entry, "subfolder"), GetString(entry, "type")))
  }

  /** The files described by `entries`, in order, skipping entries that describe none. */
  function FileEntries(entries: seq<Json>): seq<FileOutput> {
    if entries == [] then []
    else
      var init := FileEntries(entries[..|entries| - 1]);
      match FileOutputOf(entries[|entries| - 1])
      case None => init
      case Some(f) => init + [f]
  }

  /** Collecting files distributes over concatenation, so the order of the entries is kept. */
  lemma {:induction false} FileEntriesConcat(a: seq<Json>, b: seq<Json>)
    ensures FileEntries(a + b) == FileEntries(a) + FileEntries(b)
    decreases |b|
  {
    if b == [] {
      assert a + b == a;
    } else {
      var b' := b[..|b| - 1];
      assert (a + b)[..|a + b| - 1] == a + b';
      assert (a + b)[|a + b| - 1] == b[|b| - 1];
      FileEntriesConcat(a, b');
    }
  }

  /** Every collected file comes from an entry, and every entry describing a file contributes it. */
  lemma {:induction false} FileEntriesMembers(entries: seq<Json>)
    ensures forall f | f in FileEntries(entries) :: f.filename != "" && exists i | 0 <= i < |entries| :: FileOutputOf(entries[i]) == Some(f)
    ensures forall i | 0 <= i < |entries| && FileOutputOf(entries[i]).Some? :: FileOutputOf(entries[i]).value in FileEntries(entries)
    ensures FileEntries(entries) == [] <==> forall i | 0 <= i < |entries| :: FileOutputOf(entries[i]).None?
  {
    if entries != [] {
      var init := entries[..|entries| - 1];
      FileEntriesMembers(init);
      forall f | f in FileEntries(entries)
        ensures f.filename != "" && exists i | 0 <= i < |entries| :: FileOutputOf(entries[i]) == Some(f)
      {
        if f in FileEntries(init) {
          var i :| 0 <= i < |init| && FileOutputOf(init[i]) == Some(f);
          assert entries[i] == init[i];
        } else {
          assert FileOutputOf(entries[|entries| - 1]) == Some(f);
        }
      }
      forall i | 0 <= i < |entries| && FileOutputOf(entries[i]).Some?
        ensures FileOutputOf(entries[i]).value in FileEntries(entries)
      {
        if i < |init| {
          assert entries[i] == init[i];
        }
      }
      if FileEntries(entries) == [] {
        forall i | 0 <= i < |entries| ensures FileOutputOf(entries[i]).None? {
          if i < |init| {
            assert entries[i] == init[i];
          }
        }
      }
    }
  }

  /** The files of an array of output entries; none, rather than an empty list, when no entry describes one. */
  function FileOutputsOf(value: Json): (r: Option<seq<FileOutput>>)
    ensures r.Some? ==> value.JArray? && r.value == FileEntries(value.items) && |r.value| > 0
    ensures r.None? <==> !value.JArray? || forall i | 0 <= i < |value.items| :: FileOutputOf(value.items[i]).None?
  {
    if !value.JArray? then None
    else
      FileEntriesMembers(value.items);
      var results := FileEntries(value.items);
      if |results| > 0 then Some(results) else None
  }

  /**
   * The output of an `executed` message: present only when its images or
   * its latents hold a file, and holding just those lists.
   */
  function ParseNodeOutput(value: Json): (r: Option<NodeOutput>)
    ensures r.Some? <==> IsRecord(value) && (FileOutputsOf(Get(value, "images")).Some? || FileOutputsOf(Get(value, "latents")).Some?)
    ensures r.Some? ==> r.value.images == FileOutputsOf(Get(value, "images"))
    ensures r.Some? ==> r.value.latents == FileOutputsOf(Get(value, "latents"))
  {
    if !IsRecord(value) then None
    else
      var images := FileOutputsOf(Get(value, "images"));
      var latents := FileOutputsOf(Get(value, "latents"));
      if images.None? && latents.None? then None
      else Some(NodeOutput(images, latents))
  }

  // ---------------------------------------------------------------------
  // Node ids
  // ---------------------------------------------------------------------

  /** Every alias is a non-empty display id. */
  predicate AliasesValid(aliases: map<string, string>) {
    forall k | k in aliases :: aliases[k] != ""
  }

  datatype Resolution = Resolution(resolved: Option<string>, aliases: map<string, string>)

  /**
   * The id under which a node's updates are recorded: a display id, when the
   * message gives one, is recorded as the alias of the raw id and used; else
   * the alias recorded earlier, or the raw id itself.
   */
  function ResolveNodeId(aliases: map<string, string>, nodeId: Option<string>, displayNodeId: Option<string>): (r: Resolution)
    ensures !Present(nodeId) ==> r == Resolution(None, aliases)
    ensures Present(nodeId) && Present(displayNodeId) ==> r == Resolution(displayNodeId, aliases[nodeId.value := displayNodeId.value])
    ensures Present(nodeId) && !Present(displayNodeId) ==> r.aliases == aliases && r.resolved.Some?
    ensures AliasesValid(aliases) ==> AliasesValid(r.aliases) && (r.resolved.Some? <==> Present(nodeId)) && Present(r.resolved) == r.resolved.Some?
  {
    if !Present(nodeId) then Resolution(None, aliases)
    else if Present(displayNodeId) then Resolution(displayNodeId, aliases[nodeId.value := displayNodeId.value])
    else Resolution(Some(if nodeId.value in aliases then aliases[nodeId.value] else nodeId.value), aliases)
  }

  /** Once a raw id has been seen with a display id, it keeps resolving to that display id. */
  lemma AliasRemembered(aliases: map<string, string>, nodeId: string, displayNodeId: string, later: Option<string>)
    requires nodeId != "" && displayNodeId != ""
    ensures var first := ResolveNodeId(aliases, Some(nodeId), Some(displayNodeId));
      && first.resolved == Some(displayNodeId)
      && ResolveNodeId(first.aliases, Some(nodeId), None).resolved == Some(displayNodeId)
  {
  }

  /** A raw id never seen with a display id resolves to itself. */
  lemma UnaliasedResolvesToItself(aliases: map<string, string>, nodeId: string)
    requires nodeId != "" && nodeId !in aliases
    ensures ResolveNodeId(aliases, Some(nodeId), None) == Resolution(Some(nodeId), aliases)
  {
  }

  // ---------------------------------------------------------------------
  // Messages
  // ---------------------------------------------------------------------

  /** `status`: a queue length replaces the old one; nothing else changes. */
  function OnStatus(m: MonitorState, queueRemaining: Option<int>): MonitorState {
    if queueRemaining.Some? then m.(state := m.state.(queueRemaining := queueRemaining)) else m
  }

  /** `execution_start`: a fresh running state for the prompt, keeping only the queue length. */
  function OnExecutionStart(m: MonitorState, promptId: Option<string>, timestamp: Option<int>, now: int): MonitorState {
    MonitorState(
      EmptyState.(phase := Running, promptId := promptId, startedAt := Some(timestamp.GetOr(now)),
                  queueRemaining := m.state.queueRemaining),
      map[])
  }

  /** The statuses after marking each string entry of `nodes` as cached, in order. */
  function MarkCached(statuses: map<string, NodeStatus>, aliases: map<string, string>, nodes: seq<Json>): map<string, NodeStatus> {
    if nodes == [] then statuses
    else
      var before := MarkCached(statuses, aliases, nodes[..|nodes| - 1]);
      var entry := nodes[|nodes| - 1];
      if !entry.JString? then before
      else
        var resolved := ResolveNodeId(aliases, Some(entry.s), None).resolved;
        if resolved.None? then before else before[resolved.value := NodeCached]
  }

  /** `execution_cached`: every listed node is marked cached, overwriting its status. */
  function OnExecutionCached(m: MonitorState, nodes: Option<seq<Json>>): MonitorState {
    if nodes.None? then m
    else m.(state := m.state.(nodeStatuses := MarkCached(m.state.nodeStatuses, m.aliases, nodes.value)))
  }

  /** `executing`: without a node the run is over; with one, that node is running. */
  function OnExecuting(m: MonitorState, node: Option<string>, displayNode: Option<string>): MonitorState {
    if !Present(node) then m.(state := m.state.(phase := Idle, currentNodeId := None, startedAt := None))
    else
      var res := ResolveNodeId(m.aliases, node, displayNode);
      if res.resolved.None? then m.(aliases := res.aliases)
      else
        var r := res.resolved.value;
        MonitorState(
          m.state.(phase := Running, currentNodeId := res.resolved,
                   nodeStatuses := m.state.nodeStatuses[r := NodeRunning]),
          res.aliases)
  }

  /** `executed`: the node is completed, unless its status outranks that, and its output is stored or cleared. */
  function OnExecuted(m: MonitorState, node: Option<string>, displayNode: Option<string>, output: Json): MonitorState {
    if !Present(node) then m
    else
      var res := ResolveNodeId(m.aliases, node, displayNode);
      if res.resolved.None? then m.(aliases := res.aliases)
      else MonitorState(RecordCompleted(m.state, res.resolved.value, ParseNodeOutput(output)), res.aliases)
  }

  /** Node `k` completed with output `parsed`: its status is merged and its output stored or cleared. */
  function RecordCompleted(s: ExecutionState, k: string, parsed: Option<NodeOutput>): ExecutionState {
    s.(nodeStatuses := s.nodeStatuses[k := MergeStatus(StatusOf(s.nodeStatuses, k), NodeCompleted)],
       nodeOutputs := if parsed.Some? then s.nodeOutputs[k := parsed.value] else s.nodeOutputs - {k})
  }

  lemma RecordCompletedIdempotent(s: ExecutionState, k: string, parsed: Option<NodeOutput>)
    ensures RecordCompleted(RecordCompleted(s, k, parsed), k, parsed) == RecordCompleted(s, k, parsed)
  {
    MergeStatusIdempotent(StatusOf(s.nodeStatuses, k), NodeCompleted);
  }

  /** `execution_error`: the run failed; the failing node, if known, gets status error and the message. */
  function OnExecutionError(m: MonitorState, nodeId: Option<string>, exceptionMessage: Option<string>): MonitorState {
    var res := ResolveNodeId(m.aliases, nodeId, None);
    var messageText := exceptionMessage.GetOr("Execution error");
    if res.resolved.None? then MonitorState(m.state.(phase := Error, currentNodeId := None), res.aliases)
    else
      var r := res.resolved.value;
      MonitorState(
        m.state.(phase := Error, currentNodeId := None,
                 nodeStatuses := m.state.nodeStatuses[r := NodeError],
                 nodeErrors := m.state.nodeErrors[r := messageText]),
        res.aliases)
  }

  /** `execution_interrupted`: the run stopped; the node, if known, gets status interrupted. */
  function OnExecutionInterrupted(m: MonitorState, nodeId: Option<string>): MonitorState {
    var res := ResolveNodeId(m.aliases, nodeId, None);
    if res.resolved.None? then MonitorState(m.state.(phase := Interrupted, currentNodeId := None), res.aliases)
    else
      MonitorState(
        m.state.(phase := Interrupted, currentNodeId := None,
                 nodeStatuses := m.state.nodeStatuses[res.resolved.value := NodeInterrupted]),
        res.aliases)
  }

  /** `execution_success`: the run is over. */
  function OnExecutionSuccess(m: MonitorState): MonitorState {
    m.(state := m.state.(phase := Idle, currentNodeId := None, startedAt := None))
  }

  /** `progress`: the node's progress is replaced, when the message has a node, a value and a maximum. */
  function OnProgress(m: MonitorState, node: Option<string>, value: Option<int>, max: Option<int>): MonitorState {
    if !Present(node) || value.None? || max.None? then m
    else
      var res := ResolveNodeId(m.aliases, node, None);
      if res.resolved.None? then m
      else m.(state := m.state.(nodeProgress := m.state.nodeProgress[res.resolved.value := NodeProgress(value.value, max.value)]))
  }

  /** The tables `progress_state` updates entry by entry. */
  datatype Tables = Tables(statuses: map<string, NodeStatus>, progress: map<string, NodeProgress>, aliases: map<string, string>)

  /** One entry of `progress_state`: its progress is replaced and its status merged. */
  function ProgressEntry(t: Tables, entry: Json): Tables {
    if !IsRecord(entry) then t
    else
      var nodeId := GetString(entry, "node_id");
      if !Present(nodeId) then t
      else
        var res := ResolveNodeId(t.aliases, nodeId, GetString(entry, "display_node_id"));
        if res.resolved.None? then t.(aliases := res.aliases)
        else
          var r := res.resolved.value;
          var value := GetNumber(entry, "value");
          var max := GetNumber(entry, "max");
          var mapped := MapProgressState(Get(entry, "state"));
          Tables(
            if mapped.Some? then t.statuses[r := MergeStatus(StatusOf(t.statuses, r), mapped.value)] else t.statuses,
            if value.Some? && max.Some? then t.progress[r := NodeProgress(value.value, max.value)] else t.progress,
            res.aliases)
  }

  /** The tables after the entries of `progress_state`, in order. */
  function ProgressEntries(t: Tables, entries: seq<Json>): Tables {
    if entries == [] then t else ProgressEntry(ProgressEntries(t, entries[..|entries| - 1]), entries[|entries| - 1])
  }

  /** `progress_state`: every entry's progress and status, and the aliases it reveals. */
  function OnProgressState(m: MonitorState, entries: Option<seq<Json>>): MonitorState {
    if entries.None? then m
    else
      var t := ProgressEntries(Tables(m.state.nodeStatuses, m.state.nodeProgress, m.aliases), entries.value);
      MonitorState(m.state.(nodeStatuses := t.statuses, nodeProgress := t.progress), t.aliases)
  }

  /** The effect of one message; `now` stands in for the clock when a start message has no timestamp. */
  function Step(m: MonitorState, msg: Message, now: int): MonitorState {
    match msg
    case Status(q) => OnStatus(m, q)
    case ExecutionStart(p, ts) => OnExecutionStart(m, p, ts, now)
    case ExecutionCached(nodes) => OnExecutionCached(m, nodes)
    case Executing(n, d) => OnExecuting(m, n, d)
    case Executed(n, d, o) => OnExecuted(m, n, d, o)
    case ExecutionError(n, e) => OnExecutionError(m, n, e)
    case ExecutionInterrupted(n) => OnExecutionInterrupted(m, n)
    case ExecutionSuccess => OnExecutionSuccess(m)
    case Progress(n, v, mx) => OnProgress(m, n, v, mx)
    case ProgressState(entries) => OnProgressState(m, entries)
    case Unknown => m
  }

  /** The local notice that a prompt was queued: a fresh queued state, keeping only the queue length. */
  function MarkPromptQueued(m: MonitorState, promptId: Option<string>): MonitorState {
    if !Present(promptId) then m
    else MonitorState(EmptyState.(phase := Queued, promptId := promptId, queueRemaining := m.state.queueRemaining), map[])
  }

  // ---------------------------------------------------------------------
  // Properties
  // ---------------------------------------------------------------------

  /** The id a node id resolves to when no display id comes with it. */
  function Resolved(aliases: map<string, string>, nodeId: string): string {
    ResolveNodeId(aliases, Some(nodeId), None).resolved.GetOr(nodeId)
  }

  /** Processing the same `executed` message twice has the effect of processing it once. */
  lemma ExecutedIdempotent(m: MonitorState, node: Option<string>, displayNode: Option<string>, output: Json, now: int)
    ensures var msg := Executed(node, displayNode, output);
      Step(Step(m, msg, now), msg, now) == Step(m, msg, now)
  {
    var once := OnExecuted(m, node, displayNode, output);
    if Present(node) {
      var res := ResolveNodeId(m.aliases, node, displayNode);
      assert ResolveNodeId(once.aliases, node, displayNode) == res;
      if res.resolved.Some? {
        RecordCompletedIdempotent(m.state, res.resolved.value, ParseNodeOutput(output));
      }
    }
  }

  /** `execution_start` forgets everything but the queue length: two states with the same queue length end up equal. */
  lemma ExecutionStartForgetsHistory(m1: MonitorState, m2: MonitorState, promptId: Option<string>, timestamp: Option<int>, now: int)
    requires m1.state.queueRemaining == m2.state.queueRemaining
    ensures Step(m1, ExecutionStart(promptId, timestamp), now) == Step(m2, ExecutionStart(promptId, timestamp), now)
  {
  }

  /** After `execution_start` the run is running, stamped, and has no statuses, progress, errors, outputs or aliases. */
  lemma ExecutionStartResets(m: MonitorState, promptId: Option<string>, timestamp: Option<int>, now: int)
    ensures var r := Step(m, ExecutionStart(promptId, timestamp), now);
      && r.state.phase == Running && r.state.promptId == promptId && r.state.currentNodeId.None?
      && r.state.startedAt == Some(if timestamp.Some? then timestamp.value else now)
      && r.state.queueRemaining == m.state.queueRemaining
      && r.state.nodeStatuses == map[] && r.state.nodeProgress == map[]
      && r.state.nodeErrors == map[] && r.state.nodeOutputs == map[]
      && r.aliases == map[]
  {
  }

  /** Queueing a prompt with an id resets like a start, in the queued phase; without an id it does nothing. */
  lemma MarkPromptQueuedResets(m: MonitorState, promptId: Option<string>)
    ensures !Present(promptId) ==> MarkPromptQueued(m, promptId) == m
    ensures Present(promptId) ==> var r := MarkPromptQueued(m, promptId);
      && r.state.phase == Queued && r.state.promptId == promptId && r.state.currentNodeId.None?
      && r.state.startedAt.None? && r.state.queueRemaining == m.state.queueRemaining
      && r.state.nodeStatuses == map[] && r.state.nodeProgress == map[]
      && r.state.nodeErrors == map[] && r.state.nodeOutputs == map[]
      && r.aliases == map[]
  {
  }

  /** A prompt queued and then started is just started. */
  lemma StartAfterQueued(m: MonitorState, queued: Option<string>, promptId: Option<string>, timestamp: Option<int>, now: int)
    ensures Step(MarkPromptQueued(m, queued), ExecutionStart(promptId, timestamp), now)
         == Step(m, ExecutionStart(promptId, timestamp), now)
  {
  }

  /** `status` changes the queue length and nothing else. */
  lemma StatusChangesOnlyQueue(m: MonitorState, queueRemaining: Option<int>, now: int)
    ensures var r := Step(m, Status(queueRemaining), now);
      && r.aliases == m.aliases
      && r.state.(queueRemaining := m.state.queueRemaining) == m.state
      && r.state.queueRemaining == (if queueRemaining.Some? then queueRemaining else m.state.queueRemaining)
  {
  }

  /**
   * `progress` changes only the progress of the node it names, and only
   * when it carries a node, a value and a maximum.
   */
  lemma ProgressChangesOnlyThatNode(m: MonitorState, node: Option<string>, value: Option<int>, max: Option<int>, now: int)
    ensures var r := Step(m, Progress(node, value, max), now);
      && r.aliases == m.aliases
      && r.state.(nodeProgress := m.state.nodeProgress) == m.state
      && (!Present(node) || value.None? || max.None? ==> r == m)
      && (Present(node) && value.Some? && max.Some? ==>
            var k := Resolved(m.aliases, node.value);
            && r.state.nodeProgress == m.state.nodeProgress[k := NodeProgress(value.value, max.value)])
  {
  }

  /** An unknown message changes nothing. */
  lemma UnknownChangesNothing(m: MonitorState, now: int)
    ensures Step(m, Unknown, now) == m
  {
  }

  /**
   * `executing` with a node makes it the current, running node whatever its
   * status was; without a node, like `execution_success`, it ends the run and
   * leaves the per-node tables alone.
   */
  lemma ExecutingOverwrites(m: MonitorState, node: Option<string>, displayNode: Option<string>, now: int)
    requires AliasesValid(m.aliases)
    ensures var r := Step(m, Executing(node, displayNode), now);
      Present(node) ==>
        var k := if Present(displayNode) then displayNode.value else Resolved(m.aliases, node.value);
        && r.state.phase == Running && r.state.currentNodeId == Some(k)
        && r.state.nodeStatuses == m.state.nodeStatuses[k := NodeRunning]
        && r.state.(phase := m.state.phase, currentNodeId := m.state.currentNodeId,
                    nodeStatuses := m.state.nodeStatuses) == m.state
        && r.aliases == (if Present(displayNode) then m.aliases[node.value := displayNode.value] else m.aliases)
    ensures !Present(node) ==> Step(m, Executing(node, displayNode), now) == Step(m, ExecutionSuccess, now)
    ensures var r := Step(m, ExecutionSuccess, now);
      && r.state.phase == Idle && r.state.currentNodeId.None? && r.state.startedAt.None?
      && r.state.(phase := m.state.phase, currentNodeId := m.state.currentNodeId, startedAt := m.state.startedAt) == m.state
      && r.aliases == m.aliases
  {
  }

  /**
   * `execution_error` and `execution_interrupted` overwrite the named node's
   * status, whatever it was, and leave no current node; the error message
   * defaults to "Execution error".
   */
  lemma FailuresOverwrite(m: MonitorState, nodeId: Option<string>, exceptionMessage: Option<string>, now: int)
    ensures var r := Step(m, ExecutionError(nodeId, exceptionMessage), now);
      && r.state.phase == Error && r.state.currentNodeId.None? && r.aliases == m.aliases
      && (Present(nodeId) ==>
            var k := Resolved(m.aliases, nodeId.value);
            && r.state.nodeStatuses == m.state.nodeStatuses[k := NodeError]
            && r.state.nodeErrors == m.state.nodeErrors[k := if exceptionMessage.Some? then exceptionMessage.value else "Execution error"]
            && r.state.(phase := m.state.phase, currentNodeId := m.state.currentNodeId,
                        nodeStatuses := m.state.nodeStatuses, nodeErrors := m.state.nodeErrors) == m.state)
      && (!Present(nodeId) ==> r.state == m.state.(phase := Error, currentNodeId := None))
    ensures var r := Step(m, ExecutionInterrupted(nodeId), now);
      && r.state.phase == Interrupted && r.state.currentNodeId.None? && r.aliases == m.aliases
      && (Present(nodeId) ==>
            && r.state.nodeStatuses == m.state.nodeStatuses[Resolved(m.aliases, nodeId.value) := NodeInterrupted]
            && r.state.(phase := m.state.phase, currentNodeId := m.state.currentNodeId,
                        nodeStatuses := m.state.nodeStatuses) == m.state)
      && (!Present(nodeId) ==> r.state == m.state.(phase := Interrupted, currentNodeId := None))
  {
  }

  /**
   * `executed` completes the node by merging, stores its parsed output or
   * clears it, and records the display id it brings; without a node it
   * changes nothing.
   */
  lemma ExecutedMerges(m: MonitorState, node: Option<string>, displayNode: Option<string>, output: Json, now: int)
    ensures var r := Step(m, Executed(node, displayNode, output), now);
      Present(node) ==>
        var k := if Present(displayNode) then displayNode.value else Resolved(m.aliases, node.value);
        && r.state.nodeStatuses == m.state.nodeStatuses[k := MergeStatus(StatusOf(m.state.nodeStatuses, k), NodeCompleted)]
        && (ParseNodeOutput(output).Some? ==> r.state.nodeOutputs == m.state.nodeOutputs[k := ParseNodeOutput(output).value])
        && (ParseNodeOutput(output).None? ==> r.state.nodeOutputs == m.state.nodeOutputs - {k})
        && r.state.(nodeStatuses := m.state.nodeStatuses, nodeOutputs := m.state.nodeOutputs) == m.state
        && r.aliases == (if Present(displayNode) then m.aliases[node.value := displayNode.value] else m.aliases)
    ensures !Present(node) ==> Step(m, Executed(node, displayNode, output), now) == m
  {
  }

  /**
   * `execution_cached` changes only the statuses, as MarkCached gives them;
   * without a node list it changes nothing.
   */
  lemma CachedChangesOnlyStatuses(m: MonitorState, nodes: Option<seq<Json>>, now: int)
    ensures nodes.None? ==> Step(m, ExecutionCached(nodes), now) == m
    ensures var r := Step(m, ExecutionCached(nodes), now);
      && r.aliases == m.aliases
      && r.state.(nodeStatuses := m.state.nodeStatuses) == m.state
      && (nodes.Some? ==> r.state.nodeStatuses == MarkCached(m.state.nodeStatuses, m.aliases, nodes.value))
  {
  }

  /** The ids `execution_cached` marks: the resolved string entries. */
  function CachedIds(aliases: map<string, string>, nodes: seq<Json>): set<string> {
    set i | 0 <= i < |nodes| && nodes[i].JString? && nodes[i].s != "" :: Resolved(aliases, nodes[i].s)
  }

  /** `execution_cached` marks exactly the listed nodes cached and leaves every other status alone. */
  lemma {:induction false} MarkCachedExactly(statuses: map<string, NodeStatus>, aliases: map<string, string>, nodes: seq<Json>, k: string)
    ensures StatusOf(MarkCached(statuses, aliases, nodes), k)
         == if k in CachedIds(aliases, nodes) then Some(NodeCached) else StatusOf(statuses, k)
  {
    if nodes != [] {
      var init := nodes[..|nodes| - 1];
      var last := nodes[|nodes| - 1];
      MarkCachedExactly(statuses, aliases, init, k);
      assert CachedIds(aliases, nodes) == CachedIds(aliases, init)
        + (if last.JString? && last.s != "" then {Resolved(aliases, last.s)} else {}) by {
        forall x | x in CachedIds(aliases, nodes)
          ensures x in CachedIds(aliases, init) || (last.JString? && last.s != "" && x == Resolved(aliases, last.s))
        {
          var i :| 0 <= i < |nodes| && nodes[i].JString? && nodes[i].s != "" && x == Resolved(aliases, nodes[i].s);
          if i < |init| {
            assert init[i] == nodes[i];
          }
        }
        forall x | x in CachedIds(aliases, init)
          ensures x in CachedIds(aliases, nodes)
        {
          var i :| 0 <= i < |init| && init[i].JString? && init[i].s != "" && x == Resolved(aliases, init[i].s);
          assert nodes[i] == init[i];
        }
        if last.JString? && last.s != "" {
          assert nodes[|nodes| - 1] == last;
        }
      }
    }
  }

  /**
   * One `progress_state` entry: a record with a node id records the display
   * id it brings, merges its mapped status into the node's, and replaces the
   * node's progress when it has both a value and a maximum; any other entry
   * changes nothing.
   */
  lemma ProgressEntryMerges(t: Tables, entry: Json)
    ensures !IsRecord(entry) || !Present(GetString(entry, "node_id")) ==> ProgressEntry(t, entry) == t
    ensures IsRecord(entry) && Present(GetString(entry, "node_id")) ==>
      var nodeId := GetString(entry, "node_id").value;
      var display := GetString(entry, "display_node_id");
      var k := if Present(display) then display.value else Resolved(t.aliases, nodeId);
      var mapped := MapProgressState(Get(entry, "state"));
      var value := GetNumber(entry, "value");
      var max := GetNumber(entry, "max");
      var r := ProgressEntry(t, entry);
      && r.aliases == (if Present(display) then t.aliases[nodeId := display.value] else t.aliases)
      && r.statuses == (if mapped.Some? then t.statuses[k := MergeStatus(StatusOf(t.statuses, k), mapped.value)] else t.statuses)
      && r.progress == (if value.Some? && max.Some? then t.progress[k := NodeProgress(value.value, max.value)] else t.progress)
  {
  }

  /**
   * `progress_state` changes only the statuses, the progress table and the
   * aliases, each as its entries give in order; without a node table it
   * changes nothing.
   */
  lemma ProgressStateChangesOnlyTables(m: MonitorState, entries: Option<seq<Json>>, now: int)
    ensures entries.None? ==> Step(m, ProgressState(entries), now) == m
    ensures var r := Step(m, ProgressState(entries), now);
      && r.state.(nodeStatuses := m.state.nodeStatuses, nodeProgress := m.state.nodeProgress) == m.state
      && (entries.Some? ==>
            Tables(r.state.nodeStatuses, r.state.nodeProgress, r.aliases)
            == ProgressEntries(Tables(m.state.nodeStatuses, m.state.nodeProgress, m.aliases), entries.value))
  {
  }

  /** One `progress_state` entry changes an error or interrupted status nowhere. */
  lemma ProgressEntryKeepsTerminal(t: Tables, entry: Json, k: string)
    requires k in t.statuses && Terminal(t.statuses[k])
    ensures k in ProgressEntry(t, entry).statuses && ProgressEntry(t, entry).statuses[k] == t.statuses[k]
  {
  }

  lemma {:induction false} ProgressEntriesKeepTerminal(t: Tables, entries: seq<Json>, k: string)
    requires k in t.statuses && Terminal(t.statuses[k])
    ensures k in ProgressEntries(t, entries).statuses && ProgressEntries(t, entries).statuses[k] == t.statuses[k]
  {
    if entries != [] {
      ProgressEntriesKeepTerminal(t, entries[..|entries| - 1], k);
      ProgressEntryKeepsTerminal(ProgressEntries(t, entries[..|entries| - 1]), entries[|entries| - 1], k);
    }
  }

  /**
   * The merging messages, `executed` and `progress_state`, never change an
   * error or interrupted status.
   */
  lemma MergingKeepsTerminal(m: MonitorState, msg: Message, now: int, k: string)
    requires msg.Executed? || msg.ProgressState?
    requires k in m.state.nodeStatuses && Terminal(m.state.nodeStatuses[k])
    ensures k in Step(m, msg, now).state.nodeStatuses
    ensures Step(m, msg, now).state.nodeStatuses[k] == m.state.nodeStatuses[k]
  {
    if msg.ProgressState? && msg.nodeValues.Some? {
      ProgressEntriesKeepTerminal(Tables(m.state.nodeStatuses, m.state.nodeProgress, m.aliases), msg.nodeValues.value, k);
    }
  }

  lemma {:induction false} ProgressEntriesKeepAliasesValid(t: Tables, entries: seq<Json>)
    requires AliasesValid(t.aliases)
    ensures AliasesValid(ProgressEntries(t, entries).aliases)
  {
    if entries != [] {
      ProgressEntriesKeepAliasesValid(t, entries[..|entries| - 1]);
    }
  }

  /**
   * Every message, and queueing a prompt, keeps every alias a non-empty id;
   * so a present node id always resolves, and the monitor's checks for an
   * unresolved id never fire.
   */
  lemma StepKeepsAliasesValid(m: MonitorState, msg: Message, now: int)
    requires AliasesValid(m.aliases)
    ensures AliasesValid(Step(m, msg, now).aliases)
    ensures forall p :: AliasesValid(MarkPromptQueued(m, p).aliases)
  {
    if msg.ProgressState? && msg.nodeValues.Some? {
      ProgressEntriesKeepAliasesValid(Tables(m.state.nodeStatuses, m.state.nodeProgress, m.aliases), msg.nodeValues.value);
    }
  }
}
