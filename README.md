# Toucan graph editor core, modelled in Dafny

Toucan is a browser-based node-graph editor for a ComfyUI backend. This project models the logic in the middle of it:

- **Object info** (`object_info.dfy`, `widget_defaults.dfy`): how the backend's `object_info` catalog is normalised into node schemas:
  - input slots grouped and ordered;
  - hidden inputs made wire-only;
  - outputs named and flagged;
  - widget kinds and defaults chosen;
  - display names trimmed;
  - a search string built.

  It also covers how a fresh node's widget values are derived from its schema.
- **Connection validation** (`graph_validation.dfy`): how a proposed connection is resolved against the nodes and schemas, type-checked, and refused when it would close a cycle. The cycle check is a stack-based depth-first search over an adjacency map.
- **Connection autosnap** (`connection_autosnap.dfy`): while a connection is dragged over a node, the candidate connection is built from the first compatible slot of that node, and it is previewed only when the validator accepts it.
- **Execution monitor** (`execution_reducer.dfy`, `execution_monitor.dfy`): how messages from the backend's progress stream update the execution state. Those messages are status, execution start, cached, executing, executed, error, interrupted, success, progress and progress state. It also covers the local "prompt queued" notice and the map from raw node ids to display ids.
  - `ExecutionReducer` gives each handler as a function on a state value.
  - `ExecutionMonitor.Monitor` is the object whose fields the handlers update in place. Each of its methods is proved equal to the matching function.
- **Workflow snapshots** (`workflow_snapshot.dfy`): the versioned envelope a saved graph is stored in, and the check a stored value must pass before it is restored.
- **Queueing a prompt** (`inference.dfy`): the request body, the error message taken from a failure payload, and the result reported for each outcome of the request.

Helper modules:

- `Wrappers`: `Option`, and `Present`, the JavaScript truthiness of an optional string.
- `Json`: JavaScript's dynamic values, with truthiness, `typeof` and property access.
- `Text`: prefix tests, `trim`, filtering out empty strings and `join`, and decimal rendering.
- `Collections`: `find` and `findIndex`, and filtering by membership.

Where the code and its surrounding documentation differ, the model follows the code:

- `isTypeCompatible` treats an empty target value type as incompatible, because the empty string is falsy.
- `orderedKeys` emits a duplicated order hint twice and can drop a key. `ObjectInfo.OrderedKeysDuplicateHintLosesKey` shows this.

## Model

| member | source | states |
|---|---|---|
| Json.RecordIsArrayOrObject | src/components/graph/use-execution-monitor.ts:70-75 | a value passes the record test exactly when it is an array or an object: truthy and of type "object" |
| Json.GetString | src/components/graph/use-execution-monitor.ts:77-80 | a property read as a string is present exactly when the property holds a string, and then it is that string |
| Json.GetNumber | src/components/graph/use-execution-monitor.ts:82-85 | a property read as a number is present exactly when the property holds a number, and then it is that number |
| Collections.FindIndex | src/lib/comfy/graph-validation.ts:62-63 | `findIndex`: none exactly when no element matches; otherwise the index of a match with no match before it |
| Collections.Find | src/lib/comfy/graph-validation.ts:62-63 | `find`: none exactly when no element matches; otherwise a matching element with no match before it |
| Collections.Keep | src/lib/comfy/objectInfo.ts:153-154 | keeping the elements found in another list keeps exactly those elements, and never more than there were |
| Collections.Drop | src/lib/comfy/objectInfo.ts:158 | dropping the elements found in another list keeps exactly the others |
| Collections.KeepDropMultiset | src/lib/comfy/objectInfo.ts:153-159 | the kept part and the dropped part together are a permutation of the list |
| Collections.KeepConcat | src/lib/comfy/objectInfo.ts:153-154 | keeping distributes over concatenation, so the kept elements stay in their original order |
| Collections.DropConcat | src/lib/comfy/objectInfo.ts:158 | dropping distributes over concatenation, so the remaining elements stay in their original order |
| Text.StartsWithConcat | src/lib/comfy/graph-validation.ts:37-41 | a prefix followed by a rest starts with the prefix, and slicing the prefix off gives back the rest |
| Text.TrimIsTightSlice | src/lib/comfy/objectInfo.ts:278-281 | `trim` returns a slice of the string, with only whitespace cut off either end and no whitespace left at its ends |
| Text.TrimIdempotent | src/lib/comfy/objectInfo.ts:278-281 | trimming twice is trimming once |
| Text.NonEmptyParts | src/lib/comfy/objectInfo.ts:282-283 | `filter(Boolean)` on strings keeps exactly the non-empty ones |
| Text.NonEmptyPartsConcat | src/lib/comfy/objectInfo.ts:282-283 | dropping empty parts distributes over concatenation, so the parts stay in their original order |
| Text.PartIsInfixOfJoin | src/lib/comfy/objectInfo.ts:282-284 | every part occurs in the joined string |
| Text.JoinEmptyIff | src/lib/comfy/objectInfo.ts:282-284 | joining non-empty parts gives the empty string exactly when there are no parts |
| Text.DecimalString | src/lib/comfy/inference.ts:65 | a status rendered in decimal is a non-empty string of digits with no leading zero |
| Text.DecimalRoundTrip | src/lib/comfy/inference.ts:65 | reading the rendered digits back gives the number |
| ObjectInfo.InputSlotPolicy | src/lib/comfy/objectInfo.ts:100-128 | a required or optional slot keeps its name, group and raw type. Its options come from a list type and its value type from a named type. It supports a widget exactly when it has options or a primitive type. It is forced to a wire exactly when its config's forceInput is truthy. Its tooltip is the config's tooltip when that is a string, and absent otherwise |
| ObjectInfo.NormalizeInputSlot | src/lib/comfy/objectInfo.ts:102-128 | no contract of its own; `ObjectInfo.InputSlotPolicy` and `ObjectInfo.NormalizedSlotWidget` state what it computes |
| ObjectInfo.NormalizeHiddenInput | src/lib/comfy/objectInfo.ts:130-147 | a hidden slot keeps its name and type, never supports a widget, is always forced to a wire, and has a null config |
| ObjectInfo.OrderedKeys | src/lib/comfy/objectInfo.ts:149-160 | every emitted key is a key of the group; without an order hint, or with an empty one, the keys come in object order |
| ObjectInfo.OrderedKeysPermutation | src/lib/comfy/objectInfo.ts:149-160 | with duplicate-free keys and hint, the hinted keys come first in hint order, then the rest in object order, and the result is a permutation of the keys |
| ObjectInfo.OrderedKeysDuplicateHintLosesKey | src/lib/comfy/objectInfo.ts:149-160 | a hint naming a key twice emits it twice and loses the key it does not name |
| ObjectInfo.NormalizedInputs | src/lib/comfy/objectInfo.ts:162-190 | without inputs there are no slots; otherwise there is one slot per ordered key of the three groups |
| ObjectInfo.NormalizedInputsInGroupOrder | src/lib/comfy/objectInfo.ts:162-190 | all required slots come before all optional slots, and those before all hidden slots |
| ObjectInfo.NormalizedHiddenSlotsWired | src/lib/comfy/objectInfo.ts:162-190 | every hidden slot in the result is wire-only with a null config |
| ObjectInfo.GroupSlotsInGroup | src/lib/comfy/objectInfo.ts:171-181 | every slot built from a required or optional group carries that group |
| ObjectInfo.HiddenSlotsWired | src/lib/comfy/objectInfo.ts:183-187 | every slot built from the hidden group is hidden, wire-only and config-free |
| ObjectInfo.CollectGroup | src/lib/comfy/objectInfo.ts:171-181 | the loop over a group's ordered keys builds exactly the normalised slots of that group |
| ObjectInfo.CollectHidden | src/lib/comfy/objectInfo.ts:183-187 | the loop over the hidden keys builds exactly the normalised hidden slots |
| ObjectInfo.NormalizeInputs | src/lib/comfy/objectInfo.ts:162-190 | the method computes exactly the normalised inputs |
| ObjectInfo.NormalizeOutputs | src/lib/comfy/objectInfo.ts:192-204 | one output per declared type, in order. An output's name is its declared name or else its type. It is a list exactly when flagged. Its tooltip is present exactly when declared |
| ObjectInfo.ResolveSelectDefault | src/lib/comfy/objectInfo.ts:206-212 | the declared default when it is one of the options, else the first option, else the empty string; with options the result is always an option |
| ObjectInfo.ResolveNumberDefault | src/lib/comfy/objectInfo.ts:214-220 | no contract of its own; `ObjectInfo.WidgetSpecPolicy` states the number default: a declared number, else 0 |
| ObjectInfo.ResolveStringDefault | src/lib/comfy/objectInfo.ts:222-228 | no contract of its own; `ObjectInfo.WidgetSpecPolicy` states the string default: a declared string, else the empty string |
| ObjectInfo.ResolveBooleanDefault | src/lib/comfy/objectInfo.ts:230-236 | no contract of its own; `ObjectInfo.WidgetSpecPolicy` states the boolean default: a declared boolean, else false |
| ObjectInfo.GetWidgetSpec | src/lib/comfy/objectInfo.ts:238-272 | no contract of its own; `ObjectInfo.WidgetSpecPolicy` states the widget it gives for every slot |
| ObjectInfo.WidgetSpecPolicy | src/lib/comfy/objectInfo.ts:214-272 | no widget when the slot cannot have one or is forced to a wire. There is a select exactly when there are options; it carries those options and the resolved select default, the declared one when it is an option, else the first option. The default always fits the widget kind. A string widget takes a declared string default, else the empty string, and is multiline exactly when the config's multiline is truthy. A number widget takes a declared number, else 0; a boolean widget a declared boolean, else false |
| ObjectInfo.NormalizedSlotWidget | src/lib/comfy/objectInfo.ts:102-128 | a normalised slot gets a widget exactly when it is not forced and has options or a primitive value type |
| ObjectInfo.HiddenSlotHasNoWidget | src/lib/comfy/objectInfo.ts:130-147 | a hidden slot never gets a widget |
| ObjectInfo.TrimmedOr | src/lib/comfy/objectInfo.ts:278-281 | `s?.trim() \|\| fallback`: the trimmed string whenever it is non-empty, and the fallback exactly when the string is missing or trims to empty |
| ObjectInfo.SchemaOf | src/lib/comfy/objectInfo.ts:278-297 | a schema is named by the trimmed name, or else by its catalog key |
| ObjectInfo.SchemaNamesAndSearch | src/lib/comfy/objectInfo.ts:278-284 | the display name falls back to the name, so it is non-empty whenever the name is; every non-empty one of display name, name, description and category occurs in the search string |
| ObjectInfo.NormalizeObjectInfo | src/lib/comfy/objectInfo.ts:274-300 | the loop computes the normalised catalog, and every schema is keyed by its own name |
| ObjectInfo.NormalizedKeyedByName | src/lib/comfy/objectInfo.ts:286 | every schema in the result is stored under its own name |
| ObjectInfo.NormalizedNames | src/lib/comfy/objectInfo.ts:277-297 | the result holds exactly the schema names of the entries |
| ObjectInfo.NormalizedLastEntryWins | src/lib/comfy/objectInfo.ts:277-297 | an entry that no later entry shares a name with is the schema stored under its name |
| ObjectInfo.BuildNodeCatalog | src/lib/comfy/objectInfo.ts:302-312 | the catalog has an entry for every schema and nothing else |
| ObjectInfo.CatalogEntryFindsItsSchema | src/lib/comfy/objectInfo.ts:302-312 | in a catalog keyed by name, every entry's name looks up the schema it was made from |
| WidgetDefaults.BuildWidgetDefaults | src/lib/comfy/widget-defaults.ts:7-23 | no schema gives no values; otherwise the loop over the inputs computes the widget defaults |
| WidgetDefaults.WidgetDefaultsKeys | src/lib/comfy/widget-defaults.ts:15-21 | a name has a value exactly when some input of that name gets a widget |
| WidgetDefaults.WidgetDefaultsLastWins | src/lib/comfy/widget-defaults.ts:15-21 | a name's value is the default of the last input of that name that gets a widget, and it fits that widget's kind |
| WidgetDefaults.DeclaredDefaultsExample | src/lib/comfy/__tests__/widget-defaults.test.ts:37-69 | declared integer, boolean and string defaults are taken as they are (the fractional input is left out, numbers being integers here) |
| WidgetDefaults.MissingConfigExample | src/lib/comfy/__tests__/widget-defaults.test.ts:103-117 | without a config the defaults are 0, "" and false |
| WidgetDefaults.SelectDefaultsExample | src/lib/comfy/__tests__/widget-defaults.test.ts:71-101 | a select takes its declared default when that is an option, and otherwise its first option |
| WidgetDefaults.WiredInputsExample | src/lib/comfy/__tests__/widget-defaults.test.ts:119-147 | inputs without widget support, and forced inputs, get no value |
| GraphValidation.ParseHandleSlotName | src/lib/comfy/graph-validation.ts:33-42 | a handle id yields a slot name exactly when it starts with the prefix and is longer than it; the name is non-empty and the id is the prefix followed by the name |
| GraphValidation.HandleRoundTrip | src/lib/comfy/graph-validation.ts:33-42 | parsing the handle id of a non-empty slot name gives back that name |
| GraphValidation.ResolveConnectionSlots | src/lib/comfy/graph-validation.ts:44-92 | a connection missing either endpoint, or with a malformed handle, does not resolve. A resolved one names nodes with those ids, the schemas of their types, and slots with the parsed names |
| GraphValidation.ResolveConnectionSlotsComplete | src/lib/comfy/graph-validation.ts:44-92 | when ids are unique and the nodes, schemas and named slots all exist, the connection resolves, to those very nodes |
| GraphValidation.IsTypeCompatible | src/lib/comfy/graph-validation.ts:94-101 | compatible exactly when the target slot has a non-empty value type equal to the source slot's output type |
| GraphValidation.ReachableTrans | src/lib/comfy/graph-validation.ts:103-155 | reachability along connections is transitive |
| GraphValidation.SuccessorsAreEdges | src/lib/comfy/graph-validation.ts:115-127 | the adjacency list of a node holds exactly the targets of connections from it |
| GraphValidation.ClosedSetHoldsReachable | src/lib/comfy/graph-validation.ts:129-154 | a set that contains a node and is closed under successors contains every node reachable from it |
| GraphValidation.PushUnvisited | src/lib/comfy/graph-validation.ts:145-151 | the new stack is the old stack followed by exactly the unvisited neighbours, in neighbour order; membership corollaries follow |
| GraphValidation.BuildAdjacency | src/lib/comfy/graph-validation.ts:115-127 | the adjacency map gives every node exactly its successor list, in connection order |
| GraphValidation.SearchFrom | src/lib/comfy/graph-validation.ts:129-154 | the search reports the source only when the source is reachable. When it does not report it, it ends with a successor-closed visited set that holds the target but not the source |
| GraphValidation.CreatesCycle | src/lib/comfy/graph-validation.ts:103-155 | a cycle is reported exactly when an endpoint is missing or the source is reachable from the target, a self-loop included |
| GraphValidation.IsConnectionValid | src/lib/comfy/graph-validation.ts:157-180 | valid exactly when the connection resolves, its types are compatible, and it closes no cycle |
| GraphValidation.ValidConnectionKeepsAcyclic | src/lib/comfy/graph-validation.ts:157-180 | adding a valid connection to an acyclic graph keeps it acyclic |
| GraphValidation.AcyclicExtend | src/lib/comfy/graph-validation.ts:103-155 | adding a connection whose source is unreachable from its target keeps an acyclic graph acyclic |
| GraphValidation.AcceptedInTurnKeepsAcyclic | src/lib/comfy/graph-validation.ts:157-180 | a graph wired only through the validator, each connection checked against the graph at the time, stays acyclic |
| ConnectionAutosnap.FindFirstCompatibleInput | src/components/graph/use-connection-autosnap.ts:191-197 | none exactly when no visible input has the output's type; otherwise the first such input |
| ConnectionAutosnap.FindFirstCompatibleOutput | src/components/graph/use-connection-autosnap.ts:199-202 | none exactly when no output has the input's type; otherwise the first such output |
| ConnectionAutosnap.BuildSnapCandidate | src/components/graph/use-connection-autosnap.ts:204-299 | no candidate unless the drag starts from a known node and from a handle with an id and a type. A candidate snaps to the hovered node. A drag from an output targets the hovered node at a target handle; a drag from an input sources from it at a source handle |
| ConnectionAutosnap.SourceDragCandidate | src/components/graph/use-connection-autosnap.ts:230-265 | a drag from an output yields a connection from that output, by name, to the first input of the hovered node that takes its type |
| ConnectionAutosnap.TargetDragCandidate | src/components/graph/use-connection-autosnap.ts:267-298 | a drag from an input yields a connection from the first output of the hovered node with its value type, to that input, by name |
| ConnectionAutosnap.SourceDragFindsCompatible | src/components/graph/use-connection-autosnap.ts:230-265 | when the hovered node has any input that takes the dragged output's type, a candidate is built |
| ConnectionAutosnap.TargetDragFindsCompatible | src/components/graph/use-connection-autosnap.ts:267-298 | when the dragged input has a value type and the hovered node has any output of that type, a candidate is built |
| ConnectionAutosnap.AcceptsByCycleCheck | src/lib/comfy/graph-validation.ts:157-180 | a resolved, type-compatible connection is accepted exactly when it closes no cycle |
| ConnectionAutosnap.WellTypedConnectionResolves | src/lib/comfy/graph-validation.ts:44-101 | a connection between existing, distinctly named slots of known nodes, with equal types, resolves and type-checks |
| ConnectionAutosnap.SourceCandidateTypeChecks | src/components/graph/use-connection-autosnap.ts:230-265 | with unique node ids and distinctly named slots, an output-drag candidate resolves and type-checks, so the validator decides it by the cycle check alone |
| ConnectionAutosnap.TargetCandidateTypeChecks | src/components/graph/use-connection-autosnap.ts:267-298 | the same for an input-drag candidate |
| ConnectionAutosnap.SnapPreview | src/components/graph/use-connection-autosnap.ts:406-412 | the candidate passes the validity gate exactly when a candidate exists and the validator accepts it; what passes is that candidate, and adding it keeps an acyclic graph acyclic |
| ExecutionReducer.MapProgressState | src/components/graph/use-execution-monitor.ts:44-55 | "running", "finished" and "error" map to running, completed and error, each exactly; nothing maps to cached or interrupted |
| ExecutionReducer.MergeStatus | src/components/graph/use-execution-monitor.ts:57-68 | no contract of its own; `ExecutionReducer.MergeStatusPolicy` and `ExecutionReducer.MergeStatusIdempotent` state it |
| ExecutionReducer.MergeStatusPolicy | src/components/graph/use-execution-monitor.ts:57-68 | error and interrupted statuses are never replaced, and cached is not demoted to completed; otherwise the update wins |
| ExecutionReducer.MergeStatusIdempotent | src/components/graph/use-execution-monitor.ts:57-68 | merging the same update twice is merging it once |
| ExecutionReducer.FileOutputOf | src/components/graph/use-execution-monitor.ts:93-105 | an entry describes a file exactly when it is a record with a non-empty string filename, and the file carries that filename |
| ExecutionReducer.FileEntriesConcat | src/components/graph/use-execution-monitor.ts:91-106 | collecting files keeps entry order: it distributes over concatenation |
| ExecutionReducer.FileEntriesMembers | src/components/graph/use-execution-monitor.ts:91-106 | every collected file comes from an entry, every entry describing a file contributes it, and the list is empty exactly when no entry describes one |
| ExecutionReducer.FileOutputsOf | src/components/graph/use-execution-monitor.ts:87-108 | none unless the value is an array with at least one file entry; otherwise the non-empty list of its files |
| ExecutionReducer.ParseNodeOutput | src/components/graph/use-execution-monitor.ts:110-128 | an output exists exactly when the value is a record with images or latents, and it holds exactly those |
| ExecutionReducer.ResolveNodeId | src/components/graph/use-execution-monitor.ts:135-147 | no id gives nothing. An id with a display id resolves to the display id and records the alias. An id without one looks it up and records nothing. Valid aliases stay valid |
| ExecutionReducer.AliasRemembered | src/components/graph/use-execution-monitor.ts:135-147 | once seen with a display id, a raw id keeps resolving to it |
| ExecutionReducer.UnaliasedResolvesToItself | src/components/graph/use-execution-monitor.ts:135-147 | a raw id never seen with a display id resolves to itself |
| ExecutionReducer.RecordCompletedIdempotent | src/components/graph/use-execution-monitor.ts:292-306 | recording a completion twice is recording it once |
| ExecutionReducer.OnStatus | src/components/graph/use-execution-monitor.ts:210-218 | no contract of its own; its behaviour is stated by `ExecutionReducer.StatusChangesOnlyQueue` |
| ExecutionReducer.OnExecutionStart | src/components/graph/use-execution-monitor.ts:219-231 | no contract of its own; its behaviour is stated by `ExecutionReducer.ExecutionStartResets` and `ExecutionReducer.ExecutionStartForgetsHistory` |
| ExecutionReducer.OnExecutionCached | src/components/graph/use-execution-monitor.ts:232-252 | no contract of its own; `ExecutionReducer.CachedChangesOnlyStatuses` states that it changes only the statuses, and nothing without a node list, and `ExecutionReducer.MarkCachedExactly` gives every new status |
| ExecutionReducer.OnExecuting | src/components/graph/use-execution-monitor.ts:253-280 | no contract of its own; `ExecutionReducer.ExecutingOverwrites` gives its whole new state and aliases in both cases |
| ExecutionReducer.OnExecuted | src/components/graph/use-execution-monitor.ts:281-309 | no contract of its own; `ExecutionReducer.ExecutedMerges` gives its whole new state and aliases, including the no-node no-op; `ExecutionReducer.ExecutedIdempotent` and `ExecutionReducer.MergingKeepsTerminal` add idempotence and sticky terminal statuses |
| ExecutionReducer.OnExecutionError | src/components/graph/use-execution-monitor.ts:310-334 | no contract of its own; `ExecutionReducer.FailuresOverwrite` gives its whole new state and aliases |
| ExecutionReducer.OnExecutionInterrupted | src/components/graph/use-execution-monitor.ts:335-353 | no contract of its own; `ExecutionReducer.FailuresOverwrite` gives its whole new state and aliases |
| ExecutionReducer.OnExecutionSuccess | src/components/graph/use-execution-monitor.ts:354-362 | no contract of its own; its behaviour is stated by `ExecutionReducer.ExecutingOverwrites` |
| ExecutionReducer.OnProgress | src/components/graph/use-execution-monitor.ts:363-382 | no contract of its own; its behaviour is stated by `ExecutionReducer.ProgressChangesOnlyThatNode` |
| ExecutionReducer.ProgressEntry | src/components/graph/use-execution-monitor.ts:392-416 | no contract of its own; `ExecutionReducer.ProgressEntryMerges` gives its result in every case, and `ExecutionReducer.ProgressEntryKeepsTerminal` that terminal statuses survive it |
| ExecutionReducer.OnProgressState | src/components/graph/use-execution-monitor.ts:383-425 | no contract of its own; `ExecutionReducer.ProgressStateChangesOnlyTables` states that it changes only the statuses, progress and aliases, as the entries give in order; `ExecutionReducer.ProgressEntriesKeepTerminal` and `ExecutionReducer.ProgressEntriesKeepAliasesValid` add the invariants it keeps |
| ExecutionReducer.Step | src/components/graph/use-execution-monitor.ts:195-427 | no contract of its own; its behaviour is stated by `ExecutionReducer.StepKeepsAliasesValid`, `ExecutionReducer.UnknownChangesNothing` and the per-message lemmas |
| ExecutionReducer.MarkPromptQueued | src/components/graph/use-execution-monitor.ts:149-160 | no contract of its own; its behaviour is stated by `ExecutionReducer.MarkPromptQueuedResets` |
| ExecutionReducer.ExecutedIdempotent | src/components/graph/use-execution-monitor.ts:281-309 | processing the same `executed` message twice has the effect of processing it once |
| ExecutionReducer.ExecutionStartForgetsHistory | src/components/graph/use-execution-monitor.ts:219-231 | after `execution_start` the state depends on nothing but the old queue length |
| ExecutionReducer.ExecutionStartResets | src/components/graph/use-execution-monitor.ts:219-231 | `execution_start` gives a running state stamped with the message's timestamp or the clock. It keeps the queue length and clears all per-node tables and aliases |
| ExecutionReducer.MarkPromptQueuedResets | src/components/graph/use-execution-monitor.ts:149-160 | queueing with an id gives a fresh queued state that keeps the queue length; without an id nothing changes |
| ExecutionReducer.StartAfterQueued | src/components/graph/use-execution-monitor.ts:149-231 | a prompt queued and then started is in the same state as one just started |
| ExecutionReducer.StatusChangesOnlyQueue | src/components/graph/use-execution-monitor.ts:210-218 | `status` changes the queue length, when it carries one, and nothing else |
| ExecutionReducer.ProgressChangesOnlyThatNode | src/components/graph/use-execution-monitor.ts:363-382 | `progress` with a node, a value and a maximum replaces that node's progress and nothing else; otherwise nothing changes |
| ExecutionReducer.UnknownChangesNothing | src/components/graph/use-execution-monitor.ts:426-427 | an unknown message changes nothing |
| ExecutionReducer.ExecutingOverwrites | src/components/graph/use-execution-monitor.ts:253-280 | `executing` with a node makes it the running current node, overwriting its status and recording a display id as its alias; every other field is kept. Without a node it acts as `execution_success`, which ends the run and changes nothing else |
| ExecutionReducer.FailuresOverwrite | src/components/graph/use-execution-monitor.ts:310-353 | an error or an interrupt sets its phase and clears the current node, overwriting the named node's status. An error also records its message, "Execution error" by default. Every other field and the aliases are kept |
| ExecutionReducer.ExecutedMerges | src/components/graph/use-execution-monitor.ts:281-309 | `executed` merges completed into the node's status, stores its parsed output or clears it, and records a display id as its alias; nothing else changes. Without a node it changes nothing |
| ExecutionReducer.CachedChangesOnlyStatuses | src/components/graph/use-execution-monitor.ts:232-252 | `execution_cached` changes only the statuses and keeps the aliases; without a node list it changes nothing |
| ExecutionReducer.ProgressEntryMerges | src/components/graph/use-execution-monitor.ts:392-416 | a record entry with a node id records its display id as the alias, merges its mapped status into the node's, and replaces the node's progress when it has a value and a maximum; any other entry changes nothing |
| ExecutionReducer.ProgressStateChangesOnlyTables | src/components/graph/use-execution-monitor.ts:383-425 | `progress_state` changes only the statuses, the progress and the aliases, as its entries give them in order; without a node table it changes nothing |
| ExecutionReducer.MarkCachedExactly | src/components/graph/use-execution-monitor.ts:232-252 | `execution_cached` marks exactly the listed nodes cached and leaves every other status alone |
| ExecutionReducer.ProgressEntriesKeepTerminal | src/components/graph/use-execution-monitor.ts:383-425 | no `progress_state` entry changes an error or interrupted status |
| ExecutionReducer.MergingKeepsTerminal | src/components/graph/use-execution-monitor.ts:281-425 | neither `executed` nor `progress_state` changes an error or interrupted status |
| ExecutionReducer.ProgressEntriesKeepAliasesValid | src/components/graph/use-execution-monitor.ts:383-425 | `progress_state` records only non-empty display ids as aliases |
| ExecutionReducer.StepKeepsAliasesValid | src/components/graph/use-execution-monitor.ts:195-427 | every message, and the queued notice, keeps the alias map made of non-empty display ids |
| ExecutionMonitor.ParseFileOutputs | src/components/graph/use-execution-monitor.ts:87-108 | the loop over the entries computes exactly the file list the function describes |
| ExecutionMonitor.ReadNodeOutput | src/components/graph/use-execution-monitor.ts:110-128 | the method computes exactly the parsed node output |
| ExecutionMonitor.Monitor.constructor | src/components/graph/use-execution-monitor.ts:15-25 | a new monitor holds the empty state and no aliases |
| ExecutionMonitor.Monitor.ResolveNodeId | src/components/graph/use-execution-monitor.ts:135-147 | resolves as the function does, updating the alias field and nothing else |
| ExecutionMonitor.Monitor.MarkPromptQueued | src/components/graph/use-execution-monitor.ts:149-160 | the new state is the queued notice applied to the old |
| ExecutionMonitor.Monitor.OnStatus | src/components/graph/use-execution-monitor.ts:210-218 | the new state is `status` applied to the old |
| ExecutionMonitor.Monitor.OnExecutionStart | src/components/graph/use-execution-monitor.ts:219-231 | the new state is `execution_start` applied to the old |
| ExecutionMonitor.Monitor.OnExecutionCached | src/components/graph/use-execution-monitor.ts:232-252 | the loop leaves the state that `execution_cached` gives |
| ExecutionMonitor.Monitor.OnExecuting | src/components/graph/use-execution-monitor.ts:253-280 | the new state is `executing` applied to the old |
| ExecutionMonitor.Monitor.OnExecuted | src/components/graph/use-execution-monitor.ts:281-309 | the new state is `executed` applied to the old |
| ExecutionMonitor.Monitor.OnExecutionError | src/components/graph/use-execution-monitor.ts:310-334 | the new state is `execution_error` applied to the old |
| ExecutionMonitor.Monitor.OnExecutionInterrupted | src/components/graph/use-execution-monitor.ts:335-353 | the new state is `execution_interrupted` applied to the old |
| ExecutionMonitor.Monitor.OnExecutionSuccess | src/components/graph/use-execution-monitor.ts:354-362 | the new state is `execution_success` applied to the old |
| ExecutionMonitor.Monitor.OnProgress | src/components/graph/use-execution-monitor.ts:363-382 | the new state is `progress` applied to the old |
| ExecutionMonitor.Monitor.OnProgressState | src/components/graph/use-execution-monitor.ts:383-425 | the loop over the entries leaves the state that `progress_state` gives |
| ExecutionMonitor.Monitor.HandleMessage | src/components/graph/use-execution-monitor.ts:195-427 | the new state is the message's effect on the old one, and a valid alias map stays valid |
| WorkflowSnapshot.CreateWorkflowSnapshot | src/lib/comfy/workflow-snapshot.ts:43-49 | a snapshot has version 1, the given save time, and the graph unchanged |
| WorkflowSnapshot.IsWorkflowSnapshot | src/lib/comfy/workflow-snapshot.ts:14-41 | no contract of its own; `WorkflowSnapshot.IsWorkflowSnapshotIff` characterises it |
| WorkflowSnapshot.IsWorkflowSnapshotIff | src/lib/comfy/workflow-snapshot.ts:14-41 | a value passes exactly when it is an object of version 1 with a string save time and a graph whose nodes and edges are arrays and whose viewport is of type "object" |
| WorkflowSnapshot.CreatedSnapshotIsValid | src/lib/comfy/workflow-snapshot.ts:14-49 | every snapshot written of an exported graph passes the check: the save round trip |
| WorkflowSnapshot.CreatedSnapshotNeedsGraph | src/lib/comfy/workflow-snapshot.ts:14-49 | a snapshot of anything else fails the check |
| WorkflowSnapshot.SnapshotExamples | src/lib/comfy/workflow-snapshot.ts:20-35 | a snapshot of version 999 is refused (the case workflow-persistence.test.tsx:107-128 checks); null is refused by the guard at lines 20-22; a null viewport is accepted by the `typeof` test at line 35 |
| Inference.ExtractErrorMessage | src/lib/comfy/inference.ts:14-31 | nothing from a non-record; a string `error` is the message; otherwise the message is `error.message` when that is a string |
| Inference.ExtractErrorMessageSources | src/lib/comfy/inference.ts:14-31 | a message is found exactly when the payload is an object whose `error` or `error.message` is a string |
| Inference.BuildExtraData | src/lib/comfy/inference.ts:39-44 | the extra data always holds the client id. It holds `extra_pnginfo` = {workflow} exactly when the workflow is truthy, and nothing else |
| Inference.QueueOutcome | src/lib/comfy/inference.ts:53-70 | an unreachable backend gives the fixed message. A non-OK response gives the payload's message, or the status fallback, together with the payload. An OK response gives its payload |
| Inference.FallbackMessageNamesStatus | src/lib/comfy/inference.ts:65 | different statuses give different fallback messages |
| Inference.QueuePrompt | src/lib/comfy/inference.ts:33-71 | the body is exactly `{ prompt, extra_data }`; extra_data holds the client id and, exactly when the workflow is truthy, `extra_pnginfo` = `{ workflow }`, and nothing else; the result is the one the outcome calls for |

## Left out

- Transport: the WebSocket connection, its URL (`toWsUrl`), reconnection and the `interrupt` request are I/O. The monitor takes already-received messages.
- Message extraction: a stream message comes in already parsed, with its field reads (`getString`, `getNumber`) applied, into the `Message` datatype. `Json.GetString` and `Json.GetNumber` model those reads.
- React state: each updater is applied at once and in message order. The state and the alias map are fields of one object.
- Clock: `Date.now()` and the snapshot's save time are parameters.
- The request: `fetch` and the response's JSON parsing are an outcome passed in. Its payload is null when the response is not JSON. The prompt itself comes from the prompt compiler, which is not part of this model.
- Numbers: JavaScript numbers are modelled as integers. Progress, timestamps, queue lengths and defaults are never fractional here, and HTTP statuses are naturals.
- `progress_state`: the node entries come as a sequence in `Object.values` order.
- Object keys: `Object.keys` and `Object.entries` are sequences in enumeration order. JavaScript's hoisting of integer-like keys, and keys such as `__proto__`, are not modelled.
- `ObjectInfo.BuildNodeCatalog`: modelled as a set, so the catalog's list order is not modelled.
- The `!nodeId` guard in the cycle search (`graph-validation.ts:133-135`) is unreachable, because empty ids are never pushed. The search has no such branch.
- Autosnap geometry: DOM and pointer geometry (`findHoveredNode`, `findHoveredByRect`, `resolveSnapHandle`, handle positions and sizes) and the xyflow constants are left out. Snap handles carry placeholder geometry.
- Autosnap hook: its stages before the candidate is built are left out, namely the in-progress check, the handle lookup and finding the hovered node.
- ConnectionAutosnap.SnapPreview: models only the validity gate (`use-connection-autosnap.ts:406-412`). The hook also returns no preview in three more cases that depend on xyflow's connection state and the DOM:
  - the drag is already over a valid handle (line 391);
  - `resolveSnapHandle` finds no handle (lines 413-421);
  - the snapped handle is the current target handle, `isAlreadySnapped` (lines 423-429).
- `parseHandleSlotName` in the autosnap hook is the same as the validator's, so `GraphValidation.ParseHandleSlotName` models both.
- ConnectionAutosnap.SourceCandidateTypeChecks: requires unique node ids and distinctly named slots. Without them, a connection named by id and slot name can resolve to a different node or slot than the one the candidate was built from.
- ConnectionAutosnap.TargetCandidateTypeChecks: the same assumptions as above.
- GraphValidation.ResolveConnectionSlotsComplete: requires unique node ids, because with duplicates `find` returns the first node with the id.
- `Text.Trim`: the whitespace set of `trim` is a fixed character list. There is no Unicode category lookup.
- Storage: `localStorage` and the JSON text round trip of a saved snapshot are left out. The check applies to the parsed value.
