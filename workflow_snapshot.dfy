/**
 * The envelope a saved workflow is stored in: a version number, the time it
 * was saved and the graph itself, with the structural check applied before
 * a stored value is restored.
 */
module WorkflowSnapshot {
  import opened Json

  /** The only snapshot version the editor reads and writes. */
  const WorkflowSnapshotVersion := 1

  /**
   * A stored value is a snapshot when it is a non-null object of the current
   * version with a string save time and a graph whose nodes and edges are
   * arrays and whose viewport has type "object" (which `null` has too).
   */
  predicate IsWorkflowSnapshot(value: Json) {
    if !IsRecord(value) then false
    else if Get(value, "version") != JNumber(WorkflowSnapshotVersion) then false
    else if !Get(value, "savedAt").JString? then false
    else
      var graph := Get(value, "graph");
      if !Truthy(graph) || !Get(graph, "nodes").JArray? || !Get(graph, "edges").JArray?
         || !IsObjectType(Get(graph, "viewport"))
      then false
      else true
  }

  /** A graph as the editor exports it: node and edge arrays and an object-typed viewport. */
  predicate IsGraphExport(graph: Json) {
    Get(graph, "nodes").JArray? && Get(graph, "edges").JArray? && IsObjectType(Get(graph, "viewport"))
  }

  /** The snapshot of `graph`, saved at `savedAt` (the clock's ISO time, passed in). */
  function CreateWorkflowSnapshot(graph: Json, savedAt: string): (r: Json)
    ensures Get(r, "version") == JNumber(WorkflowSnapshotVersion)
    ensures Get(r, "savedAt") == JString(savedAt)
    ensures Get(r, "graph") == graph
  {
    JObject(map["version" := JNumber(WorkflowSnapshotVersion), "savedAt" := JString(savedAt), "graph" := graph])
  }

  /** A value passes the check exactly when it is an object of the current version holding a string save time and an exported graph. */
  lemma IsWorkflowSnapshotIff(value: Json)
    ensures IsWorkflowSnapshot(value) <==>
      && value.JObject?
      && Get(value, "version") == JNumber(WorkflowSnapshotVersion)
      && Get(value, "savedAt").JString?
      && IsGraphExport(Get(value, "graph"))
  {
    RecordIsArrayOrObject(value);
    var graph := Get(value, "graph");
    if IsGraphExport(graph) {
      assert graph.JObject?;
    }
  }

  /** Every snapshot the editor writes of an exported graph passes the check, holding that graph. */
  lemma CreatedSnapshotIsValid(graph: Json, savedAt: string)
    requires IsGraphExport(graph)
    ensures IsWorkflowSnapshot(CreateWorkflowSnapshot(graph, savedAt))
  {
    IsWorkflowSnapshotIff(CreateWorkflowSnapshot(graph, savedAt));
  }

  /** Conversely, a snapshot of a graph that is not an exported graph fails the check. */
  lemma CreatedSnapshotNeedsGraph(graph: Json, savedAt: string)
    requires !IsGraphExport(graph)
    ensures !IsWorkflowSnapshot(CreateWorkflowSnapshot(graph, savedAt))
  {
    IsWorkflowSnapshotIff(CreateWorkflowSnapshot(graph, savedAt));
  }

  /** A snapshot of another version is refused, a null viewport is accepted, and null is refused. */
  lemma SnapshotExamples(graph: Json, savedAt: string)
    requires IsGraphExport(graph)
    ensures !IsWorkflowSnapshot(JNull)
    ensures !IsWorkflowSnapshot(JObject(CreateWorkflowSnapshot(graph, savedAt).fields["version" := JNumber(999)]))
    ensures IsWorkflowSnapshot(CreateWorkflowSnapshot(
      JObject(map["nodes" := JArray([]), "edges" := JArray([]), "viewport" := JNull]), savedAt))
  {
    var v := JObject(CreateWorkflowSnapshot(graph, savedAt).fields["version" := JNumber(999)]);
    assert Get(v, "version") == JNumber(999);
  }
}
