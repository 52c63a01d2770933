/**
 * The connection validator: a proposed edge is accepted when both of its
 * handles resolve to slots of known node types, the output's type equals
 * the input's value type, and the edge would not close a cycle.
 */
module GraphValidation {
  import opened Wrappers
  import opened ObjectInfo
  import opened Collections
  import Text

  datatype GraphNode = GraphNode(id: string, nodeType: Option<string>)

  datatype GraphEdge = GraphEdge(
    source: Option<string>, target: Option<string>,
    sourceHandle: Option<string>, targetHandle: Option<string>)

  // ---------------------------------------------------------------------
  // Handles and slots
  // ---------------------------------------------------------------------

  /** The slot name of a handle id `<prefix><name>`, when the name is non-empty. */
  function ParseHandleSlotName(handle: Option<string>, prefix: string): (r: Option<string>)
    ensures r.Some? <==> handle.Some? && Text.StartsWith(handle.value, prefix) && |handle.value| > |prefix|
    ensures r.Some? ==> r.value != "" && handle.value == prefix + r.value
  {
    if handle.None? || !Text.StartsWith(handle.value, prefix) then None
    else
      var slotName := handle.value[|prefix|..];
      if |slotName| > 0 then Some(slotName) else None
  }

  /** A handle id built from a prefix and a non-empty slot name parses back to that name. */
  lemma HandleRoundTrip(prefix: string, name: string)
    requires name != ""
    ensures ParseHandleSlotName(Some(prefix + name), prefix) == Some(name)
  {
    Text.StartsWithConcat(prefix, name);
  }

  datatype ResolvedConnectionSlots = ResolvedConnectionSlots(
    sourceNode: GraphNode, targetNode: GraphNode,
    sourceSchema: NodeSchema, targetSchema: NodeSchema,
    sourceSlot: OutputSlot, targetSlot: InputSlot)

  /**
   * `v` is what connection `c` refers to: nodes of `nodes` with the
   * connection's ids, the schemas of their node types, and slots of those
   * schemas with the names the handles carry.
   */
  predicate ResolvedFrom(c: GraphEdge, nodes: seq<GraphNode>, schemas: NodeSchemaMap, v: ResolvedConnectionSlots) {
    && Present(c.source) && Present(c.target)
    && v.sourceNode in nodes && v.sourceNode.id == c.source.value
    && v.targetNode in nodes && v.targetNode.id == c.target.value
    && v.sourceNode.nodeType.GetOr("") in schemas && v.sourceSchema == schemas[v.sourceNode.nodeType.GetOr("")]
    && v.targetNode.nodeType.GetOr("") in schemas && v.targetSchema == schemas[v.targetNode.nodeType.GetOr("")]
    && v.sourceSlot in v.sourceSchema.outputs && ParseHandleSlotName(c.sourceHandle, "out-") == Some(v.sourceSlot.name)
    && v.targetSlot in v.targetSchema.inputs && ParseHandleSlotName(c.targetHandle, "in-") == Some(v.targetSlot.name)
  }

  /** Looks up the nodes, schemas and slots a connection refers to. */
  function ResolveConnectionSlots(c: GraphEdge, nodes: seq<GraphNode>, schemas: NodeSchemaMap)
    : (r: Option<ResolvedConnectionSlots>)
    ensures !Present(c.source) || !Present(c.target) ==> r.None?
    ensures ParseHandleSlotName(c.sourceHandle, "out-").None? || ParseHandleSlotName(c.targetHandle, "in-").None? ==> r.None?
    ensures r.Some? ==> ResolvedFrom(c, nodes, schemas, r.value)
  {
    if !Present(c.source) || !Present(c.target) then None
    else
      var sourceSlotName := ParseHandleSlotName(c.sourceHandle, "out-");
      var targetSlotName := ParseHandleSlotName(c.targetHandle, "in-");
      if sourceSlotName.None? || targetSlotName.None? then None
      else
        var sourceNode := Find(nodes, (n: GraphNode) => n.id == c.source.value);
        var targetNode := Find(nodes, (n: GraphNode) => n.id == c.target.value);
        if sourceNode.None? || targetNode.None? then None
        else
          var sourceKey := sourceNode.value.nodeType.GetOr("");
          var targetKey := targetNode.value.nodeType.GetOr("");
          if sourceKey !in schemas || targetKey !in schemas then None
          else
            var sourceSchema := schemas[sourceKey];
            var targetSchema := schemas[targetKey];
            var sourceSlot := Find(sourceSchema.outputs, (o: OutputSlot) => o.name == sourceSlotName.value);
            var targetSlot := Find(targetSchema.inputs, (i: InputSlot) => i.name == targetSlotName.value);
            if sourceSlot.None? || targetSlot.None? then None
            else Some(ResolvedConnectionSlots(
              sourceNode.value, targetNode.value, sourceSchema, targetSchema, sourceSlot.value, targetSlot.value))
  }

  /** No two nodes share an id. */
  predicate UniqueIds(nodes: seq<GraphNode>) {
    forall i, j | 0 <= i < j < |nodes| :: nodes[i].id != nodes[j].id
  }

  /**
   * Conversely, with unique node ids a connection resolves whenever its
   * endpoints are present, its handles parse, and the nodes, their schemas
   * and the named slots all exist; it then resolves to exactly those nodes.
   */
  lemma ResolveConnectionSlotsComplete(
    c: GraphEdge, nodes: seq<GraphNode>, schemas: NodeSchemaMap, src: GraphNode, tgt: GraphNode)
    requires UniqueIds(nodes)
    requires Present(c.source) && Present(c.target)
    requires src in nodes && src.id == c.source.value && tgt in nodes && tgt.id == c.target.value
    requires src.nodeType.GetOr("") in schemas && tgt.nodeType.GetOr("") in schemas
    requires ParseHandleSlotName(c.sourceHandle, "out-").Some? && ParseHandleSlotName(c.targetHandle, "in-").Some?
    requires exists o | o in schemas[src.nodeType.GetOr("")].outputs ::
      o.name == ParseHandleSlotName(c.sourceHandle, "out-").value
    requires exists i | i in schemas[tgt.nodeType.GetOr("")].inputs ::
      i.name == ParseHandleSlotName(c.targetHandle, "in-").value
    ensures ResolveConnectionSlots(c, nodes, schemas).Some?
    ensures ResolveConnectionSlots(c, nodes, schemas).value.sourceNode == src
    ensures ResolveConnectionSlots(c, nodes, schemas).value.targetNode == tgt
  {
    var s := Find(nodes, (n: GraphNode) => n.id == c.source.value);
    var t := Find(nodes, (n: GraphNode) => n.id == c.target.value);
    assert s.Some? && s.value == src by {
      var a :| 0 <= a < |nodes| && nodes[a] == src;
      assert !(forall i | 0 <= i < |nodes| :: nodes[i].id != c.source.value);
      SameIdSameNode(nodes, s.value, src);
    }
    assert t.Some? && t.value == tgt by {
      var a :| 0 <= a < |nodes| && nodes[a] == tgt;
      assert !(forall i | 0 <= i < |nodes| :: nodes[i].id != c.target.value);
      SameIdSameNode(nodes, t.value, tgt);
    }
    var o :| o in schemas[src.nodeType.GetOr("")].outputs && o.name == ParseHandleSlotName(c.sourceHandle, "out-").value;
    var i :| i in schemas[tgt.nodeType.GetOr("")].inputs && i.name == ParseHandleSlotName(c.targetHandle, "in-").value;
    var os := schemas[src.nodeType.GetOr("")].outputs;
    var ins := schemas[tgt.nodeType.GetOr("")].inputs;
    var oi :| 0 <= oi < |os| && os[oi] == o;
    var ii :| 0 <= ii < |ins| && ins[ii] == i;
    assert Find(os, (x: OutputSlot) => x.name == ParseHandleSlotName(c.sourceHandle, "out-").value).Some?;
    assert Find(ins, (x: InputSlot) => x.name == ParseHandleSlotName(c.targetHandle, "in-").value).Some?;
  }

  lemma SameIdSameNode(nodes: seq<GraphNode>, a: GraphNode, b: GraphNode)
    requires UniqueIds(nodes) && a in nodes && b in nodes && a.id == b.id
    ensures a == b
  {
    var i :| 0 <= i < |nodes| && nodes[i] == a;
    var j :| 0 <= j < |nodes| && nodes[j] == b;
  }

  /**
   * An output may feed an input exactly when the input has a value type and
   * the output's type equals it; an input without one (an option list, or
   * an empty type name) accepts nothing.
   */
  function IsTypeCompatible(resolved: ResolvedConnectionSlots): (ok: bool)
    ensures ok <==> resolved.targetSlot.valueType.Some? && resolved.targetSlot.valueType.value != ""
                    && resolved.sourceSlot.outputType == resolved.targetSlot.valueType.value
  {
    var targetType := resolved.targetSlot.valueType;
    if targetType.None? || targetType.value == "" then false
    else resolved.sourceSlot.outputType == targetType.value
  }

  // ---------------------------------------------------------------------
  // Reachability
  // ---------------------------------------------------------------------

  /** Edge `e` runs from `a` to `b`; edges lacking an endpoint run nowhere. */
  predicate Links(e: GraphEdge, a: string, b: string) {
    Present(e.source) && Present(e.target) && e.source.value == a && e.target.value == b
  }

  ghost predicate IsEdge(edges: seq<GraphEdge>, a: string, b: string) {
    exists e | e in edges :: Links(e, a, b)
  }

  /** `p` is a walk along `edges` from `a` to `b` (of length zero when it is `[a]`). */
  ghost predicate IsPath(edges: seq<GraphEdge>, p: seq<string>, a: string, b: string) {
    && |p| > 0 && p[0] == a && p[|p| - 1] == b
    && forall i | 0 <= i < |p| - 1 :: IsEdge(edges, p[i], p[i + 1])
  }

  ghost predicate Reachable(edges: seq<GraphEdge>, a: string, b: string) {
    exists p :: IsPath(edges, p, a, b)
  }

  /** No edge closes a cycle: nothing reaches back to an edge's start from its end. */
  ghost predicate Acyclic(edges: seq<GraphEdge>) {
    forall a, b | IsEdge(edges, a, b) :: !Reachable(edges, b, a)
  }

  lemma ReachableRefl(edges: seq<GraphEdge>, a: string)
    ensures Reachable(edges, a, a)
  {
    assert IsPath(edges, [a], a, a);
  }

  lemma ReachableStep(edges: seq<GraphEdge>, a: string, b: string, c: string)
    requires Reachable(edges, a, b) && IsEdge(edges, b, c)
    ensures Reachable(edges, a, c)
  {
    var p :| IsPath(edges, p, a, b);
    var q := p + [c];
    forall i | 0 <= i < |q| - 1
      ensures IsEdge(edges, q[i], q[i + 1])
    {
      if i < |p| - 1 {
        assert q[i] == p[i] && q[i + 1] == p[i + 1];
      }
    }
    assert IsPath(edges, q, a, c);
  }

  lemma ReachableTrans(edges: seq<GraphEdge>, a: string, b: string, c: string)
    requires Reachable(edges, a, b) && Reachable(edges, b, c)
    ensures Reachable(edges, a, c)
  {
    var p :| IsPath(edges, p, a, b);
    var q :| IsPath(edges, q, b, c);
    var r := p + q[1..];
    forall i | 0 <= i < |r| - 1
      ensures IsEdge(edges, r[i], r[i + 1])
    {
      if i < |p| - 1 {
        assert r[i] == p[i] && r[i + 1] == p[i + 1];
      } else {
        assert r[i] == q[i - |p| + 1] && r[i + 1] == q[i - |p| + 2];
      }
    }
    assert IsPath(edges, r, a, c);
  }

  /** A set that holds `a` and all successors of its members holds everything `a` reaches. */
  lemma ClosedSetHoldsReachable(edges: seq<GraphEdge>, closed: set<string>, a: string, b: string)
    requires a in closed
    requires forall v, w | v in closed && w in Successors(edges, v) :: w in closed
    requires Reachable(edges, a, b)
    ensures b in closed
  {
    var p :| IsPath(edges, p, a, b);
    var i := 0;
    while i < |p| - 1
      invariant 0 <= i < |p| && p[i] in closed
    {
      SuccessorsAreEdges(edges, p[i], p[i + 1]);
      i := i + 1;
    }
  }

  // ---------------------------------------------------------------------
  // Cycle detection
  // ---------------------------------------------------------------------

  /** The targets of the edges leaving `x`, in edge order. */
  function Successors(edges: seq<GraphEdge>, x: string): seq<string> {
    if edges == [] then []
    else
      var e := edges[|edges| - 1];
      Successors(edges[..|edges| - 1], x) + if Present(e.source) && Present(e.target) && e.source.value == x then [e.target.value] else []
  }

  lemma {:induction false} SuccessorsAreEdges(edges: seq<GraphEdge>, x: string, y: string)
    ensures y in Successors(edges, x) <==> IsEdge(edges, x, y)
  {
    if edges != [] {
      var init := edges[..|edges| - 1];
      var e := edges[|edges| - 1];
      SuccessorsAreEdges(init, x, y);
      if IsEdge(edges, x, y) && !Links(e, x, y) {
        var f :| f in edges && Links(f, x, y);
        assert f in init by {
          assert edges == init + [e];
        }
      }
      if IsEdge(init, x, y) {
        var f :| f in init && Links(f, x, y);
        assert f in edges;
      }
      if Links(e, x, y) {
        assert e in edges;
      }
    }
  }

  /** The node ids the walk can ever put on its stack. */
  function TargetsOf(edges: seq<GraphEdge>): set<string> {
    set e | e in edges && Present(e.target) :: e.target.value
  }

  lemma SuccessorsAreTargets(edges: seq<GraphEdge>, x: string, y: string)
    requires y in Successors(edges, x)
    ensures y in TargetsOf(edges) && y != ""
  {
    SuccessorsAreEdges(edges, x, y);
    var e :| e in edges && Links(e, x, y);
  }

  /** `adjacency.get(x) ?? []`. */
  function Neighbors(adjacency: map<string, seq<string>>, x: string): seq<string> {
    if x in adjacency then adjacency[x] else []
  }

  /** The neighbours not in `visited`, in order. */
  function Unvisited(neighbors: seq<string>, visited: set<string>): seq<string> {
    if neighbors == [] then []
    else
      var last := neighbors[|neighbors| - 1];
      Unvisited(neighbors[..|neighbors| - 1], visited) + (if last in visited then [] else [last])
  }

  /** Pushes the neighbours not yet visited, in order. */
  method PushUnvisited(stack: seq<string>, visited: set<string>, neighbors: seq<string>)
    returns (pushed: seq<string>)
    ensures pushed == stack + Unvisited(neighbors, visited)
    ensures forall x | x in pushed :: x in stack || (x in neighbors && x !in visited)
    ensures forall x | x in stack :: x in pushed
    ensures forall x | x in neighbors && x !in visited :: x in pushed
  {
    pushed := stack;
    for j := 0 to |neighbors|
      invariant pushed == stack + Unvisited(neighbors[..j], visited)
      invariant forall x | x in pushed :: x in stack || (x in neighbors[..j] && x !in visited)
      invariant forall x | x in stack :: x in pushed
      invariant forall x | x in neighbors[..j] && x !in visited :: x in pushed
    {
      assert neighbors[..j + 1] == neighbors[..j] + [neighbors[j]];
      assert neighbors[..j + 1][..j] == neighbors[..j];
      if neighbors[j] !in visited {
        pushed := pushed + [neighbors[j]];
      }
    }
    assert neighbors[..|neighbors|] == neighbors;
  }

  /** Groups the targets of the edges with both endpoints by their source, in edge order. */
  method BuildAdjacency(edges: seq<GraphEdge>) returns (adjacency: map<string, seq<string>>)
    ensures forall x :: Neighbors(adjacency, x) == Successors(edges, x)
  {
    adjacency := map[];
    for i := 0 to |edges|
      invariant forall x :: Neighbors(adjacency, x) == Successors(edges[..i], x)
    {
      var e := edges[i];
      assert edges[..i + 1][..i] == edges[..i];
      if Present(e.source) && Present(e.target) {
        if e.source.value in adjacency {
          adjacency := adjacency[e.source.value := adjacency[e.source.value] + [e.target.value]];
        } else {
          adjacency := adjacency[e.source.value := [e.target.value]];
        }
      }
    }
    assert edges[..|edges|] == edges;
  }

  /** Every neighbour of a member of `nodes` is a member. */
  ghost predicate ClosedUnder(adjacency: map<string, seq<string>>, nodes: set<string>) {
    forall v, w | v in nodes && w in Neighbors(adjacency, v) :: w in nodes
  }

  /** Every neighbour of a visited node is visited or still on the stack. */
  ghost predicate ClosedModulo(adjacency: map<string, seq<string>>, visited: set<string>, stack: seq<string>) {
    forall v, w | v in visited && w in Neighbors(adjacency, v) :: w in visited || w in stack
  }

  /** With nothing left on the stack, the visited nodes are closed. */
  lemma ClosedModuloEmpty(adjacency: map<string, seq<string>>, visited: set<string>)
    requires ClosedModulo(adjacency, visited, [])
    ensures ClosedUnder(adjacency, visited)
  {
  }

  /** Popping an already visited node keeps the search closed. */
  lemma PopVisited(adjacency: map<string, seq<string>>, visited: set<string>, stack: seq<string>, nodeId: string)
    requires ClosedModulo(adjacency, visited, stack + [nodeId]) && nodeId in visited
    ensures ClosedModulo(adjacency, visited, stack)
  {
    forall v, w | v in visited && w in Neighbors(adjacency, v)
      ensures w in visited || w in stack
    {
      assert w in visited || w in stack + [nodeId];
    }
  }

  /** Visiting a popped node and pushing its unvisited neighbours keeps the search closed. */
  lemma ExpandNode(adjacency: map<string, seq<string>>, visited: set<string>, stack: seq<string>,
                   nodeId: string, pushed: seq<string>)
    requires ClosedModulo(adjacency, visited, stack + [nodeId])
    requires forall x | x in stack :: x in pushed
    requires forall x | x in Neighbors(adjacency, nodeId) && x !in visited + {nodeId} :: x in pushed
    ensures ClosedModulo(adjacency, visited + {nodeId}, pushed)
  {
    forall v, w | v in visited + {nodeId} && w in Neighbors(adjacency, v)
      ensures w in visited + {nodeId} || w in pushed
    {
      if v != nodeId {
        assert w in visited || w in stack + [nodeId];
      }
    }
  }

  /**
   * Depth-first search from `t` with an explicit stack, expanding each node
   * once. It finds `s` only when `s` lies in every neighbour-closed set
   * holding `t` (such as `reach`); when it does not, the nodes it visited
   * form a neighbour-closed set holding `t` but not `s`.
   */
  method SearchFrom(adjacency: map<string, seq<string>>, s: string, t: string, ghost reach: set<string>)
    returns (found: bool, visited: set<string>)
    requires t in reach && ClosedUnder(adjacency, reach)
    ensures found ==> s in reach
    ensures !found ==> t in visited && s !in visited && ClosedUnder(adjacency, visited)
  {
    var stack := [t];
    visited := {};
    while |stack| > 0
      invariant forall x | x in stack :: x in reach
      invariant visited <= reach
      invariant s !in visited
      invariant t in visited || t in stack
      invariant ClosedModulo(adjacency, visited, stack)
      decreases |reach - visited|, |stack|
    {
      var nodeId := stack[|stack| - 1];
      ghost var before := stack;
      stack := stack[..|stack| - 1];
      assert before == stack + [nodeId];
      if nodeId == s {
        return true, visited;
      }
      if nodeId in visited {
        PopVisited(adjacency, visited, stack, nodeId);
        continue;
      }
      ghost var unvisited := reach - visited;
      ghost var oldVisited := visited;
      visited := visited + {nodeId};
      assert unvisited == (reach - visited) + {nodeId};
      var neighbors := Neighbors(adjacency, nodeId);
      var popped := stack;
      stack := PushUnvisited(stack, visited, neighbors);
      ExpandNode(adjacency, oldVisited, popped, nodeId, stack);
    }
    ClosedModuloEmpty(adjacency, visited);
    return false, visited;
  }

  /**
   * Whether adding `c` would close a cycle: always for a connection lacking
   * an endpoint, otherwise exactly when the source is reachable from the
   * target along the existing edges (a self-loop included).
   */
  method CreatesCycle(c: GraphEdge, edges: seq<GraphEdge>) returns (cycle: bool)
    ensures cycle <==> !Present(c.source) || !Present(c.target) || Reachable(edges, c.target.value, c.source.value)
  {
    if !Present(c.source) || !Present(c.target) {
      return true;
    }
    var s, t := c.source.value, c.target.value;
    if s == t {
      ReachableRefl(edges, t);
      return true;
    }
    var adjacency := BuildAdjacency(edges);
    ghost var reach := set x | x in {t} + TargetsOf(edges) && Reachable(edges, t, x);
    ReachableRefl(edges, t);
    forall v, w | v in reach && w in Neighbors(adjacency, v)
      ensures w in reach
    {
      SuccessorsAreTargets(edges, v, w);
      SuccessorsAreEdges(edges, v, w);
      ReachableStep(edges, t, v, w);
    }
    var visited;
    cycle, visited := SearchFrom(adjacency, s, t, reach);
    if !cycle && Reachable(edges, t, s) {
      ClosedSetHoldsReachable(edges, visited, t, s);
    }
  }

  // ---------------------------------------------------------------------
  // Validation
  // ---------------------------------------------------------------------

  /** What `isConnectionValid` accepts: a resolvable, type-compatible, acyclic connection. */
  ghost predicate Accepts(c: GraphEdge, nodes: seq<GraphNode>, edges: seq<GraphEdge>, schemas: NodeSchemaMap) {
    var resolved := ResolveConnectionSlots(c, nodes, schemas);
    && resolved.Some?
    && IsTypeCompatible(resolved.value)
    && !Reachable(edges, c.target.value, c.source.value)
  }

  /** Accepts a connection that resolves, whose types match, and that closes no cycle. */
  method IsConnectionValid(c: GraphEdge, nodes: seq<GraphNode>, edges: seq<GraphEdge>, schemas: NodeSchemaMap)
    returns (valid: bool)
    ensures valid <==> Accepts(c, nodes, edges, schemas)
  {
    var resolved := ResolveConnectionSlots(c, nodes, schemas);
    if resolved.None? {
      return false;
    }
    if !IsTypeCompatible(resolved.value) {
      return false;
    }
    var cycle := CreatesCycle(c, edges);
    if cycle {
      return false;
    }
    return true;
  }

  /**
   * A walk along `edges + [c]` either avoids `c`, or reaches `c`'s source
   * first and continues from `c`'s target.
   */
  lemma {:induction false} ReachableWithEdge(edges: seq<GraphEdge>, c: GraphEdge, p: seq<string>, a: string, b: string)
    requires Present(c.source) && Present(c.target)
    requires IsPath(edges + [c], p, a, b)
    ensures Reachable(edges, a, b)
         || (Reachable(edges, a, c.source.value) && Reachable(edges, c.target.value, b))
    decreases |p|
  {
    var extended := edges + [c];
    if |p| == 1 {
      ReachableRefl(edges, a);
    } else {
      var next := p[1];
      assert IsPath(extended, p[1..], next, b) by {
        forall i | 0 <= i < |p[1..]| - 1
          ensures IsEdge(extended, p[1..][i], p[1..][i + 1])
        {
          assert p[1..][i] == p[i + 1] && p[1..][i + 1] == p[i + 2];
        }
      }
      ReachableWithEdge(edges, c, p[1..], next, b);
      assert IsEdge(extended, a, next);
      var e :| e in extended && Links(e, a, next);
      if e in edges {
        assert IsEdge(edges, a, next);
        ReachableRefl(edges, a);
        ReachableStep(edges, a, a, next);
        if Reachable(edges, next, b) {
          ReachableTrans(edges, a, next, b);
        } else {
          ReachableTrans(edges, a, next, c.source.value);
        }
      } else {
        assert e == c;
        ReachableRefl(edges, a);
        if !Reachable(edges, next, b) {
          assert Reachable(edges, c.target.value, b);
        }
      }
    }
  }

  lemma EdgeOfExtended(edges: seq<GraphEdge>, c: GraphEdge, a: string, b: string)
    requires IsEdge(edges + [c], a, b)
    ensures IsEdge(edges, a, b) || Links(c, a, b)
  {
    var e :| e in edges + [c] && Links(e, a, b);
    if e in edges {
      assert IsEdge(edges, a, b);
    }
  }

  /** `c` has both endpoints and its source is not reachable from its target. */
  ghost predicate ClosesNoCycle(c: GraphEdge, edges: seq<GraphEdge>) {
    Present(c.source) && Present(c.target) && !Reachable(edges, c.target.value, c.source.value)
  }

  lemma AcceptsClosesNoCycle(c: GraphEdge, nodes: seq<GraphNode>, edges: seq<GraphEdge>, schemas: NodeSchemaMap)
    requires Accepts(c, nodes, edges, schemas)
    ensures ClosesNoCycle(c, edges)
  {
  }

  /** Adding a connection that closes no cycle to an acyclic graph keeps it acyclic. */
  lemma AcyclicExtend(c: GraphEdge, edges: seq<GraphEdge>)
    requires Acyclic(edges) && ClosesNoCycle(c, edges)
    ensures Acyclic(edges + [c])
  {
    var s, t := c.source.value, c.target.value;
    forall a, b | IsEdge(edges + [c], a, b)
      ensures !Reachable(edges + [c], b, a)
    {
      if Reachable(edges + [c], b, a) {
        var p :| IsPath(edges + [c], p, b, a);
        ReachableWithEdge(edges, c, p, b, a);
        EdgeOfExtended(edges, c, a, b);
        // If the edge is c itself, either case of the split is a walk from
        // t to s in the old graph. An old edge a -> b: a walk back from b is
        // old, or runs t -> a -> b -> s.
        if !Links(c, a, b) && !Reachable(edges, b, a) {
          ReachableStep(edges, t, a, b);
          ReachableTrans(edges, t, b, s);
        }
      }
    }
  }

  /** Adding an accepted connection to an acyclic graph keeps it acyclic. */
  lemma ValidConnectionKeepsAcyclic(c: GraphEdge, nodes: seq<GraphNode>, edges: seq<GraphEdge>, schemas: NodeSchemaMap)
    requires Acyclic(edges)
    requires Accepts(c, nodes, edges, schemas)
    ensures Acyclic(edges + [c])
  {
    AcceptsClosesNoCycle(c, nodes, edges, schemas);
    AcyclicExtend(c, edges);
  }

  /** Each connection in `added` closed no cycle in the graph as it stood when it was added. */
  ghost predicate NoCycleInTurn(edges: seq<GraphEdge>, added: seq<GraphEdge>) {
    forall k | 0 <= k < |added| :: ClosesNoCycle(added[k], edges + added[..k])
  }

  lemma {:induction false} NoCycleInTurnKeepsAcyclic(edges: seq<GraphEdge>, added: seq<GraphEdge>)
    requires Acyclic(edges) && NoCycleInTurn(edges, added)
    ensures Acyclic(edges + added)
    decreases |added|
  {
    if added != [] {
      var init := added[..|added| - 1];
      var last := added[|added| - 1];
      assert NoCycleInTurn(edges, init) by {
        forall k | 0 <= k < |init|
          ensures ClosesNoCycle(init[k], edges + init[..k])
        {
          assert init[k] == added[k] && init[..k] == added[..k];
        }
      }
      NoCycleInTurnKeepsAcyclic(edges, init);
      assert ClosesNoCycle(last, edges + init) by {
        assert added[..|added| - 1] == init;
      }
      AcyclicExtend(last, edges + init);
      assert edges + init + [last] == edges + added;
    } else {
      assert edges + added == edges;
    }
  }

  /** Each connection in `added` was accepted against the graph as it stood when it was added. */
  ghost predicate AcceptedInTurn(nodes: seq<GraphNode>, edges: seq<GraphEdge>, added: seq<GraphEdge>, schemas: NodeSchemaMap) {
    forall k | 0 <= k < |added| :: Accepts(added[k], nodes, edges + added[..k], schemas)
  }

  /** Wiring a graph only through the validator never creates a cycle. */
  lemma AcceptedInTurnKeepsAcyclic(
    nodes: seq<GraphNode>, edges: seq<GraphEdge>, added: seq<GraphEdge>, schemas: NodeSchemaMap)
    requires Acyclic(edges)
    requires AcceptedInTurn(nodes, edges, added, schemas)
    ensures Acyclic(edges + added)
  {
    forall k | 0 <= k < |added|
      ensures ClosesNoCycle(added[k], edges + added[..k])
    {
      AcceptsClosesNoCycle(added[k], nodes, edges + added[..k], schemas);
    }
    NoCycleInTurnKeepsAcyclic(edges, added);
  }
}
