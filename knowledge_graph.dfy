/**
 * The deterministic parts of the knowledge-graph builder: the `{`...`}` span
 * of the language model's reply is parsed, checked for `nodes` and `edges`,
 * laid out, and each node is given `x`/`y` coordinates; any failure on the
 * way gives a fixed one-node graph. The model call is not modelled, and the
 * force-directed layout is a parameter: `layout(G, v)` is the position that
 * the layout of graph `G` gives vertex `v`.
 */
module KnowledgeGraphBuilder {
  import opened Wrappers
  import opened JsonValues
  import Span

  /**
   * The graph returned when anything goes wrong: exactly one node,
   * "main_topic", labelled with the topic, of type "core" and at (0, 0), and
   * no edges. It passes the structure check itself.
   */
  function FallbackGraph(topic: string): (g: Json)
    ensures g.JObj? && g.fields.Keys == {"nodes", "edges"}
    ensures g.fields["edges"] == JArr([])
    ensures g.fields["nodes"].JArr? && |g.fields["nodes"].items| == 1
    ensures var node := g.fields["nodes"].items[0];
      && node.JObj?
      && Get(node.fields, "id") == JStr("main_topic")
      && Get(node.fields, "label") == JStr(topic)
      && Get(node.fields, "type") == JStr("core")
      && Get(node.fields, "x") == JNum(0.0) && Get(node.fields, "y") == JNum(0.0)
    ensures LaysOut(g)
  {
    JObj(map[
      "nodes" := JArr([JObj(map[
        "id" := JStr("main_topic"),
        "label" := JStr(topic),
        "type" := JStr("core"),
        "x" := JNum(0.0),
        "y" := JNum(0.0)
      ])]),
      "edges" := JArr([])
    ])
  }

  /** A value the graph library accepts as a vertex: hashable (not a list or dict) and not None. */
  predicate IsVertex(v: Json) {
    v.JStr? || v.JNum? || v.JBool?
  }

  /** `item[key]` exists and can be a vertex. */
  predicate HasVertexField(item: Json, key: string) {
    item.JObj? && key in item.fields && IsVertex(item.fields[key])
  }

  /** Every node has an `id` the first loop can add as a vertex. */
  predicate NodesLayOut(nodes: seq<Json>) {
    forall i :: 0 <= i < |nodes| ==> HasVertexField(nodes[i], "id")
  }

  /** Every edge has a `source` and a `target` the second loop can add. */
  predicate EdgesLayOut(edges: seq<Json>) {
    forall i :: 0 <= i < |edges| ==> HasVertexField(edges[i], "source") && HasVertexField(edges[i], "target")
  }

  /** The parsed reply passes the structure check and gets through both vertex loops without raising. */
  predicate LaysOut(data: Json) {
    && data.JObj? && "nodes" in data.fields && "edges" in data.fields
    && Rows(data.fields["nodes"]).Some? && Rows(data.fields["edges"]).Some?
    && NodesLayOut(Rows(data.fields["nodes"]).value)
    && EdgesLayOut(Rows(data.fields["edges"]).value)
  }

  /** The vertices of the layout graph: every node id and every edge endpoint, and nothing else. */
  function Vertices(nodes: seq<Json>, edges: seq<Json>): set<Json>
    requires NodesLayOut(nodes) && EdgesLayOut(edges)
  {
    (set i | 0 <= i < |nodes| :: nodes[i].fields["id"])
    + (set i | 0 <= i < |edges| :: edges[i].fields["source"])
    + (set i | 0 <= i < |edges| :: edges[i].fields["target"])
  }

  /** A node dict after `node['x'] = ...; node['y'] = ...`, with the layout position scaled by 300. */
  function WithPosition(node: Json, xy: (real, real)): Json
    requires node.JObj?
  {
    JObj(node.fields["x" := JNum(xy.0 * 300.0)]["y" := JNum(xy.1 * 300.0)])
  }

  /** A positioned node keeps every other field and gains numeric `x` and `y`. */
  lemma WithPositionOnlyAddsCoordinates(node: Json, xy: (real, real))
    requires node.JObj?
    ensures var placed := WithPosition(node, xy);
      && placed.JObj?
      && placed.fields.Keys == node.fields.Keys + {"x", "y"}
      && placed.fields["x"].JNum? && placed.fields["y"].JNum?
      && forall k :: k in node.fields && k != "x" && k != "y" ==> placed.fields[k] == node.fields[k]
  {
  }

  /**
   * What a successful build returns for the parsed `data`: the same object,
   * with every entry but `nodes` untouched and each node, in the same order,
   * positioned where the layout of all vertices puts its id. (When `nodes` is
   * an empty dict or string the loops do nothing and `data` comes back as is.)
   */
  ghost predicate LaidOut(data: Json, graph: Json, layout: (set<Json>, Json) -> (real, real))
    requires LaysOut(data)
  {
    var nodes := Rows(data.fields["nodes"]).value;
    var vertices := Vertices(nodes, Rows(data.fields["edges"]).value);
    && graph.JObj?
    && graph.fields.Keys == data.fields.Keys
    && (forall k :: k in data.fields && k != "nodes" ==> graph.fields[k] == data.fields[k])
    && (data.fields["nodes"].JArr? ==>
          && graph.fields["nodes"].JArr?
          && |graph.fields["nodes"].items| == |nodes|
          && forall i :: 0 <= i < |nodes| ==>
               graph.fields["nodes"].items[i] == WithPosition(nodes[i], layout(vertices, nodes[i].fields["id"])))
    && (!data.fields["nodes"].JArr? ==> graph == data)
  }

  /**
   * The two graph-building loops of `build_graph`: add every node id, then both endpoints of every edge, to the
   * layout graph; None when some node has no usable `id` or some edge no
   * usable `source` or `target` (the loop raises).
   */
  method LayoutVertices(nodes: seq<Json>, edges: seq<Json>) returns (g: Option<set<Json>>)
    ensures g.Some? <==> NodesLayOut(nodes) && EdgesLayOut(edges)
    ensures g.Some? ==> g.value == Vertices(nodes, edges)
  {
    var vs: set<Json> := {};
    var i := 0;
    while i < |nodes|
      invariant 0 <= i <= |nodes|
      invariant forall k :: 0 <= k < i ==> HasVertexField(nodes[k], "id")
      invariant vs == set k | 0 <= k < i :: nodes[k].fields["id"]
    {
      if !HasVertexField(nodes[i], "id") {
        return None;
      }
      vs := vs + {nodes[i].fields["id"]};
      i := i + 1;
    }
    ghost var fromNodes := vs;
    var j := 0;
    while j < |edges|
      invariant 0 <= j <= |edges|
      invariant forall k :: 0 <= k < j ==> HasVertexField(edges[k], "source") && HasVertexField(edges[k], "target")
      invariant vs == fromNodes + (set k | 0 <= k < j :: edges[k].fields["source"]) + (set k | 0 <= k < j :: edges[k].fields["target"])
    {
      if !(HasVertexField(edges[j], "source") && HasVertexField(edges[j], "target")) {
        return None;
      }
      vs := vs + {edges[j].fields["source"], edges[j].fields["target"]};
      j := j + 1;
    }
    g := Some(vs);
  }

  /**
   * The position loop of `build_graph`: every node whose id has a position gets `x` and `y`, in
   * place; the list keeps its length and order.
   */
  method AssignPositions(nodes: seq<Json>, pos: map<Json, (real, real)>) returns (placed: seq<Json>)
    requires NodesLayOut(nodes)
    ensures |placed| == |nodes|
    ensures forall i :: 0 <= i < |nodes| ==>
      placed[i] == if nodes[i].fields["id"] in pos then WithPosition(nodes[i], pos[nodes[i].fields["id"]]) else nodes[i]
  {
    placed := nodes;
    var i := 0;
    while i < |placed|
      invariant 0 <= i <= |placed| == |nodes|
      invariant forall k :: i <= k < |nodes| ==> placed[k] == nodes[k]
      invariant forall k :: 0 <= k < i ==>
        placed[k] == if nodes[k].fields["id"] in pos then WithPosition(nodes[k], pos[nodes[k].fields["id"]]) else nodes[k]
    {
      var id := placed[i].fields["id"];
      if id in pos {
        placed := placed[i := WithPosition(placed[i], pos[id])];
      }
      i := i + 1;
    }
  }

  /**
   * What `build_graph` may return for `reply`: the text parsed is the
   * `{`...`}` span of the reply (or all of it); a parsed reply that lays out
   * comes back positioned, and every failure (no parse, no `nodes` or
   * `edges`, a node without an id, an edge without endpoints) gives the
   * fallback graph.
   */
  ghost predicate Built(reply: string, topic: string, parse: string -> Option<Json>,
                        layout: (set<Json>, Json) -> (real, real), graph: Json)
  {
    var parsed := parse(Span.Extract(reply, '{', '}'));
    if parsed.Some? && LaysOut(parsed.value) then LaidOut(parsed.value, graph, layout)
    else graph == FallbackGraph(topic)
  }

  /** `build_graph` after the model has replied. */
  method BuildGraph(reply: string, topic: string, parse: string -> Option<Json>, layout: (set<Json>, Json) -> (real, real))
    returns (graph: Json)
    ensures Built(reply, topic, parse, layout, graph)
  {
    var parsed := parse(Span.Extract(reply, '{', '}'));
    if parsed.None? {
      return FallbackGraph(topic);
    }
    var data := parsed.value;
    if !(data.JObj? && "nodes" in data.fields && "edges" in data.fields) {
      return FallbackGraph(topic);
    }
    var nodeRows, edgeRows := Rows(data.fields["nodes"]), Rows(data.fields["edges"]);
    if nodeRows.None? || edgeRows.None? {
      return FallbackGraph(topic);
    }
    var nodes := nodeRows.value;
    var vertices := LayoutVertices(nodes, edgeRows.value);
    if vertices.None? {
      return FallbackGraph(topic);
    }
    var g := vertices.value;
    var pos := map v | v in g :: layout(g, v);
    var placed := AssignPositions(nodes, pos);
    forall i | 0 <= i < |nodes|
      ensures nodes[i].fields["id"] in pos
    {
      assert nodes[i].fields["id"] in Vertices(nodes, edgeRows.value);
    }
    if data.fields["nodes"].JArr? {
      graph := JObj(data.fields["nodes" := JArr(placed)]);
    } else {
      graph := data;
    }
  }

  /** A parsed reply without both `nodes` and `edges` (or not an object at all) gives the fallback. */
  lemma MissingKeysGiveFallback(data: Json)
    requires !data.JObj? || "nodes" !in data.fields || "edges" !in data.fields
    ensures !LaysOut(data)
  {
  }
}
