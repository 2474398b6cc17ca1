/**
 From the collector's counters to a drawing of the Topology view: the graph of topology.go,
 the events_in of buildSnapshot in extension.go, and the layout of sankey.js on top of both.
 */
module MetricsFlow {
  import opened Options
  import opened FiniteSums
  import opened Attribution
  import opened PipelineSnapshots
  import opened Sankey
  import opened Ribbons

  datatype ResolvedConfig = ResolvedConfig(receiverIDs: seq<string>, exporterIDs: seq<string>, pipelines: Pipelines)

  function ReceiverEdges(rs: seq<string>, n: string): seq<Edge> {
    if rs == [] then [] else ReceiverEdges(rs[..|rs| - 1], n) + [Edge(rs[|rs| - 1], n)]
  }

  function ExporterEdges(n: string, xs: seq<string>): seq<Edge> {
    if xs == [] then [] else ExporterEdges(n, xs[..|xs| - 1]) + [Edge(n, xs[|xs| - 1])]
  }

  /** The edges of the pipelines, visited in this order. */
  function EdgesOf(p: Pipelines, order: seq<string>): seq<Edge>
    requires forall n :: n in order ==> n in p
  {
    if order == [] then [] else
      var n := order[|order| - 1];
      EdgesOf(p, order[..|order| - 1]) + (ReceiverEdges(p[n].receivers, n) + ExporterEdges(n, p[n].exporters))
  }

  /** Pipeline n lists the edge's source as a receiver, or its target as an exporter. */
  predicate Lists(p: Pipelines, n: string, e: Edge) {
    n in p && ((e.to == n && e.from in p[n].receivers) || (e.from == n && e.to in p[n].exporters))
  }

  /** One edge per listing, in the order of the listings. */
  lemma {:induction false} OneEdgePerListing(n: string, ids: seq<string>)
    ensures |ReceiverEdges(ids, n)| == |ids| == |ExporterEdges(n, ids)|
    ensures forall i :: 0 <= i < |ids| ==>
              ReceiverEdges(ids, n)[i] == Edge(ids[i], n) && ExporterEdges(n, ids)[i] == Edge(n, ids[i])
  {
    if ids != [] { OneEdgePerListing(n, ids[..|ids| - 1]); }
  }

  lemma EdgesOfOne(p: Pipelines, n: string, e: Edge)
    requires n in p
    ensures e in ReceiverEdges(p[n].receivers, n) + ExporterEdges(n, p[n].exporters) <==> Lists(p, n, e)
  {
    hide ReceiverEdges, ExporterEdges;
    var rs, xs := p[n].receivers, p[n].exporters;
    OneEdgePerListing(n, rs);
    OneEdgePerListing(n, xs);
    if e.to == n && e.from in rs {
      var i :| 0 <= i < |rs| && rs[i] == e.from;
      assert ReceiverEdges(rs, n)[i] == e;
    }
    if e.from == n && e.to in xs {
      var i :| 0 <= i < |xs| && xs[i] == e.to;
      assert ExporterEdges(n, xs)[i] == e;
    }
  }

  /** The edges are exactly what the pipelines list. */
  lemma {:induction false} EdgesAreListings(p: Pipelines, order: seq<string>, e: Edge)
    requires forall n :: n in order ==> n in p
    ensures e in EdgesOf(p, order) <==> exists n :: n in order && Lists(p, n, e)
  {
    hide Lists, ReceiverEdges, ExporterEdges;
    if order != [] {
      var front, last := order[..|order| - 1], order[|order| - 1];
      assert order == front + [last];
      EdgesAreListings(p, front, e);
      EdgesOfOne(p, last, e);
    }
  }

  function NodesOf(ids: seq<string>, kind: Kind): seq<Node> {
    seq(|ids|, i requires 0 <= i < |ids| => Node(ids[i], kind))
  }

  /** The pipelines in the order Go happened to visit them: each exactly once. */
  ghost predicate Visits(order: seq<string>, p: Pipelines) {
    && (forall n :: n in order <==> n in p)
    && forall i, j :: 0 <= i < j < |order| ==> order[i] != order[j]
  }

  ghost predicate IsTopology(graph: Graph, rc: ResolvedConfig, order: seq<string>) {
    && Visits(order, rc.pipelines)
    && graph.nodes == NodesOf(rc.receiverIDs, Receiver) + NodesOf(rc.exporterIDs, Exporter) + NodesOf(order, Pipeline)
    && graph.edges == EdgesOf(rc.pipelines, order)
  }

  lemma NothingVisited(p: Pipelines)
    ensures NodesOf([], Pipeline) == [] && EdgesOf(p, []) == []
  {
  }

  lemma OneMoreVisited(p: Pipelines, order: seq<string>, n: string)
    requires n in p && forall m :: m in order ==> m in p
    ensures NodesOf(order + [n], Pipeline) == NodesOf(order, Pipeline) + [Node(n, Pipeline)]
    ensures EdgesOf(p, order + [n]) == EdgesOf(p, order) +
            (ReceiverEdges(p[n].receivers, n) + ExporterEdges(n, p[n].exporters))
  {
    assert (order + [n])[..|order|] == order;
  }

  method BuildTopology(rc: ResolvedConfig) returns (graph: Graph)
    ensures exists order :: IsTopology(graph, rc, order)
  {
    hide NodesOf, EdgesOf;
    var nodes := NodesOf(rc.receiverIDs, Receiver) + NodesOf(rc.exporterIDs, Exporter);
    NothingVisited(rc.pipelines);
    ghost var listed := nodes;
    var edges := [];
    ghost var order := [];
    var todo := rc.pipelines.Keys;
    while todo != {}
      invariant todo <= rc.pipelines.Keys
      invariant forall n :: n in order <==> n in rc.pipelines && n !in todo
      invariant forall i, j :: 0 <= i < j < |order| ==> order[i] != order[j]
      invariant nodes == listed + NodesOf(order, Pipeline)
      invariant edges == EdgesOf(rc.pipelines, order)
      decreases |todo|
    {
      var name :| name in todo;
      nodes := nodes + [Node(name, Pipeline)];
      var receivers := AppendReceivers(rc.pipelines[name].receivers, name);
      var exporters := AppendExporters(name, rc.pipelines[name].exporters);
      edges := edges + (receivers + exporters);
      OneMoreVisited(rc.pipelines, order, name);
      order := order + [name];
      todo := todo - {name};
    }
    graph := Graph(nodes, edges);
    assert IsTopology(graph, rc, order);
  }

  method AppendReceivers(rs: seq<string>, name: string) returns (edges: seq<Edge>)
    ensures edges == ReceiverEdges(rs, name)
  {
    edges := [];
    for i := 0 to |rs|
      invariant edges == ReceiverEdges(rs[..i], name)
    {
      assert rs[..i + 1][..i] == rs[..i];
      edges := edges + [Edge(rs[i], name)];
    }
    assert rs[..|rs|] == rs;
  }

  method AppendExporters(name: string, xs: seq<string>) returns (edges: seq<Edge>)
    ensures edges == ExporterEdges(name, xs)
  {
    edges := [];
    for i := 0 to |xs|
      invariant edges == ExporterEdges(name, xs[..i])
    {
      assert xs[..i + 1][..i] == xs[..i];
      edges := edges + [Edge(name, xs[i])];
    }
    assert xs[..|xs|] == xs;
  }

  /** The events_in of every component. */
  function StatusOf(rc: ResolvedConfig, accepted: Counters, sent: Counters, failed: Counters): Status {
    Status(map id | id in rc.receiverIDs :: Count(accepted, id) as real,
           map n | n in rc.pipelines :: In(rc.pipelines, n, accepted) as real,
           map id | id in rc.exporterIDs :: (Count(sent, id) + Count(failed, id)) as real)
  }

  /** Everything counted at the exporters is shown there, and is what the pipelines' unrounded
      parts add up to, dropped events included. */
  lemma ExportersShowWhatPipelinesGet(rc: ResolvedConfig, accepted: Counters, sent: Counters, failed: Counters)
    requires forall x :: x in Used(rc.pipelines) ==> x in rc.exporterIDs
    ensures var status := StatusOf(rc, accepted, sent, failed);
            Sum(Used(rc.pipelines), x => FlowFor(status, Exporter, x)) ==
            Sum(rc.pipelines.Keys, n => Split(rc.pipelines, n, accepted, sent)) +
            Sum(rc.pipelines.Keys, n => Split(rc.pipelines, n, accepted, failed))
  {
    hide Split, In, Sum;
    SplitConserves(rc.pipelines, accepted, sent);
    SplitConserves(rc.pipelines, accepted, failed);
    var status := StatusOf(rc, accepted, sent, failed);
    SumOfSums(Used(rc.pipelines), Totals(sent), Totals(failed), x => FlowFor(status, Exporter, x));
  }

  method BuildStatus(rc: ResolvedConfig, accepted: Counters, sent: Counters, failed: Counters) returns (status: Status)
    ensures status == StatusOf(rc, accepted, sent, failed)
  {
    hide In, Split, Round, Nearest, Count;
    var snapshots := ComputePipelineSnapshots(rc.pipelines, accepted, sent, failed);
    status := Status(map id | id in rc.receiverIDs :: Count(accepted, id) as real,
                     map n | n in rc.pipelines :: snapshots[n].eventsIn as real,
                     map id | id in rc.exporterIDs :: (Count(sent, id) + Count(failed, id)) as real);
  }

  // --- Columns and drawings

  lemma {:induction false} IdsOfAll(ids: seq<string>, kind: Kind, of: Kind)
    ensures IdsOf(NodesOf(ids, kind), of) == if kind == of then ids else []
  {
    if ids != [] {
      var nodes := NodesOf(ids, kind);
      assert nodes[..|nodes| - 1] == NodesOf(ids[..|ids| - 1], kind);
      IdsOfAll(ids[..|ids| - 1], kind, of);
      assert ids == ids[..|ids| - 1] + [ids[|ids| - 1]];
    }
  }

  lemma {:induction false} IdsOfBoth(a: seq<Node>, b: seq<Node>, kind: Kind)
    ensures IdsOf(a + b, kind) == IdsOf(a, kind) + IdsOf(b, kind)
  {
    if b == [] {
      assert a + b == a;
    } else {
      assert (a + b)[..|a + b| - 1] == a + b[..|b| - 1];
      IdsOfBoth(a, b[..|b| - 1], kind);
    }
  }

  predicate Configured(rc: ResolvedConfig, kind: Kind, id: string) {
    match kind
    case Receiver => id in rc.receiverIDs
    case Pipeline => id in rc.pipelines
    case Exporter => id in rc.exporterIDs
  }

  /** The columns list what is configured. */
  lemma ColumnsListConfig(rc: ResolvedConfig, graph: Graph, order: seq<string>, ids: seq<string>, kind: Kind)
    requires IsTopology(graph, rc, order) && Arranges(ids, graph, kind)
    ensures forall id :: id in ids <==> Configured(rc, kind, id)
  {
    hide IdsOf;
    var r, x, p := NodesOf(rc.receiverIDs, Receiver), NodesOf(rc.exporterIDs, Exporter), NodesOf(order, Pipeline);
    IdsOfBoth(r + x, p, kind);
    IdsOfBoth(r, x, kind);
    IdsOfAll(rc.receiverIDs, Receiver, kind);
    IdsOfAll(rc.exporterIDs, Exporter, kind);
    IdsOfAll(order, Pipeline, kind);
    var listed := IdsOf(graph.nodes, kind);
    forall id ensures id in ids <==> id in listed {
      assert id in multiset(ids) <==> id in multiset(listed);
    }
  }

  /** Every node the graph lists, in columns, with its flow from the counters. */
  ghost predicate Drawn(layout: Layout, rc: ResolvedConfig, graph: Graph, order: seq<string>, status: Status,
                        recvIds: seq<string>, pipeIds: seq<string>, expIds: seq<string>) {
    && IsTopology(graph, rc, order)
    && Arranges(recvIds, graph, Receiver) && Arranges(pipeIds, graph, Pipeline) && Arranges(expIds, graph, Exporter)
    && Shows(layout, graph.edges, status, Entries(recvIds, Receiver, status), Entries(pipeIds, Pipeline, status),
             Entries(expIds, Exporter, status))
  }

  /** From the configuration and the counters to a drawing; every configuration that names
      anything has one. Here the columns keep the graph's own order. */
  method DrawTopology(rc: ResolvedConfig, accepted: Counters, sent: Counters, failed: Counters)
    returns (graph: Graph, layout: Option<Layout>)
    ensures layout.None? <==> graph.nodes == []
    ensures layout.Some? ==>
              exists order :: Drawn(layout.value, rc, graph, order, StatusOf(rc, accepted, sent, failed),
                                    IdsOf(graph.nodes, Receiver), IdsOf(graph.nodes, Pipeline),
                                      IdsOf(graph.nodes, Exporter))
  {
    hide IsTopology, Shows, StatusOf, IdsOf;
    graph := BuildTopology(rc);
    var status := BuildStatus(rc, accepted, sent, failed);
    layout := ComputeSankeyLayout(graph, status, IdsOf(graph.nodes, Receiver), IdsOf(graph.nodes, Pipeline),
                                  IdsOf(graph.nodes, Exporter));
    ghost var order :| IsTopology(graph, rc, order);
    if layout.Some? {
      assert Drawn(layout.value, rc, graph, order, status,
                   IdsOf(graph.nodes, Receiver), IdsOf(graph.nodes, Pipeline), IdsOf(graph.nodes, Exporter));
    }
  }
}
