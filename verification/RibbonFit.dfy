/**
 Whether the ribbons of the Topology view (otelcol/extensions/statuscfgextension/webui-react/
 src/sankey.js) stay inside the boxes they connect, for every configuration and all counters.
 */
module RibbonFit {
  import opened RealArith
  import opened Attribution
  import opened Sankey
  import opened Ribbons
  import opened MetricsFlow

  // --- How much flows into one box

  /** What an edge's width depends on. */
  datatype Pen = Pen(drawn: set<string>, pipelineIds: set<string>, status: Status, px: real)

  /** An edge without a box at either end is not drawn. */
  function EdgeWidth(e: Edge, pen: Pen): real {
    if e.from in pen.drawn && e.to in pen.drawn then Width(EdgeFlow(e, pen.pipelineIds, pen.status), pen.px) else 0.0
  }

  /** The width of all edges that end at n. */
  function Inbound(edges: seq<Edge>, n: string, pen: Pen): real {
    if edges == [] then 0.0 else
      var e := edges[|edges| - 1];
      Inbound(edges[..|edges| - 1], n, pen) + if e.to == n then EdgeWidth(e, pen) else 0.0
  }

  lemma {:induction false} IntoIsInbound(edges: seq<Edge>, byId: Boxes, n: string, pen: Pen)
    requires pen.drawn == byId.Keys && forall id :: id in byId ==> byId[id].id == id
    ensures Into(RawLinks(edges, byId, pen.pipelineIds, pen.status, pen.px), n) == Inbound(edges, n, pen)
  {
    hide Width, EdgeFlow;
    if edges != [] {
      var front := edges[..|edges| - 1];
      IntoIsInbound(front, byId, n, pen);
      var before := RawLinks(front, byId, pen.pipelineIds, pen.status, pen.px);
      var raw := RawLinks(edges, byId, pen.pipelineIds, pen.status, pen.px);
      if raw != before { assert raw[..|raw| - 1] == before; }
    }
  }

  lemma {:induction false} InboundOfBoth(a: seq<Edge>, b: seq<Edge>, n: string, pen: Pen)
    ensures Inbound(a + b, n, pen) == Inbound(a, n, pen) + Inbound(b, n, pen)
  {
    hide EdgeWidth;
    if b == [] {
      assert a + b == a;
    } else {
      assert (a + b)[..|a + b| - 1] == a + b[..|b| - 1];
      InboundOfBoth(a, b[..|b| - 1], n, pen);
    }
  }

  lemma {:induction false} NoneInbound(edges: seq<Edge>, n: string, pen: Pen)
    requires forall i :: 0 <= i < |edges| ==> edges[i].to != n
    ensures Inbound(edges, n, pen) == 0.0
  {
    if edges != [] { NoneInbound(edges[..|edges| - 1], n, pen); }
  }

  lemma {:induction false} ReceiverEdgesEnd(rs: seq<string>, n: string)
    ensures forall i :: 0 <= i < |ReceiverEdges(rs, n)| ==> ReceiverEdges(rs, n)[i].to == n
  {
    if rs != [] { ReceiverEdgesEnd(rs[..|rs| - 1], n); }
  }

  lemma {:induction false} ExporterEdgesEnd(n: string, xs: seq<string>)
    ensures forall i :: 0 <= i < |ExporterEdges(n, xs)| ==> ExporterEdges(n, xs)[i].to in xs
  {
    if xs != [] {
      ExporterEdgesEnd(n, xs[..|xs| - 1]);
      assert xs == xs[..|xs| - 1] + [xs[|xs| - 1]];
    }
  }

  /** One pipeline's edges: only its receivers' end at it, and none of another pipeline's. */
  lemma EdgesInto(p: Pipelines, m: string, n: string, pen: Pen)
    requires m in p && n !in p[m].exporters
    ensures Inbound(ReceiverEdges(p[m].receivers, m) + ExporterEdges(m, p[m].exporters), n, pen)
            == if m == n then Inbound(ReceiverEdges(p[m].receivers, n), n, pen) else 0.0
  {
    hide Inbound;
    ReceiverEdgesEnd(p[m].receivers, m);
    ExporterEdgesEnd(m, p[m].exporters);
    InboundOfBoth(ReceiverEdges(p[m].receivers, m), ExporterEdges(m, p[m].exporters), n, pen);
    NoneInbound(ExporterEdges(m, p[m].exporters), n, pen);
    if m != n { NoneInbound(ReceiverEdges(p[m].receivers, m), n, pen); }
  }

  lemma {:induction false} InboundIsOwnReceivers(p: Pipelines, order: seq<string>, n: string, pen: Pen)
    requires n in p && forall m :: m in order ==> m in p
    requires forall i, j :: 0 <= i < j < |order| ==> order[i] != order[j]
    requires forall m :: m in p ==> n !in p[m].exporters
    ensures Inbound(EdgesOf(p, order), n, pen)
            == if n in order then Inbound(ReceiverEdges(p[n].receivers, n), n, pen) else 0.0
  {
    hide Inbound, ReceiverEdges, ExporterEdges;
    if order == [] {
      NoneInbound([], n, pen);
    } else {
      var front, m := order[..|order| - 1], order[|order| - 1];
      assert order == front + [m];
      InboundIsOwnReceivers(p, front, n, pen);
      InboundOfBoth(EdgesOf(p, front), ReceiverEdges(p[m].receivers, m) + ExporterEdges(m, p[m].exporters), n, pen);
      EdgesInto(p, m, n, pen);
    }
  }

  // --- What the least width of a ribbon adds to the traffic

  /** How much wider than their traffic the receivers' ribbons are drawn, together. */
  function Surplus(rs: seq<string>, n: string, pen: Pen, accepted: Counters): real {
    if rs == [] then 0.0 else
      var r := rs[|rs| - 1];
      Surplus(rs[..|rs| - 1], n, pen, accepted) + (EdgeWidth(Edge(r, n), pen) - Mul(Count(accepted, r) as real, pen.px))
  }

  /** What each receiver's traffic falls short of the least width, together. */
  function Short(rs: seq<string>, accepted: Counters, px: real): real {
    if rs == [] then 0.0 else
      Short(rs[..|rs| - 1], accepted, px) + Max(MIN_RIBBON - Mul(Count(accepted, rs[|rs| - 1]) as real, px), 0.0)
  }

  /** The receivers bring exactly the pipeline's own flow and the surplus. */
  lemma {:induction false} ReceiversBringFlow(rs: seq<string>, n: string, pen: Pen, accepted: Counters)
    ensures Inbound(ReceiverEdges(rs, n), n, pen) ==
            Mul(CountAll(rs, accepted) as real, pen.px) + Surplus(rs, n, pen, accepted)
  {
    hide Mul, EdgeWidth, Count;
    if rs == [] {
      MulZero(pen.px);
    } else {
      var front, r := rs[..|rs| - 1], rs[|rs| - 1];
      ReceiversBringFlow(front, n, pen, accepted);
      var edges := ReceiverEdges(rs, n);
      assert edges[..|edges| - 1] == ReceiverEdges(front, n) && edges[|edges| - 1] == Edge(r, n);
      MulAdd(CountAll(front, accepted) as real, Count(accepted, r) as real, pen.px);
    }
  }

  /** A receiver's flow is its counter, or nothing if it is not configured. */
  lemma ReceiverFlow(rc: ResolvedConfig, accepted: Counters, sent: Counters, failed: Counters, r: string)
    ensures FlowFor(StatusOf(rc, accepted, sent, failed), Receiver, r) ==
            if r in rc.receiverIDs then Count(accepted, r) as real else 0.0
  {
  }

  lemma WidthIsFlowOrLeast(r: string, n: string, pen: Pen, flow: Flow)
    requires n in pen.pipelineIds && FlowFor(pen.status, Receiver, r) == flow && pen.px >= 0.0
    ensures 0.0 <= EdgeWidth(Edge(r, n), pen) <= Mul(flow, pen.px) + MIN_RIBBON
    ensures r in pen.drawn && n in pen.drawn ==>
            EdgeWidth(Edge(r, n), pen) == Mul(flow, pen.px) + Max(MIN_RIBBON - Mul(flow, pen.px), 0.0)
  {
    hide Mul, FlowFor;
    MulZero(pen.px);
    MulOrdered(0.0, flow, pen.px);
  }

  lemma {:induction false} SurplusIsShort(rs: seq<string>, n: string, pen: Pen, accepted: Counters)
    requires n in pen.pipelineIds && n in pen.drawn && pen.px >= 0.0
    requires forall r :: r in rs ==> r in pen.drawn && FlowFor(pen.status, Receiver, r) == Count(accepted, r) as real
    ensures Surplus(rs, n, pen, accepted) == Short(rs, accepted, pen.px)
  {
    hide Mul, EdgeWidth, Count, FlowFor;
    if rs != [] {
      var r := rs[|rs| - 1];
      assert r in rs && rs == rs[..|rs| - 1] + [r];
      SurplusIsShort(rs[..|rs| - 1], n, pen, accepted);
      WidthIsFlowOrLeast(r, n, pen, Count(accepted, r) as real);
    }
  }

  lemma {:induction false} SurplusAtMost(rs: seq<string>, n: string, pen: Pen, accepted: Counters)
    requires n in pen.pipelineIds && pen.px >= 0.0
    requires forall r :: FlowFor(pen.status, Receiver, r) <= Count(accepted, r) as real
    ensures Surplus(rs, n, pen, accepted) <= MIN_RIBBON * |rs| as real
  {
    hide Mul, EdgeWidth, Count, FlowFor;
    if rs != [] {
      var r := rs[|rs| - 1];
      SurplusAtMost(rs[..|rs| - 1], n, pen, accepted);
      WidthIsFlowOrLeast(r, n, pen, FlowFor(pen.status, Receiver, r));
      MulOrdered(FlowFor(pen.status, Receiver, r), Count(accepted, r) as real, pen.px);
    }
  }

  /** Without traffic every ribbon has the least width. */
  lemma {:induction false} IdleIsShort(rs: seq<string>, accepted: Counters, px: real)
    requires CountAll(rs, accepted) == 0
    ensures Short(rs, accepted, px) == MIN_RIBBON * |rs| as real
  {
    hide Mul;
    MulZero(px);
    if rs != [] { IdleIsShort(rs[..|rs| - 1], accepted, px); }
  }

  // --- A drawing

  /** Everything that goes into one drawing. */
  datatype Picture = Picture(rc: ResolvedConfig, accepted: Counters, sent: Counters, failed: Counters,
                             order: seq<string>, edges: seq<Edge>,
                             recvIds: seq<string>, pipeIds: seq<string>, expIds: seq<string>, layout: Layout)
  {
    function Flows(): Status { StatusOf(rc, accepted, sent, failed) }
    function Recv(): seq<Entry> { Entries(recvIds, Receiver, Flows()) }
    function Pipe(): seq<Entry> { Entries(pipeIds, Pipeline, Flows()) }
    function Exp(): seq<Entry> { Entries(expIds, Exporter, Flows()) }
    function Measure(): Scale { ScaleFor(Recv(), Pipe(), Exp()) }
    function ById(): Boxes { Index(layout.recvBoxes + layout.pipeBoxes + layout.expBoxes) }
    function Ink(): Pen { Pen(ById().Keys, PipelineIds(Pipe()), Flows(), Measure().pxPerEvent) }
    function Raw(): seq<RawLink> { RawLinks(edges, ById(), PipelineIds(Pipe()), Flows(), Measure().pxPerEvent) }

    ghost predicate Valid() {
      && Visits(order, rc.pipelines) && edges == EdgesOf(rc.pipelines, order)
      && (forall id :: id in recvIds <==> Configured(rc, Receiver, id))
      && (forall id :: id in pipeIds <==> Configured(rc, Pipeline, id))
      && (forall id :: id in expIds <==> Configured(rc, Exporter, id))
      && Shows(layout, edges, Flows(), Recv(), Pipe(), Exp())
    }
  }

  /** Every drawing DrawTopology makes is such a picture. */
  lemma DrawnIsValid(p: Picture, graph: Graph)
    requires Drawn(p.layout, p.rc, graph, p.order, p.Flows(), p.recvIds, p.pipeIds, p.expIds) && p.edges == graph.edges
    ensures p.Valid()
  {
    hide Shows, StatusOf, EdgesOf, NodesOf, Visits, Configured;
    ColumnsListConfig(p.rc, graph, p.order, p.recvIds, Receiver);
    ColumnsListConfig(p.rc, graph, p.order, p.pipeIds, Pipeline);
    ColumnsListConfig(p.rc, graph, p.order, p.expIds, Exporter);
  }

  lemma {:induction false} IndexHas(boxes: seq<Box>, i: nat)
    requires i < |boxes|
    ensures boxes[i].id in Index(boxes)
  {
    if i < |boxes| - 1 { IndexHas(boxes[..|boxes| - 1], i); }
  }

  lemma {:induction false} IndexNames(boxes: seq<Box>, id: string) returns (i: nat)
    requires id in Index(boxes)
    ensures i < |boxes| && boxes[i].id == id && Index(boxes)[id] == boxes[i]
    ensures forall j :: i < j < |boxes| ==> boxes[j].id != id
  {
    if boxes[|boxes| - 1].id == id {
      i := |boxes| - 1;
    } else {
      i := IndexNames(boxes[..|boxes| - 1], id);
    }
  }

  function EntriesOf(p: Picture, kind: Kind): seq<Entry> {
    match kind case Receiver => p.Recv() case Pipeline => p.Pipe() case Exporter => p.Exp()
  }

  function ColumnBoxes(p: Picture, kind: Kind): seq<Box> {
    match kind
    case Receiver => p.layout.recvBoxes
    case Pipeline => p.layout.pipeBoxes
    case Exporter => p.layout.expBoxes
  }

  /** A box of a column shows a configured component of its kind with its flow. */
  lemma BoxShows(p: Picture, kind: Kind, i: nat)
    requires p.Valid() && i < |ColumnBoxes(p, kind)|
    ensures var b := ColumnBoxes(p, kind)[i];
            && Configured(p.rc, kind, b.id) && b.flow == FlowFor(p.Flows(), kind, b.id)
            && b.height == p.Measure().nodeH + Mul(b.flow, p.Measure().pxPerEvent)
  {
    hide Mul, Index, ScaleFor, RawLinks, Ribbon, FlowFor, StatusOf, Configured;
    var ids := match kind case Receiver => p.recvIds case Pipeline => p.pipeIds case Exporter => p.expIds;
    assert |EntriesOf(p, kind)| == |ColumnBoxes(p, kind)| == |ids|;
    assert ids[i] in ids;
  }

  /** Every configured component has a box. */
  lemma ConfiguredHasBox(p: Picture, kind: Kind, id: string) returns (i: nat)
    requires p.Valid() && Configured(p.rc, kind, id)
    ensures i < |ColumnBoxes(p, kind)| && ColumnBoxes(p, kind)[i].id == id
  {
    hide Mul, Index, ScaleFor, RawLinks, Ribbon, FlowFor, StatusOf, Configured, Height;
    var ids := match kind case Receiver => p.recvIds case Pipeline => p.pipeIds case Exporter => p.expIds;
    i :| 0 <= i < |ids| && ids[i] == id;
    assert |EntriesOf(p, kind)| == |ColumnBoxes(p, kind)| == |ids|;
  }

  lemma ConfiguredIsDrawn(p: Picture, kind: Kind, id: string)
    requires p.Valid() && Configured(p.rc, kind, id)
    ensures id in p.ById()
  {
    hide Index, Picture.Valid, Configured;
    var i := ConfiguredHasBox(p, kind, id);
    var before := match kind
      case Receiver => 0
      case Pipeline => |p.layout.recvBoxes|
      case Exporter => |p.layout.recvBoxes + p.layout.pipeBoxes|;
    IndexHas(p.layout.recvBoxes + p.layout.pipeBoxes + p.layout.expBoxes, before + i);
  }

  /** The box an id names shows a component of that id, the last kind that has one: exporters
      come after pipelines and those after receivers. */
  lemma NamedBox(p: Picture, id: string) returns (kind: Kind)
    requires p.Valid() && id in p.ById()
    ensures var b := p.ById()[id];
            && Configured(p.rc, kind, id) && b.flow == FlowFor(p.Flows(), kind, id)
            && b.height == p.Measure().nodeH + Mul(b.flow, p.Measure().pxPerEvent)
    ensures Configured(p.rc, Exporter, id) ==> kind == Exporter
    ensures Configured(p.rc, Pipeline, id) ==> kind != Receiver
  {
    hide Index, Picture.Valid, Configured, Mul, FlowFor, ScaleFor;
    var a, b, c := p.layout.recvBoxes, p.layout.pipeBoxes, p.layout.expBoxes;
    var i := IndexNames(a + b + c, id);
    if i < |a| {
      kind := Receiver;
      BoxShows(p, kind, i);
    } else if i < |a| + |b| {
      kind := Pipeline;
      BoxShows(p, kind, i - |a|);
    } else {
      kind := Exporter;
      BoxShows(p, kind, i - |a| - |b|);
    }
    if Configured(p.rc, Exporter, id) {
      var k := ConfiguredHasBox(p, Exporter, id);
      assert (a + b + c)[|a| + |b| + k].id == id;
    }
    if Configured(p.rc, Pipeline, id) {
      var k := ConfiguredHasBox(p, Pipeline, id);
      assert (a + b + c)[|a| + k].id == id;
    }
  }

  // --- Ribbons into a pipeline

  /** No exporter, configured or listed, has the pipeline's id. */
  predicate Unshared(rc: ResolvedConfig, n: string) {
    n in rc.pipelines && n !in rc.exporterIDs && forall m :: m in rc.pipelines ==> n !in rc.pipelines[m].exporters
  }

  /** All ribbons into n lie inside the box n names. */
  ghost predicate AllInside(p: Picture, n: string) {
    forall i :: 0 <= i < |p.layout.links| && p.layout.links[i].to == n ==>
      n in p.ById() && InBox(p.layout.links[i], p.ById()[n])
  }

  lemma PipelineIsNamed(p: Picture, n: string)
    requires p.Valid() && Unshared(p.rc, n)
    ensures n in PipelineIds(p.Pipe()) && n in p.ById()
    ensures p.ById()[n].height ==
            p.Measure().nodeH + Mul(In(p.rc.pipelines, n, p.accepted) as real, p.Measure().pxPerEvent)
  {
    hide Index, Mul, ScaleFor, Picture.Valid, In;
    ConfiguredIsDrawn(p, Pipeline, n);
    var kind := NamedBox(p, n);
    var i := ConfiguredHasBox(p, Pipeline, n);
    BoxIsEntry(p, i);
  }

  lemma BoxIsEntry(p: Picture, i: nat)
    requires p.Valid() && i < |p.layout.pipeBoxes|
    ensures p.layout.pipeBoxes[i].id in PipelineIds(p.Pipe())
  {
    hide Index, Mul, ScaleFor, Height, RawLinks, Ribbon, FlowFor, StatusOf;
    assert p.Pipe()[i] in p.Pipe();
  }

  /** What is drawn into an unshared pipeline is wider than its box is high by exactly the
      surplus of its receivers over the least height of a box. */
  lemma WidthIntoPipeline(p: Picture, n: string)
    requires p.Valid() && Unshared(p.rc, n)
    ensures n in p.ById()
    ensures Into(p.Raw(), n) - p.ById()[n].height ==
            Surplus(p.rc.pipelines[n].receivers, n, p.Ink(), p.accepted) - p.Measure().nodeH
  {
    hide Index, Mul, ScaleFor, Shows, Inbound, RawLinks, EdgesOf, ReceiverEdges, StatusOf, Surplus, Into;
    PipelineIsNamed(p, n);
    IndexKeepsIds(p.layout.recvBoxes + p.layout.pipeBoxes + p.layout.expBoxes);
    IntoIsInbound(p.edges, p.ById(), n, p.Ink());
    InboundIsOwnReceivers(p.rc.pipelines, p.order, n, p.Ink());
    ReceiversBringFlow(p.rc.pipelines[n].receivers, n, p.Ink(), p.accepted);
  }

  lemma {:induction false} LastInto(raw: seq<RawLink>, id: string) returns (k: nat)
    requires Into(raw, id) != 0.0
    ensures k < |raw| && raw[k].t.id == id && forall j :: k < j < |raw| ==> raw[j].t.id != id
  {
    if raw[|raw| - 1].t.id == id {
      k := |raw| - 1;
    } else {
      k := LastInto(raw[..|raw| - 1], id);
    }
  }

  lemma InsideIff(p: Picture, n: string)
    requires p.Valid() && n in p.ById() && p.ById()[n].height >= 0.0
    ensures AllInside(p, n) <==> Into(p.Raw(), n) <= p.ById()[n].height
  {
    hide Index, ScaleFor, Stacked, StatusOf, Into, Start, RawLinks;
    IndexKeepsIds(p.layout.recvBoxes + p.layout.pipeBoxes + p.layout.expBoxes);
    RawLinksAreLinked(p.edges, p.ById(), PipelineIds(p.Pipe()), p.Flows(), p.Measure().pxPerEvent);
    if Into(p.Raw(), n) <= p.ById()[n].height {
      forall i | 0 <= i < |p.layout.links| && p.layout.links[i].to == n ensures InBox(p.layout.links[i], p.ById()[n]) {
        LinkInside(p.Raw(), p.ById(), i);
      }
    } else {
      var last := LastInto(p.Raw(), n);
      LastSticksOut(p.Raw(), p.ById(), last);
    }
  }

  lemma LinkInside(raw: seq<RawLink>, byId: Boxes, i: nat)
    requires Linked(raw, byId) && i < |raw| && Into(raw, raw[i].t.id) <= raw[i].t.height
    ensures InBox(Ribbon(raw, i), raw[i].t)
  {
    hide Into;
    RibbonInside(raw, byId, i);
  }

  lemma LastSticksOut(raw: seq<RawLink>, byId: Boxes, last: nat)
    requires Linked(raw, byId) && last < |raw| && Into(raw, raw[last].t.id) > raw[last].t.height
    requires forall k :: last < k < |raw| ==> raw[k].t.id != raw[last].t.id
    ensures !InBox(Ribbon(raw, last), raw[last].t)
  {
    hide Into, Ribbon;
    LastRibbon(raw, last);
  }

  /** Whatever the counters: the ribbons into an unshared pipeline lie inside its box exactly
      if what its receivers' ribbons are wider than their traffic fits the least box. */
  lemma InboundRibbonsFitIff(p: Picture, n: string)
    requires p.Valid() && Unshared(p.rc, n)
    ensures AllInside(p, n) <==> Surplus(p.rc.pipelines[n].receivers, n, p.Ink(), p.accepted) <= p.Measure().nodeH
  {
    hide Index, Mul, ScaleFor, Picture.Valid, Surplus, Into, AllInside, RawLinks;
    PipelineIsNamed(p, n);
    WidthIntoPipeline(p, n);
    NamedIsHigh(p, n);
    InsideIff(p, n);
  }

  lemma NamedIsHigh(p: Picture, id: string)
    requires p.Valid() && id in p.ById()
    ensures p.ById()[id].height >= p.Measure().nodeH >= MIN_NODE_H && p.Measure().pxPerEvent >= 0.0
  {
    hide Index, Mul, ScaleFor, Picture.Valid;
    var kind := NamedBox(p, id);
    ScaleIsNonNegative(p.Recv(), p.Pipe(), p.Exp());
    MulZero(p.Measure().pxPerEvent);
    MulOrdered(0.0, p.ById()[id].flow, p.Measure().pxPerEvent);
  }

  /** With only configured receivers: exactly if what their traffic falls short of the least
      width adds up to no more than the least height of a box. */
  lemma ConfiguredReceiversFitIff(p: Picture, n: string)
    requires p.Valid() && Unshared(p.rc, n) && forall r :: r in p.rc.pipelines[n].receivers ==> r in p.rc.receiverIDs
    ensures AllInside(p, n) <==>
            Short(p.rc.pipelines[n].receivers, p.accepted, p.Measure().pxPerEvent) <= p.Measure().nodeH
  {
    hide Index, Mul, ScaleFor, Picture.Valid, Surplus, Short, AllInside, StatusOf, FlowFor, Count;
    InboundRibbonsFitIff(p, n);
    PipelineIsNamed(p, n);
    NamedIsHigh(p, n);
    forall r | r in p.rc.pipelines[n].receivers
      ensures r in p.Ink().drawn && FlowFor(p.Flows(), Receiver, r) == Count(p.accepted, r) as real
    {
      ConfiguredIsDrawn(p, Receiver, r);
      ReceiverFlow(p.rc, p.accepted, p.sent, p.failed, r);
    }
    SurplusIsShort(p.rc.pipelines[n].receivers, n, p.Ink(), p.accepted);
  }

  /** So a pipeline without traffic fits exactly up to nodeH/2 listings: fourteen idle
      receivers, 28 wide, do not fit a box 22 high. */
  lemma IdlePipelineFitsIff(p: Picture, n: string)
    requires p.Valid() && Unshared(p.rc, n) && forall r :: r in p.rc.pipelines[n].receivers ==> r in p.rc.receiverIDs
    requires In(p.rc.pipelines, n, p.accepted) == 0
    ensures AllInside(p, n) <==> |p.rc.pipelines[n].receivers| as real <= p.Measure().nodeH / 2.0
  {
    hide Picture.Valid, Short, AllInside, ScaleFor;
    ConfiguredReceiversFitIff(p, n);
    IdleIsShort(p.rc.pipelines[n].receivers, p.accepted, p.Measure().pxPerEvent);
  }

  /** And any pipeline fits up to nodeH/2 listings, whatever the counters say and whatever it
      lists; eleven always do. */
  lemma InboundRibbonsFit(p: Picture, n: string)
    requires p.Valid() && Unshared(p.rc, n)
    requires |p.rc.pipelines[n].receivers| as real <= p.Measure().nodeH / 2.0 || |p.rc.pipelines[n].receivers| <= 11
    ensures AllInside(p, n)
  {
    hide Index, Mul, ScaleFor, Picture.Valid, Surplus, AllInside, StatusOf, FlowFor, Count;
    InboundRibbonsFitIff(p, n);
    PipelineIsNamed(p, n);
    NamedIsHigh(p, n);
    forall r ensures FlowFor(p.Flows(), Receiver, r) <= Count(p.accepted, r) as real {
      ReceiverFlow(p.rc, p.accepted, p.sent, p.failed, r);
    }
    SurplusAtMost(p.rc.pipelines[n].receivers, n, p.Ink(), p.accepted);
  }

  // --- Where ribbons leave

  /** No two components of different kinds share an id. */
  predicate IdsDiffer(rc: ResolvedConfig) {
    && (forall id :: id in rc.receiverIDs ==> id !in rc.pipelines && id !in rc.exporterIDs)
    && (forall id :: id in rc.pipelines ==> id !in rc.exporterIDs)
  }

  /** What flows out of a component along one edge is at most its own flow. */
  lemma EdgeFlowAtMost(p: Picture, e: Edge)
    requires p.Valid() && IdsDiffer(p.rc) && e.from in p.ById()
    ensures EdgeFlow(e, PipelineIds(p.Pipe()), p.Flows()) <= p.ById()[e.from].flow
  {
    hide Index, Mul, ScaleFor, Picture.Valid, In, Count;
    var kind := NamedBox(p, e.from);
  }

  lemma {:induction false} LinkComesFromEdge(edges: seq<Edge>, byId: Boxes, ids: set<string>, status: Status,
                                             px: real, i: nat) returns (e: Edge)
    requires i < |RawLinks(edges, byId, ids, status, px)|
    ensures var l := RawLinks(edges, byId, ids, status, px)[i];
            && e in edges
            && l.from == e.from && e.from in byId && l.s == byId[e.from]
            && l.to == e.to && e.to in byId && l.t == byId[e.to]
            && l.flow == EdgeFlow(e, ids, status) && l.w == Width(l.flow, px)
  {
    hide Width, EdgeFlow, RawLinks;
    LastLink(edges, byId, ids, status, px);
    var front := edges[..|edges| - 1];
    e := edges[|edges| - 1];
    if i < |RawLinks(front, byId, ids, status, px)| {
      e := LinkComesFromEdge(front, byId, ids, status, px, i);
    }
    assert edges == front + [edges[|edges| - 1]];
  }

  lemma LastLink(edges: seq<Edge>, byId: Boxes, ids: set<string>, status: Status, px: real)
    requires RawLinks(edges, byId, ids, status, px) != []
    ensures edges != []
    ensures var e, before := edges[|edges| - 1], RawLinks(edges[..|edges| - 1], byId, ids, status, px);
            var raw, flow := RawLinks(edges, byId, ids, status, px), EdgeFlow(e, ids, status);
            || raw == before
            || (e.from in byId && e.to in byId
                && raw == before + [RawLink(byId[e.from], byId[e.to], Width(flow, px), e.from, e.to, flow)])
  {
    hide Width, EdgeFlow;
  }

  lemma FlowOfNamed(p: Picture, kind: Kind, id: string)
    requires p.Valid() && IdsDiffer(p.rc) && id in p.ById() && Configured(p.rc, kind, id)
    ensures p.ById()[id].flow == FlowFor(p.Flows(), kind, id)
  {
    hide Index, Mul, ScaleFor, Picture.Valid, FlowFor;
    var named := NamedBox(p, id);
  }

  lemma PipelineIdsAreConfigured(p: Picture)
    requires p.Valid()
    ensures PipelineIds(p.Pipe()) == p.rc.pipelines.Keys
  {
    hide Index, Mul, ScaleFor, Shows, FlowFor, StatusOf;
    forall id | id in p.rc.pipelines ensures id in PipelineIds(p.Pipe()) {
      assert Configured(p.rc, Pipeline, id);
      var i :| 0 <= i < |p.pipeIds| && p.pipeIds[i] == id;
      assert p.Pipe()[i] in p.Pipe();
    }
    forall e | e in p.Pipe() ensures e.id in p.rc.pipelines {
      var i :| 0 <= i < |p.Pipe()| && p.Pipe()[i] == e;
      assert p.pipeIds[i] in p.pipeIds;
      assert Configured(p.rc, Pipeline, p.pipeIds[i]);
    }
  }

  /** Everyone gets the whole stream: what a receiver sends to a pipeline, and a pipeline to
      whatever it exports to, is all that flows through it. Only an id that a pipeline exports
      to and that is itself a pipeline's gets nothing. Widths follow, in proportion. */
  lemma LinkCarriesItsSource(p: Picture, i: nat)
    requires p.Valid() && IdsDiffer(p.rc) && i < |p.layout.links|
    ensures var l := p.layout.links[i];
            && l.from in p.ById() && l.to in p.ById()
            && l.flow == (if l.to in p.rc.pipelines && l.from !in p.rc.receiverIDs then 0.0
                          else p.ById()[l.from].flow)
            && l.w == Max(Mul(l.flow, p.Measure().pxPerEvent), 2.0)
            && l.tx == p.ById()[l.to].x
  {
    hide Index, Mul, ScaleFor, Stacked, StatusOf, Into, Start, RawLinks;
    var e := LinkComesFromEdge(p.edges, p.ById(), PipelineIds(p.Pipe()), p.Flows(), p.Measure().pxPerEvent, i);
    PipelineIdsAreConfigured(p);
    if e.to in p.rc.pipelines {
      if e.from in p.rc.receiverIDs { FlowOfNamed(p, Receiver, e.from); }
      else { NoFlowUnlessConfigured(p, e.from); }
    } else {
      EdgesAreListings(p.rc.pipelines, p.order, e);
      FlowOfNamed(p, Pipeline, e.from);
    }
  }

  lemma NoFlowUnlessConfigured(p: Picture, id: string)
    requires id !in p.rc.receiverIDs
    ensures FlowFor(p.Flows(), Receiver, id) == 0.0
  {
  }

  /** The columns: receivers at the left edge of the canvas, exporters at the right edge, and
      pipelines in the middle. */
  lemma ColumnsSpread(p: Picture, kind: Kind, i: nat)
    requires p.Valid() && i < |ColumnBoxes(p, kind)|
    ensures var left, right := ColumnBoxes(p, kind)[i].x, 900.0 - (ColumnBoxes(p, kind)[i].x + 150.0);
            match kind case Receiver => left == 0.0 case Pipeline => left == right case Exporter => right == 0.0
  {
    hide Index, Mul, ScaleFor, RawLinks, Ribbon, FlowFor, StatusOf, Configured, Height;
    assert |EntriesOf(p, kind)| == |ColumnBoxes(p, kind)|;
  }

  /** With ids that differ, every ribbon leaves the right edge of its source at mid-height and
      is no wider than the source is high: it starts inside its box. */
  lemma RibbonsStartInside(p: Picture, i: nat)
    requires p.Valid() && IdsDiffer(p.rc) && i < |p.layout.links|
    ensures var l := p.layout.links[i];
            && l.from in p.ById()
            && var b := p.ById()[l.from];
            && l.sx == b.x + NODE_W && l.sy - b.y == Bottom(b) - l.sy
            && b.y <= l.sy - l.w / 2.0 && l.sy + l.w / 2.0 <= Bottom(b)
  {
    hide Index, Mul, ScaleFor, Stacked, StatusOf, Into, Start, EdgeFlow, RawLinks;
    var e := LinkComesFromEdge(p.edges, p.ById(), PipelineIds(p.Pipe()), p.Flows(), p.Measure().pxPerEvent, i);
    EdgeFlowAtMost(p, e);
    var kind := NamedBox(p, e.from);
    NamedIsHigh(p, e.from);
    RibbonAtMost(p.Raw()[i].flow, p.ById()[e.from].flow, p.Measure().pxPerEvent);
  }

  /** A ribbon is no wider than a box with at least its traffic is high. */
  lemma RibbonAtMost(flow: Flow, most: Flow, px: real)
    requires flow <= most && px >= 0.0
    ensures Width(flow, px) <= Mul(most, px) + MIN_NODE_H
  {
    hide Mul;
    MulOrdered(flow, most, px);
    MulZero(px);
    MulOrdered(0.0, most, px);
  }

  // --- Why an exporter must not share a pipeline's id

  /** The exporter takes over the box of the pipeline, and its height is that of its own flow.
      One receiver is then enough to overflow it. */
  lemma SharedIdOverflows(p: Picture)
    requires p.Valid() && p.rc == ResolvedConfig(["r"], ["p"], map["p" := PipelineTopology(["r"], [])])
    requires p.accepted == map["r" := 1000] && p.sent == map[] && p.failed == map[]
    requires p.recvIds == ["r"] && p.pipeIds == ["p"] && p.expIds == ["p"]
    ensures |p.layout.links| == 1 && p.layout.links[0].to == "p" && p.layout.links[0].w == 500.0
    ensures "p" in p.ById() && p.ById()["p"].height == 72.0
    ensures !AllInside(p, "p")
  {
    hide EdgesOf, Visits, ScaleFor, NodesOf, StatusOf, Entries, Ribbon, RawLinks, Index;
    EntriesOfExample(p.rc, p.accepted, p.Flows());
    ScaleOfExample(p.Recv(), p.Pipe(), p.Exp());
    EdgesOfExample(p.order, p.rc.pipelines);
    BoxesOfExample(p.layout.recvBoxes, p.layout.pipeBoxes, p.layout.expBoxes, p.Recv(), p.Pipe(), p.Exp());
    LinkOfExample(p.ById(), p.Pipe(), p.Flows());
    assert !InBox(p.layout.links[0], p.ById()["p"]);
  }

  lemma EntriesOfExample(rc: ResolvedConfig, accepted: Counters, status: Status)
    requires rc == ResolvedConfig(["r"], ["p"], map["p" := PipelineTopology(["r"], [])]) && accepted == map["r" := 1000]
    requires status == StatusOf(rc, accepted, map[], map[])
    ensures Entries(["r"], Receiver, status) == [Entry("r", 1000.0)]
    ensures Entries(["p"], Pipeline, status) == [Entry("p", 1000.0)]
    ensures Entries(["p"], Exporter, status) == [Entry("p", 0.0)]
    ensures FlowFor(status, Receiver, "r") == 1000.0
  {
    assert CountAll(["r"], accepted) == 1000 by { assert ["r"][..0] == []; }
  }

  lemma BoxesOfExample(recvBoxes: seq<Box>, pipeBoxes: seq<Box>, expBoxes: seq<Box>, recv: seq<Entry>,
                       pipe: seq<Entry>, exp: seq<Entry>)
    requires recv == [Entry("r", 1000.0)] && pipe == [Entry("p", 1000.0)] && exp == [Entry("p", 0.0)]
    requires var s := Scale(572.0, 72.0, 0.5);
             Stacked(recvBoxes, recv, COLUMN_X.0, s) && Stacked(pipeBoxes, pipe, COLUMN_X.1, s)
               && Stacked(expBoxes, exp, COLUMN_X.2, s)
    ensures var byId := Index(recvBoxes + pipeBoxes + expBoxes);
            "r" in byId && "p" in byId && byId["p"].height == 72.0
  {
    var boxes := recvBoxes + pipeBoxes + expBoxes;
    assert boxes == [recvBoxes[0], pipeBoxes[0], expBoxes[0]];
    IndexIsLast(boxes, 0);
    IndexIsLast(boxes, 2);
  }

  lemma LinkOfExample(byId: Boxes, pipe: seq<Entry>, status: Status)
    requires "r" in byId && "p" in byId && pipe == [Entry("p", 1000.0)] && FlowFor(status, Receiver, "r") == 1000.0
    ensures var raw := RawLinks([Edge("r", "p")], byId, PipelineIds(pipe), status, 0.5);
            |raw| == 1 && raw[0].to == "p" && raw[0].w == 500.0 && Ribbon(raw, 0).to == "p" && Ribbon(raw, 0).w == 500.0
  {
    assert [Edge("r", "p")][..0] == [];
    assert RawLinks([], byId, PipelineIds(pipe), status, 0.5) == [];
    assert pipe[0] in pipe;
    assert EdgeFlow(Edge("r", "p"), PipelineIds(pipe), status) == 1000.0;
  }

  lemma ScaleOfExample(recv: seq<Entry>, pipe: seq<Entry>, exp: seq<Entry>)
    requires recv == [Entry("r", 1000.0)] && pipe == [Entry("p", 1000.0)] && exp == [Entry("p", 0.0)]
    ensures ScaleFor(recv, pipe, exp) == Scale(572.0, 72.0, 0.5)
  {
    assert recv[..0] == [] && pipe[..0] == [] && exp[..0] == [];
    assert SumFlow(recv) == 1000.0 && SumFlow(pipe) == 1000.0 && SumFlow(exp) == 0.0;
    RoomyHeight(1);
    assert Reserved(1, 72.0) == 72.0;
  }

  lemma EdgesOfExample(order: seq<string>, p: Pipelines)
    requires Visits(order, p) && p == map["p" := PipelineTopology(["r"], [])]
    ensures EdgesOf(p, order) == [Edge("r", "p")]
  {
    assert "p" in order;
    assert order[0] in order;
    forall i | 0 <= i < |order| ensures order[i] == "p" { assert order[i] in order; }
    assert order[|order| - 1] == order[0];
    assert order == ["p"];
    assert order[..0] == [] && EdgesOf(p, []) == [];
    assert ReceiverEdges(["r"], "p") == [Edge("r", "p")];
  }
}
