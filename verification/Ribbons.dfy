/**
 The ribbons of the Topology view (otelcol/extensions/statuscfgextension/webui-react/
 src/sankey.js, second half of computeSankeyLayout): every edge between two boxes leaves
 its source at mid-height, and the edges into a box are stacked in edge order.
 */
module Ribbons {
  import opened Options
  import opened RealArith
  import opened Sankey

  type Boxes = map<string, Box>

  /** Boxes by id; a later box takes the id over. */
  function Index(boxes: seq<Box>): Boxes {
    if boxes == [] then map[] else
      var last := boxes[|boxes| - 1];
      Index(boxes[..|boxes| - 1])[last.id := last]
  }

  lemma {:induction false} IndexKeepsIds(boxes: seq<Box>)
    ensures forall id :: id in Index(boxes) ==> Index(boxes)[id].id == id
  {
    if boxes != [] { IndexKeepsIds(boxes[..|boxes| - 1]); }
  }

  /** The box an id names is the last one that carries it. */
  lemma {:induction false} IndexIsLast(boxes: seq<Box>, i: nat)
    requires i < |boxes| && forall j :: i < j < |boxes| ==> boxes[j].id != boxes[i].id
    ensures boxes[i].id in Index(boxes) && Index(boxes)[boxes[i].id] == boxes[i]
  {
    if i < |boxes| - 1 { IndexIsLast(boxes[..|boxes| - 1], i); }
  }

  lemma IndexOfOneMore(earlier: seq<Box>, boxes: seq<Box>, i: nat)
    requires i < |boxes|
    ensures Index(earlier + boxes[..i + 1]) == Index(earlier + boxes[..i])[boxes[i].id := boxes[i]]
  {
    assert (earlier + boxes[..i + 1])[..|earlier| + i] == earlier + boxes[..i];
  }

  method AddToIndex(before: Boxes, ghost earlier: seq<Box>, boxes: seq<Box>) returns (byId: Boxes)
    requires before == Index(earlier)
    ensures byId == Index(earlier + boxes)
  {
    hide Index;
    byId := before;
    assert earlier + boxes[..0] == earlier;
    for i := 0 to |boxes|
      invariant byId == Index(earlier + boxes[..i])
    {
      IndexOfOneMore(earlier, boxes, i);
      byId := byId[boxes[i].id := boxes[i]];
    }
    assert boxes[..|boxes|] == boxes;
  }

  /** An edge with both its boxes and its width, before its place is known. */
  datatype RawLink = RawLink(s: Box, t: Box, w: real, from: string, to: string, flow: Flow)

  datatype Link = Link(sx: real, sy: real, tx: real, ty: real, w: real, from: string, to: string, flow: Flow)

  function EdgeFlow(e: Edge, pipelineIds: set<string>, status: Status): Flow {
    if e.to in pipelineIds then FlowFor(status, Receiver, e.from) else FlowFor(status, Pipeline, e.from)
  }

  function Width(flow: Flow, pxPerEvent: real): (w: real)
    ensures w >= MIN_RIBBON
  {
    Max(Mul(flow, pxPerEvent), MIN_RIBBON)
  }

  /** The edges that have a box at both ends, in edge order. */
  function RawLinks(edges: seq<Edge>, byId: Boxes, pipelineIds: set<string>, status: Status,
                    pxPerEvent: real): (raw: seq<RawLink>)
  {
    if edges == [] then [] else
      var e, before := edges[|edges| - 1], RawLinks(edges[..|edges| - 1], byId, pipelineIds, status, pxPerEvent);
      if e.from !in byId || e.to !in byId then before else
        var flow := EdgeFlow(e, pipelineIds, status);
        before + [RawLink(byId[e.from], byId[e.to], Width(flow, pxPerEvent), e.from, e.to, flow)]
  }

  method CollectLinks(edges: seq<Edge>, byId: Boxes, pipelineIds: set<string>, status: Status, pxPerEvent: real)
    returns (raw: seq<RawLink>)
    ensures raw == RawLinks(edges, byId, pipelineIds, status, pxPerEvent)
  {
    raw := [];
    for i := 0 to |edges|
      invariant raw == RawLinks(edges[..i], byId, pipelineIds, status, pxPerEvent)
    {
      assert edges[..i + 1][..i] == edges[..i];
      var e := edges[i];
      if e.from in byId && e.to in byId {
        var flow := EdgeFlow(e, pipelineIds, status);
        raw := raw + [RawLink(byId[e.from], byId[e.to], Width(flow, pxPerEvent), e.from, e.to, flow)];
      }
    }
    assert edges[..|edges|] == edges;
  }

  /** The total width of the links into the box with this id. */
  function Into(raw: seq<RawLink>, id: string): (total: real) {
    if raw == [] then 0.0 else
      var last := raw[|raw| - 1];
      Into(raw[..|raw| - 1], id) + if last.t.id == id then last.w else 0.0
  }

  /** Links know the boxes of an index. */
  ghost predicate Linked(raw: seq<RawLink>, byId: Boxes) {
    forall i :: 0 <= i < |raw| ==>
      raw[i].t.id == raw[i].to && raw[i].to in byId && raw[i].t == byId[raw[i].to] && raw[i].w >= MIN_RIBBON
  }

  lemma {:induction false} RawLinksAreLinked(edges: seq<Edge>, byId: Boxes, pipelineIds: set<string>, status: Status,
                                             pxPerEvent: real)
    requires forall id :: id in byId ==> byId[id].id == id
    ensures Linked(RawLinks(edges, byId, pipelineIds, status, pxPerEvent), byId)
  {
    hide Width;
    if edges != [] { RawLinksAreLinked(edges[..|edges| - 1], byId, pipelineIds, status, pxPerEvent); }
  }

  /** Where the links into a box begin: in the middle if they fit, at its top if not. */
  function Start(raw: seq<RawLink>, t: Box): real {
    Max((t.height - Into(raw, t.id)) / 2.0, 0.0)
  }

  /** The place of link i. */
  function Ribbon(raw: seq<RawLink>, i: nat): Link
    requires i < |raw|
  {
    var l := raw[i];
    Link(l.s.x + NODE_W, l.s.y + l.s.height / 2.0, l.t.x,
         l.t.y + (Start(raw, l.t) + Into(raw[..i], l.t.id)) + l.w / 2.0, l.w, l.from, l.to, l.flow)
  }

  lemma OneMoreInto(raw: seq<RawLink>, i: nat)
    requires i < |raw|
    ensures forall id :: Into(raw[..i + 1], id) == Into(raw[..i], id) + if raw[i].t.id == id then raw[i].w else 0.0
  {
    assert raw[..i + 1][..i] == raw[..i];
  }

  method TotalsIn(raw: seq<RawLink>) returns (totalIn: map<string, real>)
    ensures forall i :: 0 <= i < |raw| ==> raw[i].t.id in totalIn
    ensures forall id :: id in totalIn ==> exists i :: 0 <= i < |raw| && raw[i].t.id == id
    ensures forall id :: (if id in totalIn then totalIn[id] else 0.0) == Into(raw, id)
  {
    hide Into;
    totalIn := map[];
    NothingInto(raw);
    for i := 0 to |raw|
      invariant forall j :: 0 <= j < i ==> raw[j].t.id in totalIn
      invariant forall id :: id in totalIn ==> exists j :: 0 <= j < i && raw[j].t.id == id
      invariant forall id :: (if id in totalIn then totalIn[id] else 0.0) == Into(raw[..i], id)
    {
      OneMoreInto(raw, i);
      var id := raw[i].t.id;
      totalIn := totalIn[id := (if id in totalIn then totalIn[id] else 0.0) + raw[i].w];
    }
    assert raw[..|raw|] == raw;
  }

  /** The inCursor of every box that has a link, before the first one is placed. */
  method StartCursors(raw: seq<RawLink>, byId: Boxes, totalIn: map<string, real>) returns (inCursor: map<string, real>)
    requires forall id :: id in totalIn ==> id in byId && byId[id].id == id && totalIn[id] == Into(raw, id)
    ensures inCursor.Keys == totalIn.Keys
    ensures forall id :: id in inCursor ==> inCursor[id] == Start(raw, byId[id])
  {
    inCursor := map[];
    var todo := totalIn.Keys;
    while todo != {}
      invariant todo <= totalIn.Keys && inCursor.Keys == totalIn.Keys - todo
      invariant forall id :: id in inCursor ==> inCursor[id] == Start(raw, byId[id])
      decreases |todo|
    {
      var id :| id in todo;
      inCursor := inCursor[id := Max((byId[id].height - totalIn[id]) / 2.0, 0.0)];
      todo := todo - {id};
    }
  }

  lemma NothingInto(raw: seq<RawLink>)
    ensures forall id :: Into(raw[..0], id) == 0.0
  {
  }

  method PlaceLink(raw: seq<RawLink>, i: nat, inCursor: real) returns (link: Link)
    requires i < |raw| && inCursor == Start(raw, raw[i].t) + Into(raw[..i], raw[i].t.id)
    ensures link == Ribbon(raw, i)
  {
    var l := raw[i];
    link := Link(l.s.x + NODE_W, l.s.y + l.s.height / 2.0, l.t.x, l.t.y + inCursor + l.w / 2.0, l.w, l.from, l.to,
                 l.flow);
  }

  lemma LinkEndsAt(raw: seq<RawLink>, byId: Boxes, i: nat)
    requires Linked(raw, byId) && i < |raw|
    ensures raw[i].t.id in byId && raw[i].t == byId[raw[i].t.id]
  {
  }

  method PlaceLinks(raw: seq<RawLink>, byId: Boxes) returns (links: seq<Link>)
    requires Linked(raw, byId)
    ensures |links| == |raw|
    ensures forall i :: 0 <= i < |raw| ==> links[i] == Ribbon(raw, i)
  {
    hide Start, Ribbon, Into, Linked;
    forall i | 0 <= i < |raw| ensures raw[i].t.id in byId && raw[i].t == byId[raw[i].t.id]
      && byId[raw[i].t.id].id == raw[i].t.id {
      LinkEndsAt(raw, byId, i);
    }
    var totalIn := TotalsIn(raw);
    var inCursor := StartCursors(raw, byId, totalIn);
    links := [];
    NothingInto(raw);
    for i := 0 to |raw|
      invariant |links| == i && inCursor.Keys == totalIn.Keys
      invariant forall j :: 0 <= j < i ==> links[j] == Ribbon(raw, j)
      invariant forall id :: id in inCursor ==> inCursor[id] == Start(raw, byId[id]) + Into(raw[..i], id)
    {
      OneMoreInto(raw, i);
      var id := raw[i].t.id;
      var link := PlaceLink(raw, i, inCursor[id]);
      links := links + [link];
      inCursor := inCursor[id := inCursor[id] + raw[i].w];
    }
  }

  // --- Ribbons side by side

  function Top(l: Link): real { l.ty - l.w / 2.0 }
  function End(l: Link): real { l.ty + l.w / 2.0 }

  lemma {:induction false} IntoGrows(raw: seq<RawLink>, byId: Boxes, id: string, i: nat, j: nat)
    requires Linked(raw, byId) && i <= j <= |raw|
    ensures 0.0 <= Into(raw[..i], id) <= Into(raw[..j], id)
    decreases j
  {
    if j == 0 {
      assert raw[..0] == [];
    } else if i == j {
      assert raw[..j][..j - 1] == raw[..j - 1];
      IntoGrows(raw, byId, id, i - 1, j - 1);
    } else {
      assert raw[..j][..j - 1] == raw[..j - 1];
      IntoGrows(raw, byId, id, i, j - 1);
    }
  }

  lemma {:induction false} NoneInto(raw: seq<RawLink>, id: string, i: nat, j: nat)
    requires i <= j <= |raw| && forall k :: i <= k < j ==> raw[k].t.id != id
    ensures Into(raw[..i], id) == Into(raw[..j], id)
    decreases j
  {
    if i < j {
      assert raw[..j][..j - 1] == raw[..j - 1];
      NoneInto(raw, id, i, j - 1);
    }
  }

  /** The next link into the same box begins exactly where this one ends. */
  lemma RibbonsAreConsecutive(raw: seq<RawLink>, byId: Boxes, i: nat, j: nat)
    requires Linked(raw, byId) && i < j < |raw| && raw[i].t.id == raw[j].t.id
    requires forall k :: i < k < j ==> raw[k].t.id != raw[i].t.id
    ensures Top(Ribbon(raw, j)) == End(Ribbon(raw, i))
  {
    hide Start;
    assert raw[i].t == raw[j].t;
    assert raw[..i + 1][..i] == raw[..i];
    NoneInto(raw, raw[i].t.id, i + 1, j);
  }

  /** Links into the same box never overlap, and lie in edge order. */
  lemma RibbonsAreDisjoint(raw: seq<RawLink>, byId: Boxes, i: nat, j: nat)
    requires Linked(raw, byId) && i < j < |raw| && raw[i].t.id == raw[j].t.id
    ensures End(Ribbon(raw, i)) <= Top(Ribbon(raw, j))
  {
    hide Start;
    assert raw[i].t == raw[j].t;
    assert raw[..i + 1][..i] == raw[..i];
    IntoGrows(raw, byId, raw[i].t.id, i + 1, j);
  }

  /** The first link into a box begins where the cursor starts. */
  lemma FirstRibbon(raw: seq<RawLink>, first: nat)
    requires first < |raw| && forall k :: 0 <= k < first ==> raw[k].t.id != raw[first].t.id
    ensures Top(Ribbon(raw, first)) == raw[first].t.y + Start(raw, raw[first].t)
  {
    hide Start;
    NoneInto(raw, raw[first].t.id, 0, first);
    assert raw[..0] == [];
  }

  /** The last one ends a total width further down. */
  lemma LastRibbon(raw: seq<RawLink>, last: nat)
    requires last < |raw| && forall k :: last < k < |raw| ==> raw[k].t.id != raw[last].t.id
    ensures End(Ribbon(raw, last)) == raw[last].t.y + Start(raw, raw[last].t) + Into(raw, raw[last].t.id)
  {
    hide Start;
    var upTo := raw[..last + 1];
    assert upTo[..last] == raw[..last] && upTo[last] == raw[last];
    NoneInto(raw, raw[last].t.id, last + 1, |raw|);
    assert raw[..|raw|] == raw;
  }

  ghost predicate InBox(l: Link, b: Box) {
    b.y <= Top(l) && End(l) <= Bottom(b)
  }

  /** The links into a box lie inside it exactly when they are together no wider than it is
      high, and then leave the same space above the first and below the last. */
  lemma RibbonsFitIff(raw: seq<RawLink>, byId: Boxes, first: nat, last: nat)
    requires Linked(raw, byId) && first <= last < |raw| && raw[first].t.id == raw[last].t.id
    requires forall k :: 0 <= k < first || last < k < |raw| ==> raw[k].t.id != raw[first].t.id
    ensures var t := raw[first].t;
            (forall i :: 0 <= i < |raw| && raw[i].t.id == t.id ==> InBox(Ribbon(raw, i), t)) <==>
              Into(raw, t.id) <= t.height
    ensures var t := raw[first].t;
            Into(raw, t.id) <= t.height ==> Top(Ribbon(raw, first)) - t.y == Bottom(t) - End(Ribbon(raw, last))
  {
    var t := raw[first].t;
    FirstRibbon(raw, first);
    LastRibbon(raw, last);
    if Into(raw, t.id) <= t.height {
      forall i | 0 <= i < |raw| && raw[i].t.id == t.id ensures InBox(Ribbon(raw, i), t) {
        RibbonInside(raw, byId, i);
      }
    } else {
      assert !InBox(Ribbon(raw, last), t);
    }
  }

  /** Every link lies between the start of its box's links and their end. */
  lemma RibbonInside(raw: seq<RawLink>, byId: Boxes, i: nat)
    requires Linked(raw, byId) && i < |raw|
    ensures var t := raw[i].t;
            t.y + Start(raw, t) <= Top(Ribbon(raw, i)) && End(Ribbon(raw, i)) <= t.y + Start(raw, t) + Into(raw, t.id)
  {
    hide Start;
    var id := raw[i].t.id;
    assert raw[..|raw|] == raw && raw[..0] == [];
    assert raw[..i + 1][..i] == raw[..i];
    IntoGrows(raw, byId, id, 0, i);
    IntoGrows(raw, byId, id, i + 1, |raw|);
  }

  // --- The whole layout

  datatype Layout = Layout(canvasHeight: real, recvBoxes: seq<Box>, pipeBoxes: seq<Box>, expBoxes: seq<Box>,
                           links: seq<Link>)

  function IdsOf(nodes: seq<Node>, kind: Kind): seq<string> {
    if nodes == [] then [] else
      var last := nodes[|nodes| - 1];
      IdsOf(nodes[..|nodes| - 1], kind) + if last.kind == kind then [last.id] else []
  }

  /** A column lists the nodes of one kind in some order. */
  ghost predicate Arranges(ids: seq<string>, graph: Graph, kind: Kind) {
    multiset(ids) == multiset(IdsOf(graph.nodes, kind))
  }

  function Entries(ids: seq<string>, kind: Kind, status: Status): (list: seq<Entry>)
    ensures |list| == |ids|
    ensures forall i :: 0 <= i < |ids| ==> list[i] == Entry(ids[i], FlowFor(status, kind, ids[i]))
  {
    seq(|ids|, i requires 0 <= i < |ids| => Entry(ids[i], FlowFor(status, kind, ids[i])))
  }

  function PipelineIds(pipe: seq<Entry>): set<string> {
    set e | e in pipe :: e.id
  }

  /** The columns' left edges. */
  const COLUMN_X: (real, real, real) :=
    var colGap := (SANKEY_W - NODE_W * 3.0) / 2.0; (0.0, NODE_W + colGap, (NODE_W + colGap) * 2.0)

  /** What a finished layout shows. */
  ghost predicate Shows(layout: Layout, edges: seq<Edge>, status: Status, recv: seq<Entry>, pipe: seq<Entry>,
                        exp: seq<Entry>) {
    var s := ScaleFor(recv, pipe, exp);
    var byId := Index(layout.recvBoxes + layout.pipeBoxes + layout.expBoxes);
    var raw := RawLinks(edges, byId, PipelineIds(pipe), status, s.pxPerEvent);
    && layout.canvasHeight == s.canvas
    && Stacked(layout.recvBoxes, recv, COLUMN_X.0, s)
    && Stacked(layout.pipeBoxes, pipe, COLUMN_X.1, s)
    && Stacked(layout.expBoxes, exp, COLUMN_X.2, s)
    && |layout.links| == |raw|
    && forall i :: 0 <= i < |raw| ==> layout.links[i] == Ribbon(raw, i)
  }

  method ComputeSankeyLayout(graph: Graph, status: Status, recvIds: seq<string>, pipeIds: seq<string>,
                             expIds: seq<string>)
    returns (layout: Option<Layout>)
    requires Arranges(recvIds, graph, Receiver) && Arranges(pipeIds, graph, Pipeline)
             && Arranges(expIds, graph, Exporter)
    ensures layout.None? <==> graph.nodes == []
    ensures layout.Some? ==>
              Shows(layout.value, graph.edges, status, Entries(recvIds, Receiver, status),
                    Entries(pipeIds, Pipeline, status), Entries(expIds, Exporter, status))
  {
    hide ScaleFor, Stacked, RawLinks, Ribbon, Index;
    NodesHaveKinds(graph.nodes);
    if |recvIds| == 0 && |pipeIds| == 0 && |expIds| == 0 {
      return None;
    }
    var recv, pipe, exp := Entries(recvIds, Receiver, status), Entries(pipeIds, Pipeline, status),
        Entries(expIds, Exporter, status);
    var s := ScaleFor(recv, pipe, exp);
    var recvBoxes := LayoutColumn(recv, COLUMN_X.0, s);
    var pipeBoxes := LayoutColumn(pipe, COLUMN_X.1, s);
    var expBoxes := LayoutColumn(exp, COLUMN_X.2, s);
    var byId := IndexColumns(recvBoxes, pipeBoxes, expBoxes);
    var pipelineIds := PipelineIds(pipe);
    var raw := CollectLinks(graph.edges, byId, pipelineIds, status, s.pxPerEvent);
    IndexKeepsIds(recvBoxes + pipeBoxes + expBoxes);
    RawLinksAreLinked(graph.edges, byId, pipelineIds, status, s.pxPerEvent);
    var links := PlaceLinks(raw, byId);
    layout := Some(Layout(s.canvas, recvBoxes, pipeBoxes, expBoxes, links));
  }

  method IndexColumns(recvBoxes: seq<Box>, pipeBoxes: seq<Box>, expBoxes: seq<Box>) returns (byId: Boxes)
    ensures byId == Index(recvBoxes + pipeBoxes + expBoxes)
  {
    byId := AddToIndex(map[], [], recvBoxes);
    assert [] + recvBoxes == recvBoxes;
    byId := AddToIndex(byId, recvBoxes, pipeBoxes);
    byId := AddToIndex(byId, recvBoxes + pipeBoxes, expBoxes);
  }

  lemma {:induction false} NodesHaveKinds(nodes: seq<Node>)
    ensures |IdsOf(nodes, Receiver)| + |IdsOf(nodes, Pipeline)| + |IdsOf(nodes, Exporter)| == |nodes|
  {
    if nodes != [] { NodesHaveKinds(nodes[..|nodes| - 1]); }
  }
}
