/**
 The layout of the Topology view (otelcol/extensions/statuscfgextension/webui-react/
 src/sankey.js): three columns of boxes on one canvas, and a ribbon per edge. Colours
 and percentages are left out; the order inside a column is a parameter, since the
 program's depends on the reader's locale.
 */
module Sankey {
  import opened RealArith

  const NODE_W := 150.0
  const SANKEY_W := 900.0
  const MIN_NODE_H := 22.0
  const NODE_GAP := 10.0
  const MIN_SANKEY_H := 160.0
  const MAX_SANKEY_H := 720.0
  const PX_PER_EVENT := 0.5
  const ROOMY_NODE_H := 72.0
  /** An edge without traffic is still drawn. */
  const MIN_RIBBON := 2.0

  type Flow = f: real | f >= 0.0

  datatype Kind = Receiver | Pipeline | Exporter
  datatype Node = Node(id: string, kind: Kind)
  datatype Edge = Edge(from: string, to: string)
  datatype Graph = Graph(nodes: seq<Node>, edges: seq<Edge>)

  /** The events_in of /status. */
  datatype Status = Status(receivers: map<string, Flow>, pipelines: map<string, Flow>, exporters: map<string, Flow>)

  function FlowFor(status: Status, kind: Kind, id: string): Flow {
    var table := match kind case Receiver => status.receivers case Pipeline => status.pipelines
        case Exporter => status.exporters;
    if id in table then table[id] else 0.0
  }

  datatype Entry = Entry(id: string, flow: Flow)
  datatype Box = Box(id: string, flow: Flow, x: real, y: real, height: real)

  function Max(a: real, b: real): real { if a >= b then a else b }
  function Min(a: real, b: real): real { if a <= b then a else b }

  // --- The shared scale

  function MaxCount(recv: seq<Entry>, pipe: seq<Entry>, exp: seq<Entry>): (m: nat)
    ensures m >= |recv| && m >= |pipe| && m >= |exp| && m >= 1
    ensures m == 1 || m == |recv| || m == |pipe| || m == |exp|
  {
    var a := if |recv| >= |pipe| then |recv| else |pipe|;
    var b := if a >= |exp| then a else |exp|;
    if b >= 1 then b else 1
  }

  function SumFlow(list: seq<Entry>): (total: Flow) {
    if list == [] then 0.0 else SumFlow(list[..|list| - 1]) + list[|list| - 1].flow
  }

  function MaxTotal(recv: seq<Entry>, pipe: seq<Entry>, exp: seq<Entry>): (m: Flow)
    ensures m >= SumFlow(recv) && m >= SumFlow(pipe) && m >= SumFlow(exp)
  {
    Max(Max(SumFlow(recv), SumFlow(pipe)), SumFlow(exp))
  }

  function DynamicNodeH(maxCount: nat): (h: real)
    requires maxCount > 0
    ensures MIN_NODE_H <= h <= ROOMY_NODE_H
  {
    Max(MIN_NODE_H, Min(ROOMY_NODE_H, Div(ROOMY_NODE_H * 4.0, maxCount as real)))
  }

  /** The height taken by n boxes without traffic and the gaps between them. */
  function Reserved(n: nat, nodeH: real): real {
    Mul(n as real, nodeH) + if n == 0 then 0.0 else NODE_GAP * (n - 1) as real
  }

  function PickCanvasHeight(maxCount: nat, globalMaxTotal: real, nodeH: real): real {
    Min(Max(Reserved(maxCount, nodeH) + globalMaxTotal * PX_PER_EVENT, MIN_SANKEY_H), MAX_SANKEY_H)
  }

  /** Canvas height, floor of a box and pixels per event. */
  datatype Scale = Scale(canvas: real, nodeH: real, pxPerEvent: real)

  function ScaleFor(recv: seq<Entry>, pipe: seq<Entry>, exp: seq<Entry>): Scale {
    var maxCount, total := MaxCount(recv, pipe, exp), MaxTotal(recv, pipe, exp);
    var nodeH := DynamicNodeH(maxCount);
    var canvas := PickCanvasHeight(maxCount, total, nodeH);
    var flexBudget := Max(canvas - Reserved(maxCount, nodeH), 0.0);
    Scale(canvas, nodeH, if total > 0.0 then Div(flexBudget, total) else 0.0)
  }

  // --- One column

  function Height(e: Entry, s: Scale): real {
    s.nodeH + Mul(e.flow, s.pxPerEvent)
  }

  function Heights(list: seq<Entry>, s: Scale): real {
    if list == [] then 0.0 else Heights(list[..|list| - 1], s) + Height(list[|list| - 1], s)
  }

  /** What the boxes and the gaps between them take up. */
  function Content(list: seq<Entry>, s: Scale): real {
    Heights(list, s) + if list == [] then 0.0 else NODE_GAP * (|list| - 1) as real
  }

  function Bottom(b: Box): real {
    b.y + b.height
  }

  /** One box per entry, each exactly NODE_GAP below the one before, as a whole in the
      middle of the canvas, or from its top if there is no room. */
  ghost predicate Stacked(boxes: seq<Box>, list: seq<Entry>, x: real, s: Scale) {
    && |boxes| == |list|
    && (forall i :: 0 <= i < |list| ==>
          boxes[i].id == list[i].id && boxes[i].flow == list[i].flow && boxes[i].x == x
            && boxes[i].height == Height(list[i], s))
    && (forall i, j :: 0 <= i && i + 1 == j < |list| ==> boxes[j].y == Bottom(boxes[i]) + NODE_GAP)
    && (list != [] ==> boxes[0].y == Max((s.canvas - Content(list, s)) / 2.0, 0.0))
  }

  method LayoutColumn(list: seq<Entry>, x: real, s: Scale) returns (boxes: seq<Box>)
    ensures Stacked(boxes, list, x, s)
  {
    hide Mul;
    var contentHeight := 0.0;
    for i := 0 to |list|
      invariant contentHeight == Heights(list[..i], s)
    {
      assert list[..i + 1][..i] == list[..i];
      contentHeight := contentHeight + Height(list[i], s);
    }
    assert list[..|list|] == list;
    contentHeight := contentHeight + NODE_GAP * (if |list| >= 1 then |list| - 1 else 0) as real;
    var y := Max((s.canvas - contentHeight) / 2.0, 0.0);
    boxes := [];
    for i := 0 to |list|
      invariant |boxes| == i
      invariant forall j :: 0 <= j < i ==>
                  boxes[j].id == list[j].id && boxes[j].flow == list[j].flow && boxes[j].x == x
                    && boxes[j].height == Height(list[j], s)
      invariant forall j :: 0 < j < i ==> boxes[j].y == Bottom(boxes[j - 1]) + NODE_GAP
      invariant i > 0 ==> boxes[0].y == Max((s.canvas - contentHeight) / 2.0, 0.0)
      invariant y == if i == 0 then Max((s.canvas - contentHeight) / 2.0, 0.0) else Bottom(boxes[i - 1]) + NODE_GAP
    {
      var height := Height(list[i], s);
      boxes := boxes + [Box(list[i].id, list[i].flow, x, y, height)];
      y := y + (height + NODE_GAP);
    }
  }

  ghost predicate InCanvas(boxes: seq<Box>, canvas: real) {
    forall i :: 0 <= i < |boxes| ==> 0.0 <= boxes[i].y && Bottom(boxes[i]) <= canvas
  }

  lemma HeightIsPositive(e: Entry, s: Scale)
    requires s.nodeH > 0.0 && s.pxPerEvent >= 0.0
    ensures Height(e, s) > 0.0
  {
    hide Mul;
    MulZero(s.pxPerEvent);
    MulOrdered(0.0, e.flow, s.pxPerEvent);
  }

  /** A box ends where the content down to it does. */
  lemma {:induction false} BottomIsContent(boxes: seq<Box>, list: seq<Entry>, x: real, s: Scale, i: nat)
    requires Stacked(boxes, list, x, s) && i < |list|
    ensures Bottom(boxes[i]) == boxes[0].y + Content(list[..i + 1], s)
  {
    hide Height;
    assert list[..i + 1][..i] == list[..i];
    if i == 0 {
      assert list[..0] == [];
      assert Heights(list[..1], s) == Height(list[0], s);
    } else {
      BottomIsContent(boxes, list, x, s, i - 1);
    }
  }

  lemma {:induction false} ContentGrows(list: seq<Entry>, s: Scale, i: nat)
    requires s.nodeH > 0.0 && s.pxPerEvent >= 0.0 && 0 < i <= |list|
    ensures Content(list[..i], s) <= Content(list, s)
    decreases |list|
  {
    hide Height;
    if i == |list| {
      assert list[..i] == list;
    } else {
      var front := list[..|list| - 1];
      assert front[..i] == list[..i];
      ContentGrows(front, s, i);
      HeightIsPositive(list[|list| - 1], s);
    }
  }

  /** A column is on the canvas exactly when its content is no higher, and is then centred:
      the space above the first box is the space below the last. */
  lemma ColumnFitsIff(boxes: seq<Box>, list: seq<Entry>, x: real, s: Scale)
    requires Stacked(boxes, list, x, s) && s.nodeH > 0.0 && s.pxPerEvent >= 0.0
    ensures InCanvas(boxes, s.canvas) <==> list == [] || Content(list, s) <= s.canvas
    ensures list != [] && Content(list, s) <= s.canvas ==> boxes[0].y == s.canvas - Bottom(boxes[|boxes| - 1])
  {
    hide Height, Content;
    if list != [] {
      assert list[..|list|] == list;
      BottomIsContent(boxes, list, x, s, |list| - 1);
      if Content(list, s) <= s.canvas {
        forall i | 0 <= i < |boxes| ensures 0.0 <= boxes[i].y && Bottom(boxes[i]) <= s.canvas {
          BottomIsContent(boxes, list, x, s, i);
          ContentGrows(list, s, i + 1);
          TopIsBelow(boxes, list, x, s, i);
        }
      }
    }
  }

  lemma {:induction false} TopIsBelow(boxes: seq<Box>, list: seq<Entry>, x: real, s: Scale, i: nat)
    requires Stacked(boxes, list, x, s) && s.nodeH > 0.0 && s.pxPerEvent >= 0.0 && i < |list|
    ensures boxes[i].y >= boxes[0].y >= 0.0
  {
    hide Height, Content;
    if i > 0 {
      TopIsBelow(boxes, list, x, s, i - 1);
      HeightIsPositive(list[i - 1], s);
    }
  }

  // --- Three columns on one canvas

  lemma {:induction false} HeightsAreLinear(list: seq<Entry>, s: Scale)
    ensures Heights(list, s) == Mul(|list| as real, s.nodeH) + Mul(SumFlow(list), s.pxPerEvent)
  {
    hide Mul;
    if list == [] {
      MulZero(s.nodeH);
      MulZero(s.pxPerEvent);
    } else {
      HeightsAreLinear(list[..|list| - 1], s);
      MulAdd((|list| - 1) as real, 1.0, s.nodeH);
      MulOne(s.nodeH);
      MulAdd(SumFlow(list[..|list| - 1]), list[|list| - 1].flow, s.pxPerEvent);
    }
  }

  lemma ContentIsLinear(list: seq<Entry>, s: Scale)
    ensures Content(list, s) == Reserved(|list|, s.nodeH) + Mul(SumFlow(list), s.pxPerEvent)
  {
    hide Mul;
    HeightsAreLinear(list, s);
    MulZero(s.nodeH);
  }

  lemma ReservedGrows(n: nat, m: nat, nodeH: real)
    requires n <= m && nodeH >= 0.0
    ensures Reserved(n, nodeH) <= Reserved(m, nodeH)
  {
    hide Mul;
    MulAdd(n as real, (m - n) as real, nodeH);
    MulZero(nodeH);
    MulOrdered(0.0, (m - n) as real, nodeH);
  }

  lemma RoomyHeight(maxCount: nat)
    requires maxCount > 0
    ensures var h := DynamicNodeH(maxCount);
            && (maxCount <= 4 ==> h == ROOMY_NODE_H)
            && (5 <= maxCount <= 13 ==> Mul(maxCount as real, h) == 288.0)
            && (maxCount >= 14 ==> h == MIN_NODE_H)
  {
    var each := Div(ROOMY_NODE_H * 4.0, maxCount as real);
    MulDiv(ROOMY_NODE_H * 4.0, maxCount as real);
    if maxCount <= 4 {
      assert each >= ROOMY_NODE_H;
    } else if maxCount <= 13 {
      assert MIN_NODE_H <= each <= ROOMY_NODE_H;
    } else {
      assert each <= MIN_NODE_H;
    }
  }

  /** Boxes and gaps alone fit the highest canvas exactly up to 22 boxes. */
  lemma ReservedFitsIff(maxCount: nat)
    requires maxCount > 0
    ensures Reserved(maxCount, DynamicNodeH(maxCount)) <= MAX_SANKEY_H <==> maxCount <= 22
  {
    hide DynamicNodeH;
    RoomyHeight(maxCount);
  }

  lemma ScaleIsNonNegative(recv: seq<Entry>, pipe: seq<Entry>, exp: seq<Entry>)
    ensures var s := ScaleFor(recv, pipe, exp); s.nodeH >= MIN_NODE_H && s.pxPerEvent >= 0.0
  {
    hide Reserved, DynamicNodeH;
    var maxCount, total := MaxCount(recv, pipe, exp), MaxTotal(recv, pipe, exp);
    var nodeH := DynamicNodeH(maxCount);
    var flexBudget := Max(PickCanvasHeight(maxCount, total, nodeH) - Reserved(maxCount, nodeH), 0.0);
    if total > 0.0 { DivNonNegative(flexBudget, total); }
  }

  /** The traffic of a column takes at most the room the boxes leave. */
  lemma TrafficFits(recv: seq<Entry>, pipe: seq<Entry>, exp: seq<Entry>, list: seq<Entry>)
    requires list in [recv, pipe, exp] && MaxCount(recv, pipe, exp) <= 22
    ensures var s := ScaleFor(recv, pipe, exp); Content(list, s) <= s.canvas
  {
    hide Mul, Div, Content, DynamicNodeH;
    var s := ScaleFor(recv, pipe, exp);
    var maxCount, total := MaxCount(recv, pipe, exp), MaxTotal(recv, pipe, exp);
    ReservedFitsIff(maxCount);
    ContentIsLinear(list, s);
    ReservedGrows(|list|, maxCount, s.nodeH);
    ScaleIsNonNegative(recv, pipe, exp);
    MulOrdered(SumFlow(list), total, s.pxPerEvent);
    if total > 0.0 {
      MulDiv(s.canvas - Reserved(maxCount, s.nodeH), total);
      MulCommutes(total, s.pxPerEvent);
    } else {
      MulZero(s.pxPerEvent);
    }
  }

  /** No room is wasted: the column with the most boxes and the most traffic fills the canvas
      to the last pixel. */
  lemma FullestColumnFills(recv: seq<Entry>, pipe: seq<Entry>, exp: seq<Entry>, list: seq<Entry>)
    requires |list| == MaxCount(recv, pipe, exp) <= 22 && SumFlow(list) == MaxTotal(recv, pipe, exp) > 0.0
    ensures var s := ScaleFor(recv, pipe, exp); Content(list, s) == s.canvas
  {
    hide Mul, Div, Content, DynamicNodeH;
    var s := ScaleFor(recv, pipe, exp);
    ReservedFitsIff(|list|);
    ContentIsLinear(list, s);
    ScaleIsNonNegative(recv, pipe, exp);
    MulDiv(s.canvas - Reserved(|list|, s.nodeH), SumFlow(list));
    MulCommutes(SumFlow(list), s.pxPerEvent);
  }

  /** The sizes in pixels: a box is 72 high up to four in the fullest column, 22 from fourteen on,
      and in between they share the height of four; the canvas takes them, their gaps and half a
      pixel an event, but at least 160 and at most 720. */
  lemma SizesFollowContent(recv: seq<Entry>, pipe: seq<Entry>, exp: seq<Entry>)
    ensures var s, n := ScaleFor(recv, pipe, exp), MaxCount(recv, pipe, exp);
            var needed := Mul(n as real, s.nodeH) + 10.0 * (n - 1) as real + MaxTotal(recv, pipe, exp) / 2.0;
            && s.canvas == (if needed < 160.0 then 160.0 else if needed > 720.0 then 720.0 else needed)
            && (n <= 4 ==> s.nodeH == 72.0) && (n >= 14 ==> s.nodeH == 22.0)
            && (5 <= n <= 13 ==> Mul(n as real, s.nodeH) == 288.0)
  {
    hide Mul, DynamicNodeH, MaxTotal;
    RoomyHeight(MaxCount(recv, pipe, exp));
  }

  /** Between the clamps every event is PX_PER_EVENT high; beyond MAX_SANKEY_H it is less, and
      below MIN_SANKEY_H more. */
  lemma ScaleIsNominalIff(recv: seq<Entry>, pipe: seq<Entry>, exp: seq<Entry>)
    requires MaxTotal(recv, pipe, exp) > 0.0 && MaxCount(recv, pipe, exp) <= 22
    ensures var s, maxCount := ScaleFor(recv, pipe, exp), MaxCount(recv, pipe, exp);
            var natural := Reserved(maxCount, s.nodeH) + MaxTotal(recv, pipe, exp) * PX_PER_EVENT;
            && (s.pxPerEvent == PX_PER_EVENT <==> MIN_SANKEY_H <= natural <= MAX_SANKEY_H)
            && (s.pxPerEvent < PX_PER_EVENT <==> natural > MAX_SANKEY_H)
  {
    hide Mul, DynamicNodeH, Reserved;
    var s, maxCount, total := ScaleFor(recv, pipe, exp), MaxCount(recv, pipe, exp), MaxTotal(recv, pipe, exp);
    ReservedFitsIff(maxCount);
    var flex := s.canvas - Reserved(maxCount, s.nodeH);
    QuotientComparesIff(flex, total, PX_PER_EVENT);
  }

  lemma QuotientComparesIff(a: real, b: real, c: real)
    requires b > 0.0
    ensures Div(a, b) == c <==> a == b * c
    ensures Div(a, b) < c <==> a < b * c
  {
    var q := Div(a, b);
    assert a == q * b;
    if q < c { assert q * b < c * b; }
    if q > c { assert q * b > c * b; }
  }

  lemma MulCommutes(a: real, b: real)
    ensures Mul(a, b) == Mul(b, a)
  {
  }

  /** More than 22 boxes in a column cannot fit, however little traffic there is. */
  lemma CrowdOverflows(recv: seq<Entry>, pipe: seq<Entry>, exp: seq<Entry>, list: seq<Entry>)
    requires |list| == MaxCount(recv, pipe, exp) > 22
    ensures var s := ScaleFor(recv, pipe, exp); Content(list, s) > s.canvas
  {
    hide Mul, Div, Content, DynamicNodeH;
    var s := ScaleFor(recv, pipe, exp);
    ReservedFitsIff(|list|);
    ContentIsLinear(list, s);
    ScaleIsNonNegative(recv, pipe, exp);
    MulZero(s.pxPerEvent);
    MulOrdered(0.0, SumFlow(list), s.pxPerEvent);
  }

  /** For all flows, every box of all three columns is on the canvas exactly when no column
      has more than 22 boxes; columns that fit are centred. */
  lemma BoxesFitIff(recv: seq<Entry>, pipe: seq<Entry>, exp: seq<Entry>,
                    recvBoxes: seq<Box>, pipeBoxes: seq<Box>, expBoxes: seq<Box>, s: Scale, xs: (real, real, real))
    requires s == ScaleFor(recv, pipe, exp)
    requires Stacked(recvBoxes, recv, xs.0, s) && Stacked(pipeBoxes, pipe, xs.1, s) && Stacked(expBoxes, exp, xs.2, s)
    ensures InCanvas(recvBoxes, s.canvas) && InCanvas(pipeBoxes, s.canvas) && InCanvas(expBoxes, s.canvas)
            <==> MaxCount(recv, pipe, exp) <= 22
  {
    hide ScaleFor, Content, Stacked, InCanvas;
    ScaleIsNonNegative(recv, pipe, exp);
    ColumnFitsIff(recvBoxes, recv, xs.0, s);
    ColumnFitsIff(pipeBoxes, pipe, xs.1, s);
    ColumnFitsIff(expBoxes, exp, xs.2, s);
    if MaxCount(recv, pipe, exp) <= 22 {
      TrafficFits(recv, pipe, exp, recv);
      TrafficFits(recv, pipe, exp, pipe);
      TrafficFits(recv, pipe, exp, exp);
    } else if |recv| == MaxCount(recv, pipe, exp) {
      CrowdOverflows(recv, pipe, exp, recv);
    } else if |pipe| == MaxCount(recv, pipe, exp) {
      CrowdOverflows(recv, pipe, exp, pipe);
    } else {
      CrowdOverflows(recv, pipe, exp, exp);
    }
  }
}
