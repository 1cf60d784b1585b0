/** What `renderNetwork` draws, the hit-test of `handleCanvasClick`, and the
    lookups of the detail panel (src/PositionsNetwork.jsx). The canvas is
    modelled as the sequence of drawing operations issued to it. */
module PositionsRender {
  import opened Wrappers
  import opened JsText
  import opened PositionsCatalog
  import opened PositionsLayout

  /** One drawing operation: the background fill, an edge segment, a node
      disc (filled, then stroked) and one line of a node label. */
  datatype DrawOp =
    | Clear(color: string, width: real, height: real)
    | Segment(from: Point, to: Point, color: string, lineWidth: real)
    | Disc(center: Point, radius: real, fill: string, stroke: string, lineWidth: real)
    | Text(text: string, x: real, y: real, color: string)

  const Background: string := "#0a0e17"
  const EdgeColor: string := "#1e293b"
  const EdgeWidth: real := 1.5
  const LabelColor: string := "#e2e8f0"
  const SelectedWidth: real := 2.5
  const UnselectedWidth: real := 1.5

  // ---------------------------------------------------------------------
  // Node colours and emphasis
  // ---------------------------------------------------------------------

  /** The colour of a node, chosen by its `posType` alone. */
  function NodeColor(posType: string): (c: string)
    ensures posType == "top" ==> c == "#e84393"
    ensures posType == "bottom" ==> c == "#00cec9"
    ensures posType == "neutral" ==> c == "#fdcb6e"
    ensures posType !in {"top", "bottom", "neutral"} ==> c == "#6c5ce7"
    ensures |c| == 7 && c[0] == '#'
  {
    if posType == "top" then "#e84393"
    else if posType == "bottom" then "#00cec9"
    else if posType == "neutral" then "#fdcb6e"
    else "#6c5ce7"
  }

  /** `selectedNode?.id === node.id`: selection is matched by id. */
  predicate IsSelected(selected: Option<Node>, node: Node)
  {
    selected.Some? && selected.value.id == node.id
  }

  /** The disc of a node drawn at `p`: the selected node is filled with its
      full colour and stroked at width 2.5, every other node is filled with
      its colour at alpha `40` and stroked at width 1.5; the stroke is always
      the full colour. */
  function DiscOf(node: Node, p: Point, selected: Option<Node>): (d: DrawOp)
    ensures d.Disc? && d.center == p && d.radius == node.size
    ensures d.stroke == NodeColor(node.posType)
    ensures IsSelected(selected, node) ==> d.fill == d.stroke && d.lineWidth == SelectedWidth
    ensures !IsSelected(selected, node) ==> d.fill == d.stroke + "40" && d.lineWidth == UnselectedWidth
  {
    var color := NodeColor(node.posType);
    if IsSelected(selected, node) then Disc(p, node.size, color, color, SelectedWidth)
    else Disc(p, node.size, color + "40", color, UnselectedWidth)
  }

  /** Whether two nodes look the same depends only on their position type and
      on whether they carry the selected id. */
  lemma DiscDependsOnPosType(a: Node, b: Node, p: Point, selected: Option<Node>)
    requires a.posType == b.posType && a.size == b.size
    requires IsSelected(selected, a) == IsSelected(selected, b)
    ensures DiscOf(a, p, selected) == DiscOf(b, p, selected)
  {
  }

  // ---------------------------------------------------------------------
  // Labels
  // ---------------------------------------------------------------------

  /** Vertical offset of line `i` of an `n`-line label from the node centre,
      `-(n - 1) * 4 + i * 8`: the block of lines is centred on the node. */
  function LineOffset(i: nat, n: nat): (dy: real)
    requires i < n
    ensures -4.0 * (n - 1) as real <= dy <= 4.0 * (n - 1) as real
    ensures i == 0 ==> dy == -4.0 * (n - 1) as real
    ensures i == n - 1 ==> dy == 4.0 * (n - 1) as real
  {
    -((n - 1) as real) * 4.0 + i as real * 8.0
  }

  /** Consecutive lines are 8 pixels apart and line `i` mirrors line
      `n - 1 - i` about the centre. */
  lemma LineOffsetsSpacedAndSymmetric(i: nat, n: nat)
    requires i < n
    ensures i + 1 < n ==> LineOffset(i + 1, n) == LineOffset(i, n) + 8.0
    ensures LineOffset(n - 1 - i, n) == -LineOffset(i, n)
  {
  }

  /** The text operations for the first `k` lines of a label drawn at `p`. */
  function LabelPrefix(lines: seq<string>, k: nat, p: Point): (ops: seq<DrawOp>)
    requires k <= |lines|
    ensures |ops| == k
    ensures forall i :: 0 <= i < k ==> ops[i] == Text(lines[i], p.x, p.y + LineOffset(i, |lines|), LabelColor)
  {
    if k == 0 then []
    else LabelPrefix(lines, k - 1, p) + [Text(lines[k - 1], p.x, p.y + LineOffset(k - 1, |lines|), LabelColor)]
  }

  /** The lines of a caption, `label.split('\n')`. */
  function LabelLines(caption: string): (lines: seq<string>)
    ensures |lines| >= 1
    ensures forall k :: 0 <= k < |lines| ==> '\n' !in lines[k]
    ensures Join(lines, '\n') == caption
  {
    SplitPiecesFree(caption, '\n');
    JoinSplit(caption, '\n');
    Split(caption, '\n')
  }

  /** A caption with `c` newlines is drawn as `c + 1` lines. */
  lemma LabelLineCount(caption: string)
    ensures |LabelLines(caption)| == Count(caption, '\n') + 1
  {
    SplitCount(caption, '\n');
  }

  // ---------------------------------------------------------------------
  // The render pass as a specification
  // ---------------------------------------------------------------------

  /** The segment drawn for one edge: none when either endpoint has no
      position. */
  function EdgeOp(e: Edge, pos: map<string, Point>): seq<DrawOp>
  {
    if e.from in pos && e.to in pos then [Segment(pos[e.from], pos[e.to], EdgeColor, EdgeWidth)] else []
  }

  /** The segments drawn for `edges`, in order. */
  function EdgeOps(edges: seq<Edge>, pos: map<string, Point>): (ops: seq<DrawOp>)
    ensures |ops| <= |edges|
    ensures forall k :: 0 <= k < |ops| ==> ops[k].Segment?
  {
    if |edges| == 0 then [] else EdgeOps(edges[..|edges| - 1], pos) + EdgeOp(edges[|edges| - 1], pos)
  }

  /** The edges both of whose endpoints have a position, in order. */
  function Resolved(edges: seq<Edge>, pos: map<string, Point>): (r: seq<Edge>)
    ensures |r| <= |edges|
    ensures forall k :: 0 <= k < |r| ==> r[k].from in pos && r[k].to in pos
  {
    if |edges| == 0 then []
    else
      var e := edges[|edges| - 1];
      Resolved(edges[..|edges| - 1], pos) + (if e.from in pos && e.to in pos then [e] else [])
  }

  /** What a node contributes: its disc followed by its label lines, or
      nothing when its id has no position. */
  function NodeDraw(node: Node, pos: map<string, Point>, selected: Option<Node>): seq<DrawOp>
  {
    if node.id in pos then [DiscOf(node, pos[node.id], selected)] + LabelPrefix(LabelLines(node.caption), |LabelLines(node.caption)|, pos[node.id])
    else []
  }

  /** The operations drawn for `nodes`, in order. */
  function NodeOps(nodes: seq<Node>, pos: map<string, Point>, selected: Option<Node>): (ops: seq<DrawOp>)
    ensures forall k :: 0 <= k < |ops| ==> ops[k].Disc? || ops[k].Text?
  {
    if |nodes| == 0 then [] else NodeOps(nodes[..|nodes| - 1], pos, selected) + NodeDraw(nodes[|nodes| - 1], pos, selected)
  }

  /** What is drawn for system `s` once its nodes have positions `pos`: the
      background, then all segments, then all nodes. */
  function Draw(s: System, selected: Option<Node>, pos: map<string, Point>, width: real, height: real): seq<DrawOp>
  {
    [Clear(Background, width, height)] + EdgeOps(s.edges, pos) + NodeOps(s.nodes, pos, selected)
  }

  /** Everything `renderNetwork` draws for system `s`. */
  function Frame(s: System, selected: Option<Node>, width: real, height: real, trig: Trig): seq<DrawOp>
  {
    Draw(s, selected, Layout(s.nodes, width, height, trig), width, height)
  }

  /** The discs among `ops`, in order. */
  function Discs(ops: seq<DrawOp>): (ds: seq<DrawOp>)
    ensures |ds| <= |ops|
    ensures forall k :: 0 <= k < |ds| ==> ds[k].Disc?
  {
    if |ops| == 0 then []
    else Discs(ops[..|ops| - 1]) + (if ops[|ops| - 1].Disc? then [ops[|ops| - 1]] else [])
  }

  // ---------------------------------------------------------------------
  // Properties of the render pass
  // ---------------------------------------------------------------------

  /** One segment is drawn per edge whose endpoints both have a position,
      from the `from` position to the `to` position; unresolved edges are
      skipped. */
  lemma {:induction false} EdgeOpsAreResolvedEdges(edges: seq<Edge>, pos: map<string, Point>)
    ensures |EdgeOps(edges, pos)| == |Resolved(edges, pos)|
    ensures forall k :: 0 <= k < |EdgeOps(edges, pos)| ==>
      EdgeOps(edges, pos)[k] == Segment(pos[Resolved(edges, pos)[k].from], pos[Resolved(edges, pos)[k].to], EdgeColor, EdgeWidth)
  {
    if |edges| > 0 {
      EdgeOpsAreResolvedEdges(edges[..|edges| - 1], pos);
    }
  }

  /** When every endpoint has a position, no edge is skipped. */
  lemma {:induction false} AllEdgesResolved(edges: seq<Edge>, pos: map<string, Point>)
    requires forall k :: 0 <= k < |edges| ==> edges[k].from in pos && edges[k].to in pos
    ensures Resolved(edges, pos) == edges
  {
    if |edges| > 0 {
      AllEdgesResolved(edges[..|edges| - 1], pos);
      assert edges[..|edges| - 1] + [edges[|edges| - 1]] == edges;
    }
  }

  /** In a well-formed system every edge is drawn, as one segment between
      the positions of its endpoints. */
  lemma WellFormedDrawsEveryEdge(s: System, width: real, height: real, trig: Trig)
    requires WellFormed(s)
    ensures Resolved(s.edges, Layout(s.nodes, width, height, trig)) == s.edges
    ensures |EdgeOps(s.edges, Layout(s.nodes, width, height, trig))| == |s.edges|
  {
    var pos := Layout(s.nodes, width, height, trig);
    LayoutKeys(s.nodes, width, height, trig);
    assert forall k :: 0 <= k < |s.edges| ==> s.edges[k] in s.edges;
    AllEdgesResolved(s.edges, pos);
    EdgeOpsAreResolvedEdges(s.edges, pos);
  }

  lemma {:induction false} DiscsAppend(a: seq<DrawOp>, b: seq<DrawOp>)
    ensures Discs(a + b) == Discs(a) + Discs(b)
  {
    if |b| > 0 {
      assert (a + b)[..|a + b| - 1] == a + b[..|b| - 1];
      DiscsAppend(a, b[..|b| - 1]);
    } else {
      assert a + b == a;
    }
  }

  lemma {:induction false} DiscsOfText(ops: seq<DrawOp>)
    requires forall k :: 0 <= k < |ops| ==> ops[k].Text?
    ensures Discs(ops) == []
  {
    if |ops| > 0 {
      DiscsOfText(ops[..|ops| - 1]);
    }
  }

  /** A node with a position contributes exactly its own disc. */
  lemma NodeDrawDisc(node: Node, pos: map<string, Point>, selected: Option<Node>)
    requires node.id in pos
    ensures Discs(NodeDraw(node, pos, selected)) == [DiscOf(node, pos[node.id], selected)]
  {
    var d := DiscOf(node, pos[node.id], selected);
    var lines := LabelLines(node.caption);
    var labels := LabelPrefix(lines, |lines|, pos[node.id]);
    DiscsOfText(labels);
    DiscsAppend([d], labels);
    assert [d][..0] == [];
  }

  /** When every node has a position, the discs drawn are exactly one per
      node, in declaration order, each at its node's position and in its
      node's colours. */
  lemma {:induction false} NodeOpsDiscs(nodes: seq<Node>, pos: map<string, Point>, selected: Option<Node>)
    requires forall i :: 0 <= i < |nodes| ==> nodes[i].id in pos
    ensures |Discs(NodeOps(nodes, pos, selected))| == |nodes|
    ensures forall i :: 0 <= i < |nodes| ==>
      Discs(NodeOps(nodes, pos, selected))[i] == DiscOf(nodes[i], pos[nodes[i].id], selected)
  {
    if |nodes| > 0 {
      var init, last := nodes[..|nodes| - 1], nodes[|nodes| - 1];
      assert forall i :: 0 <= i < |init| ==> init[i] == nodes[i];
      NodeOpsDiscs(init, pos, selected);
      NodeDrawDisc(last, pos, selected);
      var a, b := NodeOps(init, pos, selected), NodeDraw(last, pos, selected);
      assert NodeOps(nodes, pos, selected) == a + b;
      DiscsAppend(a, b);
      var ds := Discs(NodeOps(nodes, pos, selected));
      assert ds == Discs(a) + [DiscOf(last, pos[last.id], selected)];
      forall i | 0 <= i < |nodes|
        ensures ds[i] == DiscOf(nodes[i], pos[nodes[i].id], selected)
      {
        if i < |init| {
          assert ds[i] == Discs(a)[i];
        } else {
          assert i == |Discs(a)| && nodes[i] == last;
        }
      }
    }
  }

  lemma {:induction false} NoDiscs(ops: seq<DrawOp>)
    requires forall k :: 0 <= k < |ops| ==> !ops[k].Disc?
    ensures Discs(ops) == []
  {
    if |ops| > 0 {
      NoDiscs(ops[..|ops| - 1]);
    }
  }

  /** Whatever the positions, the discs drawn are those of the node pass:
      the background and the segments contain none. */
  lemma DrawDiscs(s: System, selected: Option<Node>, pos: map<string, Point>, width: real, height: real)
    ensures Discs(Draw(s, selected, pos, width, height)) == Discs(NodeOps(s.nodes, pos, selected))
  {
    var head := [Clear(Background, width, height)] + EdgeOps(s.edges, pos);
    assert forall k :: 0 <= k < |head| ==> !head[k].Disc? by {
      forall k | 0 <= k < |head| ensures !head[k].Disc? {
        if k > 0 { assert head[k] == EdgeOps(s.edges, pos)[k - 1]; }
      }
    }
    NoDiscs(head);
    DiscsAppend(head, NodeOps(s.nodes, pos, selected));
  }

  /** The frame of a system with unique ids draws node `i` as its disc at
      `Center(i, n, ...)`, the point the hit-tester tests. */
  lemma FrameDiscs(s: System, selected: Option<Node>, width: real, height: real, trig: Trig)
    requires UniqueIds(s.nodes)
    ensures |Discs(Frame(s, selected, width, height, trig))| == |s.nodes|
    ensures forall i :: 0 <= i < |s.nodes| ==>
      Discs(Frame(s, selected, width, height, trig))[i] == DiscOf(s.nodes[i], Center(i, |s.nodes|, width, height, trig), selected)
  {
    var pos := Layout(s.nodes, width, height, trig);
    LayoutAt(s.nodes, width, height, trig);
    NodeOpsDiscs(s.nodes, pos, selected);
    DrawDiscs(s, selected, pos, width, height);
  }

  /** The background comes first and every segment is drawn before every
      disc, so edges never cover nodes. */
  lemma DrawOrder(s: System, selected: Option<Node>, pos: map<string, Point>, width: real, height: real)
    ensures |Draw(s, selected, pos, width, height)| >= 1 && Draw(s, selected, pos, width, height)[0].Clear?
    ensures forall i, j :: (0 <= i < |Draw(s, selected, pos, width, height)| && 0 <= j < |Draw(s, selected, pos, width, height)|
      && Draw(s, selected, pos, width, height)[i].Segment? && Draw(s, selected, pos, width, height)[j].Disc?) ==> i < j
  {
    var f := Draw(s, selected, pos, width, height);
    var e := EdgeOps(s.edges, pos);
    var n := NodeOps(s.nodes, pos, selected);
    assert forall k :: 0 <= k < 1 + |e| ==> !f[k].Disc? by {
      forall k | 0 <= k < 1 + |e| ensures !f[k].Disc? {
        if k > 0 { assert f[k] == e[k - 1]; }
      }
    }
    assert forall k :: 1 + |e| <= k < |f| ==> !f[k].Segment? by {
      forall k | 1 + |e| <= k < |f| ensures !f[k].Segment? {
        assert f[k] == n[k - 1 - |e|];
      }
    }
  }

  // ---------------------------------------------------------------------
  // The render pass as the loops of `renderNetwork`
  // ---------------------------------------------------------------------

  /** The `system.edges.forEach` loop: one segment per edge whose endpoints
      both have a position. */
  method DrawEdges(edges: seq<Edge>, pos: map<string, Point>) returns (ops: seq<DrawOp>)
    ensures ops == EdgeOps(edges, pos)
  {
    ops := [];
    var i := 0;
    while i < |edges|
      invariant 0 <= i <= |edges|
      invariant ops == EdgeOps(edges[..i], pos)
    {
      var e := edges[i];
      if e.from in pos && e.to in pos {
        ops := ops + [Segment(pos[e.from], pos[e.to], EdgeColor, EdgeWidth)];
      }
      assert edges[..i + 1][..i] == edges[..i];
      i := i + 1;
    }
    assert edges[..i] == edges;
  }

  /** The body of the `system.nodes.forEach` loop for one node: skip it when
      it has no position, else draw its disc and then its label lines. */
  method DrawNode(node: Node, pos: map<string, Point>, selected: Option<Node>) returns (ops: seq<DrawOp>)
    ensures ops == NodeDraw(node, pos, selected)
  {
    if node.id !in pos {
      return [];
    }
    var p := pos[node.id];
    var color := NodeColor(node.posType);
    var isSelected := selected.Some? && selected.value.id == node.id;
    var disc: DrawOp;
    if isSelected {
      disc := Disc(p, node.size, color, color, SelectedWidth);
    } else {
      disc := Disc(p, node.size, color + "40", color, UnselectedWidth);
    }
    var lines := Split(node.caption, '\n');
    assert lines == LabelLines(node.caption);
    var labels: seq<DrawOp> := [];
    var j := 0;
    while j < |lines|
      invariant 0 <= j <= |lines|
      invariant labels == LabelPrefix(lines, j, p)
    {
      LabelStep(lines, j, p);
      labels := labels + [Text(lines[j], p.x, p.y - (|lines| - 1) as real * 4.0 + j as real * 8.0, LabelColor)];
      j := j + 1;
    }
    ops := [disc] + labels;
  }

  /** One more label line, at the offset the loop computes. */
  lemma LabelStep(lines: seq<string>, j: nat, p: Point)
    requires j < |lines|
    ensures LabelPrefix(lines, j + 1, p) ==
      LabelPrefix(lines, j, p) + [Text(lines[j], p.x, p.y - (|lines| - 1) as real * 4.0 + j as real * 8.0, LabelColor)]
  {
    assert p.y + LineOffset(j, |lines|) == p.y - (|lines| - 1) as real * 4.0 + j as real * 8.0;
  }

  /** `renderNetwork` for a system that exists: clears the canvas, fills
      `nodePositions`, draws the edges and then each node with its label. */
  method Render(s: System, selected: Option<Node>, width: real, height: real, trig: Trig)
    returns (ops: seq<DrawOp>)
    ensures ops == Frame(s, selected, width, height, trig)
  {
    var pos := ComputeLayout(s.nodes, width, height, trig);
    ops := DrawPass(s, selected, pos, width, height);
  }

  /** The `system.nodes.forEach` loop that draws the nodes. */
  method DrawNodes(nodes: seq<Node>, pos: map<string, Point>, selected: Option<Node>) returns (ops: seq<DrawOp>)
    ensures ops == NodeOps(nodes, pos, selected)
  {
    ops := [];
    var k := 0;
    while k < |nodes|
      invariant 0 <= k <= |nodes|
      invariant ops == NodeOps(nodes[..k], pos, selected)
    {
      var nodeOps := DrawNode(nodes[k], pos, selected);
      assert nodes[..k + 1][..k] == nodes[..k];
      assert NodeOps(nodes[..k + 1], pos, selected) == NodeOps(nodes[..k], pos, selected) + nodeOps;
      ops := ops + nodeOps;
      k := k + 1;
    }
    assert nodes[..k] == nodes;
  }

  /** The drawing part of `renderNetwork`, once `nodePositions` is filled:
      the background, the edges, then the nodes. */
  method DrawPass(s: System, selected: Option<Node>, pos: map<string, Point>, width: real, height: real)
    returns (ops: seq<DrawOp>)
    ensures ops == Draw(s, selected, pos, width, height)
  {
    var edgeOps := DrawEdges(s.edges, pos);
    var nodeOps := DrawNodes(s.nodes, pos, selected);
    ops := [Clear(Background, width, height)] + edgeOps + nodeOps;
  }

  // ---------------------------------------------------------------------
  // Hit-testing
  // ---------------------------------------------------------------------

  /** `Math.hypot(x - c.x, y - c.y) < node.size`, on squared distances: a
      non-negative distance is below `size` exactly when `size` is positive
      and the squared distance is below `size * size`. A point at exactly
      distance `size` is not a hit. */
  predicate Hits(node: Node, c: Point, x: real, y: real)
  {
    node.size > 0.0 && (x - c.x) * (x - c.x) + (y - c.y) * (y - c.y) < node.size * node.size
  }

  /** The index of the last node among the first `k` that contains the
      click, each node's disc taken at its circle centre. */
  function LastHit(nodes: seq<Node>, k: nat, x: real, y: real, width: real, height: real, trig: Trig): (r: Option<nat>)
    requires k <= |nodes|
    ensures r.Some? ==> r.value < k
  {
    if k == 0 then None
    else if Hits(nodes[k - 1], Center(k - 1, |nodes|, width, height, trig), x, y) then Some(k - 1)
    else LastHit(nodes, k - 1, x, y, width, height, trig)
  }

  /** `LastHit` finds the last hit: the node it names contains the click, no
      later node does, and it finds nothing exactly when no node does. */
  lemma {:induction false} LastHitSpec(nodes: seq<Node>, k: nat, x: real, y: real, width: real, height: real, trig: Trig)
    requires k <= |nodes|
    ensures var r := LastHit(nodes, k, x, y, width, height, trig);
      r.Some? ==> Hits(nodes[r.value], Center(r.value, |nodes|, width, height, trig), x, y)
    ensures var r := LastHit(nodes, k, x, y, width, height, trig);
      r.Some? ==> forall j :: r.value < j < k ==> !Hits(nodes[j], Center(j, |nodes|, width, height, trig), x, y)
    ensures LastHit(nodes, k, x, y, width, height, trig).None? <==>
      forall j :: 0 <= j < k ==> !Hits(nodes[j], Center(j, |nodes|, width, height, trig), x, y)
  {
    if k > 0 {
      LastHitSpec(nodes, k - 1, x, y, width, height, trig);
    }
  }

  /** The node a click at `(x, y)` selects: the last hit, or none. */
  function Picked(nodes: seq<Node>, x: real, y: real, width: real, height: real, trig: Trig): Option<Node>
  {
    match LastHit(nodes, |nodes|, x, y, width, height, trig)
    case None => None
    case Some(k) => Some(nodes[k])
  }

  /** A click selects nothing exactly when no node contains it; otherwise
      it selects a node that contains it and that no later node follows in
      containing it. */
  lemma PickedSpec(nodes: seq<Node>, x: real, y: real, width: real, height: real, trig: Trig)
    ensures Picked(nodes, x, y, width, height, trig).None? <==>
      forall j :: 0 <= j < |nodes| ==> !Hits(nodes[j], Center(j, |nodes|, width, height, trig), x, y)
    ensures Picked(nodes, x, y, width, height, trig).Some? ==> exists k :: (0 <= k < |nodes|
      && Picked(nodes, x, y, width, height, trig).value == nodes[k]
      && Hits(nodes[k], Center(k, |nodes|, width, height, trig), x, y)
      && forall j :: k < j < |nodes| ==> !Hits(nodes[j], Center(j, |nodes|, width, height, trig), x, y))
  {
    LastHitSpec(nodes, |nodes|, x, y, width, height, trig);
    var r := LastHit(nodes, |nodes|, x, y, width, height, trig);
    if r.Some? {
      assert Picked(nodes, x, y, width, height, trig).value == nodes[r.value];
    }
  }

  /** The loop of `handleCanvasClick`: every node is checked and a later hit
      overwrites an earlier one. */
  method HitTest(nodes: seq<Node>, x: real, y: real, width: real, height: real, trig: Trig)
    returns (clicked: Option<Node>)
    ensures clicked == Picked(nodes, x, y, width, height, trig)
  {
    clicked := None;
    var idx := 0;
    while idx < |nodes|
      invariant 0 <= idx <= |nodes|
      invariant clicked == match LastHit(nodes, idx, x, y, width, height, trig)
        case None => None case Some(k) => Some(nodes[k])
    {
      var node := nodes[idx];
      var nodeX, nodeY := NodeCenter(idx, |nodes|, width, height, trig);
      var hit := Hits(node, Point(nodeX, nodeY), x, y);
      assert LastHit(nodes, idx + 1, x, y, width, height, trig)
        == if hit then Some(idx) else LastHit(nodes, idx, x, y, width, height, trig);
      if hit {
        clicked := Some(node);
      }
      idx := idx + 1;
    }
  }

  /** A click exactly on node `k`'s centre, when its size is positive, never
      selects nothing: it selects node `k` or a later node that also contains
      that point. */
  lemma ClickOnCenter(nodes: seq<Node>, k: nat, width: real, height: real, trig: Trig)
    requires k < |nodes| && nodes[k].size > 0.0
    ensures LastHit(nodes, |nodes|, Center(k, |nodes|, width, height, trig).x, Center(k, |nodes|, width, height, trig).y, width, height, trig).Some?
    ensures LastHit(nodes, |nodes|, Center(k, |nodes|, width, height, trig).x, Center(k, |nodes|, width, height, trig).y, width, height, trig).value >= k
    ensures (forall j :: k < j < |nodes| ==> !Hits(nodes[j], Center(j, |nodes|, width, height, trig), Center(k, |nodes|, width, height, trig).x, Center(k, |nodes|, width, height, trig).y))
      ==> Picked(nodes, Center(k, |nodes|, width, height, trig).x, Center(k, |nodes|, width, height, trig).y, width, height, trig) == Some(nodes[k])
  {
    var c := Center(k, |nodes|, width, height, trig);
    assert Hits(nodes[k], c, c.x, c.y);
    LastHitSpec(nodes, |nodes|, c.x, c.y, width, height, trig);
  }

  /** The renderer and the hit-tester agree, in bitmap pixels: in a system
      with unique ids, a click on the centre of the disc drawn for node `k`
      (of positive size) selects a node, and selects node `k` unless a later
      node also contains that point. The click offsets of the page are CSS
      pixels, which are bitmap pixels only while the canvas is shown at its
      intrinsic 800 by 500 size. */
  lemma ClickOnDrawnDisc(s: System, selected: Option<Node>, k: nat, width: real, height: real, trig: Trig)
    requires UniqueIds(s.nodes) && k < |s.nodes| && s.nodes[k].size > 0.0
    ensures k < |Discs(Frame(s, selected, width, height, trig))|
    ensures Discs(Frame(s, selected, width, height, trig))[k].center == Center(k, |s.nodes|, width, height, trig)
    ensures Picked(s.nodes, Discs(Frame(s, selected, width, height, trig))[k].center.x,
                   Discs(Frame(s, selected, width, height, trig))[k].center.y, width, height, trig).Some?
    ensures (forall j :: k < j < |s.nodes| ==>
               !Hits(s.nodes[j], Center(j, |s.nodes|, width, height, trig),
                     Center(k, |s.nodes|, width, height, trig).x, Center(k, |s.nodes|, width, height, trig).y))
      ==> Picked(s.nodes, Discs(Frame(s, selected, width, height, trig))[k].center.x,
                 Discs(Frame(s, selected, width, height, trig))[k].center.y, width, height, trig) == Some(s.nodes[k])
  {
    FrameDiscs(s, selected, width, height, trig);
    ClickOnCenter(s.nodes, k, width, height, trig);
  }

  // ---------------------------------------------------------------------
  // The detail panel
  // ---------------------------------------------------------------------

  /** A badge style: its background and its text colour. */
  datatype Badge = Badge(background: string, color: string)

  /** `getBadgeColor(type)`: a fixed style per known position type or role,
      and a purple default for anything else. */
  function BadgeColor(t: string): (b: Badge)
    ensures t !in {"top", "bottom", "neutral", "submission", "guard", "position", "sweep", "hub"}
      ==> b == Badge("rgba(108,92,231,0.2)", "#a29bfe")
    ensures t in {"top", "position"} ==> b == Badge("rgba(232,67,147,0.2)", "#e84393")
    ensures t in {"bottom", "guard"} ==> b == Badge("rgba(0,206,201,0.2)", "#00cec9")
  {
    if t == "top" then Badge("rgba(232,67,147,0.2)", "#e84393")
    else if t == "bottom" then Badge("rgba(0,206,201,0.2)", "#00cec9")
    else if t == "neutral" then Badge("rgba(253,203,110,0.2)", "#fdcb6e")
    else if t == "submission" then Badge("rgba(255,107,107,0.2)", "#ff6b6b")
    else if t == "guard" then Badge("rgba(0,206,201,0.2)", "#00cec9")
    else if t == "position" then Badge("rgba(232,67,147,0.2)", "#e84393")
    else if t == "sweep" then Badge("rgba(108,231,113,0.2)", "#6ce771")
    else if t == "hub" then Badge("rgba(108,92,231,0.2)", "#a29bfe")
    else Badge("rgba(108,92,231,0.2)", "#a29bfe")
  }

  /** The role badge of a top, bottom or neutral node has the colour its
      disc is drawn in; for any other role the disc is `#6c5ce7` while the
      badge falls back to `#a29bfe`. */
  lemma BadgeMatchesDisc(posType: string)
    ensures posType in {"top", "bottom", "neutral"} ==> BadgeColor(posType).color == NodeColor(posType)
    ensures posType !in {"top", "bottom", "neutral", "submission", "guard", "position", "sweep", "hub"}
      ==> BadgeColor(posType).color != NodeColor(posType)
  {
  }

  /** The detail panel: the empty hint, or the selected node's title, its
      two badges and, when it has them, its numbered steps. */
  datatype Panel =
    | EmptyHint
    | NodeDetail(title: string, kindBadge: Badge, roleBadge: Badge, steps: Option<seq<string>>)

  /** The panel for the current selection. The title replaces only the FIRST
      newline of the caption by a space; the steps are shown whenever the
      node has a step list, even an empty one (an array is truthy). */
  function PanelFor(selected: Option<Node>): (p: Panel)
    ensures selected.None? <==> p == EmptyHint
    ensures selected.Some? ==> (p.NodeDetail? && p.steps == selected.value.steps
      && p.kindBadge == BadgeColor(selected.value.kind) && p.roleBadge == BadgeColor(selected.value.posType))
  {
    match selected
    case None => EmptyHint
    case Some(n) => NodeDetail(ReplaceFirst(n.caption, '\n', ' '), BadgeColor(n.kind), BadgeColor(n.posType), n.steps)
  }

  /** The title has the caption's length and differs from it only where the
      first newline was, so a caption of three or more lines keeps a newline
      in its title. */
  lemma PanelTitle(n: Node)
    ensures PanelFor(Some(n)).title == ReplaceFirst(n.caption, '\n', ' ')
    ensures |PanelFor(Some(n)).title| == |n.caption|
    ensures forall j :: 0 <= j < |n.caption| && j != IndexOf(n.caption, '\n') ==> PanelFor(Some(n)).title[j] == n.caption[j]
    ensures Count(n.caption, '\n') >= 2 ==> '\n' in PanelFor(Some(n)).title
  {
    ReplaceFirstSpec(n.caption, '\n', ' ');
    if Count(n.caption, '\n') >= 2 {
      var i, j := TwoOccurrences(n.caption, '\n');
      SecondOccurrenceSurvives(n.caption, '\n', ' ', i, j);
    }
  }

  /** A string with at least two occurrences of `c` has them at two
      positions. */
  lemma {:induction false} TwoOccurrences(s: string, c: char) returns (i: nat, j: nat)
    requires Count(s, c) >= 2
    ensures i < j < |s| && s[i] == c && s[j] == c
  {
    if s[0] == c {
      var k := FirstOccurrence(s[1..], c);
      i, j := 0, k + 1;
    } else {
      var a, b := TwoOccurrences(s[1..], c);
      i, j := a + 1, b + 1;
    }
  }

  lemma {:induction false} FirstOccurrence(s: string, c: char) returns (k: nat)
    requires Count(s, c) >= 1
    ensures k < |s| && s[k] == c
  {
    if s[0] == c {
      k := 0;
    } else {
      var r := FirstOccurrence(s[1..], c);
      k := r + 1;
    }
  }
}
