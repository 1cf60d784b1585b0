/** The circular layout shared by the renderer and the hit-tester
    (src/PositionsNetwork.jsx, `renderNetwork` and `handleCanvasClick`). */
module PositionsLayout {
  import opened PositionsCatalog

  /** `Math.PI`, `Math.cos` and `Math.sin`. Floating point is not modelled:
      the trigonometric functions are parameters, and everything proved here
      holds for every choice of them. */
  datatype Trig = Trig(pi: real, cos: real -> real, sin: real -> real)

  datatype Point = Point(x: real, y: real)

  function Min(a: real, b: real): real
  {
    if a <= b then a else b
  }

  /** Radius of the circle the nodes sit on: 35% of the smaller canvas side. */
  function CircleRadius(width: real, height: real): (r: real)
    ensures width >= 0.0 && height >= 0.0 ==> 0.0 <= r && r <= 0.35 * width && r <= 0.35 * height
  {
    Min(width, height) * 0.35
  }

  /** The fraction of a full turn at which node `i` of `n` sits. */
  function TurnFraction(i: nat, n: nat): (f: real)
    requires i < n
    ensures 0.0 <= f < 1.0
    ensures i == 0 <==> f == 0.0
  {
    i as real / n as real
  }

  /** Consecutive nodes are a constant `1/n` of a turn apart. */
  lemma TurnSpacing(i: nat, n: nat)
    requires i + 1 < n
    ensures TurnFraction(i + 1, n) == TurnFraction(i, n) + 1.0 / n as real
  {
  }

  /** Turn fractions strictly increase with the index, so no two nodes of a
      system share an angle. */
  lemma TurnFractionsIncrease(i: nat, j: nat, n: nat)
    requires i < j < n
    ensures TurnFraction(i, n) < TurnFraction(j, n)
  {
    assert (j as real - i as real) / n as real > 0.0;
  }

  /** `(idx / n) * Math.PI * 2`. */
  function Angle(i: nat, n: nat, trig: Trig): real
    requires i < n
  {
    TurnFraction(i, n) * trig.pi * 2.0
  }

  /** Centre of the canvas. */
  function CanvasCenter(width: real, height: real): Point
  {
    Point(width / 2.0, height / 2.0)
  }

  /** Where node `i` of `n` is drawn, and where the hit-tester looks for it:
      on the circle of radius `CircleRadius` about the canvas centre, at the
      angle `Angle(i, n)`. */
  function Center(i: nat, n: nat, width: real, height: real, trig: Trig): Point
    requires i < n
  {
    var a := Angle(i, n, trig);
    var r := CircleRadius(width, height);
    Point(width / 2.0 + trig.cos(a) * r, height / 2.0 + trig.sin(a) * r)
  }

  /** Whenever `cos` and `sin` satisfy the Pythagorean identity at a node's
      angle, the node lies on the circle of radius `CircleRadius` about the
      canvas centre. */
  lemma CenterOnCircle(i: nat, n: nat, width: real, height: real, trig: Trig)
    requires i < n
    requires var a := Angle(i, n, trig); trig.cos(a) * trig.cos(a) + trig.sin(a) * trig.sin(a) == 1.0
    ensures var p, c, r := Center(i, n, width, height, trig), CanvasCenter(width, height), CircleRadius(width, height);
      (p.x - c.x) * (p.x - c.x) + (p.y - c.y) * (p.y - c.y) == r * r
  {
    var a := Angle(i, n, trig);
    var r := CircleRadius(width, height);
    var co, si := trig.cos(a), trig.sin(a);
    assert (co * r) * (co * r) + (si * r) * (si * r) == (co * co + si * si) * r * r;
  }

  /** The centres of all `n` nodes of a system, in declaration order. */
  function Centers(n: nat, width: real, height: real, trig: Trig): (pts: seq<Point>)
    ensures |pts| == n
    ensures forall i :: 0 <= i < n ==> pts[i] == Center(i, n, width, height, trig)
  {
    seq(n, i requires 0 <= i < n => Center(i, n, width, height, trig))
  }

  /** The node-position object after the first `k` nodes of `nodes` have
      been placed, node `i` at `pts[i]`: each writes its own id, so a later
      duplicate id overwrites an earlier one. */
  function Placed(nodes: seq<Node>, pts: seq<Point>, k: nat): map<string, Point>
    requires k <= |nodes| <= |pts|
  {
    if k == 0 then map[]
    else Placed(nodes, pts, k - 1)[nodes[k - 1].id := pts[k - 1]]
  }

  /** `nodePositions` of a system: a pure function of the nodes and the
      canvas size, so two independent computations always agree. */
  function Layout(nodes: seq<Node>, width: real, height: real, trig: Trig): map<string, Point>
  {
    Placed(nodes, Centers(|nodes|, width, height, trig), |nodes|)
  }

  /** No node after index `i` (and before `k`) reuses node `i`'s id. */
  predicate LastWithId(nodes: seq<Node>, i: nat, k: nat)
    requires i < k <= |nodes|
  {
    forall j :: i < j < k ==> nodes[j].id != nodes[i].id
  }

  lemma NodeIdsSnoc(nodes: seq<Node>, k: nat)
    requires 0 < k <= |nodes|
    ensures NodeIds(nodes[..k]) == NodeIds(nodes[..k - 1]) + {nodes[k - 1].id}
  {
    var a, b := nodes[..k], nodes[..k - 1];
    forall id | id in NodeIds(a) ensures id in NodeIds(b) + {nodes[k - 1].id} {
      var i :| 0 <= i < k && a[i].id == id;
      if i < k - 1 { assert b[i].id == id; }
    }
    forall id | id in NodeIds(b) ensures id in NodeIds(a) {
      var i :| 0 <= i < k - 1 && b[i].id == id;
      assert a[i].id == id;
    }
    assert a[k - 1].id == nodes[k - 1].id;
  }

  /** Placing the first `k` nodes gives positions to exactly their ids. */
  lemma {:induction false} PlacedKeys(nodes: seq<Node>, pts: seq<Point>, k: nat)
    requires k <= |nodes| <= |pts|
    ensures Placed(nodes, pts, k).Keys == NodeIds(nodes[..k])
  {
    if k > 0 {
      PlacedKeys(nodes, pts, k - 1);
      NodeIdsSnoc(nodes, k);
    }
  }

  /** A node whose id is not reused later keeps its own point. */
  lemma {:induction false} PlacedAt(nodes: seq<Node>, pts: seq<Point>, k: nat, i: nat)
    requires i < k <= |nodes| <= |pts| && LastWithId(nodes, i, k)
    ensures nodes[i].id in Placed(nodes, pts, k)
    ensures Placed(nodes, pts, k)[nodes[i].id] == pts[i]
  {
    if i < k - 1 {
      PlacedAt(nodes, pts, k - 1, i);
    }
  }

  /** Layout gives every declared id a position and no other id any. */
  lemma LayoutKeys(nodes: seq<Node>, width: real, height: real, trig: Trig)
    ensures Layout(nodes, width, height, trig).Keys == NodeIds(nodes)
  {
    PlacedKeys(nodes, Centers(|nodes|, width, height, trig), |nodes|);
    assert nodes[..|nodes|] == nodes;
  }

  /** Node `i` sits at `Center(i, n, ...)` unless a later node reuses its id;
      when ids are unique, every node does. */
  lemma LayoutAt(nodes: seq<Node>, width: real, height: real, trig: Trig)
    ensures forall i :: 0 <= i < |nodes| && LastWithId(nodes, i, |nodes|) ==>
      nodes[i].id in Layout(nodes, width, height, trig) &&
      Layout(nodes, width, height, trig)[nodes[i].id] == Center(i, |nodes|, width, height, trig)
    ensures UniqueIds(nodes) ==> forall i :: 0 <= i < |nodes| ==>
      nodes[i].id in Layout(nodes, width, height, trig) &&
      Layout(nodes, width, height, trig)[nodes[i].id] == Center(i, |nodes|, width, height, trig)
  {
    var pts := Centers(|nodes|, width, height, trig);
    forall i | 0 <= i < |nodes| && LastWithId(nodes, i, |nodes|)
      ensures nodes[i].id in Layout(nodes, width, height, trig)
      ensures Layout(nodes, width, height, trig)[nodes[i].id] == Center(i, |nodes|, width, height, trig)
    {
      PlacedAt(nodes, pts, |nodes|, i);
    }
  }

  /** The centre computation for node `idx` of `n`, written out the same
      way in `renderNetwork` and in `handleCanvasClick`. */
  method NodeCenter(idx: nat, n: nat, width: real, height: real, trig: Trig) returns (nodeX: real, nodeY: real)
    requires idx < n
    ensures Point(nodeX, nodeY) == Center(idx, n, width, height, trig)
  {
    var centerX := width / 2.0;
    var centerY := height / 2.0;
    var angle := (idx as real / n as real) * trig.pi * 2.0;
    var radius := Min(width, height) * 0.35;
    nodeX := centerX + trig.cos(angle) * radius;
    nodeY := centerY + trig.sin(angle) * radius;
    assert angle == Angle(idx, n, trig) && radius == CircleRadius(width, height);
  }

  /** The loop of `renderNetwork` that fills `nodePositions`. */
  method ComputeLayout(nodes: seq<Node>, width: real, height: real, trig: Trig)
    returns (positions: map<string, Point>)
    ensures positions == Layout(nodes, width, height, trig)
    ensures positions.Keys == NodeIds(nodes)
  {
    ghost var pts := Centers(|nodes|, width, height, trig);
    positions := map[];
    var idx := 0;
    while idx < |nodes|
      invariant 0 <= idx <= |nodes|
      invariant positions == Placed(nodes, pts, idx)
    {
      var x, y := NodeCenter(idx, |nodes|, width, height, trig);
      positions := positions[nodes[idx].id := Point(x, y)];
      idx := idx + 1;
    }
    LayoutKeys(nodes, width, height, trig);
  }
}
