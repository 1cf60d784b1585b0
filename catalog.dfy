/** The positions catalogue: a set of named "systems", each a small directed
    graph of grappling positions, and the catalogue built into the page. */
module PositionsCatalog {
  import opened Wrappers

  /** A node of a system. `caption` is the source's `label` (a Dafny keyword),
      `kind` the source's `type` (position, guard,
      submission, sweep, hub), `posType` its role (top, bottom, neutral) and
      `size` its pixel radius. `origin` and `steps` (the source's
      `stepsFromOrigin`) are present only on nodes with execution steps. The
      strings are kept as strings because a catalogue fetched from the
      backend may carry any value there. */
  datatype Node = Node(
    id: string,
    caption: string,
    kind: string,
    size: real,
    posType: string,
    origin: Option<string>,
    steps: Option<seq<string>>)

  /** A directed edge, naming its endpoints by node id. */
  datatype Edge = Edge(from: string, to: string)

  /** A system; `caption` is the tab's label. */
  datatype System = System(
    id: string,
    caption: string,
    description: string,
    nodes: seq<Node>,
    edges: seq<Edge>)

  /** One property of the catalogue object: the key is what the tabs show
      and what `positions[currentSystem]` looks up. */
  datatype Entry = Entry(key: string, system: System)

  /** The catalogue, in the order of its keys (the order of the tabs). */
  type Catalog = seq<Entry>

  // ---------------------------------------------------------------------
  // Looking systems up
  // ---------------------------------------------------------------------

  /** The keys of the catalogue in tab order (`Object.keys(positions)`). */
  function Keys(cat: Catalog): (ks: seq<string>)
    ensures |ks| == |cat|
    ensures forall i :: 0 <= i < |cat| ==> ks[i] == cat[i].key
  {
    if |cat| == 0 then [] else [cat[0].key] + Keys(cat[1..])
  }

  /** `positions[key]`: the system stored under `key`, if any. */
  function Find(cat: Catalog, key: string): (r: Option<System>)
    ensures r.Some? <==> key in Keys(cat)
    ensures r.Some? ==> exists i :: 0 <= i < |cat| && cat[i].key == key && cat[i].system == r.value
  {
    if |cat| == 0 then None
    else if cat[0].key == key then Some(cat[0].system)
    else Find(cat[1..], key)
  }

  /** With distinct keys, the system found under the key of entry `i` is
      that entry's system. */
  lemma {:induction false} FindEntry(cat: Catalog, i: nat)
    requires i < |cat|
    requires DistinctKeys(cat)
    ensures Find(cat, cat[i].key) == Some(cat[i].system)
  {
    if i > 0 {
      FindEntry(cat[1..], i - 1);
    }
  }

  // ---------------------------------------------------------------------
  // Well-formedness
  // ---------------------------------------------------------------------

  /** The ids of a node list, in declaration order. */
  function Ids(nodes: seq<Node>): (ids: seq<string>)
    ensures |ids| == |nodes|
    ensures forall i :: 0 <= i < |nodes| ==> ids[i] == nodes[i].id
  {
    if |nodes| == 0 then [] else [nodes[0].id] + Ids(nodes[1..])
  }

  /** The set of ids a node list declares. */
  function NodeIds(nodes: seq<Node>): (ids: set<string>)
    ensures forall id :: id in ids <==> exists i :: 0 <= i < |nodes| && nodes[i].id == id
  {
    set i | 0 <= i < |nodes| :: nodes[i].id
  }

  /** No id is declared twice. */
  predicate UniqueIds(nodes: seq<Node>)
  {
    forall i, j :: 0 <= i < j < |nodes| ==> nodes[i].id != nodes[j].id
  }

  /** The data invariant of a system: node ids are unique, every edge joins
      two declared ids, every node has a positive radius and every `origin`
      names a declared node. */
  predicate WellFormed(s: System)
  {
    && UniqueIds(s.nodes)
    && (forall e :: e in s.edges ==> e.from in NodeIds(s.nodes) && e.to in NodeIds(s.nodes))
    && (forall n :: n in s.nodes ==> n.size > 0.0)
    && (forall n :: n in s.nodes && n.origin.Some? ==> n.origin.value in NodeIds(s.nodes))
  }

  /** No key is stored twice, as in any JavaScript object. */
  predicate DistinctKeys(cat: Catalog)
  {
    forall a, b :: 0 <= a < b < |cat| ==> cat[a].key != cat[b].key
  }

  /** A catalogue is well formed when its keys are distinct, each key is its
      system's id and each system is well formed. */
  predicate WellFormedCatalog(cat: Catalog)
  {
    && DistinctKeys(cat)
    && (forall i :: 0 <= i < |cat| ==> cat[i].key == cat[i].system.id && WellFormed(cat[i].system))
  }

  /** Well-formedness of a system given by literals, from facts about the
      list of its ids that each take one pass over the literal. */
  lemma LiteralWellFormed(s: System, ids: seq<string>)
    requires |s.nodes| == |ids| && forall i :: 0 <= i < |s.nodes| ==> s.nodes[i].id == ids[i]
    requires forall i, j :: 0 <= i < j < |ids| ==> ids[i] != ids[j]
    requires forall k :: 0 <= k < |s.edges| ==> s.edges[k].from in ids && s.edges[k].to in ids
    requires forall i :: 0 <= i < |s.nodes| ==> s.nodes[i].size > 0.0
    requires forall i :: 0 <= i < |s.nodes| && s.nodes[i].origin.Some? ==> s.nodes[i].origin.value in ids
    ensures WellFormed(s)
  {
    forall e | e in s.edges
      ensures e.from in NodeIds(s.nodes) && e.to in NodeIds(s.nodes)
    {
      var k :| 0 <= k < |s.edges| && s.edges[k] == e;
      var a :| 0 <= a < |ids| && ids[a] == e.from;
      var b :| 0 <= b < |ids| && ids[b] == e.to;
      assert s.nodes[a].id == e.from && s.nodes[b].id == e.to;
    }
    forall n | n in s.nodes && n.origin.Some?
      ensures n.origin.value in NodeIds(s.nodes)
    {
      var i :| 0 <= i < |s.nodes| && s.nodes[i] == n;
      var a :| 0 <= a < |ids| && ids[a] == n.origin.value;
      assert s.nodes[a].id == n.origin.value;
    }
  }

  // ---------------------------------------------------------------------
  // The built-in catalogue
  // ---------------------------------------------------------------------

  /** The `overview` system. */
  const Overview: System :=
    System("overview", "FULL MAP",
      "Complete BJJ positions network — all major positions and transitions.",
      OverviewNodes, OverviewEdges)

  const OverviewNodes: seq<Node> :=
    [
      Node("standing", "Standing", "position", 28.0, "neutral", None, None),
      Node("closed_guard", "Closed Guard", "guard", 32.0, "bottom", None, None),
      Node("mount", "Mount", "position", 34.0, "top", None, None),
      Node("side_control", "Side Control", "position", 32.0, "top", None, None),
      Node("back_control", "Back Control", "position", 32.0, "top", None, None),
      Node("half_guard", "Half Guard", "guard", 28.0, "bottom", None, None),
      Node("open_guard", "Open Guard", "guard", 28.0, "bottom", None, None),
      Node("turtle", "Turtle", "position", 26.0, "bottom", None, None),
      Node("north_south", "North South", "position", 24.0, "top", None, None),
      Node("knee_on_belly", "Knee on Belly", "position", 24.0, "top", None, None),
      Node("butterfly", "Butterfly", "guard", 26.0, "bottom", None, None),
      Node("de_la_riva", "De La Riva", "guard", 24.0, "bottom", None, None),
      Node("spider", "Spider Guard", "guard", 22.0, "bottom", None, None),
      Node("lasso", "Lasso Guard", "guard", 22.0, "bottom", None, None),
      Node("deep_half", "Deep Half", "guard", 22.0, "bottom", None, None),
      Node("x_guard", "X Guard", "guard", 22.0, "bottom", None, None),
      Node("knee_shield", "Knee Shield", "guard", 22.0, "bottom", None, None),
      Node("tech_mount", "Tech Mount", "position", 22.0, "top", None, None),
      Node("fifty_fifty", "50/50", "position", 20.0, "neutral", None, None),
      Node("ashi", "Ashi Garami", "position", 22.0, "neutral", None, None)
    ]

  const OverviewEdges: seq<Edge> :=
    [
      Edge("standing", "closed_guard"), Edge("standing", "open_guard"), Edge("standing", "butterfly"),
      Edge("closed_guard", "mount"), Edge("closed_guard", "back_control"), Edge("closed_guard", "open_guard"),
      Edge("closed_guard", "half_guard"), Edge("closed_guard", "de_la_riva"), Edge("mount", "side_control"),
      Edge("mount", "back_control"), Edge("mount", "tech_mount"), Edge("side_control", "mount"),
      Edge("side_control", "north_south"), Edge("side_control", "knee_on_belly"), Edge("side_control", "back_control"),
      Edge("side_control", "turtle"), Edge("back_control", "turtle"), Edge("back_control", "mount"),
      Edge("half_guard", "closed_guard"), Edge("half_guard", "deep_half"), Edge("half_guard", "side_control"),
      Edge("half_guard", "knee_shield"), Edge("knee_shield", "butterfly"), Edge("knee_shield", "half_guard"),
      Edge("open_guard", "butterfly"), Edge("open_guard", "de_la_riva"), Edge("open_guard", "spider"),
      Edge("open_guard", "lasso"), Edge("butterfly", "x_guard"), Edge("butterfly", "half_guard"),
      Edge("de_la_riva", "x_guard"), Edge("de_la_riva", "ashi"), Edge("de_la_riva", "fifty_fifty"),
      Edge("x_guard", "ashi"), Edge("tech_mount", "back_control"), Edge("tech_mount", "mount"),
      Edge("turtle", "back_control"), Edge("turtle", "side_control"), Edge("knee_on_belly", "mount"),
      Edge("knee_on_belly", "side_control"), Edge("north_south", "side_control"), Edge("deep_half", "back_control"),
      Edge("lasso", "spider"), Edge("ashi", "fifty_fifty")
    ]

  /** The ids `OverviewNodes` declares, in order. */
  const OverviewIds: seq<string> :=
    [
      "standing", "closed_guard", "mount", "side_control", "back_control",
      "half_guard", "open_guard", "turtle", "north_south", "knee_on_belly",
      "butterfly", "de_la_riva", "spider", "lasso", "deep_half",
      "x_guard", "knee_shield", "tech_mount", "fifty_fifty", "ashi"
    ]

  lemma OverviewWellFormed()
    ensures WellFormed(Overview)
  {
    OverviewIdsMatch();
    OverviewIdsDistinct();
    OverviewEdgesResolve();
    OverviewNodesChecked();
    LiteralWellFormed(Overview, OverviewIds);
  }

  lemma OverviewIdsMatch()
    ensures |OverviewNodes| == |OverviewIds| && forall i :: 0 <= i < |OverviewNodes| ==> OverviewNodes[i].id == OverviewIds[i]
  {
  }

  lemma OverviewIdsDistinct()
    ensures forall i, j :: 0 <= i < j < |OverviewIds| ==> OverviewIds[i] != OverviewIds[j]
  {
  }

  lemma OverviewEdgesResolve()
    ensures forall k :: 0 <= k < |OverviewEdges| ==> OverviewEdges[k].from in OverviewIds && OverviewEdges[k].to in OverviewIds
  {
  }

  lemma OverviewNodesChecked()
    ensures forall i :: 0 <= i < |OverviewNodes| ==> OverviewNodes[i].size > 0.0
    ensures forall i :: 0 <= i < |OverviewNodes| && OverviewNodes[i].origin.Some? ==> OverviewNodes[i].origin.value in OverviewIds
  {
  }

  /** The `closed_guard` system. */
  const ClosedGuard: System :=
    System("closed_guard", "CLOSED GUARD",
      "Attacks, sweeps and submissions from closed guard bottom position.",
      ClosedGuardNodes, ClosedGuardEdges)

  const ClosedGuardNodes: seq<Node> :=
    [
      Node("cg", "Closed\nGuard", "guard", 40.0, "bottom", Some("cg"),
           Some(["Lock ankles behind opponent back.",
               "Break posture with collar/sleeve grip.",
               "Control distance — keep close or extend."])),
      Node("cg_cross", "Cross Collar\nChoke", "submission", 28.0, "bottom", Some("cg"),
           Some(["Break posture, double collar grips.",
               "Feed hand deep behind neck.",
               "Second hand crosses; rotate wrists, flare elbows."])),
      Node("cg_armbar", "Armbar", "submission", 28.0, "bottom", Some("cg"),
           Some(["Control arm two-on-one; foot on hip.",
               "Pivot 90°, swing leg over head.",
               "Pinch knees, extend hips."])),
      Node("cg_triangle", "Triangle", "submission", 26.0, "bottom", Some("cg"),
           Some(["Push one arm across.",
               "Swing leg over shoulder, lock figure-four.",
               "Squeeze knees, pull head down."])),
      Node("cg_sweep", "Hip Bump\nSweep", "sweep", 26.0, "bottom", Some("cg"),
           Some(["Sit up, trap posting arm.",
               "Drive hips under center.",
               "Rotate to mount."])),
      Node("cg_kimura", "Kimura", "submission", 26.0, "bottom", Some("cg"),
           Some(["Sit up, figure-four wrist.",
               "Post foot, break posture.",
               "Drag wrist behind back."])),
      Node("cg_mount", "Mount", "position", 30.0, "top", None, None)
    ]

  const ClosedGuardEdges: seq<Edge> :=
    [
      Edge("cg", "cg_cross"), Edge("cg", "cg_armbar"), Edge("cg", "cg_triangle"),
      Edge("cg", "cg_sweep"), Edge("cg", "cg_kimura"), Edge("cg_sweep", "cg_mount")
    ]

  /** The ids `ClosedGuardNodes` declares, in order. */
  const ClosedGuardIds: seq<string> :=
    [
      "cg", "cg_cross", "cg_armbar", "cg_triangle", "cg_sweep",
      "cg_kimura", "cg_mount"
    ]

  lemma ClosedGuardWellFormed()
    ensures WellFormed(ClosedGuard)
  {
    ClosedGuardIdsMatch();
    ClosedGuardIdsDistinct();
    ClosedGuardEdgesResolve();
    ClosedGuardNodesChecked();
    LiteralWellFormed(ClosedGuard, ClosedGuardIds);
  }

  lemma ClosedGuardIdsMatch()
    ensures |ClosedGuardNodes| == |ClosedGuardIds| && forall i :: 0 <= i < |ClosedGuardNodes| ==> ClosedGuardNodes[i].id == ClosedGuardIds[i]
  {
  }

  lemma ClosedGuardIdsDistinct()
    ensures forall i, j :: 0 <= i < j < |ClosedGuardIds| ==> ClosedGuardIds[i] != ClosedGuardIds[j]
  {
  }

  lemma ClosedGuardEdgesResolve()
    ensures forall k :: 0 <= k < |ClosedGuardEdges| ==> ClosedGuardEdges[k].from in ClosedGuardIds && ClosedGuardEdges[k].to in ClosedGuardIds
  {
  }

  lemma ClosedGuardNodesChecked()
    ensures forall i :: 0 <= i < |ClosedGuardNodes| ==> ClosedGuardNodes[i].size > 0.0
    ensures forall i :: 0 <= i < |ClosedGuardNodes| && ClosedGuardNodes[i].origin.Some? ==> ClosedGuardNodes[i].origin.value in ClosedGuardIds
  {
  }

  /** The `back_control` system. */
  const BackControl: System :=
    System("back_control", "BACK CONTROL",
      "Back takes, chokes, entries and escapes from back control.",
      BackControlNodes, BackControlEdges)

  const BackControlNodes: seq<Node> :=
    [
      Node("bc", "Back\nControl", "hub", 44.0, "top", Some("bc"),
           Some(["Secure seatbelt (over-under).",
               "Insert hooks or body triangle.",
               "Chest glued to back."])),
      Node("bc_rnc", "RNC", "submission", 32.0, "top", Some("bc"),
           Some(["Slide arm under chin.",
               "Grip own bicep.",
               "Expand chest, squeeze."])),
      Node("bc_bow", "Bow &\nArrow", "submission", 26.0, "top", Some("bc"),
           Some(["Grab collar.",
               "Grip pant leg.",
               "Extend away, drive knee."])),
      Node("bc_armbar", "Armbar", "submission", 24.0, "top", Some("bc"),
           Some(["Isolate arm.",
               "Swing leg over head.",
               "Sit back, extend hips."])),
      Node("bc_triangle", "Triangle", "submission", 24.0, "top", Some("bc"),
           Some(["Lock triangle around neck and arm.",
               "Turn perpendicular.",
               "Squeeze thighs."]))
    ]

  const BackControlEdges: seq<Edge> :=
    [
      Edge("bc", "bc_rnc"), Edge("bc", "bc_bow"), Edge("bc", "bc_armbar"),
      Edge("bc", "bc_triangle")
    ]

  /** The ids `BackControlNodes` declares, in order. */
  const BackControlIds: seq<string> :=
    [
      "bc", "bc_rnc", "bc_bow", "bc_armbar", "bc_triangle"
    ]

  lemma BackControlWellFormed()
    ensures WellFormed(BackControl)
  {
    BackControlIdsMatch();
    BackControlIdsDistinct();
    BackControlEdgesResolve();
    BackControlNodesChecked();
    LiteralWellFormed(BackControl, BackControlIds);
  }

  lemma BackControlIdsMatch()
    ensures |BackControlNodes| == |BackControlIds| && forall i :: 0 <= i < |BackControlNodes| ==> BackControlNodes[i].id == BackControlIds[i]
  {
  }

  lemma BackControlIdsDistinct()
    ensures forall i, j :: 0 <= i < j < |BackControlIds| ==> BackControlIds[i] != BackControlIds[j]
  {
  }

  lemma BackControlEdgesResolve()
    ensures forall k :: 0 <= k < |BackControlEdges| ==> BackControlEdges[k].from in BackControlIds && BackControlEdges[k].to in BackControlIds
  {
  }

  lemma BackControlNodesChecked()
    ensures forall i :: 0 <= i < |BackControlNodes| ==> BackControlNodes[i].size > 0.0
    ensures forall i :: 0 <= i < |BackControlNodes| && BackControlNodes[i].origin.Some? ==> BackControlNodes[i].origin.value in BackControlIds
  {
  }

  /** The `mount` system. */
  const Mount: System :=
    System("mount", "MOUNT",
      "Attacks and escapes from full mount top position.",
      MountNodes, MountEdges)

  const MountNodes: seq<Node> :=
    [
      Node("mt", "Mount", "hub", 44.0, "top", Some("mt"),
           Some(["Sit heavy, grapevine or high mount.",
               "Weight on chest not hips.",
               "Control arms and head."])),
      Node("mt_armbar", "Armbar", "submission", 28.0, "top", Some("mt"),
           Some(["Isolate arm, step over head.",
               "Pinch knees, hips under elbow.",
               "Lean back, extend."])),
      Node("mt_choke", "Cross\nChoke", "submission", 26.0, "top", Some("mt"),
           Some(["Pull collar grips across.",
               "Elbows pointed down.",
               "Rotate wrists, drive shoulders."]))
    ]

  const MountEdges: seq<Edge> :=
    [
      Edge("mt", "mt_armbar"), Edge("mt", "mt_choke")
    ]

  /** The ids `MountNodes` declares, in order. */
  const MountIds: seq<string> :=
    [
      "mt", "mt_armbar", "mt_choke"
    ]

  lemma MountWellFormed()
    ensures WellFormed(Mount)
  {
    MountIdsMatch();
    MountIdsDistinct();
    MountEdgesResolve();
    MountNodesChecked();
    LiteralWellFormed(Mount, MountIds);
  }

  lemma MountIdsMatch()
    ensures |MountNodes| == |MountIds| && forall i :: 0 <= i < |MountNodes| ==> MountNodes[i].id == MountIds[i]
  {
  }

  lemma MountIdsDistinct()
    ensures forall i, j :: 0 <= i < j < |MountIds| ==> MountIds[i] != MountIds[j]
  {
  }

  lemma MountEdgesResolve()
    ensures forall k :: 0 <= k < |MountEdges| ==> MountEdges[k].from in MountIds && MountEdges[k].to in MountIds
  {
  }

  lemma MountNodesChecked()
    ensures forall i :: 0 <= i < |MountNodes| ==> MountNodes[i].size > 0.0
    ensures forall i :: 0 <= i < |MountNodes| && MountNodes[i].origin.Some? ==> MountNodes[i].origin.value in MountIds
  {
  }
  /** `SYSTEMS`: the catalogue the page starts with, in tab order. */
  const Builtin: Catalog :=
    [Entry("overview", Overview), Entry("closed_guard", ClosedGuard),
     Entry("back_control", BackControl), Entry("mount", Mount)]

  /** Four well-formed systems with distinct ids, each stored under its own
      id, make a well-formed catalogue. */
  lemma FourWellFormed(a: System, b: System, c: System, d: System)
    requires WellFormed(a) && WellFormed(b) && WellFormed(c) && WellFormed(d)
    requires a.id != b.id && a.id != c.id && a.id != d.id && b.id != c.id && b.id != d.id && c.id != d.id
    ensures WellFormedCatalog([Entry(a.id, a), Entry(b.id, b), Entry(c.id, c), Entry(d.id, d)])
  {
  }

  /** The built-in catalogue is well formed. */
  lemma BuiltinWellFormed()
    ensures WellFormedCatalog(Builtin)
  {
    OverviewWellFormed();
    ClosedGuardWellFormed();
    BackControlWellFormed();
    MountWellFormed();
    FourWellFormed(Overview, ClosedGuard, BackControl, Mount);
    assert Builtin == [Entry(Overview.id, Overview), Entry(ClosedGuard.id, ClosedGuard),
                       Entry(BackControl.id, BackControl), Entry(Mount.id, Mount)];
  }

  /** The built-in keys, in tab order; no two are equal. */
  lemma BuiltinKeys()
    ensures Keys(Builtin) == ["overview", "closed_guard", "back_control", "mount"]
    ensures DistinctKeys(Builtin)
  {
  }

  /** The overview has 20 nodes and 44 edges. */
  lemma OverviewSize()
    ensures |Overview.nodes| == 20 && |Overview.edges| == 44
  {
  }
}
