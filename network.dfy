/** The state of the `PositionsNetwork` component (src/PositionsNetwork.jsx):
    the catalogue, the active system and the selected node, with the handlers
    that change them. */
module PositionsNetwork {
  import opened Wrappers
  import opened PositionsCatalog
  import opened PositionsLayout
  import opened PositionsRender

  /** The canvas is 800 by 500 pixels. */
  const CanvasWidth: real := 800.0
  const CanvasHeight: real := 500.0

  /** The system that a catalogue holds under a key, as the source reads
      `positions[currentSystem]`. */
  function Active(cat: Catalog, key: string): Option<System>
  {
    Find(cat, key)
  }

  /** The selection is empty or a node of the active system. */
  predicate SelectionBelongs(cat: Catalog, key: string, selected: Option<Node>)
  {
    selected.Some? ==> Active(cat, key).Some? && selected.value in Active(cat, key).value.nodes
  }

  /** A click picks nothing or a node of the system the click was matched against. */
  lemma PickedIsNode(nodes: seq<Node>, x: real, y: real, width: real, height: real, trig: Trig)
    ensures Picked(nodes, x, y, width, height, trig).Some? ==> Picked(nodes, x, y, width, height, trig).value in nodes
  {
    var r := LastHit(nodes, |nodes|, x, y, width, height, trig);
    if r.Some? {
      assert nodes[r.value] in nodes;
    }
  }

  /** The page starts on the overview, which the built-in catalogue holds;
      its tabs are, in order, overview, closed guard, back control and
      mount. */
  lemma BuiltinStart()
    ensures Active(Builtin, "overview") == Some(Overview)
    ensures Keys(Builtin) == ["overview", "closed_guard", "back_control", "mount"]
  {
    BuiltinKeys();
    FindEntry(Builtin, 0);
  }

  /** A catalogue replaced wholesale can leave the selection pointing at a
      node its new active system does not have: the selection belongs to the
      built-in overview, but not to a catalogue without an overview. */
  lemma ReplacementCanStrandSelection()
    ensures SelectionBelongs(Builtin, "overview", Some(OverviewNodes[0]))
    ensures !SelectionBelongs([], "overview", Some(OverviewNodes[0]))
  {
    BuiltinStart();
    assert OverviewNodes[0] in Overview.nodes;
  }

  /** The component's state. */
  class Network {
    var positions: Catalog
    var currentSystem: string
    var selectedNode: Option<Node>

    /** The selection belongs to the active system. */
    predicate Valid()
      reads this
    {
      DistinctKeys(positions) && SelectionBelongs(positions, currentSystem, selectedNode)
    }

    /** `useState(SYSTEMS)`, `useState('overview')`, `useState(null)`. */
    constructor ()
      ensures positions == Builtin && currentSystem == "overview" && selectedNode == None
      ensures Valid()
    {
      BuiltinKeys();
      positions := Builtin;
      currentSystem := "overview";
      selectedNode := None;
    }

    /** The outcome of the backend fetch: a catalogue when the response was
        ok, nothing when it was not or the fetch threw. Only a received
        catalogue replaces the current one, wholesale; the active key and the
        selection are kept. A parsed JSON object has distinct keys. */
    method LoadRemote(fetched: Option<Catalog>)
      requires fetched.Some? ==> DistinctKeys(fetched.value)
      modifies this
      ensures fetched.Some? ==> positions == fetched.value
      ensures fetched.None? ==> positions == old(positions)
      ensures currentSystem == old(currentSystem) && selectedNode == old(selectedNode)
      ensures fetched.None? && old(Valid()) ==> Valid()
    {
      if fetched.Some? {
        positions := fetched.value;
      }
    }

    /** The tab button for `key` (tabs exist only for the catalogue's keys):
        activates that system and clears the selection. */
    method SelectTab(key: string)
      requires key in Keys(positions)
      modifies this
      ensures currentSystem == key && selectedNode == None && positions == old(positions)
      ensures old(Valid()) ==> Valid()
    {
      currentSystem := key;
      selectedNode := None;
    }

    /** `handleCanvasClick` for a click whose offset from the canvas
        element's box is `(x, y)` in CSS pixels, compared as it stands with a
        layout in the canvas's 800 by 500 bitmap pixels. When the key names
        no system, reading `system.nodes` throws and nothing changes;
        otherwise the selection becomes the node the hit test finds at that
        point, or none. */
    method Click(x: real, y: real, trig: Trig)
      modifies this
      ensures positions == old(positions) && currentSystem == old(currentSystem)
      ensures Active(positions, currentSystem).None? ==> selectedNode == old(selectedNode)
      ensures Active(positions, currentSystem).Some? ==>
        selectedNode == Picked(Active(positions, currentSystem).value.nodes, x, y, CanvasWidth, CanvasHeight, trig)
      ensures old(Valid()) ==> Valid()
    {
      var system := Active(positions, currentSystem);
      if system.None? {
        return;
      }
      var clicked := HitTest(system.value.nodes, x, y, CanvasWidth, CanvasHeight, trig);
      PickedIsNode(system.value.nodes, x, y, CanvasWidth, CanvasHeight, trig);
      selectedNode := clicked;
    }

    /** `renderNetwork`: nothing at all (not even the background) when the
        key names no system, else the frame of the active system with the
        current selection. */
    method Render(trig: Trig) returns (ops: seq<DrawOp>)
      ensures Active(positions, currentSystem).None? ==> ops == []
      ensures Active(positions, currentSystem).Some? ==>
        ops == Frame(Active(positions, currentSystem).value, selectedNode, CanvasWidth, CanvasHeight, trig)
    {
      var system := Active(positions, currentSystem);
      if system.None? {
        return [];
      }
      ops := PositionsRender.Render(system.value, selectedNode, CanvasWidth, CanvasHeight, trig);
    }

    /** The subtitle, `system?.description`. */
    function Subtitle(): (d: Option<string>)
      reads this
      ensures d.Some? <==> currentSystem in Keys(positions)
    {
      match Active(positions, currentSystem)
      case None => None
      case Some(s) => Some(s.description)
    }
  }

  /** The labels of the tab bar, `positions[key].label` for each key in
      order. */
  function TabLabels(cat: Catalog): (labels: seq<string>)
    ensures |labels| == |cat|
    ensures forall i :: 0 <= i < |cat| ==> labels[i] == cat[i].system.caption
  {
    if |cat| == 0 then [] else [cat[0].system.caption] + TabLabels(cat[1..])
  }
}
