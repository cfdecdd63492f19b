/** The list box component: a pool of per-row nodes keyed by id, a selection set and a per-frame
    row counter that drives odd/even shading, together with the single-select click policy. */
module Component {
  import opened Geometry

  // ---------------------------------------------------------------------------------------------
  // Nodes

  /** A node's key in the pool (ListBoxNodeId wraps a LiveId). */
  datatype NodeId = NodeId(live: nat)

  /** The two states of each of a node's animator tracks (hover and select). */
  datatype Anim = On | Off

  /** The state a row node keeps between frames: the odd/even uniform of its background quad
      and of its label, the targets of its hover and select tracks, and its drag threshold. */
  datatype NodeState = NodeState(bgIsEven: real, textIsEven: real, hover: Anim, select: Anim, minDragDistance: real)

  /** A freshly created node: both tracks default to off and the drag threshold is 10. */
  const NewNode := NodeState(0.0, 0.0, Off, Off, 10.0)

  /** What hit-testing the event against a node's area reports. */
  datatype Hit =
    | FingerHoverIn
    | FingerHoverOut
    | FingerMove(abs: Vec2, absStart: Vec2)
    | FingerDown
    | OtherHit

  /** What a node reports to the list box. */
  datatype NodeAction = WasClicked | ShouldStartDragging | NoAction

  /** A node's new state and the actions it dispatched (at most one). */
  datatype NodeStep = NodeStep(node: NodeState, emitted: seq<NodeAction>)

  /** An action together with the id of the node that dispatched it. */
  datatype Tagged = Tagged(id: NodeId, action: NodeAction)

  /** The parity uniform of the `count`-th row: 0.0 for odd rows, 1.0 for even ones. */
  function IsEven(count: nat): (r: real)
    ensures r == 0.0 || r == 1.0
    ensures r == 1.0 <==> count % 2 == 0
  {
    if count % 2 == 1 then 0.0 else 1.0
  }

  /** Consecutive rows get different parities, and every other row the same one. */
  lemma RowsAlternate(count: nat)
    ensures IsEven(count) != IsEven(count + 1)
    ensures IsEven(count) == IsEven(count + 2)
  {
  }

  /** Gives both of the node's quads the row's parity; nothing else changes. */
  function SetDrawState(n: NodeState, isEven: real): (r: NodeState)
    ensures r.bgIsEven == isEven && r.textIsEven == isEven
    ensures r.(bgIsEven := n.bgIsEven, textIsEven := n.textIsEven) == n
  {
    n.(bgIsEven := isEven, textIsEven := isEven)
  }

  /** The finger has travelled at least `minDrag` from where it went down, stated on squared
      lengths so that no square root is needed. */
  predicate DragReached(abs: Vec2, start: Vec2, minDrag: real)
    // a threshold that is not positive is reached wherever the finger is
    ensures minDrag <= 0.0 ==> DragReached(abs, start, minDrag)
  {
    minDrag <= 0.0 || SqLen(abs.Minus(start)) >= minDrag * minDrag
  }

  lemma SquareMonotone(a: real, b: real)
    requires 0.0 <= a <= b
    ensures a * a <= b * b
  {
  }

  lemma SquareStrictlyMonotone(a: real, b: real)
    requires 0.0 <= a < b
    ensures a * a < b * b
  {
    MulPositive(b - a, b + a);
    assert (b - a) * (b + a) == b * b - a * a;
  }

  /** The squared-length test is the distance test: for the Euclidean distance `dist` between
      the two points, the drag threshold is reached exactly when `dist >= minDrag`. */
  lemma DragReachedIsDistance(abs: Vec2, start: Vec2, minDrag: real, dist: real)
    requires dist >= 0.0 && dist * dist == SqLen(abs.Minus(start))
    ensures DragReached(abs, start, minDrag) <==> dist >= minDrag
  {
    if minDrag > 0.0 {
      if dist >= minDrag {
        SquareMonotone(minDrag, dist);
      } else {
        SquareStrictlyMonotone(dist, minDrag);
      }
    }
  }

  /** A node's reaction to the event (its effect is stated by NodeEventEffect). */
  function HandleNodeEvent(n: NodeState, hit: Hit): NodeStep {
    match hit
    case FingerHoverIn => NodeStep(n.(hover := On), [])
    case FingerHoverOut => NodeStep(n.(hover := Off), [])
    case FingerMove(abs, absStart) =>
      NodeStep(n, if DragReached(abs, absStart, n.minDragDistance) then [ShouldStartDragging] else [])
    case FingerDown => NodeStep(n.(select := On), [WasClicked])
    case OtherHit => NodeStep(n, [])
  }

  /** A press selects the node and reports a click, a move past the drag threshold reports a
      drag start, hovering in and out switches the hover track; at most one action is reported
      and nothing but the two tracks changes. */
  lemma NodeEventEffect(n: NodeState, hit: Hit)
    ensures var st := HandleNodeEvent(n, hit);
      && |st.emitted| <= 1
      && (WasClicked in st.emitted <==> hit.FingerDown?)
      && (ShouldStartDragging in st.emitted <==>
            hit.FingerMove? && DragReached(hit.abs, hit.absStart, n.minDragDistance))
      && NoAction !in st.emitted
      && st.node.select == (if hit.FingerDown? then On else n.select)
      && st.node.hover == (if hit.FingerHoverIn? then On else if hit.FingerHoverOut? then Off else n.hover)
      && st.node.(hover := n.hover, select := n.select) == n
  {
  }

  // ---------------------------------------------------------------------------------------------
  // The node pool

  /** The pool entry for `id`, created from `created` only when it is missing. */
  function GetOrInsert(nodes: map<NodeId, NodeState>, id: NodeId, created: NodeState): (r: map<NodeId, NodeState>)
    ensures r.Keys == nodes.Keys + {id}
    ensures forall k :: k in nodes ==> r[k] == nodes[k]
    ensures id !in nodes ==> r[id] == created
  {
    if id in nodes then nodes else nodes[id := created]
  }

  /** Eviction at the end of a frame: a node survives when it was drawn this frame or is
      selected, and survivors keep their state. */
  function Retain(nodes: map<NodeId, NodeState>, drawn: set<NodeId>, selected: set<NodeId>): (r: map<NodeId, NodeState>)
    ensures r.Keys == nodes.Keys * (drawn + selected)
    ensures forall k :: k in r ==> r[k] == nodes[k]
  {
    map k | k in nodes && (k in drawn || k in selected) :: nodes[k]
  }

  /** The pool after each of its nodes has reacted to the event. */
  function StepEach(nodes: map<NodeId, NodeState>, hit: NodeId -> Hit): (r: map<NodeId, NodeState>)
    ensures r.Keys == nodes.Keys
  {
    map k | k in nodes :: HandleNodeEvent(nodes[k], hit(k)).node
  }

  /** Stepping the pool selects every pressed node and changes only the two tracks of any node. */
  lemma StepEachTracks(nodes: map<NodeId, NodeState>, hit: NodeId -> Hit)
    ensures var r := StepEach(nodes, hit);
      && (forall k :: k in r && hit(k).FingerDown? ==> r[k].select == On)
      && (forall k :: k in r ==> r[k].(hover := nodes[k].hover, select := nodes[k].select) == nodes[k])
  {
  }

  /** `emitted`, each action tagged with `id`. */
  function Tag(id: NodeId, emitted: seq<NodeAction>): (ts: seq<Tagged>)
    ensures |ts| == |emitted|
    ensures forall i :: 0 <= i < |ts| ==> ts[i] == Tagged(id, emitted[i])
  {
    seq(|emitted|, i requires 0 <= i < |emitted| => Tagged(id, emitted[i]))
  }

  /** The actions the nodes dispatch when visited in `order`. */
  function Actions(nodes: map<NodeId, NodeState>, order: seq<NodeId>, hit: NodeId -> Hit): (acts: seq<Tagged>)
    requires forall i :: 0 <= i < |order| ==> order[i] in nodes
    ensures forall a :: a in acts ==> a.id in order
  {
    if order == [] then []
    else
      var k := order[|order| - 1];
      var prefix := Actions(nodes, order[..|order| - 1], hit);
      var own := Tag(k, HandleNodeEvent(nodes[k], hit(k)).emitted);
      assert forall a :: a in own ==> a.id == k;
      prefix + own
  }

  /** One more node visited: its own actions follow those of the nodes before it. */
  lemma ActionsExtend(nodes: map<NodeId, NodeState>, order: seq<NodeId>, i: nat, hit: NodeId -> Hit)
    requires i < |order| && forall j :: 0 <= j < |order| ==> order[j] in nodes
    ensures Actions(nodes, order[..i + 1], hit)
      == Actions(nodes, order[..i], hit) + Tag(order[i], HandleNodeEvent(nodes[order[i]], hit(order[i])).emitted)
  {
    assert order[..i + 1][..i] == order[..i];
  }

  /** The ids of the nodes that reported a click, in dispatch order. */
  function Clicks(acts: seq<Tagged>): (ids: seq<NodeId>)
    ensures |ids| <= |acts|
    // a click dispatched last is the last of the clicks
    ensures |acts| > 0 && acts[|acts| - 1].action == WasClicked ==> |ids| > 0 && ids[|ids| - 1] == acts[|acts| - 1].id
  {
    if acts == [] then []
    else
      var a := acts[|acts| - 1];
      Clicks(acts[..|acts| - 1]) + (if a.action == WasClicked then [a.id] else [])
  }

  /** The ids of the nodes in `order` that the event presses. */
  function Pressed(order: seq<NodeId>, hit: NodeId -> Hit): (ids: seq<NodeId>)
    ensures forall k :: k in ids <==> k in order && hit(k).FingerDown?
  {
    if order == [] then []
    else
      var k := order[|order| - 1];
      Pressed(order[..|order| - 1], hit) + (if hit(k).FingerDown? then [k] else [])
  }

  /** The pool together with the selection. */
  datatype Pool = Pool(nodes: map<NodeId, NodeState>, selected: set<NodeId>)

  /** Tells the nodes in `ids` to switch their select track off. */
  function Deselect(nodes: map<NodeId, NodeState>, ids: set<NodeId>): (r: map<NodeId, NodeState>)
    ensures r.Keys == nodes.Keys
  {
    map k | k in nodes :: if k in ids then nodes[k].(select := Off) else nodes[k]
  }

  /** A click on `x`: every other selected node is deselected and the selection becomes `{x}`;
      no other node changes. */
  function Click(p: Pool, x: NodeId): (r: Pool)
    ensures r.selected == {x}
    ensures r.nodes.Keys == p.nodes.Keys
    ensures forall k :: k in p.nodes && k in p.selected && k != x ==> r.nodes[k] == p.nodes[k].(select := Off)
    ensures forall k :: k in p.nodes && (k !in p.selected || k == x) ==> r.nodes[k] == p.nodes[k]
  {
    Pool(Deselect(p.nodes, p.selected - {x}), {x})
  }

  /** The actions applied in order; only clicks change anything. */
  function ApplyActions(p: Pool, acts: seq<Tagged>): (r: Pool)
    ensures r.nodes.Keys == p.nodes.Keys
  {
    if acts == [] then p
    else
      var q := ApplyActions(p, acts[..|acts| - 1]);
      var a := acts[|acts| - 1];
      if a.action == WasClicked then Click(q, a.id) else q
  }

  /** The pool and selection after an event: every node reacts, visited in `order`, then the
      dispatched actions are applied in the order they were dispatched. */
  function EventOutcome(nodes: map<NodeId, NodeState>, selected: set<NodeId>, order: seq<NodeId>,
                        hit: NodeId -> Hit): (r: Pool)
    requires forall i :: 0 <= i < |order| ==> order[i] in nodes
    ensures r.nodes.Keys == nodes.Keys
  {
    ApplyActions(Pool(StepEach(nodes, hit), selected), Actions(nodes, order, hit))
  }

  // ---------------------------------------------------------------------------------------------
  // Properties of the click policy

  /** The clicked ids are the ids of the click actions. */
  lemma {:induction false} ClicksMembers(acts: seq<Tagged>)
    ensures forall k :: k in Clicks(acts) <==> Tagged(k, WasClicked) in acts
  {
    if acts != [] {
      var prefix, a := acts[..|acts| - 1], acts[|acts| - 1];
      ClicksMembers(prefix);
      assert acts == prefix + [a];
    }
  }

  /** Single selection: after the actions the selection is exactly the last clicked id, or
      unchanged, together with the whole pool, when nothing was clicked. */
  lemma {:induction false} ApplyActionsSelection(p: Pool, acts: seq<Tagged>)
    ensures Clicks(acts) == [] ==> ApplyActions(p, acts) == p
    ensures Clicks(acts) != [] ==> ApplyActions(p, acts).selected == {Clicks(acts)[|Clicks(acts)| - 1]}
  {
    if acts != [] {
      ApplyActionsSelection(p, acts[..|acts| - 1]);
    }
  }

  /** A node that was neither selected nor clicked is left as it was. */
  lemma {:induction false} ApplyActionsUntouched(p: Pool, acts: seq<Tagged>)
    ensures forall k :: k in p.nodes && k !in p.selected && k !in Clicks(acts) ==>
      ApplyActions(p, acts).nodes[k] == p.nodes[k]
  {
    if acts != [] {
      var prefix, a := acts[..|acts| - 1], acts[|acts| - 1];
      ApplyActionsUntouched(p, prefix);
      ApplyActionsSelection(p, prefix);
      var q := ApplyActions(p, prefix);
      if a.action == WasClicked {
        forall k | k in p.nodes && k !in p.selected && k !in Clicks(acts)
          ensures ApplyActions(p, acts).nodes[k] == p.nodes[k]
        {
          assert Clicks(acts) == Clicks(prefix) + [a.id];
          assert k !in q.selected;
        }
      }
    }
  }

  /** The select track is the only thing the actions ever change. */
  lemma {:induction false} ApplyActionsOnlySelect(p: Pool, acts: seq<Tagged>)
    ensures forall k :: k in p.nodes ==>
      ApplyActions(p, acts).nodes[k].(select := p.nodes[k].select) == p.nodes[k]
  {
    if acts != [] {
      ApplyActionsOnlySelect(p, acts[..|acts| - 1]);
    }
  }

  /** Once some node was clicked, every other node that was selected before or clicked on the
      way ends up deselected: only the last clicked one can keep its select track on. */
  lemma {:induction false} ApplyActionsDeselects(p: Pool, acts: seq<Tagged>)
    ensures var cs := Clicks(acts);
      cs != [] ==> forall k :: k in p.nodes && (k in p.selected || k in cs) && k != cs[|cs| - 1] ==>
        ApplyActions(p, acts).nodes[k].select == Off
  {
    if acts != [] {
      var prefix, a := acts[..|acts| - 1], acts[|acts| - 1];
      ApplyActionsDeselects(p, prefix);
      ApplyActionsSelection(p, prefix);
      var q, cs' := ApplyActions(p, prefix), Clicks(prefix);
      if a.action == WasClicked {
        var x := a.id;
        assert Clicks(acts) == cs' + [x];
        forall k | k in p.nodes && (k in p.selected || k in cs' + [x]) && k != x
          ensures ApplyActions(p, acts).nodes[k].select == Off
        {
          if k !in q.selected {
            assert cs' != [] && k != cs'[|cs'| - 1];
          }
        }
      }
    }
  }

  /** With a single click on `x`, the actions amount to that one click. */
  lemma {:induction false} SingleClick(p: Pool, acts: seq<Tagged>, x: NodeId)
    requires Clicks(acts) == [x]
    ensures ApplyActions(p, acts) == Click(p, x)
  {
    var prefix, a := acts[..|acts| - 1], acts[|acts| - 1];
    if a.action == WasClicked {
      assert Clicks(acts) == Clicks(prefix) + [a.id];
      assert |Clicks(prefix)| == 0;
      assert Clicks(acts)[0] == a.id;
      ApplyActionsSelection(p, prefix);
    } else {
      SingleClick(p, prefix, x);
    }
  }

  /** Selected ids stay in the pool: the clicked ids come from the pool, so the ids the event
      selects are present, which is what makes the deselection lookups safe. */
  lemma ApplyActionsKeepsSelectedInPool(p: Pool, acts: seq<Tagged>)
    requires p.selected <= p.nodes.Keys
    requires forall a :: a in acts ==> a.id in p.nodes
    ensures ApplyActions(p, acts).selected <= ApplyActions(p, acts).nodes.Keys
  {
    ApplyActionsSelection(p, acts);
    ClicksMembers(acts);
  }

  /** The nodes whose select track is on are exactly the selected ones. */
  predicate SelectShown(p: Pool) {
    forall k :: k in p.nodes ==> (p.nodes[k].select == On <==> k in p.selected)
  }

  /** A single click keeps the select tracks in step with the selection, given that they were
      in step before, counting the clicked node as already switched on. */
  lemma OneClickKeepsSelectShown(p: Pool, acts: seq<Tagged>)
    requires |Clicks(acts)| <= 1
    requires forall k :: k in p.nodes ==> (p.nodes[k].select == On <==> k in p.selected || k in Clicks(acts))
    ensures SelectShown(ApplyActions(p, acts))
  {
    ApplyActionsSelection(p, acts);
    if Clicks(acts) != [] {
      var x := Clicks(acts)[0];
      assert Clicks(acts) == [x];
      SingleClick(p, acts, x);
    }
  }

  /** When at most one node is pressed, the event keeps the select tracks in step with the
      selection. */
  lemma OnePressKeepsSelectShown(nodes: map<NodeId, NodeState>, selected: set<NodeId>,
                                 order: seq<NodeId>, hit: NodeId -> Hit)
    requires SelectShown(Pool(nodes, selected))
    requires forall k :: k in nodes <==> k in order
    requires |Pressed(order, hit)| <= 1
    ensures SelectShown(EventOutcome(nodes, selected, order, hit))
  {
    var p := Pool(StepEach(nodes, hit), selected);
    var acts := Actions(nodes, order, hit);
    ClicksArePresses(nodes, order, hit);
    forall k | k in p.nodes
      ensures p.nodes[k].select == On <==> k in p.selected || k in Clicks(acts)
    {
      NodeEventEffect(nodes[k], hit(k));
    }
    OneClickKeepsSelectShown(p, acts);
  }

  /** After an event the selection is the last pressed id, or is unchanged when nothing is
      pressed. */
  lemma EventSelection(nodes: map<NodeId, NodeState>, selected: set<NodeId>, order: seq<NodeId>,
                       hit: NodeId -> Hit)
    requires forall i :: 0 <= i < |order| ==> order[i] in nodes
    ensures var ps := Pressed(order, hit);
      EventOutcome(nodes, selected, order, hit).selected == if ps == [] then selected else {ps[|ps| - 1]}
  {
    ClicksArePresses(nodes, order, hit);
    ApplyActionsSelection(Pool(StepEach(nodes, hit), selected), Actions(nodes, order, hit));
  }

  /** The clicks are the presses, in visiting order. */
  lemma {:induction false} ClicksArePresses(nodes: map<NodeId, NodeState>, order: seq<NodeId>, hit: NodeId -> Hit)
    requires forall i :: 0 <= i < |order| ==> order[i] in nodes
    ensures Clicks(Actions(nodes, order, hit)) == Pressed(order, hit)
  {
    if order != [] {
      var prefix, k := order[..|order| - 1], order[|order| - 1];
      ClicksArePresses(nodes, prefix, hit);
      var own := Tag(k, HandleNodeEvent(nodes[k], hit(k)).emitted);
      ClicksAppend(Actions(nodes, prefix, hit), own);
      var st := HandleNodeEvent(nodes[k], hit(k));
      if hit(k).FingerDown? {
        assert st.emitted == [WasClicked];
        assert own == [Tagged(k, WasClicked)];
        assert Clicks(own) == Clicks([]) + [k];
      } else if st.emitted != [] {
        assert own == [Tagged(k, st.emitted[0])];
        assert Clicks(own) == Clicks([]) + [];
      } else {
        assert own == [];
      }
    }
  }

  lemma {:induction false} ClicksAppend(a: seq<Tagged>, b: seq<Tagged>)
    ensures Clicks(a + b) == Clicks(a) + Clicks(b)
    decreases |b|
  {
    if b != [] {
      var b', t := b[..|b| - 1], b[|b| - 1];
      assert (a + b)[..|a + b| - 1] == a + b';
      ClicksAppend(a, b');
    } else {
      assert a + b == a;
    }
  }

  /** Two presses in one event can leave the selected node with its select track off: with `a`
      selected and `b` visited first, `b`'s click deselects `a`, and `a`'s own click does not
      switch its track back on. The scenario needs one press to hit two nodes' areas, which
      rows stacked without overlap do not allow; hence OnePressKeepsSelectShown asks for at most
      one pressed node. */
  lemma TwoPressesHideSelection()
    ensures var a, b := NodeId(0), NodeId(1);
      var nodes := map[a := NewNode.(select := On), b := NewNode];
      var r := EventOutcome(nodes, {a}, [b, a], _ => FingerDown);
      r.selected == {a} && r.nodes[a].select == Off
  {
    var a, b := NodeId(0), NodeId(1);
    var nodes := map[a := NewNode.(select := On), b := NewNode];
    var hit: NodeId -> Hit := _ => FingerDown;
    PressBothActions(nodes, a, b);
    var p := Pool(StepEach(nodes, hit), {a});
    ApplyTwoClicks(p, b, a);
    assert a in p.nodes;
    assert Click(p, b).nodes[a].select == Off;
  }

  /** Pressing both nodes, `b` visited first, dispatches b's click and then a's. */
  lemma PressBothActions(nodes: map<NodeId, NodeState>, a: NodeId, b: NodeId)
    requires a in nodes && b in nodes
    ensures Actions(nodes, [b, a], _ => FingerDown) == [Tagged(b, WasClicked), Tagged(a, WasClicked)]
  {
    var hit: NodeId -> Hit := _ => FingerDown;
    assert Actions(nodes, [b], hit) == [Tagged(b, WasClicked)] by {
      assert [b][..0] == [];
      assert Tag(b, HandleNodeEvent(nodes[b], hit(b)).emitted) == [Tagged(b, WasClicked)];
    }
    assert [b, a][..1] == [b];
    assert Tag(a, HandleNodeEvent(nodes[a], hit(a)).emitted) == [Tagged(a, WasClicked)];
  }

  /** Two clicks in a row amount to the two clicks applied one after the other. */
  lemma ApplyTwoClicks(p: Pool, x: NodeId, y: NodeId)
    ensures ApplyActions(p, [Tagged(x, WasClicked), Tagged(y, WasClicked)]) == Click(Click(p, x), y)
  {
    var first, acts := [Tagged(x, WasClicked)], [Tagged(x, WasClicked), Tagged(y, WasClicked)];
    assert acts[..1] == first;
    assert ApplyActions(p, acts) == Click(ApplyActions(p, first), y);
    assert ApplyActions(p, first) == Click(p, x) by {
      assert first[..0] == [];
    }
  }

  // ---------------------------------------------------------------------------------------------
  // Rows

  /** A drawn row: a node row with its label, or a filler row; each carries its parity uniform
      and its height. */
  datatype Row =
    | NodeRow(id: NodeId, text: string, isEven: real, height: real)
    | FillerRow(isEven: real, height: real)

  /** The id of the `i`-th item (id_num!(listbox, i)); distinct indices give distinct ids. */
  function ItemId(i: nat): NodeId {
    NodeId(i)
  }

  /** How far the filler loop still has to go, as a termination measure. */
  function Gap(heightLeft: real, walk: real): nat {
    if walk < heightLeft then (heightLeft - walk).Floor + 1 else 0
  }

  /** The filler step: the node height, but at least 1 so the loop always advances. */
  function FillerStep(nodeHeight: real): (s: real)
    ensures s >= 1.0 && s >= nodeHeight
  {
    Max(nodeHeight, 1.0)
  }

  /** The filler rows that cover `heightLeft` from `walk` on, after `count` rows. Each is as
      tall as a node but never taller than what is left, and the parity keeps alternating. */
  function FillerRows(heightLeft: real, walk: real, nodeHeight: real, count: nat): (rows: seq<Row>)
    ensures |rows| > 0 <==> walk < heightLeft
    ensures forall i :: 0 <= i < |rows| ==> rows[i].FillerRow? && rows[i].isEven == IsEven(count + 1 + i)
    ensures forall i :: 0 <= i < |rows| ==> rows[i].height <= nodeHeight
    ensures nodeHeight > 0.0 ==> forall i :: 0 <= i < |rows| ==> rows[i].height > 0.0
    decreases Gap(heightLeft, walk)
  {
    if walk < heightLeft then
      [FillerRow(IsEven(count + 1), Min(nodeHeight, heightLeft - walk))]
        + FillerRows(heightLeft, walk + FillerStep(nodeHeight), nodeHeight, count + 1)
    else []
  }

  /** Every filler row is no taller than the height still left when the loop draws it, `i`
      steps after `walk`. */
  lemma FillerRowsFit(heightLeft: real, walk: real, nodeHeight: real, count: nat)
    ensures var rows := FillerRows(heightLeft, walk, nodeHeight, count);
      forall i :: 0 <= i < |rows| ==> rows[i].height <= heightLeft - walk - i as real * FillerStep(nodeHeight)
  {
    var rows, step := FillerRows(heightLeft, walk, nodeHeight, count), FillerStep(nodeHeight);
    forall i | 0 <= i < |rows|
      ensures rows[i].height <= heightLeft - walk - i as real * step
    {
      FillerRowFits(heightLeft, walk, nodeHeight, count, i);
      WalkedSteps(walk, step, i);
    }
  }

  /** Row `i` is no taller than the height left once the walk has taken `i` steps. */
  lemma {:induction false} FillerRowFits(heightLeft: real, walk: real, nodeHeight: real, count: nat, i: nat)
    requires i < |FillerRows(heightLeft, walk, nodeHeight, count)|
    ensures FillerRows(heightLeft, walk, nodeHeight, count)[i].height <= heightLeft - Walked(walk, FillerStep(nodeHeight), i)
    decreases i
  {
    if i == 0 {
      FillerRowFirst(heightLeft, walk, nodeHeight, count);
    } else {
      FillerRowsShift(heightLeft, walk, nodeHeight, count, i);
      FillerRowFits(heightLeft, walk + FillerStep(nodeHeight), nodeHeight, count + 1, i - 1);
    }
  }

  /** Where the filler loop's walk stands after i steps of the given size. */
  function Walked(walk: real, step: real, i: nat): real
    decreases i
  {
    if i == 0 then walk else Walked(walk + step, step, i - 1)
  }

  /** i steps of the walk add i times the step. */
  lemma {:induction false} WalkedSteps(walk: real, step: real, i: nat)
    ensures Walked(walk, step, i) == walk + i as real * step
    decreases i
  {
    if i > 0 {
      WalkedSteps(walk + step, step, i - 1);
    }
  }


  /** One turn of the filler loop: drawing the first row of the run moves it from the run to the
      rows drawn so far. */
  lemma FillerRowsUnfold(drawn: seq<Row>, heightLeft: real, walk: real, nodeHeight: real, count: nat)
    requires walk < heightLeft
    ensures drawn + FillerRows(heightLeft, walk, nodeHeight, count)
      == (drawn + [FillerRow(IsEven(count + 1), Min(nodeHeight, heightLeft - walk))])
        + FillerRows(heightLeft, walk + FillerStep(nodeHeight), nodeHeight, count + 1)
  {
  }

  /** Row i of a filler run is row i - 1 of the run that starts one step later. */
  lemma FillerRowsShift(heightLeft: real, walk: real, nodeHeight: real, count: nat, i: nat)
    requires 0 < i < |FillerRows(heightLeft, walk, nodeHeight, count)|
    ensures i - 1 < |FillerRows(heightLeft, walk + FillerStep(nodeHeight), nodeHeight, count + 1)|
    ensures FillerRows(heightLeft, walk, nodeHeight, count)[i] == FillerRows(heightLeft, walk + FillerStep(nodeHeight), nodeHeight, count + 1)[i - 1]
  {
  }

  /** The first filler row fits under the height left. */
  lemma FillerRowFirst(heightLeft: real, walk: real, nodeHeight: real, count: nat)
    requires 0 < |FillerRows(heightLeft, walk, nodeHeight, count)|
    ensures FillerRows(heightLeft, walk, nodeHeight, count)[0].height <= heightLeft - walk
  {
  }
  /** The sum of the rows' heights. */
  function TotalHeight(rows: seq<Row>): real {
    if rows == [] then 0.0 else rows[0].height + TotalHeight(rows[1..])
  }

  /** The filler loop runs ceil((heightLeft - walk) / step) times. */
  lemma {:induction false} FillerCount(heightLeft: real, walk: real, nodeHeight: real, count: nat)
    ensures |FillerRows(heightLeft, walk, nodeHeight, count)| ==
      (if walk < heightLeft then Ceil((heightLeft - walk) / FillerStep(nodeHeight)) else 0)
    decreases Gap(heightLeft, walk)
  {
    if walk < heightLeft {
      var s := FillerStep(nodeHeight);
      FillerCount(heightLeft, walk + s, nodeHeight, count + 1);
      CeilStep(heightLeft - walk, s);
    }
  }

  /** Taking one step of length `s` off a positive `gap` takes one off ceil(gap / s). */
  lemma CeilStep(gap: real, s: real)
    requires gap > 0.0 && s > 0.0
    ensures Ceil(gap / s) == if s < gap then Ceil((gap - s) / s) + 1 else 1
  {
    var x := gap / s;
    assert x * s == gap;
    if s < gap {
      var y := (gap - s) / s;
      assert y * s == gap - s;
      assert (x - 1.0) * s == gap - s;
      DivideUnique(gap - s, s, y, x - 1.0);
      CeilShift(x);
    } else {
      DivideBounds(gap, s);
    }
  }

  lemma DivideUnique(v: real, s: real, y: real, z: real)
    requires s > 0.0 && y * s == v && z * s == v
    ensures y == z
  {
  }

  lemma DivideBounds(gap: real, s: real)
    requires s > 0.0 && 0.0 < gap <= s
    ensures 0.0 < gap / s <= 1.0
  {
  }

  lemma CeilShift(x: real)
    ensures Ceil(x - 1.0) == Ceil(x) - 1
  {
  }

  /** With nodes at least one unit tall, the filler rows cover what is left exactly. */
  lemma {:induction false} FillerCover(heightLeft: real, walk: real, nodeHeight: real, count: nat)
    requires nodeHeight >= 1.0
    ensures TotalHeight(FillerRows(heightLeft, walk, nodeHeight, count)) ==
      (if walk < heightLeft then heightLeft - walk else 0.0)
    decreases Gap(heightLeft, walk)
  {
    if walk < heightLeft {
      var rows := FillerRows(heightLeft, walk, nodeHeight, count);
      var rest := FillerRows(heightLeft, walk + nodeHeight, nodeHeight, count + 1);
      assert rows[1..] == rest;
      FillerCover(heightLeft, walk + nodeHeight, nodeHeight, count + 1);
    }
  }

  /** The rows the items draw, one per item, numbered from 1. */
  function ItemRows(items: seq<string>, nodeHeight: real): (rows: seq<Row>)
    ensures |rows| == |items|
    ensures forall i :: 0 <= i < |rows| ==>
      rows[i] == NodeRow(ItemId(i), items[i], IsEven(i + 1), nodeHeight)
  {
    seq(|items|, i requires 0 <= i < |items| => NodeRow(ItemId(i), items[i], IsEven(i + 1), nodeHeight))
  }

  /** The ids of the first `n` items. */
  function ItemIds(n: nat): set<NodeId> {
    set i: nat | i < n :: ItemId(i)
  }

  lemma ItemIdsNext(n: nat)
    ensures ItemIds(n + 1) == ItemIds(n) + {ItemId(n)}
  {
    assert forall k :: k in ItemIds(n + 1) ==> k in ItemIds(n) || k == ItemId(n);
  }

  // ---------------------------------------------------------------------------------------------
  // The list box

  class ListBox {
    /** Configuration: the height of a row and the item labels. */
    const nodeHeight: real
    const items: seq<string>

    /** The node pool. */
    var nodes: map<NodeId, NodeState>
    /** The ids drawn since the last eviction (the pool's visible set). */
    var touched: set<NodeId>
    /** The selected ids. */
    var selected: set<NodeId>
    /** The rows drawn this frame, and their count. */
    var count: nat
    var rows: seq<Row>

    predicate Valid()
      reads this
    {
      PoolValid() && RowsValid()
    }

    /** Selected and drawn ids are in the pool. */
    predicate PoolValid()
      reads this`nodes, this`selected, this`touched
    {
      selected <= nodes.Keys && touched <= nodes.Keys
    }

    /** The i-th row of the frame has the parity of row i + 1, and the count is the number of
        rows. */
    predicate RowsValid()
      reads this`count, this`rows
    {
      count == |rows| && forall i :: 0 <= i < |rows| ==> rows[i].isEven == IsEven(i + 1)
    }

    constructor (nodeHeight: real, items: seq<string>)
      ensures Valid()
      ensures this.nodeHeight == nodeHeight && this.items == items
      ensures nodes == map[] && touched == {} && selected == {} && rows == []
    {
      this.nodeHeight := nodeHeight;
      this.items := items;
      nodes, touched, selected := map[], {}, {};
      count, rows := 0, [];
    }

    /** Starts a frame when the scroll view is redrawing: the row count starts again from 0.
        Otherwise nothing changes and the caller draws nothing. */
    method Begin(redrawing: bool) returns (drawing: bool)
      requires Valid()
      modifies this`count, this`rows
      ensures Valid()
      ensures drawing == redrawing
      ensures redrawing ==> count == 0 && rows == []
      ensures !redrawing ==> count == old(count) && rows == old(rows)
    {
      if !redrawing {
        return false;
      }
      count := 0;
      rows := [];
      return true;
    }

    /** Draws the row of node `id`: the count goes up by one, the node is fetched from the pool
        or created, marked as drawn and given the new row's parity. */
    method DrawNode(id: NodeId, text: string)
      requires Valid()
      modifies this`count, this`nodes, this`touched, this`rows
      ensures Valid()
      ensures count == old(count) + 1
      ensures rows == old(rows) + [NodeRow(id, text, IsEven(count), nodeHeight)]
      ensures touched == old(touched) + {id}
      ensures nodes.Keys == old(nodes).Keys + {id}
      ensures forall k :: k in old(nodes) && k != id ==> nodes[k] == old(nodes)[k]
      ensures nodes[id] == SetDrawState(if id in old(nodes) then old(nodes)[id] else NewNode, IsEven(count))
    {
      count := count + 1;
      nodes := GetOrInsert(nodes, id, NewNode);
      touched := touched + {id};
      nodes := nodes[id := SetDrawState(nodes[id], IsEven(count))];
      rows := rows + [NodeRow(id, text, IsEven(count), nodeHeight)];
    }

    /** Ends a frame: filler rows cover the height left below the last row, then every node that
        was neither drawn nor selected is evicted and the drawn set starts afresh. */
    method End(heightLeft: real)
      requires Valid()
      modifies this`count, this`nodes, this`touched, this`rows
      ensures Valid()
      ensures rows == old(rows) + FillerRows(heightLeft, 0.0, nodeHeight, old(count))
      ensures count == |rows|
      ensures nodes == Retain(old(nodes), old(touched), selected)
      ensures touched == {}
    {
      DrawFillers(heightLeft);
      nodes := Retain(nodes, touched, selected);
      touched := {};
    }

    /** The filler loop: one row per step until the walked height reaches `heightLeft`. It ends
        because every step advances by at least 1. */
    method DrawFillers(heightLeft: real)
      requires RowsValid()
      modifies this`count, this`rows
      ensures RowsValid()
      ensures rows == old(rows) + FillerRows(heightLeft, 0.0, nodeHeight, old(count))
    {
      var walk := 0.0;
      while walk < heightLeft
        invariant count == |rows|
        invariant forall i :: 0 <= i < |rows| ==> rows[i].isEven == IsEven(i + 1)
        invariant rows + FillerRows(heightLeft, walk, nodeHeight, count)
          == old(rows) + FillerRows(heightLeft, 0.0, nodeHeight, old(count))
        decreases Gap(heightLeft, walk)
      {
        FillerRowsUnfold(rows, heightLeft, walk, nodeHeight, count);
        count := count + 1;
        rows := rows + [FillerRow(IsEven(count), Min(nodeHeight, heightLeft - walk))];
        walk := walk + FillerStep(nodeHeight);
      }
    }

    /** The click policy for node `x`: every other selected node is told to deselect, looked up
        in the pool (present because the selection is), then the selection becomes `{x}`. */
    method ClickNode(x: NodeId)
      requires selected <= nodes.Keys
      modifies this`nodes, this`selected
      ensures Pool(nodes, selected) == Click(old(Pool(nodes, selected)), x)
    {
      var rest := selected;
      while rest != {}
        invariant rest <= selected && selected == old(selected)
        invariant nodes == Deselect(old(nodes), (selected - rest) - {x})
        decreases |rest|
      {
        var id :| id in rest;
        if id != x {
          nodes := nodes[id := nodes[id].(select := Off)];
        }
        rest := rest - {id};
      }
      selected := {x};
    }

    /** Dispatches an event: every node in the pool reacts, visited in `order`, which lists
        each id once; then the dispatched actions are applied in order. */
    method HandleEvent(order: seq<NodeId>, hit: NodeId -> Hit)
      requires Valid()
      requires forall k :: k in nodes <==> k in order
      requires forall i, j :: 0 <= i < j < |order| ==> order[i] != order[j]
      modifies this`nodes, this`selected
      ensures Valid()
      ensures Pool(nodes, selected) == EventOutcome(old(nodes), old(selected), order, hit)
    {
      var actions := StepNodes(order, hit);
      ApplyAll(actions);
    }

    /** The first half of an event: every node reacts in turn and the actions it dispatches
        are collected. */
    method StepNodes(order: seq<NodeId>, hit: NodeId -> Hit) returns (actions: seq<Tagged>)
      requires PoolValid()
      requires forall k :: k in nodes <==> k in order
      requires forall i, j :: 0 <= i < j < |order| ==> order[i] != order[j]
      modifies this`nodes
      ensures PoolValid()
      ensures nodes == StepEach(old(nodes), hit) && nodes.Keys == old(nodes).Keys
      ensures actions == Actions(old(nodes), order, hit)
      ensures forall a :: a in actions ==> a.id in nodes
    {
      actions := [];
      ghost var before := nodes;
      var i := 0;
      while i < |order|
        invariant 0 <= i <= |order|
        invariant nodes.Keys == before.Keys
        invariant NodesStepped(before, order[..i], hit)
        invariant actions == Actions(before, order[..i], hit)
      {
        actions := StepNode(before, order, i, hit, actions);
        i := i + 1;
      }
      assert order[..i] == order;
    }

    /** The pool after the nodes in `visited` have taken their event step and the others have
        not. */
    ghost predicate NodesStepped(before: map<NodeId, NodeState>, visited: seq<NodeId>, hit: NodeId -> Hit)
      reads this`nodes
    {
      forall k :: k in nodes ==>
        k in before && nodes[k] == if k in visited then HandleNodeEvent(before[k], hit(k)).node else before[k]
    }

    /** One turn of the event loop: node `order[i]` takes its step and its actions are
        collected. */
    method StepNode(ghost before: map<NodeId, NodeState>, order: seq<NodeId>, i: nat, hit: NodeId -> Hit,
                    actions: seq<Tagged>) returns (collected: seq<Tagged>)
      requires i < |order| && order[i] !in order[..i]
      requires forall k :: k in before <==> k in order
      requires nodes.Keys == before.Keys && NodesStepped(before, order[..i], hit)
      requires actions == Actions(before, order[..i], hit)
      modifies this`nodes
      ensures nodes.Keys == before.Keys && NodesStepped(before, order[..i + 1], hit)
      ensures collected == Actions(before, order[..i + 1], hit)
    {
      var id := order[i];
      var st := HandleNodeEvent(nodes[id], hit(id));
      nodes := nodes[id := st.node];
      assert order[..i + 1] == order[..i] + [id];
      ActionsExtend(before, order, i, hit);
      collected := actions + Tag(id, st.emitted);
    }

    /** The second half of an event: the collected actions are applied in order. */
    method ApplyAll(actions: seq<Tagged>)
      requires PoolValid()
      requires forall a :: a in actions ==> a.id in nodes
      modifies this`nodes, this`selected
      ensures PoolValid()
      ensures Pool(nodes, selected) == ApplyActions(old(Pool(nodes, selected)), actions)
    {
      var j := 0;
      while j < |actions|
        invariant 0 <= j <= |actions|
        invariant Pool(nodes, selected) == ApplyActions(old(Pool(nodes, selected)), actions[..j])
        invariant nodes.Keys == old(nodes).Keys && PoolValid()
      {
        var a := actions[j];
        assert actions[..j + 1][..j] == actions[..j];
        ApplyActionsKeepsSelectedInPool(old(Pool(nodes, selected)), actions[..j + 1]);
        if a.action == WasClicked {
          ClickNode(a.id);
        }
        j := j + 1;
      }
      assert actions[..j] == actions;
    }

    /** The nodes of the first `n` items are in the pool, each the node `before` held for it,
        or a new one, given its row's parity. */
    predicate ItemNodes(before: map<NodeId, NodeState>, n: nat)
      reads this`nodes
    {
      forall j :: 0 <= j < n ==>
        && ItemId(j) in nodes
        && nodes[ItemId(j)] == SetDrawState(if ItemId(j) in before then before[ItemId(j)] else NewNode, IsEven(j + 1))
    }

    /** Draws the whole list when the scroll view is redrawing: one row per item, then the
        fillers and the eviction. */
    method DrawComponent(redrawing: bool, heightLeft: real)
      requires Valid()
      modifies this`count, this`nodes, this`touched, this`rows
      ensures Valid()
      ensures !redrawing ==> count == old(count) && nodes == old(nodes) && touched == old(touched) && rows == old(rows)
      ensures redrawing ==> rows == ItemRows(items, nodeHeight) + FillerRows(heightLeft, 0.0, nodeHeight, |items|)
      ensures redrawing ==> nodes.Keys == ItemIds(|items|) + old(touched) + selected
      ensures redrawing ==> touched == {}
      // every item's node survives the eviction: the one already in the pool, or a new one,
      // given its row's parity
      ensures redrawing ==> ItemNodes(old(nodes), |items|)
      // every other surviving node is left as it was
      ensures redrawing ==> forall k :: k in nodes && k !in ItemIds(|items|) ==> nodes[k] == old(nodes)[k]
    {
      var drawing := Begin(redrawing);
      if !drawing {
        return;
      }
      DrawItems();
      ghost var drawn := nodes;
      assert forall j :: 0 <= j < |items| ==> ItemId(j) in ItemIds(|items|);
      End(heightLeft);
      assert forall j :: 0 <= j < |items| ==> nodes[ItemId(j)] == drawn[ItemId(j)];
    }

    /** The item loop: row i + 1 of the frame is item i. */
    method DrawItems()
      requires Valid() && count == 0 && rows == []
      modifies this`count, this`nodes, this`touched, this`rows
      ensures Valid()
      ensures rows == ItemRows(items, nodeHeight)
      ensures nodes.Keys == old(nodes).Keys + ItemIds(|items|)
      ensures touched == old(touched) + ItemIds(|items|)
      ensures ItemNodes(old(nodes), |items|)
      ensures forall k :: k in old(nodes) && k !in ItemIds(|items|) ==> nodes[k] == old(nodes)[k]
    {
      ghost var before := nodes;
      var i := 0;
      while i < |items|
        invariant 0 <= i <= |items|
        invariant Valid()
        invariant count == i && rows == ItemRows(items, nodeHeight)[..i]
        invariant nodes.Keys == before.Keys + ItemIds(i)
        invariant touched == old(touched) + ItemIds(i)
        invariant ItemNodes(before, i)
        invariant forall k :: k in before && k.live >= i ==> nodes[k] == before[k]
      {
        DrawItem(before, i);
        ItemIdsNext(i);
        i := i + 1;
      }
      assert ItemRows(items, nodeHeight)[..i] == ItemRows(items, nodeHeight);
      forall k: NodeId | k.live < i
        ensures k in ItemIds(i)
      {
        assert ItemId(k.live) == k;
      }
    }

    /** One turn of the item loop: item `i` is drawn as row i + 1, its node taken from the pool
        or created; nodes of later ids keep what they had in `before`. */
    method DrawItem(ghost before: map<NodeId, NodeState>, i: nat)
      requires i < |items| && Valid()
      requires count == i && rows == ItemRows(items, nodeHeight)[..i]
      requires nodes.Keys == before.Keys + ItemIds(i)
      requires ItemNodes(before, i)
      requires forall k :: k in before && k.live >= i ==> nodes[k] == before[k]
      modifies this`count, this`nodes, this`touched, this`rows
      ensures Valid()
      ensures count == i + 1 && rows == ItemRows(items, nodeHeight)[..i + 1]
      ensures nodes.Keys == before.Keys + ItemIds(i + 1)
      ensures touched == old(touched) + {ItemId(i)}
      ensures ItemNodes(before, i + 1)
      ensures forall k :: k in before && k.live >= i + 1 ==> nodes[k] == before[k]
    {
      DrawNode(ItemId(i), items[i]);
      ItemIdsNext(i);
    }
  }
}
