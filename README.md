# List box and vector line/arc layout, in Dafny

This project models two pieces of the makepad UI toolkit and proves properties of them.

**The list box component** (`component/src/list_box.rs`). A `ListBox` has three parts:
- a pool of per-row nodes keyed by `ListBoxNodeId`;
- a set of selected ids;
- a per-frame row counter that drives odd/even row shading.

Each frame runs the same steps:
- `begin` resets the counter;
- each drawn row fetches its node from the pool, or creates it, and bumps the counter;
- `end` fills the height left below the last row with filler rows, then evicts every node that was neither drawn this frame nor selected.

Events go to every node in the pool. A press on a node selects it and reports a click. A move past the drag threshold reports a drag start. Hovering in and out switches the hover track. The list box then applies the reported clicks under a single-select policy: every other selected node is told to deselect, and the selection becomes exactly the clicked id.

**The vector line and arc widgets** (`examples/graph/src/vectorline.rs`). `VectorLine::draw_walk` does four things:
- places the line's endpoints inside its layout rectangle according to its `LineAlign`;
- draws an axis-aligned stroke as one rectangle, its padded bounding box;
- cuts a diagonal stroke into rectangles: it orders the endpoints along the dominant axis and tiles the span between two end caps with equal blocks;
- draws each rectangle with the stroke's endpoints in that rectangle's own coordinates.

`VectorArc::draw_walk` puts each arc endpoint on its chosen corner of the layout rectangle, or keeps the stored point when no corner is chosen. It then sends the arc's centre, radius and end directions to its shader.

Files:
- `geometry.dfy` (module `Geometry`): vectors, rectangles and the real-number helpers.
- `vectorline.dfy` (module `Graph`): the line and arc widgets.
  - The placement, the rectangles and the list of draws are functions.
  - The shader instances and the widgets are classes. Their `DrawWalk` methods append each draw to a `drawn` sequence and are proved equal to those functions.
- `list_box.dfy` (module `Component`): the list box.
  - The node's event step, the pool operations, the filler rows and the click policy are functions, with lemmas about them.
  - `ListBox` is a class with fields `nodes` (a map), `touched` (the ids drawn since the last eviction), `selected` and `count`. Its methods are proved against those functions and keep the invariant `selected <= nodes.Keys`. This invariant is why the `unwrap()` in the deselection loop cannot fail.

Coordinates are `real`. Floating-point rounding is not modelled.

## Model

| member | source | states |
|---|---|---|
| Component.IsEven | component/src/list_box.rs:266-268 | the parity uniform is 0.0 or 1.0, and it is 1.0 exactly when the row count is even |
| Component.RowsAlternate | component/src/list_box.rs:266-268 | consecutive rows get different parities; rows two apart get the same one |
| Component.SetDrawState | component/src/list_box.rs:188-191 | both quads of the node get the row's parity and nothing else about the node changes |
| Component.DragReached | component/src/list_box.rs:228 | the drag test on squared lengths; a threshold that is not positive is always reached; DragReachedIsDistance ties it to the distance test |
| Component.DragReachedIsDistance | component/src/list_box.rs:227-231 | the squared-length drag test holds exactly when the Euclidean distance from the press point is at least `min_drag_distance` |
| Component.HandleNodeEvent | component/src/list_box.rs:220-236 | a node's reaction to one hit, as the match arms; its effect is stated by NodeEventEffect |
| Component.NodeEventEffect | component/src/list_box.rs:220-236 | a press turns select on and reports a click, and only a press does; a drag start is reported iff the finger moved at least the threshold; hover in/out set the hover track; at most one action; nothing but the two tracks changes |
| Component.GetOrInsert | component/src/list_box.rs:283-285 | afterwards the id is in the pool; a node is created only when it was missing; other entries are unchanged |
| Component.Retain | component/src/list_box.rs:262-263 | the surviving ids are exactly the pool's ids that were drawn or are selected, and survivors keep their state |
| Component.StepEach | component/src/list_box.rs:313-314 | every node of the pool takes its event step and the pool keeps its ids; StepEachTracks states the change |
| Component.StepEachTracks | component/src/list_box.rs:313-314 | after the step every pressed node is selected, and no node changes anything but its hover and select tracks |
| Component.Tag | component/src/list_box.rs:314 | each action a node dispatches is recorded with that node's id, in order |
| Component.Actions | component/src/list_box.rs:312-315 | every collected action carries the id of a visited node |
| Component.ActionsExtend | component/src/list_box.rs:313-314 | visiting one more node appends its own actions after those collected so far |
| Component.Pressed | component/src/list_box.rs:232-234 | an id is pressed iff it is visited and its hit is a finger-down |
| Component.Deselect | component/src/list_box.rs:321-325 | deselecting keeps the pool's ids |
| Component.Click | component/src/list_box.rs:319-327 | after a click on X the selection is {X}; every other previously selected node has select off; X and unselected nodes are unchanged; the pool keeps its ids |
| Component.ApplyActions | component/src/list_box.rs:317-334 | applying the actions keeps the pool's ids |
| Component.EventOutcome | component/src/list_box.rs:302-335 | an event keeps the pool's ids |
| Component.Clicks | component/src/list_box.rs:317-319 | the ids of the click actions, in dispatch order: no more of them than actions, and a click dispatched last is the last of them; ClicksMembers and ClicksArePresses state which ids they are |
| Component.ClicksMembers | component/src/list_box.rs:317-319 | an id is among the clicks iff a click action with that id was dispatched |
| Component.ApplyActionsSelection | component/src/list_box.rs:317-334 | with no click the pool and selection are unchanged; otherwise the selection is exactly the last clicked id |
| Component.ApplyActionsUntouched | component/src/list_box.rs:321-325 | a node that was neither selected nor clicked is left unchanged |
| Component.ApplyActionsOnlySelect | component/src/list_box.rs:323 | the actions change nothing of a node but its select track |
| Component.ApplyActionsDeselects | component/src/list_box.rs:321-327 | every node that was selected before or clicked along the way, except the last clicked one, ends with select off |
| Component.SingleClick | component/src/list_box.rs:317-334 | actions holding one click on X amount to that single click |
| Component.ApplyActionsKeepsSelectedInPool | component/src/list_box.rs:313-327 | when clicked ids come from the pool, the selection stays inside the pool |
| Component.OneClickKeepsSelectShown | component/src/list_box.rs:319-327 | one click keeps the nodes with select on equal to the selected ids |
| Component.OnePressKeepsSelectShown | component/src/list_box.rs:302-335 | an event pressing at most one node keeps the nodes with select on equal to the selected ids |
| Component.EventSelection | component/src/list_box.rs:302-335 | after an event the selection is exactly the last pressed id in visiting order, or is unchanged when nothing is pressed |
| Component.ClicksArePresses | component/src/list_box.rs:312-315 | the clicked ids are the pressed ids, in visiting order |
| Component.ClicksAppend | component/src/list_box.rs:317 | the clicks of two action runs are the clicks of each, concatenated |
| Component.TwoPressesHideSelection | component/src/list_box.rs:302-335 | if one press hits two nodes' areas (node b visited before the selected node a), the event can leave the selected node with its select track off; rows stacked without overlap never do this, which is why OnePressKeepsSelectShown asks for at most one pressed node |
| Component.FillerStep | component/src/list_box.rs:258 | the filler loop advances by at least 1 and by at least the node height |
| Component.FillerRows | component/src/list_box.rs:253-259 | there are filler rows iff height is left; parities keep alternating after the last row; each is no taller than a node, and positive when nodes are |
| Component.FillerRowsFit | component/src/list_box.rs:254-258 | row i is no taller than the height still left when the loop draws it: height_left - walk - i * max(node_height, 1) |
| Component.FillerRowFits | component/src/list_box.rs:254-258 | the same bound for one row, by induction on its index |
| Component.FillerCount | component/src/list_box.rs:253-259 | the filler loop runs ceil((height_left - walk) / max(node_height, 1)) times |
| Component.FillerCover | component/src/list_box.rs:253-259 | with nodes at least 1 tall, the filler heights add up to exactly the height left |
| Component.ItemRows | component/src/list_box.rs:374-383 | one row per item, in order, with id i, its label, the parity of row i+1 and the node height |
| Component.ListBox.constructor | component/src/list_box.rs:139-159 | an empty pool, no selection, nothing drawn |
| Component.ListBox.Begin | component/src/list_box.rs:244-248 | when redrawing the count restarts at 0; otherwise nothing changes and nothing is drawn |
| Component.ListBox.DrawNode | component/src/list_box.rs:274-288 | the count goes up by one before the parity is taken; the row is drawn with it; the node is reused or created, marked drawn and given the parity; other nodes are unchanged; the invariant is kept |
| Component.ListBox.End | component/src/list_box.rs:250-264 | the filler rows are appended; the pool becomes the drawn-or-selected nodes; the drawn set is cleared; every selected id survives |
| Component.ListBox.DrawFillers | component/src/list_box.rs:253-259 | the filler loop ends and appends exactly the filler rows, keeping count equal to the number of rows |
| Component.ListBox.ClickNode | component/src/list_box.rs:319-328 | deselects each other selected node, then sets the selection to {X}: the pool and selection equal Click |
| Component.ListBox.HandleEvent | component/src/list_box.rs:302-335 | the pool and selection become EventOutcome, and the selection stays inside the pool |
| Component.ListBox.StepNodes | component/src/list_box.rs:312-315 | every node takes its event step and the collected actions are Actions in visiting order |
| Component.ListBox.StepNode | component/src/list_box.rs:313-314 | one turn of the event loop: node i takes its event step, the nodes after it are still untouched, and the actions collected so far are Actions of the first i + 1 nodes |
| Component.ListBox.ApplyAll | component/src/list_box.rs:317-334 | the actions are applied in order, equal to ApplyActions, and the selection stays inside the pool |
| Component.ListBox.DrawComponent | component/src/list_box.rs:370-386 | when redrawing, the rows are the item rows then the fillers; the pool keeps the item nodes, the nodes drawn earlier and the selected ones; an item's node is the one already in the pool (tracks kept) or a new one, given its row's parity; every other surviving node is unchanged |
| Component.ListBox.DrawItems | component/src/list_box.rs:374-383 | the item loop draws exactly the item rows; each item's node is the one already in the pool (tracks kept) or a new one, given its row's parity, and marked drawn; nodes of other ids are unchanged |
| Component.ListBox.DrawItem | component/src/list_box.rs:375-382 | one turn of the item loop: row i + 1 is item i, its node fetched or created and given the parity; nodes of later ids are unchanged |
| Graph.Placement | examples/graph/src/vectorline.rs:229-268 | horizontal alignments give equal y, vertical ones equal x; each endpoint is inset by half the width from the edges it touches; Free keeps the stored endpoints |
| Graph.AxisAligned | examples/graph/src/vectorline.rs:275-276 | the floor test that routes a stroke to the single-rectangle path; exactly horizontal and exactly vertical strokes pass it; AxisAlignedWithinOneUnit states what it means |
| Graph.AxisAlignedWithinOneUnit | examples/graph/src/vectorline.rs:275-276 | the floor test holds iff the endpoints are less than one unit apart in x or in y |
| Graph.PaddedBounds | examples/graph/src/vectorline.rs:278-287 | the rectangle is the endpoints' bounding box grown by half the width on every side, so both endpoints lie half a width inside every edge |
| Graph.DominantAxis | examples/graph/src/vectorline.rs:297 | the stroke spans at least as far along the chosen axis as across it, and a tie goes to the Y branch |
| Graph.StrokeOrder | examples/graph/src/vectorline.rs:297-305 | the endpoints as the shader gets them: unchanged for an axis-aligned stroke, otherwise ordered along the dominant axis, and always the pair or its swap |
| Graph.Ordered | examples/graph/src/vectorline.rs:300-305 | after the conditional swap the start is not after the end along the axis, and the pair is the original or its swap |
| Graph.StartCap | examples/graph/src/vectorline.rs:324-327 | the start cap begins half a width before the start along the axis and half a width before it across; it is hw - backoffset long and line_width wide (the Y branch at 397-400 is the transpose) |
| Graph.EndCap | examples/graph/src/vectorline.rs:329-332 | the end cap stops half a width past the end along the axis and begins half a width before it across; it is hw - backoffset long and line_width wide (the Y branch at 401-404 is the transpose) |
| Graph.StrokeDiagonal | examples/graph/src/vectorline.rs:297-352 | the decomposition of a diagonal stroke along its dominant axis: the start cap begins half a width before the endpoint that comes first along the axis, and the end cap stops half a width past the other |
| Graph.NumBlocks | examples/graph/src/vectorline.rs:341 | numblocks is ceil(inner / scaledup): at least 1 for a positive span, non-positive otherwise |
| Graph.BlockLen | examples/graph/src/vectorline.rs:342 | numblocks blocks of this length add up to the span |
| Graph.BlockFits | examples/graph/src/vectorline.rs:340-342 | for a positive span each block is positive and no longer than scaledup |
| Graph.LoopCount | examples/graph/src/vectorline.rs:354 | the block loop runs numblocks times, none for a non-positive count, saturating at i32::MAX |
| Graph.Decompose | examples/graph/src/vectorline.rs:324-352 | the caps reach half a width beyond the endpoints; the inner span is the gap between them; the blocks tile it; block 0 starts at the start cap's far edge |
| Graph.Block | examples/graph/src/vectorline.rs:355-358 | block i before clipping has the block size, and block 0 sits at segmentstart; BlockAlong places block i, and BlocksTile states the tiling (the Y branch at 428-431 is the transpose) |
| Graph.BlocksTile | examples/graph/src/vectorline.rs:340-358 | block 0 starts where the start cap ends, each block ends where the next starts, and the last ends where the end cap starts |
| Graph.ContiguousBlocks | examples/graph/src/vectorline.rs:352-358 | the same contiguity for any decomposition whose step equals its block length |
| Graph.AdjacentBlocks | examples/graph/src/vectorline.rs:355-358 | each block ends where the next begins |
| Graph.LastBlock | examples/graph/src/vectorline.rs:340-358 | the last block ends exactly at the end cap |
| Graph.BlockAlong | examples/graph/src/vectorline.rs:355-358 | block i lies at segmentstart plus i steps along the axis and has the block length |
| Graph.DrawAt | examples/graph/src/vectorline.rs:361-364 | the shader endpoints are the world endpoints minus the rectangle's position, so their difference does not depend on the rectangle |
| Graph.BlockDraws | examples/graph/src/vectorline.rs:354-365 | one draw per loop iteration, block i clipped across the axis |
| Graph.LineDraws | examples/graph/src/vectorline.rs:271-451 | an axis-aligned stroke is one padded rectangle; a diagonal one is its blocks, then the start cap, then the end cap; every draw has the ordered endpoints in local coordinates, half the width and the colour |
| Graph.AxisAlignedDraws | examples/graph/src/vectorline.rs:275-295 | the draws of an axis-aligned stroke are exactly its padded box |
| Graph.DiagonalDraws | examples/graph/src/vectorline.rs:297-375 | the draws of a diagonal stroke are exactly its blocks followed by its two caps |
| Graph.DrawLineSegment.constructor | examples/graph/src/vectorline.rs:107-115 | a fresh shader instance has drawn nothing |
| Graph.DrawLineSegment.DrawAbs | examples/graph/src/vectorline.rs:292 | a draw records the rectangle with the instance data current at that moment |
| Graph.VectorLine.constructor | examples/graph/src/vectorline.rs:132-142 | the declared defaults: width 15, Top alignment, endpoints (350,10) and (1000,1440) |
| Graph.VectorLine.Configured | examples/graph/src/vectorline.rs:132-142 | a widget with any width, colour and alignment and any stored endpoints, with a fresh shader instance that has drawn nothing |
| Graph.VectorLine.DrawWalk | examples/graph/src/vectorline.rs:223-452 | the draws appended are LineDraws of the placed stroke; the uniforms are left as the last draw set them |
| Graph.VectorLine.DrawStroke | examples/graph/src/vectorline.rs:271-451 | sets half width and colour, then issues exactly LineDraws of the stroke |
| Graph.VectorLine.DrawPadded | examples/graph/src/vectorline.rs:275-295 | the axis-aligned path draws the padded box once, with local endpoints |
| Graph.VectorLine.DrawSlanted | examples/graph/src/vectorline.rs:297-451 | the diagonal path issues exactly LineDraws of the stroke |
| Graph.VectorLine.DrawBlocks | examples/graph/src/vectorline.rs:354-365 | the block loop appends exactly BlockDraws |
| Graph.VectorLine.DrawDiagonal | examples/graph/src/vectorline.rs:354-375 | the blocks, then the start cap, then the end cap, each with local endpoints |
| Graph.CornerPoint | examples/graph/src/vectorline.rs:514-532 | each corner picks that corner of the rectangle; an unspecified corner keeps the stored point |
| Graph.ArcDrawFor | examples/graph/src/vectorline.rs:536-546 | the centre is sent relative to the rectangle; the squared radius is the squared distance from the centre to the start point; the direction vectors lead from the centre to the two endpoints |
| Graph.DrawArc.constructor | examples/graph/src/vectorline.rs:92-105 | a fresh arc shader instance has drawn nothing |
| Graph.DrawArc.DrawAbs | examples/graph/src/vectorline.rs:546 | a draw records the rectangle with the instance data current at that moment |
| Graph.VectorArc.constructor | examples/graph/src/vectorline.rs:164-181 | the declared defaults: width 15, unspecified corners, stored start, end and centre |
| Graph.VectorArc.Configured | examples/graph/src/vectorline.rs:164-181 | a widget with any width, colour, corners and winding and any stored start, end and centre, with a fresh shader instance that has drawn nothing |
| Graph.VectorArc.DrawWalk | examples/graph/src/vectorline.rs:504-549 | exactly one arc draw over the whole layout rectangle, equal to ArcDrawFor; the shader's centre, squared radius, directions, width and colour are left as that draw had them |

## Left out

- Floating-point arithmetic: coordinates, widths and heights are exact reals, so rounding, NaN and infinities are not modelled. `f32` uniforms carry the same real as the `f64` they come from.
- The direction-dependent numerics of a diagonal stroke are a parameter `slant` of type `(Axis, Vec2, real) -> Slant`. They are `normalize`, `normalize_to_x`/`normalize_to_y`, `sqrt`, `angle_in_radians`, `tan` and `cos`, and they give `scaledup`, `backoffset`, the slope and `line_width / cos`. `scaledup` is taken to be positive, which the diagonal path (|dx| and |dy| at least 1) ensures.
- `Rect::clip_y_between` and `Rect::clip_x_between` are a parameter `clip`: the tiling is stated for the blocks before clipping.
- Graph.ArcDrawFor: the arc's radius and angles need a square root and `angle_in_radians`, so the draw records the squared radius and the two vectors whose angles the shader receives.
- When `numblocks` is not positive, draw_walk divides by it, but the quotient is never used. BlockLen returns 0 there.
- The shader bodies (`pixel`, `get_color`, the arc shader): GPU code.
- Layout: the turtle (`walk_turtle_with_area`, `height_left`), the scroll view and `should_node_draw`. The layout rectangle, the height left and whether the view is redrawing are parameters.
- Hit-testing (`event.hits`) is a parameter `hit` mapping each node id to what the event reports for that node's area.
- `ComponentMap` and `HashSet` iteration order is a parameter `order` that lists every pool id once. The deselection loop picks ids in any order, and its result does not depend on the order.
- The animator (`animate_state`, `toggle_state`, `state_handle_event`, the `Animate` flag, redraw requests): only the target state of the hover and select tracks is recorded, not the animation towards it.
- ListBoxNode::draw_node's layout calls (`bg_quad.begin`, `name_text.draw_walk`, `bg_quad.end`): a drawn row is recorded as its id, label, parity and height.
- `after_apply` live re-application, `bind_read`, `redraw`, `get_walk` and the widget registration hooks. Widget configuration is fixed at construction.
- `ListBoxAction` and `handle_component_event`: the list box never dispatches an action of its own (its dispatch call is commented out). `ShouldStartDragging` is reported but has no effect.
- `multi_select` and `arc_winding` are declared but never read. The filler quad's `selected` and `hover` uniforms are never set.
- `id_num!(listbox, i)` becomes `NodeId(i)`: distinct item indices give distinct ids.
- `count` is a `usize` and is modelled as an unbounded `nat`, so its overflow is not modelled.
- VectorLine::draw_walk's first write of `width`, before the branch, and its repeat inside each diagonal branch are the same value, so they are modelled as one write.
- The other files of the repository (the audio and bare examples, the Android activity) are not part of this model.
