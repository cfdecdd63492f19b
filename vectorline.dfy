/** The exact-arithmetic part of the vector line and arc widgets: where a line's endpoints go
    inside its layout rectangle, how a stroke is cut into rectangles (one padded rectangle for an
    axis-aligned stroke; two end caps and a run of equal blocks for a diagonal one), which
    rectangle-local endpoints each rectangle is drawn with, and the parameters of an arc. */
module Graph {
  import opened Geometry

  /** How a line is placed in its layout rectangle (`Free` keeps the stored endpoints). */
  datatype LineAlign =
    | Free
    | Left
    | Top
    | DiagonalBottomLeftTopRight
    | DiagonalTopLeftBottomRight
    | Right
    | Bottom
    | VerticalCenter
    | HorizontalCenter

  /** A stroke's two endpoints, in layout (world) coordinates. */
  datatype Segment = Segment(start: Vec2, end: Vec2)

  /** One rectangle handed to the line shader, with the uniforms it is drawn with. */
  datatype LineDraw = LineDraw(rect: Rect, lineStart: Vec2, lineEnd: Vec2, width: real, color: Vec4)

  /** The quantities the widget derives from a diagonal stroke's direction with normalisation,
      square roots and trigonometry: the block size `scaledup`, the end-cap `backoffset`, the
      slope across the dominant axis per unit along it, and the stroke width divided by the
      cosine of the slope angle. */
  datatype Slant = Slant(scaledup: Pos, backoffset: real, slope: real, slantWidth: real)

  /** The direction-dependent numerics, as a function of the dominant axis, the ordered
      stroke's delta and the half width. */
  type SlantFn = (Axis, Vec2, real) -> Slant

  /** Rect::clip_y_between (dominant axis X) and Rect::clip_x_between (dominant axis Y):
      clips a block to the span across the dominant axis between two bounds. */
  type ClipFn = (Axis, Rect, real, real) -> Rect

  const I32_MAX: int := 0x7fff_ffff

  function RightEdge(r: Rect): real { r.pos.x + r.size.x }

  function BottomEdge(r: Rect): real { r.pos.y + r.size.y }

  /** `p` lies at least `hw` inside every edge of `r`. */
  predicate InsetIn(r: Rect, hw: real, p: Vec2) {
    && r.pos.x + hw <= p.x <= RightEdge(r) - hw
    && r.pos.y + hw <= p.y <= BottomEdge(r) - hw
  }

  // ---------------------------------------------------------------------------------------------
  // Endpoint placement

  /** The endpoints VectorLine::draw_walk uses for alignment `align` in layout rectangle `rect`
      with half stroke width `hw`. */
  function Placement(align: LineAlign, rect: Rect, hw: real, stored: Segment): (s: Segment)
    ensures align == Free ==> s == stored
    ensures align in {Top, Bottom, HorizontalCenter} ==> s.start.y == s.end.y
    ensures align in {Left, Right, VerticalCenter} ==> s.start.x == s.end.x
    ensures align == Top ==> s.start.y == rect.pos.y + hw
    ensures align == Bottom ==> s.start.y == BottomEdge(rect) - hw
    ensures align == Left ==> s.start.x == rect.pos.x + hw
    ensures align == Right ==> s.start.x == RightEdge(rect) - hw
    ensures align == HorizontalCenter ==> s.start.y - rect.pos.y == BottomEdge(rect) - s.start.y
    ensures align == VerticalCenter ==> s.start.x - rect.pos.x == RightEdge(rect) - s.start.x
    // lines running across the rectangle go from its left inset edge to its right inset edge
    ensures align in {Top, Bottom, HorizontalCenter, DiagonalTopLeftBottomRight, DiagonalBottomLeftTopRight} ==>
      s.start.x == rect.pos.x + hw && s.end.x == RightEdge(rect) - hw
    // lines running down it go from its top inset edge to its bottom inset edge
    ensures align in {Left, Right, VerticalCenter, DiagonalTopLeftBottomRight} ==>
      s.start.y == rect.pos.y + hw && s.end.y == BottomEdge(rect) - hw
    ensures align == DiagonalBottomLeftTopRight ==>
      s.start.y == BottomEdge(rect) - hw && s.end.y == rect.pos.y + hw
    // in a rectangle that can hold the stroke, both endpoints are inset by hw
    ensures align != Free && 2.0 * hw <= rect.size.x && 2.0 * hw <= rect.size.y ==>
      InsetIn(rect, hw, s.start) && InsetIn(rect, hw, s.end)
  {
    var left, top := rect.pos.x, rect.pos.y;
    var right, bottom := RightEdge(rect), BottomEdge(rect);
    match align
    case Top => Segment(Vec2(left + hw, top + hw), Vec2(right - hw, top + hw))
    case Bottom => Segment(Vec2(left + hw, bottom - hw), Vec2(right - hw, bottom - hw))
    case Right => Segment(Vec2(right - hw, top + hw), Vec2(right - hw, bottom - hw))
    case Left => Segment(Vec2(left + hw, top + hw), Vec2(left + hw, bottom - hw))
    case HorizontalCenter =>
      Segment(Vec2(left + hw, top + rect.size.y / 2.0), Vec2(right - hw, top + rect.size.y / 2.0))
    case VerticalCenter =>
      Segment(Vec2(left + rect.size.x / 2.0, top + hw), Vec2(left + rect.size.x / 2.0, bottom - hw))
    case DiagonalTopLeftBottomRight => Segment(Vec2(left + hw, top + hw), Vec2(right - hw, bottom - hw))
    case DiagonalBottomLeftTopRight => Segment(Vec2(left + hw, bottom - hw), Vec2(right - hw, top + hw))
    case Free => stored
  }

  // ---------------------------------------------------------------------------------------------
  // Axis-aligned strokes: one padded rectangle

  /** The test that routes a stroke to the single-rectangle path: the floor of |dy| or of |dx|
      is zero. */
  predicate AxisAligned(s: Segment)
    // exactly horizontal and exactly vertical strokes take this path
    ensures s.start.x == s.end.x || s.start.y == s.end.y ==> AxisAligned(s)
  {
    Abs(s.start.y - s.end.y).Floor == 0 || Abs(s.start.x - s.end.x).Floor == 0
  }

  /** The floor test means: the endpoints are less than one unit apart on some axis. */
  lemma AxisAlignedWithinOneUnit(s: Segment)
    ensures AxisAligned(s) <==> Abs(s.start.y - s.end.y) < 1.0 || Abs(s.start.x - s.end.x) < 1.0
  {
    FloorZero(Abs(s.start.y - s.end.y));
    FloorZero(Abs(s.start.x - s.end.x));
  }

  lemma FloorZero(v: real)
    requires v >= 0.0
    ensures v.Floor == 0 <==> v < 1.0
  {
  }

  /** The rectangle drawn for an axis-aligned stroke of width `lw`: the endpoints' bounding box
      grown by half the width on every side. */
  function PaddedBounds(s: Segment, lw: real): (r: Rect)
    ensures r.pos.x + lw / 2.0 == Min(s.start.x, s.end.x)
    ensures RightEdge(r) - lw / 2.0 == Max(s.start.x, s.end.x)
    ensures r.pos.y + lw / 2.0 == Min(s.start.y, s.end.y)
    ensures BottomEdge(r) - lw / 2.0 == Max(s.start.y, s.end.y)
    ensures InsetIn(r, lw / 2.0, s.start) && InsetIn(r, lw / 2.0, s.end)
  {
    var hw := lw / 2.0;
    var d := s.end.Minus(s.start);
    Rect(Vec2(Min(s.start.x, s.end.x) - hw, Min(s.start.y, s.end.y) - hw),
         Vec2(Abs(d.x) + lw, Abs(d.y) + lw))
  }

  // ---------------------------------------------------------------------------------------------
  // Diagonal strokes

  /** X when the stroke is more horizontal than vertical; a tie goes to Y. */
  function DominantAxis(d: Vec2): (axis: Axis)
    // the stroke spans at least as far along the chosen axis as across it
    ensures Abs(Across(d, axis)) <= Abs(Along(d, axis))
    ensures Abs(d.x) == Abs(d.y) ==> axis == YAxis
  {
    if Abs(d.x) > Abs(d.y) then XAxis else YAxis
  }

  /** The endpoints ordered along `axis` (draw_walk swaps them when the end comes first). */
  function Ordered(s: Segment, axis: Axis): (o: Segment)
    ensures Along(o.start, axis) <= Along(o.end, axis)
    ensures o == s || o == Segment(s.end, s.start)
    ensures Along(s.start, axis) <= Along(s.end, axis) ==> o == s
  {
    if Along(s.end, axis) < Along(s.start, axis) then Segment(s.end, s.start) else s
  }

  /** The geometry of a diagonal stroke's decomposition, before any draw. */
  datatype Diagonal = Diagonal(
    axis: Axis,
    rectStart: Rect,     // end cap at the start
    rectEnd: Rect,       // end cap at the end
    inner: real,         // the gap between the two caps, along the axis
    numBlocks: int,      // ceil(inner / scaledup)
    blockLen: real,      // inner / numBlocks
    step: Vec2,          // offset from one block to the next
    blockSize: Vec2,
    segmentStart: Vec2,  // position of block 0
    lo: real,            // the span across the axis blocks are clipped to
    hi: real)

  /** The number of blocks: ceil(inner / scaledup). */
  function NumBlocks(inner: real, scaledup: Pos): (n: int)
    ensures (n - 1) as real * scaledup < inner <= n as real * scaledup
    ensures inner > 0.0 ==> n >= 1
    ensures inner <= 0.0 ==> n <= 0
  {
    var c := inner / scaledup;
    var n := Ceil(c);
    CeilScaled(c, n, scaledup);
    n
  }

  lemma CeilScaled(c: real, n: int, k: real)
    requires (n - 1) as real < c <= n as real && k > 0.0
    ensures (n - 1) as real * k < c * k <= n as real * k
  {
  }

  /** The length of one block: inner / numBlocks. With no block draw_walk's quotient is never
      used; it is 0 here. */
  function BlockLen(inner: real, n: int): (len: real)
    ensures n >= 1 ==> n as real * len == inner
  {
    if n >= 1 then inner / n as real else 0.0
  }

  /** Blocks are never longer than the block size asked for, and a positive gap gives positive
      blocks. */
  lemma BlockFits(inner: real, scaledup: Pos)
    ensures var len := BlockLen(inner, NumBlocks(inner, scaledup));
      inner > 0.0 ==> 0.0 < len <= scaledup
  {
    if inner <= 0.0 { return; }
    var n := NumBlocks(inner, scaledup);
    var len := BlockLen(inner, n);
    assert n as real * len == inner;
    assert n as real * (scaledup - len) >= 0.0;
    assert scaledup - len >= 0.0 by {
      if scaledup - len < 0.0 {
        assert n as real * (scaledup - len) < 0.0;
      }
    }
    assert len > 0.0;
  }

  /** How many times draw_walk's block loop runs: `numblocks as i32` saturates, and a range
      with a non-positive end is empty. */
  function LoopCount(n: int): (k: nat)
    ensures k <= I32_MAX
    ensures 1 <= n <= I32_MAX ==> k == n
    ensures n <= 0 ==> k == 0
    ensures n > I32_MAX ==> k == I32_MAX
  {
    if n <= 0 then 0 else if n > I32_MAX then I32_MAX else n
  }

  /** The end cap at the start: it begins half a width before the start along the axis, and
      half a width above it across. */
  function StartCap(axis: Axis, o: Segment, hw: real, lw: real, backoffset: real): (r: Rect)
    ensures Along(r.pos, axis) == Along(o.start, axis) - hw && Across(r.pos, axis) == Across(o.start, axis) - hw
    ensures Along(r.size, axis) == hw - backoffset && Across(r.size, axis) == lw
  {
    Rect(o.start.Minus(Vec2(hw, hw)), OnAxes(axis, hw - backoffset, lw))
  }

  /** The end cap at the end: it stops half a width past the end along the axis, and begins
      half a width above it across. */
  function EndCap(axis: Axis, o: Segment, hw: real, lw: real, backoffset: real): (r: Rect)
    ensures Along(r.pos, axis) + Along(r.size, axis) == Along(o.end, axis) + hw
    ensures Across(r.pos, axis) == Across(o.end, axis) - hw
    ensures Along(r.size, axis) == hw - backoffset && Across(r.size, axis) == lw
  {
    Rect(o.end.Minus(OnAxes(axis, -backoffset, hw)), OnAxes(axis, hw - backoffset, lw))
  }

  /** The decomposition of the ordered diagonal stroke `o` along `axis` (the X branch of
      VectorLine::draw_walk; the Y branch is its transpose). */
  function Decompose(axis: Axis, o: Segment, hw: real, lw: real, sl: Slant): (g: Diagonal)
    ensures g.axis == axis
    // the caps reach exactly half a width beyond the endpoints along the axis
    ensures Along(g.rectStart.pos, axis) == Along(o.start, axis) - hw
    ensures Along(g.rectEnd.pos, axis) + Along(g.rectEnd.size, axis) == Along(o.end, axis) + hw
    // the inner span is the gap between the caps
    ensures g.inner == Along(g.rectEnd.pos, axis) - (Along(g.rectStart.pos, axis) + Along(g.rectStart.size, axis))
    ensures g.inner == Along(o.end, axis) - Along(o.start, axis) + 2.0 * sl.backoffset
    // the blocks tile the gap
    ensures g.inner > 0.0 ==>
      && g.numBlocks >= 1
      && 0.0 < g.blockLen <= sl.scaledup
      && g.numBlocks as real * g.blockLen == g.inner
    ensures g.inner <= 0.0 ==> g.numBlocks <= 0
    ensures Along(g.step, axis) == g.blockLen && Along(g.blockSize, axis) == g.blockLen
    // block 0 starts at the far edge of the start cap
    ensures Along(g.segmentStart, axis) == Along(g.rectStart.pos, axis) + Along(g.rectStart.size, axis)
  {
    var rs := StartCap(axis, o, hw, lw, sl.backoffset);
    var re := EndCap(axis, o, hw, lw, sl.backoffset);
    var inner := Along(re.pos, axis) - (Along(rs.pos, axis) + Along(rs.size, axis));
    var n := NumBlocks(inner, sl.scaledup);
    var len := BlockLen(inner, n);
    BlockFits(inner, sl.scaledup);
    var step := OnAxes(axis, len, sl.slope * len);
    var adjust := if Across(step, axis) < 0.0 then Across(step, axis) else -sl.backoffset * 2.0 * sl.slope;
    Diagonal(
      axis, rs, re, inner, n, len, step,
      OnAxes(axis, len, sl.slantWidth + Abs(Across(step, axis))),
      OnAxes(axis, Along(rs.pos, axis) + Along(rs.size, axis), Across(rs.pos, axis) + adjust),
      Min(Across(rs.pos, axis), Across(re.pos, axis)),
      Max(Across(re.pos, axis) + Across(re.size, axis), Across(rs.pos, axis) + Across(rs.size, axis)))
  }

  /** Block `i` before clipping. */
  function Block(g: Diagonal, i: int): (r: Rect)
    ensures r.size == g.blockSize
    ensures i == 0 ==> r.pos == g.segmentStart
  {
    Rect(g.segmentStart.Plus(g.step.Times(i as real)), g.blockSize)
  }

  /** The blocks are contiguous along the axis: block 0 starts where the start cap ends, each
      block ends where the next one starts, and the last ends exactly where the end cap starts. */
  lemma BlocksTile(axis: Axis, o: Segment, hw: real, lw: real, sl: Slant)
    ensures var g := Decompose(axis, o, hw, lw, sl);
      g.inner > 0.0 ==>
        && Along(Block(g, 0).pos, axis) == Along(g.rectStart.pos, axis) + Along(g.rectStart.size, axis)
        && (forall i :: 0 <= i < g.numBlocks - 1 ==>
              Along(Block(g, i).pos, axis) + Along(Block(g, i).size, axis) == Along(Block(g, i + 1).pos, axis))
        && Along(Block(g, g.numBlocks - 1).pos, axis) + Along(Block(g, g.numBlocks - 1).size, axis)
           == Along(g.rectEnd.pos, axis)
  {
    var g := Decompose(axis, o, hw, lw, sl);
    if g.inner > 0.0 {
      ContiguousBlocks(g);
    }
  }

  /** Contiguity for any decomposition whose step and block length agree and whose blocks add
      up to the gap between the caps. */
  lemma ContiguousBlocks(g: Diagonal)
    requires g.numBlocks >= 1 && g.numBlocks as real * g.blockLen == g.inner
    requires Along(g.step, g.axis) == g.blockLen && Along(g.blockSize, g.axis) == g.blockLen
    requires Along(g.segmentStart, g.axis) == Along(g.rectStart.pos, g.axis) + Along(g.rectStart.size, g.axis)
    requires g.inner == Along(g.rectEnd.pos, g.axis) - (Along(g.rectStart.pos, g.axis) + Along(g.rectStart.size, g.axis))
    ensures Along(Block(g, 0).pos, g.axis) == Along(g.rectStart.pos, g.axis) + Along(g.rectStart.size, g.axis)
    ensures forall i :: 0 <= i < g.numBlocks - 1 ==>
      Along(Block(g, i).pos, g.axis) + Along(Block(g, i).size, g.axis) == Along(Block(g, i + 1).pos, g.axis)
    ensures Along(Block(g, g.numBlocks - 1).pos, g.axis) + Along(Block(g, g.numBlocks - 1).size, g.axis)
      == Along(g.rectEnd.pos, g.axis)
  {
    BlockAlong(g, 0);
    AdjacentBlocks(g);
    LastBlock(g);
  }

  /** Each block ends where the next begins when the step equals the block length. */
  lemma AdjacentBlocks(g: Diagonal)
    requires Along(g.step, g.axis) == g.blockLen && Along(g.blockSize, g.axis) == g.blockLen
    ensures forall i :: 0 <= i < g.numBlocks - 1 ==>
      Along(Block(g, i).pos, g.axis) + Along(Block(g, i).size, g.axis) == Along(Block(g, i + 1).pos, g.axis)
  {
  }

  /** The last block ends at the end cap when the blocks add up to the gap. */
  lemma LastBlock(g: Diagonal)
    requires g.numBlocks >= 1 && g.numBlocks as real * g.blockLen == g.inner
    requires Along(g.step, g.axis) == g.blockLen && Along(g.blockSize, g.axis) == g.blockLen
    requires Along(g.segmentStart, g.axis) == Along(g.rectStart.pos, g.axis) + Along(g.rectStart.size, g.axis)
    requires g.inner == Along(g.rectEnd.pos, g.axis) - (Along(g.rectStart.pos, g.axis) + Along(g.rectStart.size, g.axis))
    ensures Along(Block(g, g.numBlocks - 1).pos, g.axis) + Along(Block(g, g.numBlocks - 1).size, g.axis)
      == Along(g.rectEnd.pos, g.axis)
  {
  }

  lemma BlockAlong(g: Diagonal, i: int)
    ensures Along(Block(g, i).pos, g.axis) == Along(g.segmentStart, g.axis) + i as real * Along(g.step, g.axis)
    ensures Along(Block(g, i).size, g.axis) == Along(g.blockSize, g.axis)
  {
  }

  // ---------------------------------------------------------------------------------------------
  // Draw calls

  /** The draw of rectangle `r` for stroke `o`: the shader gets the endpoints in the rectangle's
      own coordinates. */
  function DrawAt(r: Rect, o: Segment, hw: real, color: Vec4): (d: LineDraw)
    ensures d.rect == r && d.width == hw && d.color == color
    ensures d.lineStart.Plus(r.pos) == o.start && d.lineEnd.Plus(r.pos) == o.end
    ensures d.lineEnd.Minus(d.lineStart) == o.end.Minus(o.start)
  {
    LineDraw(r, o.start.Minus(r.pos), o.end.Minus(r.pos), hw, color)
  }

  /** The interior block draws, in loop order. */
  function BlockDraws(g: Diagonal, o: Segment, hw: real, color: Vec4, clip: ClipFn): (ds: seq<LineDraw>)
    ensures |ds| == LoopCount(g.numBlocks)
    ensures forall i :: 0 <= i < |ds| ==> ds[i] == DrawAt(clip(g.axis, Block(g, i), g.lo, g.hi), o, hw, color)
  {
    seq(LoopCount(g.numBlocks), i requires 0 <= i => DrawAt(clip(g.axis, Block(g, i), g.lo, g.hi), o, hw, color))
  }

  /** The axis a non-axis-aligned stroke is decomposed along. */
  function StrokeAxis(s: Segment): Axis {
    DominantAxis(s.end.Minus(s.start))
  }

  /** The endpoints in the order the decomposition uses (the shader gets them in this order). */
  function StrokeOrder(s: Segment): (o: Segment)
    ensures o == s || o == Segment(s.end, s.start)
    ensures AxisAligned(s) ==> o == s
    ensures !AxisAligned(s) ==> Along(o.start, StrokeAxis(s)) <= Along(o.end, StrokeAxis(s))
  {
    if AxisAligned(s) then s else Ordered(s, StrokeAxis(s))
  }

  /** The decomposition of a non-axis-aligned stroke of width `lw`. */
  function StrokeDiagonal(s: Segment, lw: real, slant: SlantFn): (g: Diagonal)
    ensures g.axis == StrokeAxis(s)
    // the start cap begins half a width before the endpoint that comes first along the axis,
    // and the end cap stops half a width past the other one
    ensures Along(g.rectStart.pos, g.axis) == Min(Along(s.start, g.axis), Along(s.end, g.axis)) - lw / 2.0
    ensures Along(g.rectEnd.pos, g.axis) + Along(g.rectEnd.size, g.axis)
      == Max(Along(s.start, g.axis), Along(s.end, g.axis)) + lw / 2.0
  {
    var axis := StrokeAxis(s);
    var o := Ordered(s, axis);
    Decompose(axis, o, lw / 2.0, lw, slant(axis, o.end.Minus(o.start), lw / 2.0))
  }

  /** Every draw VectorLine::draw_walk issues for the stroke `s` of width `lw`. */
  function LineDraws(s: Segment, lw: real, color: Vec4, slant: SlantFn, clip: ClipFn): (ds: seq<LineDraw>)
    // an axis-aligned stroke is one padded rectangle
    ensures AxisAligned(s) ==> |ds| == 1 && ds[0].rect == PaddedBounds(s, lw)
    // a diagonal one is the clipped blocks, then the start cap, then the end cap
    ensures !AxisAligned(s) ==>
      var g := StrokeDiagonal(s, lw, slant);
      && |ds| == LoopCount(g.numBlocks) + 2
      && (forall i :: 0 <= i < |ds| - 2 ==> ds[i].rect == clip(g.axis, Block(g, i), g.lo, g.hi))
      && ds[|ds| - 2].rect == g.rectStart
      && ds[|ds| - 1].rect == g.rectEnd
    // which is the stroke's endpoints ordered along the dominant axis, or the stroke itself
    ensures StrokeOrder(s) == s || StrokeOrder(s) == Segment(s.end, s.start)
    ensures !AxisAligned(s) ==> Along(StrokeOrder(s).start, StrokeAxis(s)) <= Along(StrokeOrder(s).end, StrokeAxis(s))
    // every rectangle gets the stroke's endpoints in its own coordinates, half the width and the colour
    ensures forall i :: 0 <= i < |ds| ==>
      && ds[i].lineStart.Plus(ds[i].rect.pos) == StrokeOrder(s).start
      && ds[i].lineEnd.Plus(ds[i].rect.pos) == StrokeOrder(s).end
      && ds[i].lineEnd.Minus(ds[i].lineStart) == StrokeOrder(s).end.Minus(StrokeOrder(s).start)
      && ds[i].width == lw / 2.0
      && ds[i].color == color
  {
    var hw := lw / 2.0;
    if AxisAligned(s) then
      [DrawAt(PaddedBounds(s, lw), s, hw, color)]
    else
      var o := StrokeOrder(s);
      var g := StrokeDiagonal(s, lw, slant);
      BlockDraws(g, o, hw, color, clip) + [DrawAt(g.rectStart, o, hw, color), DrawAt(g.rectEnd, o, hw, color)]
  }

  /** The rectangle drawn last for stroke `s`: the padded box, or the end cap. */
  function LastRect(s: Segment, lw: real, slant: SlantFn): Rect {
    if AxisAligned(s) then PaddedBounds(s, lw) else StrokeDiagonal(s, lw, slant).rectEnd
  }

  /** The draw of an axis-aligned stroke: its padded bounding box. */
  lemma AxisAlignedDraws(s: Segment, lw: real, color: Vec4, slant: SlantFn, clip: ClipFn)
    requires AxisAligned(s)
    ensures LineDraws(s, lw, color, slant, clip) == [DrawAt(PaddedBounds(s, lw), s, lw / 2.0, color)]
  {
  }

  /** The draws of a diagonal stroke: its blocks, then its two caps. */
  lemma DiagonalDraws(s: Segment, lw: real, color: Vec4, slant: SlantFn, clip: ClipFn)
    requires !AxisAligned(s)
    ensures var g, o := StrokeDiagonal(s, lw, slant), StrokeOrder(s);
      LineDraws(s, lw, color, slant, clip)
      == BlockDraws(g, o, lw / 2.0, color, clip) + [DrawAt(g.rectStart, o, lw / 2.0, color), DrawAt(g.rectEnd, o, lw / 2.0, color)]
  {
  }

  /** The line shader's instance data, and the rectangles drawn with it. */
  class DrawLineSegment {
    var lineStart: Vec2
    var lineEnd: Vec2
    var width: real
    var color: Vec4
    /** Every draw_abs so far, with the uniforms it captured. */
    var drawn: seq<LineDraw>

    constructor ()
      ensures drawn == []
    {
      lineStart, lineEnd := Vec2(0.0, 0.0), Vec2(0.0, 0.0);
      width, color := 0.0, Vec4(0.0, 0.0, 0.0, 0.0);
      drawn := [];
    }

    /** Draws rectangle `r` with the current instance data. */
    method DrawAbs(r: Rect)
      modifies this`drawn
      ensures drawn == old(drawn) + [LineDraw(r, lineStart, lineEnd, width, color)]
    {
      drawn := drawn + [LineDraw(r, lineStart, lineEnd, width, color)];
    }
  }

  /** A line widget: its configuration and its shader instance. */
  class VectorLine {
    const drawLs: DrawLineSegment
    const lineWidth: real
    const color: Vec4
    const lineAlign: LineAlign
    const lineStart: Vec2
    const lineEnd: Vec2

    /** The widget with its declared defaults. */
    constructor ()
      ensures fresh(drawLs) && drawLs.drawn == []
      ensures lineWidth == 15.0 && lineAlign == Top
      ensures lineStart == Vec2(350.0, 10.0) && lineEnd == Vec2(1000.0, 1440.0)
    {
      drawLs := new DrawLineSegment();
      lineWidth := 15.0;
      color := Vec4(0.0, 0.0, 0.0, 0.0);
      lineAlign := Top;
      lineStart, lineEnd := Vec2(350.0, 10.0), Vec2(1000.0, 1440.0);
    }

    /** The widget with the given live properties (width, colour, alignment) and stored
        endpoints. */
    constructor Configured(width: real, lineColor: Vec4, align: LineAlign, start: Vec2, end: Vec2)
      ensures fresh(drawLs) && drawLs.drawn == []
      ensures lineWidth == width && color == lineColor && lineAlign == align
      ensures lineStart == start && lineEnd == end
    {
      drawLs := new DrawLineSegment();
      lineWidth, color, lineAlign := width, lineColor, align;
      lineStart, lineEnd := start, end;
    }

    /** Draws the line into the layout rectangle `rect`. The stored endpoints are not written
        back; `slant` supplies the direction-dependent numerics and `clip` the rectangle
        clipping routine. */
    method DrawWalk(rect: Rect, slant: SlantFn, clip: ClipFn)
      modifies drawLs
      ensures drawLs.drawn == old(drawLs.drawn)
        + LineDraws(Placement(lineAlign, rect, lineWidth / 2.0, Segment(lineStart, lineEnd)), lineWidth, color, slant, clip)
      ensures var placed := Placement(lineAlign, rect, lineWidth / 2.0, Segment(lineStart, lineEnd));
        && drawLs.lineStart == StrokeOrder(placed).start.Minus(LastRect(placed, lineWidth, slant).pos)
        && drawLs.lineEnd == StrokeOrder(placed).end.Minus(LastRect(placed, lineWidth, slant).pos)
        && drawLs.width == lineWidth / 2.0 && drawLs.color == color
    {
      var placed := Placement(lineAlign, rect, lineWidth / 2.0, Segment(lineStart, lineEnd));
      DrawStroke(placed, slant, clip);
    }

    /** Draws the placed stroke `s`: one padded rectangle when it is axis-aligned, the blocks
        and the two caps otherwise. The shader's uniforms are left as the last draw had them. */
    method DrawStroke(s: Segment, slant: SlantFn, clip: ClipFn)
      modifies drawLs
      ensures drawLs.drawn == old(drawLs.drawn) + LineDraws(s, lineWidth, color, slant, clip)
      ensures drawLs.lineStart == StrokeOrder(s).start.Minus(LastRect(s, lineWidth, slant).pos)
      ensures drawLs.lineEnd == StrokeOrder(s).end.Minus(LastRect(s, lineWidth, slant).pos)
      ensures drawLs.width == lineWidth / 2.0 && drawLs.color == color
    {
      drawLs.width := lineWidth / 2.0;
      drawLs.color := color;
      if AxisAligned(s) {
        DrawPadded(s, slant, clip);
      } else {
        DrawSlanted(s, slant, clip);
      }
    }

    method DrawSlanted(s: Segment, slant: SlantFn, clip: ClipFn)
      requires !AxisAligned(s)
      requires drawLs.width == lineWidth / 2.0 && drawLs.color == color
      modifies drawLs
      ensures drawLs.drawn == old(drawLs.drawn) + LineDraws(s, lineWidth, color, slant, clip)
      ensures drawLs.lineStart == StrokeOrder(s).start.Minus(LastRect(s, lineWidth, slant).pos)
      ensures drawLs.lineEnd == StrokeOrder(s).end.Minus(LastRect(s, lineWidth, slant).pos)
      ensures drawLs.width == lineWidth / 2.0 && drawLs.color == color
    {
      DiagonalDraws(s, lineWidth, color, slant, clip);
      DrawDiagonal(StrokeOrder(s), StrokeDiagonal(s, lineWidth, slant), clip);
    }

    /** The axis-aligned path: the padded bounding box, drawn once. */
    method DrawPadded(s: Segment, slant: SlantFn, clip: ClipFn)
      requires AxisAligned(s)
      requires drawLs.width == lineWidth / 2.0 && drawLs.color == color
      modifies drawLs
      ensures drawLs.drawn == old(drawLs.drawn) + LineDraws(s, lineWidth, color, slant, clip)
      ensures var r := PaddedBounds(s, lineWidth);
        && drawLs.lineStart == s.start.Minus(r.pos) && drawLs.lineEnd == s.end.Minus(r.pos)
        && drawLs.width == lineWidth / 2.0 && drawLs.color == color
    {
      AxisAlignedDraws(s, lineWidth, color, slant, clip);
      var r := PaddedBounds(s, lineWidth);
      drawLs.lineStart := s.start.Minus(r.pos);
      drawLs.lineEnd := s.end.Minus(r.pos);
      drawLs.DrawAbs(r);
    }

    /** The block loop of the diagonal path: one draw per block, each clipped across the axis
        and given the ordered endpoints in its own coordinates. */
    method DrawBlocks(g: Diagonal, o: Segment, clip: ClipFn)
      requires drawLs.width == lineWidth / 2.0 && drawLs.color == color
      modifies drawLs
      ensures drawLs.drawn == old(drawLs.drawn) + BlockDraws(g, o, lineWidth / 2.0, color, clip)
      ensures drawLs.width == lineWidth / 2.0 && drawLs.color == color
    {
      ghost var blocks := BlockDraws(g, o, lineWidth / 2.0, color, clip);
      var n := LoopCount(g.numBlocks);
      var i := 0;
      while i < n
        invariant 0 <= i <= n
        invariant drawLs.drawn == old(drawLs.drawn) + blocks[..i]
        invariant drawLs.width == lineWidth / 2.0 && drawLs.color == color
      {
        var r := clip(g.axis, Block(g, i), g.lo, g.hi);
        drawLs.lineStart := o.start.Minus(r.pos);
        drawLs.lineEnd := o.end.Minus(r.pos);
        drawLs.DrawAbs(r);
        i := i + 1;
      }
      assert blocks[..i] == blocks;
    }

    /** The diagonal path of DrawWalk, given the endpoints ordered along the dominant axis and
        the decomposition: the blocks, then the start cap, then the end cap. */
    method DrawDiagonal(o: Segment, g: Diagonal, clip: ClipFn)
      requires drawLs.width == lineWidth / 2.0 && drawLs.color == color
      modifies drawLs
      ensures drawLs.drawn == old(drawLs.drawn) + BlockDraws(g, o, lineWidth / 2.0, color, clip)
        + [DrawAt(g.rectStart, o, lineWidth / 2.0, color), DrawAt(g.rectEnd, o, lineWidth / 2.0, color)]
      ensures drawLs.lineStart == o.start.Minus(g.rectEnd.pos) && drawLs.lineEnd == o.end.Minus(g.rectEnd.pos)
      ensures drawLs.width == lineWidth / 2.0 && drawLs.color == color
    {
      DrawBlocks(g, o, clip);

      drawLs.lineStart := o.start.Minus(g.rectStart.pos);
      drawLs.lineEnd := o.end.Minus(g.rectStart.pos);
      drawLs.DrawAbs(g.rectStart);

      drawLs.lineStart := o.start.Minus(g.rectEnd.pos);
      drawLs.lineEnd := o.end.Minus(g.rectEnd.pos);
      drawLs.DrawAbs(g.rectEnd);
    }
  }

  // ---------------------------------------------------------------------------------------------
  // Arcs

  /** Which corner of the layout rectangle an arc endpoint sits on. */
  datatype QuadCorner = TopLeft | TopRight | BottomRight | BottomLeft | UnspecifiedCorner

  /** Declared by the arc widget; draw_walk does not read it. */
  datatype Winding = ClockWise | CounterClockWise

  /** One arc draw: the rectangle, the centre in rectangle coordinates, the squared radius and the
      two vectors from the centre whose angles become the shader's start and end angles. */
  datatype ArcDraw = ArcDraw(rect: Rect, center: Vec2, radiusSq: real, a0Dir: Vec2, a1Dir: Vec2, width: real, color: Vec4)

  /** The point corner `c` picks in `rect`; an unspecified corner keeps the stored point. */
  function CornerPoint(c: QuadCorner, rect: Rect, stored: Vec2): (p: Vec2)
    ensures c == UnspecifiedCorner ==> p == stored
    ensures c in {TopLeft, TopRight} ==> p.y == rect.pos.y
    ensures c in {BottomLeft, BottomRight} ==> p.y == BottomEdge(rect)
    ensures c in {TopLeft, BottomLeft} ==> p.x == rect.pos.x
    ensures c in {TopRight, BottomRight} ==> p.x == RightEdge(rect)
  {
    match c
    case TopLeft => Vec2(rect.pos.x, rect.pos.y)
    case TopRight => Vec2(rect.pos.x + rect.size.x, rect.pos.y)
    case BottomRight => Vec2(rect.pos.x + rect.size.x, rect.pos.y + rect.size.y)
    case BottomLeft => Vec2(rect.pos.x, rect.pos.y + rect.size.y)
    case UnspecifiedCorner => stored
  }

  /** The arc VectorArc::draw_walk draws in `rect`. */
  function ArcDrawFor(rect: Rect, startCorner: QuadCorner, endCorner: QuadCorner, storedStart: Vec2,
                      storedEnd: Vec2, center: Vec2, lw: real, color: Vec4): (d: ArcDraw)
    ensures d.rect == rect && d.width == lw && d.color == color
    // the centre is sent in the rectangle's own coordinates
    ensures d.center.Plus(rect.pos) == center
    // the direction vectors lead from the centre to the two endpoints
    ensures center.Plus(d.a0Dir) == CornerPoint(startCorner, rect, storedStart)
    ensures center.Plus(d.a1Dir) == CornerPoint(endCorner, rect, storedEnd)
    // the start point lies on the circle of the arc's radius around the centre
    ensures d.radiusSq >= 0.0
    ensures SqLen(CornerPoint(startCorner, rect, storedStart).Minus(center)) == d.radiusSq
  {
    var s := CornerPoint(startCorner, rect, storedStart);
    var e := CornerPoint(endCorner, rect, storedEnd);
    ArcDraw(rect, center.Minus(rect.pos), SqLen(s.Minus(center)), s.Minus(center), e.Minus(center), lw, color)
  }

  /** The arc shader's instance data, and the rectangles drawn with it. */
  class DrawArc {
    var arcCenter: Vec2
    var arcRadiusSq: real
    var arcA0Dir: Vec2
    var arcA1Dir: Vec2
    var width: real
    var color: Vec4
    var drawn: seq<ArcDraw>

    constructor ()
      ensures drawn == []
    {
      arcCenter, arcRadiusSq := Vec2(0.0, 0.0), 0.0;
      arcA0Dir, arcA1Dir := Vec2(0.0, 0.0), Vec2(0.0, 0.0);
      width, color := 0.0, Vec4(0.0, 0.0, 0.0, 0.0);
      drawn := [];
    }

    /** Draws rectangle `r` with the current instance data. */
    method DrawAbs(r: Rect)
      modifies this`drawn
      ensures drawn == old(drawn) + [ArcDraw(r, arcCenter, arcRadiusSq, arcA0Dir, arcA1Dir, width, color)]
    {
      drawn := drawn + [ArcDraw(r, arcCenter, arcRadiusSq, arcA0Dir, arcA1Dir, width, color)];
    }
  }

  /** An arc widget: its configuration and its shader instance. */
  class VectorArc {
    const drawArc: DrawArc
    const lineWidth: real
    const color: Vec4
    const arcStartCorner: QuadCorner
    const arcEndCorner: QuadCorner
    const arcWinding: Winding
    const arcStart: Vec2
    const arcEnd: Vec2
    const arcCenter: Vec2

    /** The widget with its declared defaults. */
    constructor ()
      ensures fresh(drawArc) && drawArc.drawn == []
      ensures lineWidth == 15.0 && arcStartCorner == UnspecifiedCorner && arcEndCorner == UnspecifiedCorner
      ensures arcStart == Vec2(350.0, 10.0) && arcEnd == Vec2(1000.0, 1440.0) && arcCenter == Vec2(1000.0, 1440.0)
    {
      drawArc := new DrawArc();
      lineWidth := 15.0;
      color := Vec4(0.0, 0.0, 0.0, 0.0);
      arcStartCorner, arcEndCorner, arcWinding := UnspecifiedCorner, UnspecifiedCorner, ClockWise;
      arcStart, arcEnd, arcCenter := Vec2(350.0, 10.0), Vec2(1000.0, 1440.0), Vec2(1000.0, 1440.0);
    }

    /** The widget with the given live properties (width, colour, corners, winding) and stored
        points. */
    constructor Configured(width: real, arcColor: Vec4, startCorner: QuadCorner, endCorner: QuadCorner,
                           winding: Winding, start: Vec2, end: Vec2, center: Vec2)
      ensures fresh(drawArc) && drawArc.drawn == []
      ensures lineWidth == width && color == arcColor && arcWinding == winding
      ensures arcStartCorner == startCorner && arcEndCorner == endCorner
      ensures arcStart == start && arcEnd == end && arcCenter == center
    {
      drawArc := new DrawArc();
      lineWidth, color := width, arcColor;
      arcStartCorner, arcEndCorner, arcWinding := startCorner, endCorner, winding;
      arcStart, arcEnd, arcCenter := start, end, center;
    }

    /** Draws the arc into the layout rectangle `rect`: one rectangle, the whole slot. */
    method DrawWalk(rect: Rect)
      modifies drawArc
      ensures drawArc.drawn == old(drawArc.drawn)
        + [ArcDrawFor(rect, arcStartCorner, arcEndCorner, arcStart, arcEnd, arcCenter, lineWidth, color)]
      // the shader's uniforms are left as the draw had them
      ensures var d := ArcDrawFor(rect, arcStartCorner, arcEndCorner, arcStart, arcEnd, arcCenter, lineWidth, color);
        && drawArc.arcCenter == d.center && drawArc.arcRadiusSq == d.radiusSq
        && drawArc.arcA0Dir == d.a0Dir && drawArc.arcA1Dir == d.a1Dir
        && drawArc.width == lineWidth && drawArc.color == color
    {
      var start := arcStart;
      var end := arcEnd;
      match arcStartCorner {
        case TopLeft => start := Vec2(rect.pos.x, rect.pos.y);
        case TopRight => start := Vec2(rect.pos.x + rect.size.x, rect.pos.y);
        case BottomRight => start := Vec2(rect.pos.x + rect.size.x, rect.pos.y + rect.size.y);
        case BottomLeft => start := Vec2(rect.pos.x, rect.pos.y + rect.size.y);
        case UnspecifiedCorner =>
      }
      match arcEndCorner {
        case TopLeft => end := Vec2(rect.pos.x, rect.pos.y);
        case TopRight => end := Vec2(rect.pos.x + rect.size.x, rect.pos.y);
        case BottomRight => end := Vec2(rect.pos.x + rect.size.x, rect.pos.y + rect.size.y);
        case BottomLeft => end := Vec2(rect.pos.x, rect.pos.y + rect.size.y);
        case UnspecifiedCorner =>
      }
      var center := arcCenter;
      drawArc.arcRadiusSq := SqLen(start.Minus(center));
      drawArc.arcA0Dir := start.Minus(center);
      drawArc.arcA1Dir := end.Minus(center);
      drawArc.arcCenter := center.Minus(rect.pos);
      drawArc.color := color;
      drawArc.width := lineWidth;
      drawArc.DrawAbs(rect);
    }
  }
}
