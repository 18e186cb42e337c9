/**
 * The region recorder injected into a page: the mask-shape selection (a draggable,
 * corner-resizable rectangle or circle, or a freeform path), the checks made when
 * recording starts, and the start/stop/exit guards. Pointer coordinates are integer
 * CSS pixels.
 */
module Recorder {
  import opened Common

  datatype Shape = Rectangle | Circle | Freeform

  /** The four resize handles; a handle moves the edges whose letters its name contains. */
  datatype Corner = NW | NE | SW | SE {
    predicate North() { this == NW || this == NE }
    predicate South() { this == SW || this == SE }
    predicate West() { this == NW || this == SW }
    predicate East() { this == NE || this == SE }
  }

  datatype Point = Point(x: int, y: int)

  /** A rectangle in viewport coordinates (the selector's bounding box, or a clip rectangle). */
  datatype Box = Box(left: int, top: int, width: int, height: int)

  /** A piece of encoded video handed over by the media recorder. */
  datatype Chunk = Chunk(size: nat)

  /** The result of pressing Start; every outcome but Started is an alert or a silent return. */
  datatype StartOutcome =
    | AlreadyRecording
    | TooFewPoints
    | NotClosed
    | NoRegion
    | Started(clip: Box)

  /** Smallest width and height a corner resize leaves. */
  const MinSize: int := 30
  /** Width of the selector's border, which the clip rectangle leaves out. */
  const BorderWidth: int := 4
  /** Largest distance between the first and last freeform point that still closes the path. */
  const CloseTolerance: int := 15
  /** The selector as it is created: 300 x 200 at (100, 100), border included. */
  const InitialSelector: Box := Box(100, 100, 300, 200)
  /** The recording timer's period, in tenths of a second. */
  const TickTenths: nat := 3

  // ---------------------------------------------------------------------------
  // Geometry of the rectangle and circle selector
  // ---------------------------------------------------------------------------

  /** v limited to [0, hi]; when hi is negative the lower bound 0 wins, as Math.max(0, …) does. */
  function Clamp(v: int, hi: int): (c: int)
    ensures c >= 0
    ensures hi >= 0 ==> c <= hi
    ensures 0 <= v <= hi ==> c == v
    ensures c == v || c == 0 || c == hi
  {
    MaxInt(0, MinInt(v, hi))
  }

  /**
   * The selector after a drag move: its top-left corner follows the pointer minus the grab
   * offset, clamped so that it does not leave the top or left of the window, nor the
   * bottom or right whenever it fits.
   */
  function Dragged(box: Box, pointer: Point, offsetX: int, offsetY: int, innerWidth: int, innerHeight: int): (r: Box)
    ensures r.width == box.width && r.height == box.height
    ensures r.left >= 0 && r.top >= 0
    ensures box.width <= innerWidth ==> r.left + r.width <= innerWidth
    ensures box.height <= innerHeight ==> r.top + r.height <= innerHeight
    ensures 0 <= pointer.x - offsetX <= innerWidth - box.width ==> r.left == pointer.x - offsetX
    ensures 0 <= pointer.y - offsetY <= innerHeight - box.height ==> r.top == pointer.y - offsetY
  {
    Box(Clamp(pointer.x - offsetX, innerWidth - box.width),
        Clamp(pointer.y - offsetY, innerHeight - box.height),
        box.width, box.height)
  }

  /**
   * The selector after a corner-resize move by (dx, dy): the handle's edges follow the
   * pointer, the opposite edges stay put, and width and height never drop below MinSize.
   */
  function Resized(box: Box, dir: Corner, dx: int, dy: int): (r: Box)
    ensures r.width >= MinSize && r.height >= MinSize
    ensures dir.South() ==> r.top == box.top
    ensures dir.East() ==> r.left == box.left
    ensures dir.North() ==> r.top == box.top + dy
    ensures dir.West() ==> r.left == box.left + dx
    ensures dir.North() ==> r.height == MaxInt(box.height - dy, MinSize)
    ensures dir.West() ==> r.width == MaxInt(box.width - dx, MinSize)
    ensures dir.South() ==> r.height == MaxInt(box.height + dy, MinSize)
    ensures dir.East() ==> r.width == MaxInt(box.width + dx, MinSize)
    ensures dir.North() && box.height - dy >= MinSize ==> r.top + r.height == box.top + box.height
    ensures dir.West() && box.width - dx >= MinSize ==> r.left + r.width == box.left + box.width
  {
    var top := if dir.North() then box.top + dy else box.top;
    var height := if dir.North() then box.height - dy else box.height;
    var left := if dir.West() then box.left + dx else box.left;
    var width := if dir.West() then box.width - dx else box.width;
    var height' := if dir.South() then height + dy else height;
    var width' := if dir.East() then width + dx else width;
    Box(left, top, MaxInt(width', MinSize), MaxInt(height', MinSize))
  }

  /**
   * Every shape switch adds one more window mousemove listener, so a move runs the drag or
   * resize code several times. A second run changes nothing: a drag recomputes the same
   * box, and a resize sees the drag origin already moved to the pointer (dx = dy = 0).
   */
  lemma RepeatedMoveIsHarmless(box: Box, dir: Corner, dx: int, dy: int,
                               pointer: Point, offsetX: int, offsetY: int, innerWidth: int, innerHeight: int)
    ensures Resized(Resized(box, dir, dx, dy), dir, 0, 0) == Resized(box, dir, dx, dy)
    ensures var d := Dragged(box, pointer, offsetX, offsetY, innerWidth, innerHeight);
            Dragged(d, pointer, offsetX, offsetY, innerWidth, innerHeight) == d
  {
  }

  // ---------------------------------------------------------------------------
  // The freeform path and the clip rectangle
  // ---------------------------------------------------------------------------

  /** The x coordinates of the path, in order. */
  function Xs(points: seq<Point>): (xs: seq<int>)
    ensures |xs| == |points| && forall i :: 0 <= i < |points| ==> xs[i] == points[i].x
  {
    if points == [] then [] else [points[0].x] + Xs(points[1..])
  }

  /** The y coordinates of the path, in order. */
  function Ys(points: seq<Point>): (ys: seq<int>)
    ensures |ys| == |points| && forall i :: 0 <= i < |points| ==> ys[i] == points[i].y
  {
    if points == [] then [] else [points[0].y] + Ys(points[1..])
  }

  /** The smallest element: a lower bound of the sequence (MinAttained: one of its elements). */
  function Min(xs: seq<int>): (m: int)
    requires |xs| > 0
    ensures forall i :: 0 <= i < |xs| ==> m <= xs[i]
  {
    if |xs| == 1 then xs[0]
    else
      var rest := Min(xs[1..]);
      assert forall i :: 1 <= i < |xs| ==> xs[i] == xs[1..][i - 1];
      MinInt(xs[0], rest)
  }

  /** The largest element: an upper bound of the sequence (MaxAttained: one of its elements). */
  function Max(xs: seq<int>): (m: int)
    requires |xs| > 0
    ensures forall i :: 0 <= i < |xs| ==> xs[i] <= m
  {
    if |xs| == 1 then xs[0]
    else
      var rest := Max(xs[1..]);
      assert forall i :: 1 <= i < |xs| ==> xs[i] == xs[1..][i - 1];
      MaxInt(xs[0], rest)
  }

  lemma {:induction false} MinAttained(xs: seq<int>)
    requires |xs| > 0
    ensures exists i :: 0 <= i < |xs| && xs[i] == Min(xs)
  {
    if |xs| > 1 {
      MinAttained(xs[1..]);
      var j :| 0 <= j < |xs| - 1 && xs[1..][j] == Min(xs[1..]);
      assert xs[j + 1] == Min(xs[1..]);
      if Min(xs) == xs[0] {
        assert xs[0] == Min(xs);
      } else {
        assert xs[j + 1] == Min(xs);
      }
    } else {
      assert xs[0] == Min(xs);
    }
  }

  lemma {:induction false} MaxAttained(xs: seq<int>)
    requires |xs| > 0
    ensures exists i :: 0 <= i < |xs| && xs[i] == Max(xs)
  {
    if |xs| > 1 {
      MaxAttained(xs[1..]);
      var j :| 0 <= j < |xs| - 1 && xs[1..][j] == Max(xs[1..]);
      assert xs[j + 1] == Max(xs[1..]);
      if Max(xs) == xs[0] {
        assert xs[0] == Max(xs);
      } else {
        assert xs[j + 1] == Max(xs);
      }
    } else {
      assert xs[0] == Max(xs);
    }
  }

  /**
   * The clip rectangle of a freeform path: its bounding box. Every point, translated by the
   * box's top-left corner, lies in [0, width] x [0, height].
   */
  function BoundingBox(points: seq<Point>): (b: Box)
    requires |points| > 0
    ensures b.width >= 0 && b.height >= 0
    ensures forall i :: 0 <= i < |points| ==>
              0 <= points[i].x - b.left <= b.width && 0 <= points[i].y - b.top <= b.height
  {
    var xs, ys := Xs(points), Ys(points);
    var minX, minY, maxX, maxY := Min(xs), Min(ys), Max(xs), Max(ys);
    Box(minX, minY, maxX - minX, maxY - minY)
  }

  /** The bounding box is tight: each of its four sides touches a point of the path. */
  lemma BoundingBoxIsTight(points: seq<Point>)
    requires |points| > 0
    ensures var b := BoundingBox(points);
            && (exists i :: 0 <= i < |points| && points[i].x == b.left)
            && (exists i :: 0 <= i < |points| && points[i].y == b.top)
            && (exists i :: 0 <= i < |points| && points[i].x == b.left + b.width)
            && (exists i :: 0 <= i < |points| && points[i].y == b.top + b.height)
  {
    var xs, ys := Xs(points), Ys(points);
    MinAttained(xs);
    MinAttained(ys);
    MaxAttained(xs);
    MaxAttained(ys);
  }

  /**
   * The path is closed when its endpoints are at most CloseTolerance apart
   * (compared squared, so no square root is needed).
   */
  predicate Closed(points: seq<Point>)
    requires |points| > 0
  {
    var dx := points[|points| - 1].x - points[0].x;
    var dy := points[|points| - 1].y - points[0].y;
    dx * dx + dy * dy <= CloseTolerance * CloseTolerance
  }

  /** The clip rectangle of a rectangle or circle selector: the area inside its border. */
  function Inset(box: Box): (r: Box)
    ensures r.left - box.left == BorderWidth && r.top - box.top == BorderWidth
    ensures (box.left + box.width) - (r.left + r.width) == BorderWidth
    ensures (box.top + box.height) - (r.top + r.height) == BorderWidth
  {
    Box(box.left + BorderWidth, box.top + BorderWidth, box.width - 2 * BorderWidth, box.height - 2 * BorderWidth)
  }

  /**
   * The checks Start makes once it knows it is not already recording. A freeform path
   * is accepted exactly when it has at least 3 points and is closed, and its clip
   * rectangle then contains every point; a rectangle or circle is accepted exactly when a
   * selector exists, and its clip rectangle is the selector shrunk by the border on every
   * side.
   */
  function Validate(shape: Shape, points: seq<Point>, selector: Option<Box>): (o: StartOutcome)
    ensures o != AlreadyRecording
    ensures shape == Freeform ==> (o.Started? <==> |points| >= 3 && Closed(points))
    ensures shape == Freeform ==> (o == TooFewPoints <==> |points| < 3)
    ensures shape == Freeform ==> o != NoRegion
    ensures shape == Freeform && o.Started? ==> o.clip.width >= 0 && o.clip.height >= 0
    ensures shape == Freeform && o.Started? ==> forall i :: 0 <= i < |points| ==>
              0 <= points[i].x - o.clip.left <= o.clip.width && 0 <= points[i].y - o.clip.top <= o.clip.height
    ensures shape != Freeform ==> (o.Started? <==> selector.Some?) && (o.Started? || o == NoRegion)
    ensures shape != Freeform && selector.Some? ==>
              var s := selector.value;
              && o.clip.left == s.left + BorderWidth && o.clip.top == s.top + BorderWidth
              && o.clip.left + o.clip.width == s.left + s.width - BorderWidth
              && o.clip.top + o.clip.height == s.top + s.height - BorderWidth
    ensures (shape != Freeform && selector.Some? && selector.value.width >= MinSize &&
             selector.value.height >= MinSize) ==> o.Started? && o.clip.width > 0 && o.clip.height > 0
  {
    if shape == Freeform then
      if |points| < 3 then TooFewPoints
      else if !Closed(points) then NotClosed
      else Started(BoundingBox(points))
    else if selector.None? then NoRegion
    else Started(Inset(selector.value))
  }

  // ---------------------------------------------------------------------------
  // The page flag and the recorder's state
  // ---------------------------------------------------------------------------

  /** The page's global object: the flag that keeps the recorder from being injected twice. */
  class Page {
    var recorderActive: bool

    constructor ()
      ensures !recorderActive
    {
      recorderActive := false;
    }
  }

  /** The recorder's closure state, one method per event handler. */
  class Recorder {
    const page: Page
    var shape: Shape
    /** The rectangle/circle selector element's box; None when there is none (freeform). */
    var selector: Option<Box>
    var freeformPoints: seq<Point>
    var isDrawingFreeform: bool
    var isDragging: bool
    var isResizing: bool
    var resizeDir: Option<Corner>
    var dragOffsetX: int
    var dragOffsetY: int
    var recording: bool
    var chunks: seq<Chunk>
    /** Elapsed recording time, in tenths of a second. */
    var elapsedTenths: nat
    /** The clip rectangle fixed by the last accepted Start. */
    var clip: Option<Box>

    /** The state every handler keeps. */
    ghost predicate Valid()
      reads this
    {
      && (shape == Freeform <==> selector.None?)
      && (selector.Some? ==> selector.value.width >= MinSize && selector.value.height >= MinSize)
      && (isResizing ==> resizeDir.Some?)
      && (recording ==> clip.Some? && clip.value.width >= 0 && clip.value.height >= 0)
    }

    /** The script body once the guard has passed: rectangle shape, a fresh selector, idle. */
    constructor (page: Page)
      ensures Valid()
      ensures this.page == page
      ensures shape == Rectangle && selector == Some(InitialSelector)
      ensures freeformPoints == [] && !isDrawingFreeform
      ensures !isDragging && !isResizing && resizeDir == None
      ensures dragOffsetX == 0 && dragOffsetY == 0
      ensures !recording && chunks == [] && elapsedTenths == 0 && clip == None
    {
      this.page := page;
      shape := Rectangle;
      selector := Some(InitialSelector);
      freeformPoints := [];
      isDrawingFreeform := false;
      isDragging, isResizing, resizeDir := false, false, None;
      dragOffsetX, dragOffsetY := 0, 0;
      recording := false;
      chunks := [];
      elapsedTenths := 0;
      clip := None;
    }

    /**
     * The shape selector's change handler: switch shape and reset the mask. The freeform
     * path is emptied and a rectangle or circle gets a new selector at its initial place.
     */
    method ChangeShape(s: Shape)
      requires Valid()
      modifies this
      ensures Valid()
      ensures shape == s
      ensures freeformPoints == [] && !isDrawingFreeform
      ensures selector == if s == Freeform then None else Some(InitialSelector)
      ensures isDragging == old(isDragging) && isResizing == old(isResizing) && resizeDir == old(resizeDir)
      ensures dragOffsetX == old(dragOffsetX) && dragOffsetY == old(dragOffsetY)
      ensures recording == old(recording) && chunks == old(chunks)
      ensures elapsedTenths == old(elapsedTenths) && clip == old(clip)
    {
      shape := s;
      freeformPoints := [];
      isDrawingFreeform := false;
      if s == Freeform {
        selector := None;
      } else {
        selector := Some(InitialSelector);
      }
    }

    /** Mouse down on the freeform canvas: the path restarts with this one point. */
    method FreeformMouseDown(p: Point)
      requires Valid()
      modifies this
      ensures Valid()
      ensures isDrawingFreeform && freeformPoints == [p]
      ensures shape == old(shape) && selector == old(selector)
      ensures isDragging == old(isDragging) && isResizing == old(isResizing) && resizeDir == old(resizeDir)
      ensures dragOffsetX == old(dragOffsetX) && dragOffsetY == old(dragOffsetY)
      ensures recording == old(recording) && chunks == old(chunks)
      ensures elapsedTenths == old(elapsedTenths) && clip == old(clip)
    {
      isDrawingFreeform := true;
      freeformPoints := [p];
    }

    /** Mouse move on the freeform canvas: one more point while drawing, nothing otherwise. */
    method FreeformMouseMove(p: Point)
      requires Valid()
      modifies this
      ensures Valid()
      ensures freeformPoints == if old(isDrawingFreeform) then old(freeformPoints) + [p] else old(freeformPoints)
      ensures isDrawingFreeform == old(isDrawingFreeform)
      ensures shape == old(shape) && selector == old(selector)
      ensures isDragging == old(isDragging) && isResizing == old(isResizing) && resizeDir == old(resizeDir)
      ensures dragOffsetX == old(dragOffsetX) && dragOffsetY == old(dragOffsetY)
      ensures recording == old(recording) && chunks == old(chunks)
      ensures elapsedTenths == old(elapsedTenths) && clip == old(clip)
    {
      if !isDrawingFreeform {
        return;
      }
      freeformPoints := freeformPoints + [p];
    }

    /** Mouse up on the freeform canvas: drawing stops and the path is kept. */
    method FreeformMouseUp()
      requires Valid()
      modifies this
      ensures Valid()
      ensures !isDrawingFreeform && freeformPoints == old(freeformPoints)
      ensures shape == old(shape) && selector == old(selector)
      ensures isDragging == old(isDragging) && isResizing == old(isResizing) && resizeDir == old(resizeDir)
      ensures dragOffsetX == old(dragOffsetX) && dragOffsetY == old(dragOffsetY)
      ensures recording == old(recording) && chunks == old(chunks)
      ensures elapsedTenths == old(elapsedTenths) && clip == old(clip)
    {
      if !isDrawingFreeform {
        return;
      }
      isDrawingFreeform := false;
    }

    /** Mouse down on a corner handle: start resizing from this corner, with the pointer as origin. */
    method HandleMouseDown(corner: Corner, p: Point)
      requires Valid()
      modifies this
      ensures Valid()
      ensures isResizing && resizeDir == Some(corner)
      ensures dragOffsetX == p.x && dragOffsetY == p.y
      ensures isDragging == old(isDragging)
      ensures shape == old(shape) && selector == old(selector)
      ensures freeformPoints == old(freeformPoints) && isDrawingFreeform == old(isDrawingFreeform)
      ensures recording == old(recording) && chunks == old(chunks)
      ensures elapsedTenths == old(elapsedTenths) && clip == old(clip)
    {
      isResizing := true;
      resizeDir := Some(corner);
      dragOffsetX := p.x;
      dragOffsetY := p.y;
    }

    /**
     * Mouse down on the selector's body: unless a resize is under way, start dragging and
     * remember where in the box it was grabbed.
     */
    method SelectorMouseDown(p: Point)
      requires Valid()
      modifies this
      ensures Valid()
      ensures old(isResizing) || old(selector).None? ==> unchanged(this)
      ensures !old(isResizing) && old(selector).Some? ==>
                && isDragging
                && dragOffsetX == p.x - old(selector).value.left
                && dragOffsetY == p.y - old(selector).value.top
      ensures isResizing == old(isResizing) && resizeDir == old(resizeDir)
      ensures shape == old(shape) && selector == old(selector)
      ensures freeformPoints == old(freeformPoints) && isDrawingFreeform == old(isDrawingFreeform)
      ensures recording == old(recording) && chunks == old(chunks)
      ensures elapsedTenths == old(elapsedTenths) && clip == old(clip)
    {
      if isResizing || selector.None? {
        return;
      }
      isDragging := true;
      dragOffsetX := p.x - selector.value.left;
      dragOffsetY := p.y - selector.value.top;
    }

    /**
     * The window's mousemove handler: a drag moves the selector (clamped to the window),
     * otherwise a resize reshapes it from the handle and moves the origin to the pointer.
     * With no selector the page's handler throws before changing anything.
     */
    method PointerMove(p: Point, innerWidth: int, innerHeight: int)
      requires Valid()
      modifies this
      ensures Valid()
      ensures old(isDragging) && old(selector).Some? ==>
                && selector == Some(Dragged(old(selector).value, p, old(dragOffsetX), old(dragOffsetY), innerWidth, innerHeight))
                && dragOffsetX == old(dragOffsetX) && dragOffsetY == old(dragOffsetY)
      ensures !old(isDragging) && old(isResizing) && old(selector).Some? ==>
                && selector == Some(Resized(old(selector).value, old(resizeDir).value,
                                            p.x - old(dragOffsetX), p.y - old(dragOffsetY)))
                && dragOffsetX == p.x && dragOffsetY == p.y
      ensures (!old(isDragging) && !old(isResizing)) || old(selector).None? ==> unchanged(this)
      ensures isDragging == old(isDragging) && isResizing == old(isResizing) && resizeDir == old(resizeDir)
      ensures shape == old(shape)
      ensures freeformPoints == old(freeformPoints) && isDrawingFreeform == old(isDrawingFreeform)
      ensures recording == old(recording) && chunks == old(chunks)
      ensures elapsedTenths == old(elapsedTenths) && clip == old(clip)
    {
      if isDragging {
        if selector.Some? {
          selector := Some(Dragged(selector.value, p, dragOffsetX, dragOffsetY, innerWidth, innerHeight));
        }
      } else if isResizing {
        if selector.Some? {
          var dx := p.x - dragOffsetX;
          var dy := p.y - dragOffsetY;
          selector := Some(Resized(selector.value, resizeDir.value, dx, dy));
          dragOffsetX := p.x;
          dragOffsetY := p.y;
        }
      }
    }

    /** The window's mouseup handler: any drag or resize ends. */
    method PointerUp()
      requires Valid()
      modifies this
      ensures Valid()
      ensures !isDragging && !isResizing
      ensures resizeDir == old(resizeDir) && dragOffsetX == old(dragOffsetX) && dragOffsetY == old(dragOffsetY)
      ensures shape == old(shape) && selector == old(selector)
      ensures freeformPoints == old(freeformPoints) && isDrawingFreeform == old(isDrawingFreeform)
      ensures recording == old(recording) && chunks == old(chunks)
      ensures elapsedTenths == old(elapsedTenths) && clip == old(clip)
    {
      isDragging := false;
      isResizing := false;
    }

    /**
     * The Start button. While recording it does nothing. Otherwise the mask is checked:
     * a rejected freeform path changes nothing, or is cleared when it is not closed; an
     * accepted mask fixes the clip rectangle, empties the chunks, zeroes the timer and
     * starts recording. A rectangle or circle is always accepted, since it always has a
     * selector.
     */
    method Start() returns (outcome: StartOutcome)
      requires Valid()
      modifies this
      ensures Valid()
      ensures old(recording) ==> outcome == AlreadyRecording
      ensures !old(recording) ==> outcome == Validate(old(shape), old(freeformPoints), old(selector))
      ensures !old(recording) && old(shape) != Freeform ==> outcome.Started?
      ensures outcome == NotClosed ==> freeformPoints == [] && !recording
      ensures outcome.Started? ==>
                recording && clip == Some(outcome.clip) && chunks == [] && elapsedTenths == 0
      ensures !outcome.Started? ==>
                recording == old(recording) && clip == old(clip) &&
                chunks == old(chunks) && elapsedTenths == old(elapsedTenths)
      ensures outcome != NotClosed ==> freeformPoints == old(freeformPoints)
      ensures shape == old(shape) && selector == old(selector) && isDrawingFreeform == old(isDrawingFreeform)
      ensures isDragging == old(isDragging) && isResizing == old(isResizing) && resizeDir == old(resizeDir)
      ensures dragOffsetX == old(dragOffsetX) && dragOffsetY == old(dragOffsetY)
    {
      if recording {
        return AlreadyRecording;
      }
      outcome := Validate(shape, freeformPoints, selector);
      if outcome == NotClosed {
        freeformPoints := [];
      } else if outcome.Started? {
        clip := Some(outcome.clip);
        chunks := [];
        elapsedTenths := 0;
        recording := true;
      }
    }

    /** The Stop button: ends a recording (its video is then downloaded); does nothing otherwise. */
    method Stop() returns (stopped: bool)
      requires Valid()
      modifies this
      ensures Valid()
      ensures stopped == old(recording)
      ensures !recording
      ensures !old(recording) ==> unchanged(this)
      ensures shape == old(shape) && selector == old(selector)
      ensures freeformPoints == old(freeformPoints) && isDrawingFreeform == old(isDrawingFreeform)
      ensures isDragging == old(isDragging) && isResizing == old(isResizing) && resizeDir == old(resizeDir)
      ensures dragOffsetX == old(dragOffsetX) && dragOffsetY == old(dragOffsetY)
      ensures chunks == old(chunks) && elapsedTenths == old(elapsedTenths) && clip == old(clip)
    {
      if !recording {
        return false;
      }
      recording := false;
      stopped := true;
    }

    /** The Exit button: stops any recording and clears the page's "recorder active" flag. */
    method Exit()
      requires Valid()
      modifies this, page
      ensures Valid()
      ensures !recording && !page.recorderActive
      ensures shape == old(shape) && selector == old(selector)
      ensures freeformPoints == old(freeformPoints) && isDrawingFreeform == old(isDrawingFreeform)
      ensures isDragging == old(isDragging) && isResizing == old(isResizing) && resizeDir == old(resizeDir)
      ensures dragOffsetX == old(dragOffsetX) && dragOffsetY == old(dragOffsetY)
      ensures chunks == old(chunks) && elapsedTenths == old(elapsedTenths) && clip == old(clip)
    {
      if recording {
        recording := false;
      }
      page.recorderActive := false;
    }

    /** One period of the recording timer: the elapsed time grows by 0.3 s while recording. */
    method Tick()
      requires Valid()
      modifies this
      ensures Valid()
      ensures elapsedTenths == if old(recording) then old(elapsedTenths) + TickTenths else old(elapsedTenths)
      ensures recording == old(recording) && chunks == old(chunks) && clip == old(clip)
      ensures shape == old(shape) && selector == old(selector)
      ensures freeformPoints == old(freeformPoints) && isDrawingFreeform == old(isDrawingFreeform)
      ensures isDragging == old(isDragging) && isResizing == old(isResizing) && resizeDir == old(resizeDir)
      ensures dragOffsetX == old(dragOffsetX) && dragOffsetY == old(dragOffsetY)
    {
      if recording {
        elapsedTenths := elapsedTenths + TickTenths;
      }
    }

    /** The media recorder's data handler: a non-empty chunk is appended. */
    method DataAvailable(c: Chunk)
      requires Valid()
      modifies this
      ensures Valid()
      ensures chunks == if c.size > 0 then old(chunks) + [c] else old(chunks)
      ensures recording == old(recording) && elapsedTenths == old(elapsedTenths) && clip == old(clip)
      ensures shape == old(shape) && selector == old(selector)
      ensures freeformPoints == old(freeformPoints) && isDrawingFreeform == old(isDrawingFreeform)
      ensures isDragging == old(isDragging) && isResizing == old(isResizing) && resizeDir == old(resizeDir)
      ensures dragOffsetX == old(dragOffsetX) && dragOffsetY == old(dragOffsetY)
    {
      if c.size > 0 {
        chunks := chunks + [c];
      }
    }
  }

  /**
   * Injecting the recorder script: when the page's flag is already set nothing happens;
   * otherwise the flag is set and a fresh recorder starts in its initial state.
   */
  method Inject(page: Page) returns (r: Recorder?)
    modifies page
    ensures page.recorderActive
    ensures r == null <==> old(page.recorderActive)
    ensures r != null ==>
              && fresh(r) && r.Valid() && r.page == page
              && r.shape == Rectangle && r.selector == Some(InitialSelector)
              && r.freeformPoints == [] && !r.recording
  {
    if page.recorderActive {
      return null;
    }
    page.recorderActive := true;
    r := new Recorder(page);
  }
}
