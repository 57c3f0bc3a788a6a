/**
 * The drawing surface (components/PixelCanvas.tsx): the display-to-buffer
 * coordinate mapping, the drawing-gesture state machine, the frame-load
 * effect and the onion-skin layer filter.
 */
module PixelCanvas {
  import opened Wrappers
  import opened Types

  /**
   * A pointer sample: where the pointer is, and where the canvas's bounding
   * rectangle starts, both in display (client) pixels.
   */
  datatype Pointer = Pointer(clientX: int, clientY: int, left: int, top: int)

  /**
   * Maps a display coordinate to a buffer coordinate: the floor of the
   * offset from the canvas origin divided by the display scale.
   */
  function ToBuffer(client: int, origin: int): (b: int)
    ensures SCALE_FACTOR * b <= client - origin < SCALE_FACTOR * b + SCALE_FACTOR
  {
    // Dafny's division is Euclidean; with a positive divisor it is the floor.
    (client - origin) / SCALE_FACTOR
  }

  /** The dot drawDot paints for a pointer sample. */
  function StampAt(p: Pointer): (d: Dot)
    ensures d.radius == DOT_RADIUS && d.fill == WHITE
    ensures SCALE_FACTOR * d.x <= p.clientX - p.left < SCALE_FACTOR * d.x + SCALE_FACTOR
    ensures SCALE_FACTOR * d.y <= p.clientY - p.top < SCALE_FACTOR * d.y + SCALE_FACTOR
  {
    Dot(ToBuffer(p.clientX, p.left), ToBuffer(p.clientY, p.top), DOT_RADIUS, WHITE)
  }

  /** A pointer anywhere over the 360 x 360 display area stamps inside the buffer. */
  lemma StampInsideCanvas(p: Pointer)
    requires 0 <= p.clientX - p.left < CANVAS_WIDTH * SCALE_FACTOR
    requires 0 <= p.clientY - p.top < CANVAS_HEIGHT * SCALE_FACTOR
    ensures 0 <= StampAt(p).x < CANVAS_WIDTH && 0 <= StampAt(p).y < CANVAS_HEIGHT
  {
  }

  // ---------------------------------------------------------------------
  // The drawing gesture as a state machine over pointer events
  // ---------------------------------------------------------------------

  /**
   * The events the canvas listens to: mouse-down and touch-start (Down),
   * mouse-move and touch-move (Move), and the three that end a gesture.
   */
  datatype Input = Down(p: Pointer) | Move(p: Pointer) | Up | Leave | TouchEnd

  predicate IsGestureEnd(e: Input)
  {
    e.Up? || e.Leave? || e.TouchEnd?
  }

  /** The gesture flag and the buffer content (loaded frame, then the dots stamped since). */
  datatype Gesture = Gesture(drawing: bool, surface: seq<Dot>)

  /** The state after one event, and the snapshot handed to onUpdate, if any. */
  datatype Outcome = Outcome(after: Gesture, saved: Option<Frame>)

  /** One event handler run. */
  function Step(g: Gesture, e: Input): (r: Outcome)
    ensures r.after.drawing <==> e.Down? || (e.Move? && g.drawing)
    ensures r.saved.Some? <==> IsGestureEnd(e) && g.drawing
    ensures r.saved.Some? ==> r.saved.value == Frame(g.surface)
    ensures e.Down? || (e.Move? && g.drawing) ==> r.after.surface == g.surface + [StampAt(e.p)]
    ensures !(e.Down? || (e.Move? && g.drawing)) ==> r.after.surface == g.surface
  {
    match e
    case Down(p) => Outcome(Gesture(true, g.surface + [StampAt(p)]), None)
    case Move(p) =>
      if g.drawing then Outcome(Gesture(true, g.surface + [StampAt(p)]), None)
      else Outcome(g, None)
    case _ =>
      if g.drawing then Outcome(Gesture(false, g.surface), Some(Frame(g.surface)))
      else Outcome(g, None)
  }

  /** The state after a sequence of events, and every snapshot saved, in order. */
  datatype Trace = Trace(after: Gesture, saved: seq<Frame>)

  function Run(g: Gesture, es: seq<Input>): (t: Trace)
    ensures |t.saved| <= |es|
    decreases |es|
  {
    if es == [] then Trace(g, [])
    else
      var o := Step(g, es[0]);
      var t := Run(o.after, es[1..]);
      Trace(t.after, (if o.saved.Some? then [o.saved.value] else []) + t.saved)
  }

  /** Number of gesture starts in a sequence of events. */
  function Downs(es: seq<Input>): nat
    decreases |es|
  {
    if es == [] then 0 else (if es[0].Down? then 1 else 0) + Downs(es[1..])
  }

  function Ord(b: bool): nat
  {
    if b then 1 else 0
  }

  /**
   * No duplicate save: every save closes a gesture that a Down opened (or
   * that was already open), so saves never outnumber gesture starts.
   */
  lemma {:induction false} NoDuplicateSave(g: Gesture, es: seq<Input>)
    ensures |Run(g, es).saved| + Ord(Run(g, es).after.drawing) <= Downs(es) + Ord(g.drawing)
    decreases |es|
  {
    if es != [] {
      NoDuplicateSave(Step(g, es[0]).after, es[1..]);
    }
  }

  /** Without a save, an open gesture stays open and an idle surface stays as it was or opens. */
  lemma {:induction false} UnsavedKeepsState(g: Gesture, es: seq<Input>)
    requires |Run(g, es).saved| == 0
    ensures g.drawing ==> Run(g, es).after.drawing
    ensures !g.drawing ==> Run(g, es).after.drawing || Run(g, es).after == g
    decreases |es|
  {
    if es != [] {
      UnsavedKeepsState(Step(g, es[0]).after, es[1..]);
    }
  }

  /**
   * When a run ends idle after at least one save, the last snapshot saved
   * is exactly the buffer content: nothing drawn is left unsaved.
   */
  lemma {:induction false} SaveFlushesSurface(g: Gesture, es: seq<Input>)
    ensures var t := Run(g, es);
      !t.after.drawing && |t.saved| > 0 ==> t.saved[|t.saved| - 1] == Frame(t.after.surface)
    decreases |es|
  {
    if es != [] {
      var o := Step(g, es[0]);
      var t := Run(o.after, es[1..]);
      SaveFlushesSurface(o.after, es[1..]);
      if |t.saved| == 0 {
        UnsavedKeepsState(o.after, es[1..]);
      }
    }
  }

  /**
   * A run only adds to the buffer, and every dot it adds is white with
   * radius DOT_RADIUS.
   */
  lemma {:induction false} StampsAreWhiteDots(g: Gesture, es: seq<Input>)
    ensures g.surface <= Run(g, es).after.surface
    ensures var s := Run(g, es).after.surface;
      forall k :: |g.surface| <= k < |s| ==> s[k].radius == DOT_RADIUS && s[k].fill == WHITE
    decreases |es|
  {
    if es != [] {
      StampsAreWhiteDots(Step(g, es[0]).after, es[1..]);
    }
  }

  // ---------------------------------------------------------------------
  // Onion skin
  // ---------------------------------------------------------------------

  /** One overlay image: its key (the frame index) and its source frame. */
  datatype Layer = Layer(index: int, frame: Frame)

  /** The layers produced for frames i.. of the map over frames, nulls dropped. */
  function LayersFrom(frames: seq<Frame>, active: int, i: nat): (r: seq<Layer>)
    requires i <= |frames|
    ensures |r| == if active <= i then 0 else if active < |frames| then active - i else |frames| - i
    ensures forall k :: 0 <= k < |r| ==> r[k] == Layer(i + k, frames[i + k])
    decreases |frames| - i
  {
    if i == |frames| then []
    else (if i >= active then [] else [Layer(i, frames[i])]) + LayersFrom(frames, active, i + 1)
  }

  /** The onion-skin overlays rendered beneath the canvas. */
  function OnionLayers(frames: seq<Frame>, active: int, enabled: bool): (r: seq<Layer>)
    ensures !enabled ==> r == []
    ensures enabled && 0 <= active <= |frames| ==> |r| == active
    ensures |r| <= |frames|
    ensures forall k :: 0 <= k < |r| ==> r[k] == Layer(k, frames[k])
  {
    if enabled then LayersFrom(frames, active, 0) else []
  }

  /** A frame is shown as onion skin exactly when enabled and it precedes the active frame. */
  lemma OnionShowsExactlyEarlier(frames: seq<Frame>, active: int, enabled: bool, j: int)
    requires 0 <= j < |frames|
    ensures (exists k :: 0 <= k < |OnionLayers(frames, active, enabled)|
               && OnionLayers(frames, active, enabled)[k].index == j)
        <==> enabled && j < active
  {
    var r := OnionLayers(frames, active, enabled);
    if enabled && j < active {
      assert r[j].index == j;
    }
  }

  // ---------------------------------------------------------------------
  // The component's mutable state
  // ---------------------------------------------------------------------

  class Canvas {
    /** What the buffer shows: the frame last loaded, then the dots stamped since. */
    var surface: seq<Dot>
    /** The isDrawing flag. */
    var isDrawing: bool
    /** The frame-load effect's dependencies (active index, frame) at its last run. */
    var deps: Option<(int, Frame)>

    /** A fresh canvas: empty buffer, not drawing, load effect not yet run. */
    constructor ()
      ensures surface == [] && !isDrawing && deps == None
    {
      surface := [];
      isDrawing := false;
      deps := None;
    }

    function Current(): Gesture
      reads this
    {
      Gesture(isDrawing, surface)
    }

    /**
     * The frame-load effect after a render with these props: when the active
     * index or its frame differ from the last run, the buffer is cleared and
     * the frame drawn, replacing the content wholesale.
     */
    method LoadFrameEffect(active: int, current: Frame)
      modifies this
      ensures deps == Some((active, current))
      ensures isDrawing == old(isDrawing)
      ensures surface == if old(deps) == Some((active, current)) then old(surface) else current.dots
    {
      if deps != Some((active, current)) {
        surface := current.dots;
        deps := Some((active, current));
      }
    }

    /** Mouse-down or touch-start: start drawing and stamp at once, whatever the prior state. */
    method HandleMouseDown(p: Pointer)
      modifies this
      ensures isDrawing
      ensures surface == old(surface) + [StampAt(p)]
      ensures deps == old(deps)
      ensures Current() == Step(old(Current()), Down(p)).after
    {
      isDrawing := true;
      surface := surface + [StampAt(p)];
    }

    /** Mouse-move or touch-move: stamp only while drawing. */
    method HandleMouseMove(p: Pointer)
      modifies this
      ensures isDrawing == old(isDrawing)
      ensures surface == if old(isDrawing) then old(surface) + [StampAt(p)] else old(surface)
      ensures deps == old(deps)
      ensures Current() == Step(old(Current()), Move(p)).after
    {
      if isDrawing {
        surface := surface + [StampAt(p)];
      }
    }

    /**
     * Mouse-up, mouse-leave or touch-end: stop drawing and hand one snapshot
     * of the buffer to onUpdate, only if a gesture was open.
     */
    method HandleMouseUp() returns (saved: Option<Frame>)
      modifies this
      ensures !isDrawing
      ensures saved.Some? <==> old(isDrawing)
      ensures saved.Some? ==> saved.value == Frame(old(surface))
      ensures surface == old(surface) && deps == old(deps)
      ensures forall e :: IsGestureEnd(e) ==> Outcome(Current(), saved) == Step(old(Current()), e)
    {
      saved := None;
      if isDrawing {
        isDrawing := false;
        saved := Some(Frame(surface));
      }
    }
  }
}
