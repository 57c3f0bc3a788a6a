/**
 * The top-level component (App.tsx): the frame store, the active frame
 * index and the onion-skin flag, and the wiring that connects the drawing
 * canvas to them (the canvas saves through handleUpdateFrame, and reloads
 * whenever the active frame or its data change).
 */
module App {
  import opened Wrappers
  import opened Types
  import opened PixelCanvas

  /** The frame-array initialiser: TOTAL_FRAMES copies of the blank frame. */
  method InitialFrames() returns (frames: seq<Frame>)
    ensures |frames| == TOTAL_FRAMES
    ensures forall i :: 0 <= i < |frames| ==> frames[i] == BLANK
  {
    frames := [];
    var blank := BLANK;
    var i := 0;
    while i < TOTAL_FRAMES
      invariant 0 <= i <= TOTAL_FRAMES
      invariant |frames| == i
      invariant forall j :: 0 <= j < i ==> frames[j] == blank
    {
      frames := frames + [blank];
      i := i + 1;
    }
  }

  class App {
    var frames: seq<Frame>
    var activeFrameIndex: int
    var onionSkin: bool
    /** The PixelCanvas this component renders. */
    const canvas: Canvas

    /**
     * The store has TOTAL_FRAMES frames and the active index addresses one;
     * the canvas has been loaded with the active frame, and its buffer is
     * that frame followed by the dots of the open gesture, or the frame
     * itself once no gesture is open.
     */
    ghost predicate Valid()
      reads this, canvas
    {
      && Sized()
      && canvas.deps == Some((activeFrameIndex, frames[activeFrameIndex]))
      && Matches()
    }

    /** The store has TOTAL_FRAMES frames, the active index addresses one, and the canvas has loaded once. */
    ghost predicate Sized()
      reads this, canvas
    {
      && |frames| == TOTAL_FRAMES
      && 0 <= activeFrameIndex < TOTAL_FRAMES
      && canvas.deps.Some?
    }

    /** The buffer is the active frame followed by the open gesture's dots, or the frame itself when idle. */
    ghost predicate Matches()
      reads this, canvas
      requires Sized()
    {
      && frames[activeFrameIndex].dots <= canvas.surface
      && (!canvas.isDrawing ==> canvas.surface == frames[activeFrameIndex].dots)
    }

    /** Start-up: every frame blank, frame 0 active, onion skin on, frame 0 loaded. */
    constructor ()
      ensures Valid() && fresh(canvas)
      ensures |frames| == TOTAL_FRAMES && forall i :: 0 <= i < |frames| ==> frames[i] == BLANK
      ensures activeFrameIndex == 0 && onionSkin
      ensures !canvas.isDrawing && canvas.surface == []
    {
      var initial := InitialFrames();
      frames := initial;
      activeFrameIndex := 0;
      onionSkin := true;
      canvas := new Canvas();
      new;
      canvas.LoadFrameEffect(activeFrameIndex, frames[activeFrameIndex]);
    }

    /** Re-render: hand the active index and its frame to the canvas's load effect. */
    method Render()
      requires Sized()
      requires canvas.deps == Some((activeFrameIndex, frames[activeFrameIndex])) ==> Matches()
      modifies canvas
      ensures Valid()
      ensures canvas.isDrawing == old(canvas.isDrawing)
      ensures canvas.surface ==
        if old(canvas.deps) == Some((activeFrameIndex, frames[activeFrameIndex])) then old(canvas.surface)
        else frames[activeFrameIndex].dots
    {
      canvas.LoadFrameEffect(activeFrameIndex, frames[activeFrameIndex]);
    }

    /** handleUpdateFrame: the new data replaces the active frame, and only it. */
    method UpdateFrame(newData: Frame)
      requires Sized() && canvas.deps == Some((activeFrameIndex, frames[activeFrameIndex]))
      requires frames[activeFrameIndex].dots <= canvas.surface
      requires newData == frames[activeFrameIndex] && !canvas.isDrawing ==> canvas.surface == newData.dots
      modifies this, canvas
      ensures Valid()
      ensures |frames| == |old(frames)|
      ensures frames[old(activeFrameIndex)] == newData
      ensures forall j :: 0 <= j < |frames| && j != old(activeFrameIndex) ==> frames[j] == old(frames)[j]
      ensures activeFrameIndex == old(activeFrameIndex) && onionSkin == old(onionSkin)
      ensures canvas.isDrawing == old(canvas.isDrawing)
      ensures canvas.surface == if old(frames)[activeFrameIndex] == newData then old(canvas.surface) else newData.dots
    {
      frames := frames[activeFrameIndex := newData];
      Render();
    }

    /** handleClearFrame: frame i becomes blank; other frames and the active index stay. */
    method ClearFrame(i: int)
      requires Valid() && 0 <= i < |frames|
      modifies this, canvas
      ensures Valid()
      ensures |frames| == |old(frames)| && frames[i] == BLANK
      ensures forall j :: 0 <= j < |frames| && j != i ==> frames[j] == old(frames)[j]
      ensures activeFrameIndex == old(activeFrameIndex) && onionSkin == old(onionSkin)
      ensures canvas.isDrawing == old(canvas.isDrawing)
      ensures i != activeFrameIndex ==> canvas.surface == old(canvas.surface)
      ensures i == activeFrameIndex ==>
        canvas.surface == if old(frames)[i] == BLANK then old(canvas.surface) else []
      ensures i == activeFrameIndex && !canvas.isDrawing ==> canvas.surface == []
    {
      frames := frames[i := BLANK];
      Render();
    }

    /** clearCurrentFrame: handleClearFrame at the active index. */
    method ClearCurrentFrame()
      requires Valid()
      modifies this, canvas
      ensures Valid()
      ensures |frames| == |old(frames)| && frames[activeFrameIndex] == BLANK
      ensures forall j :: 0 <= j < |frames| && j != activeFrameIndex ==> frames[j] == old(frames)[j]
      ensures activeFrameIndex == old(activeFrameIndex) && onionSkin == old(onionSkin)
      ensures canvas.isDrawing == old(canvas.isDrawing)
      ensures canvas.surface == if old(frames)[activeFrameIndex] == BLANK then old(canvas.surface) else []
      ensures !canvas.isDrawing ==> canvas.surface == []
    {
      ClearFrame(activeFrameIndex);
    }

    /** onSelectFrame: the chosen frame becomes active and is loaded; frames are unchanged. */
    method SelectFrame(i: int)
      requires Valid() && 0 <= i < |frames|
      modifies this, canvas
      ensures Valid()
      ensures activeFrameIndex == i
      ensures frames == old(frames) && onionSkin == old(onionSkin)
      ensures canvas.isDrawing == old(canvas.isDrawing)
      ensures canvas.surface == if i == old(activeFrameIndex) then old(canvas.surface) else frames[i].dots
    {
      activeFrameIndex := i;
      Render();
    }

    /** The onion-skin button: negates the flag and nothing else. */
    method ToggleOnionSkin()
      requires Valid()
      modifies this
      ensures Valid()
      ensures onionSkin == !old(onionSkin)
      ensures frames == old(frames) && activeFrameIndex == old(activeFrameIndex)
    {
      onionSkin := !onionSkin;
    }

    /** handleDownload: the whole frame sequence, in order and unchanged, goes to the export sink. */
    method Download() returns (exported: seq<Frame>)
      requires Valid()
      ensures |exported| == TOTAL_FRAMES
      ensures forall j :: 0 <= j < |exported| ==> exported[j] == frames[j]
    {
      exported := frames;
    }

    /** The overlays the canvas renders for the current session state. */
    function OnionSkinLayers(): (r: seq<Layer>)
      reads this
      ensures !onionSkin ==> r == []
      ensures onionSkin && 0 <= activeFrameIndex <= |frames| ==> |r| == activeFrameIndex
      ensures forall k :: 0 <= k < |r| ==> k < |frames| && r[k] == Layer(k, frames[k])
    {
      OnionLayers(frames, activeFrameIndex, onionSkin)
    }

    /** Pointer-down on the canvas: a gesture opens with one dot; the store is untouched. */
    method PointerDown(p: Pointer)
      requires Valid()
      modifies canvas
      ensures Valid()
      ensures canvas.isDrawing && canvas.surface == old(canvas.surface) + [StampAt(p)]
    {
      canvas.HandleMouseDown(p);
    }

    /** Pointer-move on the canvas: a dot only while a gesture is open; the store is untouched. */
    method PointerMove(p: Pointer)
      requires Valid()
      modifies canvas
      ensures Valid()
      ensures canvas.isDrawing == old(canvas.isDrawing)
      ensures canvas.surface == if old(canvas.isDrawing) then old(canvas.surface) + [StampAt(p)] else old(canvas.surface)
    {
      canvas.HandleMouseMove(p);
    }

    /**
     * Mouse-up, mouse-leave or touch-end: an open gesture closes and its
     * snapshot is written at the active index, once; otherwise nothing changes.
     */
    method PointerEnd()
      requires Valid()
      modifies this, canvas
      ensures Valid()
      ensures !canvas.isDrawing
      ensures frames == if old(canvas.isDrawing)
        then old(frames)[activeFrameIndex := Frame(old(canvas.surface))]
        else old(frames)
      ensures canvas.surface == old(canvas.surface)
      ensures activeFrameIndex == old(activeFrameIndex) && onionSkin == old(onionSkin)
    {
      var saved := canvas.HandleMouseUp();
      if saved.Some? {
        UpdateFrame(saved.value);
      }
    }
  }

  /**
   * One tap on a fresh animator: frame 0 then holds exactly one white dot of
   * radius DOT_RADIUS at the mapped point, and the other frames stay blank.
   */
  method TapOnFreshAnimator(p: Pointer) returns (stored: seq<Frame>)
    ensures |stored| == TOTAL_FRAMES
    ensures stored[0] == Frame([Dot(ToBuffer(p.clientX, p.left), ToBuffer(p.clientY, p.top), DOT_RADIUS, WHITE)])
    ensures forall j :: 1 <= j < |stored| ==> stored[j] == BLANK
  {
    var app := new App();
    app.PointerDown(p);
    app.PointerEnd();
    stored := app.Download();
  }
}
