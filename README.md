# Dot Animator 120 — a Dafny model of its session state, drawing gesture and preview loop

The animator lets a user draw white dots on a black 120×120 canvas across four
frames. It shows earlier frames as onion skin, plays a looping preview, and
exports the frames. This project models and proves the logic behind that:

- **App** (`app.dfy`, from `App.tsx`). The frame store is a fixed sequence of
  `TOTAL_FRAMES` frames. It also holds the active frame index and the
  onion-skin flag. `handleUpdateFrame`, `handleClearFrame` and
  `clearCurrentFrame` each copy the array and overwrite one slot. There are
  also frame selection, the onion-skin toggle and the download hand-off. App
  owns its `PixelCanvas`. Its invariant `Valid()` says:
  - the canvas has been loaded with the active frame;
  - its buffer is that frame followed by the dots of the gesture still open, or
    the frame itself when no gesture is open (the buffer is always flushed when
    a gesture ends).
- **PixelCanvas** (`pixel_canvas.dfy`, from `components/PixelCanvas.tsx`):
  - the mapping `floor((client - origin) / SCALE_FACTOR)` from display to buffer
    coordinates;
  - the `isDrawing` state machine. Pointer-down always stamps. Move stamps only
    while drawing. Up, leave and touch-end save once, and only if drawing. It
    is written both as the `Canvas` class and as a pure `Step`/`Run`
    specification, and the trace lemmas are proved on the specification;
  - the frame-load effect, which remembers its dependencies and replaces the
    buffer wholesale when they change;
  - the onion-skin filter `index < activeFrameIndex`.
- **PreviewPlayer** (`preview_player.dfy`, from `components/PreviewPlayer.tsx`):
  - the preview index advanced by `(prev + 1) % frames.length` on each timer
    tick, only while an interval is live;
  - the play/pause toggle, which never resets the index;
  - the fps slider, bounded to [1, 12];
  - the interval as a resource. The effect's cleanup clears it before a new one
    is set, so the host never holds more than one live interval for the
    component, and none after unmount.
- **Types** (`types.dfy`, from `types.ts`) holds the constants 120×120, radius
  2, 4 frames and scale 3, and the `Dot` and `Frame` values. **Wrappers** holds
  `Option`.

A frame in the program is a PNG data URL. Here a frame is the image that URL
encodes: the black background with an ordered list of stamped dots
(`Frame(dots)`), and the blank frame is `Frame([])`. This covers every frame
the program can hold, because frames come only from `createBlankFrame` (a black
canvas, per the comment at App.tsx:30) and from lossless PNG snapshots of the
drawing buffer. A snapshot of the buffer is therefore the buffer's dot list.
Loading a frame clears the buffer and draws the frame, so the buffer becomes
exactly that frame's dot list.

## Model

| member | source | states |
|---|---|---|
| App.InitialFrames | App.tsx:31-38 | yields exactly TOTAL_FRAMES frames, every one the blank frame (loop with invariants) |
| App.App.constructor | App.tsx:40-42 | all frames blank, active index 0, onion skin on, canvas loaded with frame 0, not drawing, and the session invariant holds |
| App.App.UpdateFrame | App.tsx:44-50 | the entry at the active index becomes the new data; length, every other entry, the active index and the flag are unchanged; the canvas reloads only if the data differs |
| App.App.ClearFrame | App.tsx:52-58 | entry i becomes blank; other entries, the active index and the flag are unchanged; clearing the active frame while idle leaves the buffer blank |
| App.App.ClearCurrentFrame | App.tsx:60 | the same as ClearFrame at the active index: that slot becomes blank, the others, the index, the flag and isDrawing are unchanged, and the buffer empties unless the frame was already blank |
| App.App.SelectFrame | App.tsx:97 | the active index becomes i, frames are unchanged, and the canvas shows frame i |
| App.App.ToggleOnionSkin | App.tsx:117 | negates the onion-skin flag and changes nothing else, so two toggles restore it |
| App.App.Download | App.tsx:62-64 | hands all TOTAL_FRAMES frames, in order and unchanged, to the export sink |
| App.App.Render | App.tsx:106-112 | passes the active index and its frame to the canvas's load effect and re-establishes the session invariant |
| App.App.OnionSkinLayers | App.tsx:109-111 | the overlays for the session: none when onion skin is off, otherwise exactly frames 0 to active-1 in order |
| App.App.PointerDown | components/PixelCanvas.tsx:67-78 | opens a gesture with one dot at the mapped point; the frame store is untouched |
| App.App.PointerMove | components/PixelCanvas.tsx:80-92 | adds a dot only while a gesture is open; the store is untouched |
| App.App.PointerEnd | components/PixelCanvas.tsx:94-99 | an open gesture closes and its snapshot is written at the active index exactly once; with no open gesture nothing changes |
| App.TapOnFreshAnimator | components/PixelCanvas.tsx:61-65 | one tap on a fresh animator leaves frame 0 holding exactly one white radius-2 dot at the mapped point, and frames 1 to 3 blank |
| PixelCanvas.ToBuffer | components/PixelCanvas.tsx:50-51 | the result b is the floor of (client - origin) / 3: 3b <= offset < 3b + 3, so negative offsets map below zero |
| PixelCanvas.StampAt | components/PixelCanvas.tsx:50-55 | the dot drawDot paints is white, has radius DOT_RADIUS, and is centred at the floor of each offset divided by 3 |
| PixelCanvas.StampInsideCanvas | components/PixelCanvas.tsx:46-56 | display offsets in [0, 360) stamp at buffer coordinates in [0, 120) |
| PixelCanvas.Step | components/PixelCanvas.tsx:67-99 | after one event: drawing if and only if it was a Down, or a Move while drawing; a snapshot of the buffer if and only if a gesture end found a gesture open; a dot added exactly when drawing after a Down or Move |
| PixelCanvas.Run | components/PixelCanvas.tsx:135-141 | a sequence of handler runs saves at most once per event |
| PixelCanvas.StampsAreWhiteDots | components/PixelCanvas.tsx:53-55 | along any event sequence the buffer only grows, and every added dot is white with radius DOT_RADIUS |
| PixelCanvas.NoDuplicateSave | components/PixelCanvas.tsx:94-99 | over any event sequence, saves plus a still-open gesture never exceed gesture starts plus an initially open gesture |
| PixelCanvas.UnsavedKeepsState | components/PixelCanvas.tsx:80-99 | without a save an open gesture stays open, and an idle canvas either stays exactly as it was or opens a gesture |
| PixelCanvas.SaveFlushesSurface | components/PixelCanvas.tsx:61-65 | when a sequence ends idle after a save, the last snapshot saved equals the buffer |
| PixelCanvas.LayersFrom | components/PixelCanvas.tsx:104-106 | from position i, the map-then-drop-null yields exactly the frames i up to active (clamped to the length), in order and keyed by index |
| PixelCanvas.OnionLayers | components/PixelCanvas.tsx:104-106 | no layers when disabled; when enabled, exactly frames 0 to active-1, in order; so none when active is 0 |
| PixelCanvas.OnionShowsExactlyEarlier | components/PixelCanvas.tsx:104-106 | frame j is an overlay if and only if onion skin is on and j < active |
| PixelCanvas.Canvas.constructor | components/PixelCanvas.tsx:20-21 | not drawing, empty buffer, load effect not yet run |
| PixelCanvas.Canvas.LoadFrameEffect | components/PixelCanvas.tsx:35-44 | when the active index or frame data differ from the last run, the buffer is replaced wholesale by the frame, so earlier strokes are discarded; otherwise nothing changes |
| PixelCanvas.Canvas.HandleMouseDown | components/PixelCanvas.tsx:67-78 | drawing becomes true and one dot is stamped at the mapped point, whatever the prior state |
| PixelCanvas.Canvas.HandleMouseMove | components/PixelCanvas.tsx:80-92 | stamps one dot only when drawing; otherwise buffer and state are unchanged |
| PixelCanvas.Canvas.HandleMouseUp | components/PixelCanvas.tsx:94-99 | up, leave and touch-end all end not-drawing; a snapshot of the buffer comes out exactly when a gesture was open; the buffer is unchanged |
| PreviewPlayer.Advance | components/PreviewPlayer.tsx:16 | for a non-negative index and length n > 0, one tick's index lies in [0, n) |
| PreviewPlayer.AdvanceTimesIsModular | components/PreviewPlayer.tsx:16 | k ticks from index i in range give (i + k) mod n |
| PreviewPlayer.TicksFromZero | components/PreviewPlayer.tsx:16 | k ticks from index 0 give k mod n |
| PreviewPlayer.FiveTicksOfFourFrames | components/PreviewPlayer.tsx:8-20 | a fresh four-frame preview shows index 1 after five ticks |
| PreviewPlayer.PauseResumeKeepsIndex | components/PreviewPlayer.tsx:44 | two ticks, a pause, a tick while paused, a resume and a tick leave the index at 3: pausing neither advances nor resets it |
| PreviewPlayer.FpsChangeRestartsTimer | components/PreviewPlayer.tsx:12-20 | changing the rate to 7 while playing leaves exactly one live interval, a new one at 7 fps in place of the 5 fps one set at mount |
| PreviewPlayer.SliderValue | components/PreviewPlayer.tsx:55-60 | the fps taken from the slider is always in [1, 12] and equals the requested value when that is in range |
| PreviewPlayer.Preview.constructor | components/PreviewPlayer.tsx:8-10 | index 0, playing, fps 5, and one interval live |
| PreviewPlayer.Preview.RestartEffect | components/PreviewPlayer.tsx:12-20 | the previous interval is cleared before a new one is set, and a new one is set only while playing; at most one stays live |
| PreviewPlayer.Preview.Tick | components/PreviewPlayer.tsx:15-17 | with a live interval the index becomes (index + 1) mod length, within [0, length); while paused it is unchanged |
| PreviewPlayer.Preview.TogglePlay | components/PreviewPlayer.tsx:44 | negates isPlaying, keeps the index and the mounted state, clears the old interval and starts a fresh one only when now playing |
| PreviewPlayer.Preview.SetFps | components/PreviewPlayer.tsx:60 | fps becomes the slider value and the component stays mounted; an actual change clears the old interval and, while playing, leaves a fresh one live at the new rate; the same value leaves the interval alone |
| PreviewPlayer.Preview.SetFrameCount | components/PreviewPlayer.tsx:20 | a changed frames.length clears the old interval and, while playing, leaves a fresh one live for the new length; the index and the mounted state are kept |
| PreviewPlayer.Preview.Unmount | components/PreviewPlayer.tsx:19 | the cleanup clears the interval, so no interval stays live |

## Left out

- Pixel rasterisation (`arc` and `fill`, `clearRect`, `drawImage`), PNG encoding by `toDataURL` and `createBlankFrame` are not modelled. A frame is modelled by its ordered dot list, and encoding is taken to be lossless.
- `utils/download` is not part of this model. It holds `downloadFrames`, FITS serialisation and file naming. Download is modelled only as handing the frame sequence to a sink.
- Image decoding is asynchronous in the program (`img.onload`). Here a load is a synchronous wholesale replace, so the model does not capture a stroke drawn before a pending load finishes.
- The null checks on `ctx` and `canvasRef.current` are not modelled. The canvas is taken as mounted with a context from the first load on.
- Coordinates are integers. Browser client coordinates and `getBoundingClientRect` are floating point in the program.
- Touch and mouse event extraction are reduced to one pointer sample per event. `preventDefault` is not modelled.
- React's `setState` batching and render scheduling are not modelled. Each handler's state change is followed by one render, and that render runs the load effect.
- Onion-skin opacity 0.5, the `screen` blend mode and all markup and styling are left out. Only the list of layers is modelled.
- Real timer periods (`1000 / fps`) are not modelled. Ticks are discrete events delivered to the live interval.
- PreviewPlayer.Preview.SetFrameCount: requires a length above zero. With an empty frame list the program computes `% 0` (NaN), which is not modelled. The App always passes TOTAL_FRAMES frames.
- PreviewPlayer.Advance: requires a non-negative index. JavaScript's `%` truncates toward zero while Dafny's is Euclidean, so the two differ only for negative indices, which the component never holds (it starts at 0 and only ever stores remainders).
- PreviewPlayer.SliderValue: models the browser's sanitising of the range input (min 1, max 12, step 1) for integer requests only.
- The rendering of `frames[currentPreviewIndex]` in the preview is output with no state, so it is not modelled.
- components/FrameList.tsx is not modelled: its two callbacks are `App.App.SelectFrame` and `App.App.ClearFrame`.
