/**
 * The looping preview (components/PreviewPlayer.tsx): a display index
 * advanced by a periodic timer while playing, a play/pause toggle, an fps
 * slider, and the timer's acquisition and release by the component's effect.
 * Timer ticks are discrete events; the period 1000 / fps is not modelled.
 */
module PreviewPlayer {
  import opened Wrappers

  const INITIAL_FPS: int := 5
  const MIN_FPS: int := 1
  const MAX_FPS: int := 12

  /** The index after one tick of an interval created for n frames. */
  function Advance(i: int, n: int): (r: int)
    requires 0 <= i && n > 0
    ensures 0 <= r < n
  {
    (i + 1) % n
  }

  /** The index after k consecutive ticks. */
  function AdvanceTimes(i: int, k: nat, n: int): int
    requires 0 <= i && n > 0
    decreases k
  {
    if k == 0 then i else AdvanceTimes(Advance(i, n), k - 1, n)
  }

  /** Ticking k times from an index in range moves it k places round the cycle. */
  lemma {:induction false} AdvanceTimesIsModular(i: int, k: nat, n: int)
    requires 0 <= i < n
    ensures AdvanceTimes(i, k, n) == (i + k) % n
    decreases k
  {
    if k == 0 {
      SmallRemainder(i, n);
    } else {
      AdvanceTimesIsModular(Advance(i, n), k - 1, n);
      if i + 1 < n {
        SmallRemainder(i + 1, n);
      } else {
        SmallRemainder(0, n);
        assert Advance(i, n) == 0 by { WrapAround(0, n); }
        WrapAround(k - 1, n);
      }
    }
  }

  /** A value already inside the cycle is its own remainder. */
  lemma SmallRemainder(x: int, n: int)
    requires 0 <= x < n
    ensures x % n == x
  {
  }

  /** Adding one full cycle does not change the remainder. */
  lemma WrapAround(a: nat, n: int)
    requires n > 0
    ensures (a + n) % n == a % n
  {
    var q, r := a / n, a % n;
    var q', r' := (a + n) / n, (a + n) % n;
    assert n * (q + 1 - q') == r' - r;
    MultipleInsideOneCycle(n, q + 1 - q');
  }

  /** The only multiple of n strictly between -n and n is zero. */
  lemma MultipleInsideOneCycle(n: int, m: int)
    requires n > 0 && -n < n * m < n
    ensures m == 0
  {
  }

  /** The browser sanitises a range input with min 1, max 12, step 1 into that range. */
  function SliderValue(requested: int): (v: int)
    ensures MIN_FPS <= v <= MAX_FPS
    ensures MIN_FPS <= requested <= MAX_FPS ==> v == requested
    ensures requested < MIN_FPS ==> v == MIN_FPS
    ensures requested > MAX_FPS ==> v == MAX_FPS
  {
    if requested < MIN_FPS then MIN_FPS else if requested > MAX_FPS then MAX_FPS else requested
  }

  /** A live periodic callback: its host handle and the values it closed over. */
  datatype Interval = Interval(id: nat, fps: int, length: int)

  class Preview {
    var currentPreviewIndex: int
    var isPlaying: bool
    var fps: int
    /** frames.length, as last passed in by the parent. */
    var frameCount: int
    /** The interval this component's effect currently holds, if any. */
    var interval: Option<Interval>
    /** The handles of every interval registered with the host and not yet cleared. */
    var live: set<nat>
    /** The handle the host gives to the next interval. */
    var nextId: nat
    var mounted: bool

    /** The host's live set is exactly the interval the component holds: at most one is live. */
    ghost predicate TimerBookkeeping()
      reads this
    {
      && 0 <= currentPreviewIndex
      && MIN_FPS <= fps <= MAX_FPS
      && frameCount > 0
      && live == (if interval.Some? then {interval.value.id} else {})
      && (interval.Some? ==> interval.value.id < nextId)
    }

    /** An interval is live exactly while mounted and playing, and it closed over the current fps and length. */
    ghost predicate Valid()
      reads this
    {
      && TimerBookkeeping()
      && (interval.Some? <==> mounted && isPlaying)
      && (interval.Some? ==> interval.value.fps == fps && interval.value.length == frameCount)
    }

    /** Mount: index 0, playing, 5 fps; the effect's first run starts one interval. */
    constructor (n: int)
      requires n > 0
      ensures Valid()
      ensures currentPreviewIndex == 0 && isPlaying && fps == INITIAL_FPS && frameCount == n
      ensures mounted && interval.Some?
    {
      currentPreviewIndex := 0;
      isPlaying := true;
      fps := INITIAL_FPS;
      frameCount := n;
      mounted := true;
      live := {0};
      interval := Some(Interval(0, INITIAL_FPS, n));
      nextId := 1;
    }

    /**
     * One run of the effect after a dependency changed: the cleanup clears
     * the previous interval, then, when playing, a new one is set.
     */
    method RestartEffect()
      requires TimerBookkeeping() && mounted
      modifies this
      ensures Valid()
      ensures old(interval).Some? ==> old(interval).value.id !in live
      ensures interval.Some? ==> interval.value.id !in old(live)
      ensures interval.Some? <==> isPlaying
      ensures currentPreviewIndex == old(currentPreviewIndex) && isPlaying == old(isPlaying)
      ensures fps == old(fps) && frameCount == old(frameCount) && mounted
    {
      if interval.Some? {
        live := live - {interval.value.id};
        interval := None;
      }
      if isPlaying {
        interval := Some(Interval(nextId, fps, frameCount));
        live := live + {nextId};
        nextId := nextId + 1;
      }
    }

    /**
     * A timer event: the live interval, if there is one, sets the index to
     * the next one modulo the frame count it closed over.
     */
    method Tick()
      requires Valid()
      modifies this
      ensures Valid()
      ensures currentPreviewIndex ==
        if old(interval).Some? then Advance(old(currentPreviewIndex), frameCount) else old(currentPreviewIndex)
      ensures old(interval).Some? ==> 0 <= currentPreviewIndex < frameCount
      ensures !old(isPlaying) ==> currentPreviewIndex == old(currentPreviewIndex)
      ensures isPlaying == old(isPlaying) && fps == old(fps) && frameCount == old(frameCount)
      ensures interval == old(interval) && live == old(live) && mounted == old(mounted)
    {
      if interval.Some? {
        currentPreviewIndex := Advance(currentPreviewIndex, interval.value.length);
      }
    }

    /** The play/pause button: negates isPlaying, never touches the index. */
    method TogglePlay()
      requires Valid() && mounted
      modifies this
      ensures Valid()
      ensures isPlaying == !old(isPlaying)
      ensures currentPreviewIndex == old(currentPreviewIndex)
      ensures fps == old(fps) && frameCount == old(frameCount) && mounted == old(mounted)
      ensures old(interval).Some? ==> old(interval).value.id !in live
      ensures interval.Some? <==> isPlaying
      ensures interval.Some? ==> interval.value.id !in old(live)
    {
      isPlaying := !isPlaying;
      RestartEffect();
    }

    /** The fps slider's change handler. */
    method SetFps(requested: int)
      requires Valid() && mounted
      modifies this
      ensures Valid()
      ensures fps == SliderValue(requested)
      ensures currentPreviewIndex == old(currentPreviewIndex) && isPlaying == old(isPlaying)
      ensures frameCount == old(frameCount) && mounted == old(mounted)
      ensures fps == old(fps) ==> interval == old(interval) && live == old(live)
      ensures fps != old(fps) && old(interval).Some? ==> old(interval).value.id !in live
      ensures fps != old(fps) && isPlaying ==>
        interval.Some? && interval.value.id !in old(live) && interval.value.fps == fps
    {
      var v := SliderValue(requested);
      if v != fps {
        fps := v;
        RestartEffect();
      }
    }

    /** A new frames prop from the parent; only its length is a dependency of the effect. */
    method SetFrameCount(n: int)
      requires Valid() && mounted && n > 0
      modifies this
      ensures Valid()
      ensures frameCount == n
      ensures currentPreviewIndex == old(currentPreviewIndex) && isPlaying == old(isPlaying)
      ensures fps == old(fps) && mounted == old(mounted)
      ensures n == old(frameCount) ==> interval == old(interval) && live == old(live)
      ensures n != old(frameCount) && old(interval).Some? ==> old(interval).value.id !in live
      ensures n != old(frameCount) && isPlaying ==>
        interval.Some? && interval.value.id !in old(live) && interval.value.length == n
    {
      if n != frameCount {
        frameCount := n;
        RestartEffect();
      }
    }

    /** Unmount: the effect's cleanup clears the interval; no timer outlives the component. */
    method Unmount()
      requires Valid()
      modifies this
      ensures Valid()
      ensures live == {} && interval == None && !mounted
      ensures currentPreviewIndex == old(currentPreviewIndex)
    {
      if interval.Some? {
        live := live - {interval.value.id};
        interval := None;
      }
      mounted := false;
    }
  }

  /** Five ticks of a fresh four-frame preview show the second frame (5 mod 4 == 1). */
  method FiveTicksOfFourFrames() returns (shown: int)
    ensures shown == 1
  {
    var p := new Preview(4);
    p.Tick();
    p.Tick();
    p.Tick();
    p.Tick();
    p.Tick();
    shown := p.currentPreviewIndex;
  }

  /** Pausing and resuming keep the index: two ticks, pause, an idle tick, resume, one tick. */
  method PauseResumeKeepsIndex() returns (shown: int)
    ensures shown == 3
  {
    var p := new Preview(4);
    p.Tick();
    p.Tick();
    p.TogglePlay();
    p.Tick();
    p.TogglePlay();
    p.Tick();
    shown := p.currentPreviewIndex;
  }

  /** A new rate while playing replaces the interval with one at that rate. */
  method FpsChangeRestartsTimer() returns (first: Option<Interval>, running: Option<Interval>, liveCount: nat)
    ensures first.Some? && first.value.fps == INITIAL_FPS
    ensures running.Some? && running.value.fps == 7 && running.value.id != first.value.id
    ensures liveCount == 1
  {
    var p := new Preview(4);
    first := p.interval;
    p.SetFps(7);
    running := p.interval;
    liveCount := |p.live|;
  }

  /** From index 0, k ticks while playing give k mod n. */
  lemma TicksFromZero(k: nat, n: int)
    requires n > 0
    ensures AdvanceTimes(0, k, n) == k % n
  {
    AdvanceTimesIsModular(0, k, n);
  }
}
