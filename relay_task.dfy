/**
 * One relay worker (`FFmpegRelayTask.call`): open the RTSP grabber and the
 * RTMP recorder, copy frames while the worker's slot lease exists and the
 * thread is not interrupted, refreshing the lease after every frame, and on
 * every way out except a grab that never returns delete the slot key and the
 * camera's map key and stop/release what was opened.
 *
 * Everything outside the worker is an environment script (`Source`): how
 * setup goes, the stream geometry, what every `grab()` returns, and the
 * events (interrupts, deletions, passing time) that happen between loop
 * checks. `Run` is the specification; `Call` implements it step by step
 * against the mutable `Store`.
 */
module RelayTask {
  import opened Wrappers
  import opened LeaseStore

  /** Seconds-to-live the lease gets on every refresh. */
  const LEASE_TTL: nat := 60
  const DEFAULT_WIDTH: int := 640
  const DEFAULT_HEIGHT: int := 480
  const DEFAULT_FRAME_RATE: real := 25.0
  /** The value `call` returns when the loop ends normally. */
  const FINISHED: string := "finished"
  const MAP_KEY_PREFIX: string := "camera:map:"

  /** The key recording which slot a camera holds. */
  function MapKey(cameraId: string): (k: string)
    ensures |k| == |MAP_KEY_PREFIX| + |cameraId|
    ensures k[..|MAP_KEY_PREFIX|] == MAP_KEY_PREFIX && k[|MAP_KEY_PREFIX|..] == cameraId
  {
    MAP_KEY_PREFIX + cameraId
  }

  /** The constructor arguments of one worker; the RTSP address may be null. */
  datatype Params = Params(rtspUrl: Option<string>, rtmpUrl: string, channelKey: string, cameraId: string)

  /** The setup step that throws, if any. */
  datatype Phase = GrabberCreate | GrabberStart | RecorderCreate | RecorderStart
  datatype Setup = Ready | FailsAt(phase: Phase, message: string)

  /** What one `grabber.grab()` does: a frame, `null`, or an exception. */
  datatype Grab = Frame(frame: nat) | NoFrame | GrabFails(message: string)

  /** Things other threads and time do between two loop checks. */
  datatype Event = Interrupt | DeleteKey(key: string) | Elapse(seconds: nat)

  /**
   * One loop iteration as the environment plays it: the grab result, whether
   * the thread is interrupted while grabbing, whether `record` throws, and
   * the events after the lease refresh and before the next check.
   */
  datatype Tick = Tick(grab: Grab, interruptedDuringGrab: bool, recordFails: bool, after: seq<Event>)

  /**
   * The environment of one run. `frameRate` is the grabber's reported rate,
   * `initial` the events during setup. When `ticks` runs out with the loop
   * still running, the next `grab()` never returns.
   */
  datatype Source = Source(setup: Setup, width: int, height: int, frameRate: real,
                           grabberStopFails: bool, recorderStopFails: bool,
                           initial: seq<Event>, ticks: seq<Tick>)

  /** The observable steps of a run, in order. */
  datatype Action =
    | OpenGrabber(source: Option<string>)
    | StartGrabber
    | OpenRecorder(url: string, width: int, height: int, gopSize: int)
    | StartRecorder
    | Record(frame: nat)
    | RecordFailed(frame: nat)
    | Sleep(millis: int)
    | Refresh(key: string)
    | Delete(key: string)
    | StopGrabber
    | ReleaseGrabber
    | StopRecorder
    | ReleaseRecorder

  /** How `call` ends: returns, rethrows the interrupt, throws, or never ends. */
  datatype Outcome = Finished | Interrupted | Failed(message: string) | Blocked

  /** The store and the worker thread's interrupt flag. */
  datatype World = World(store: map<string, Lease>, interrupted: bool)

  // ----- stream parameters -----

  /** `Math.round` on a non-negative or negative real: the floor of x + 1/2. */
  function Round(x: real): (n: int)
    ensures n as real <= x + 0.5 < n as real + 1.0
  {
    (x + 0.5).Floor
  }

  function Width(src: Source): (w: int)
    ensures w > 0
    ensures w == src.width || (src.width <= 0 && w == DEFAULT_WIDTH)
  {
    if src.width > 0 then src.width else DEFAULT_WIDTH
  }

  function Height(src: Source): (h: int)
    ensures h > 0
    ensures h == src.height || (src.height <= 0 && h == DEFAULT_HEIGHT)
  {
    if src.height > 0 then src.height else DEFAULT_HEIGHT
  }

  function FrameRate(src: Source): (f: real)
    ensures f > 0.0
  {
    if src.frameRate > 0.0 then src.frameRate else DEFAULT_FRAME_RATE
  }

  /** `Math.max(1, Math.round(frameRate))`, the GOP size and the sleep divisor. */
  function RoundedRate(src: Source): (n: int)
    ensures n >= 1
  {
    var r := Round(FrameRate(src));
    if r < 1 then 1 else r
  }

  /** The pause after a `null` frame: one frame interval in milliseconds. */
  function SleepMillis(src: Source): (ms: int)
    ensures 0 <= ms <= 1000
  {
    1000 / RoundedRate(src)
  }

  // ----- the environment -----

  function ApplyEvent(w: World, e: Event): World
  {
    match e
    case Interrupt => w.(interrupted := true)
    case DeleteKey(k) => w.(store := w.store - {k})
    case Elapse(n) => w.(store := Aged(w.store, n))
  }

  function ApplyEvents(w: World, es: seq<Event>): World
    decreases |es|
  {
    if es == [] then w else ApplyEvents(ApplyEvent(w, es[0]), es[1..])
  }

  // ----- the specification -----

  /** How the copy loop ends. */
  datatype LoopExit = Exited | ThrewInterrupted | ThrewFailure(message: string) | Stalled

  datatype LoopResult = LoopResult(exit: LoopExit, trace: seq<Action>, world: World)

  function Prefix(t: seq<Action>, r: LoopResult): LoopResult
  {
    LoopResult(r.exit, t + r.trace, r.world)
  }

  lemma PrefixAssoc(a: seq<Action>, b: seq<Action>, r: LoopResult)
    ensures Prefix(a + b, r) == Prefix(a, Prefix(b, r))
  {
    assert (a + b) + r.trace == a + (b + r.trace);
  }

  /** The effect of the lease refresh `bucket.expire(60, SECONDS)`. */
  function Refreshed(store: map<string, Lease>, key: string): map<string, Lease>
  {
    if key in store then store[key := store[key].(ttl := LEASE_TTL)] else store
  }

  /** One iteration after a passing check: its steps, world, and exit if it throws. */
  datatype StepResult = StepResult(exit: Option<LoopExit>, trace: seq<Action>, world: World)

  function Body(key: string, t: Tick, w: World, sleepMs: int): StepResult
  {
    var w1 := if t.interruptedDuringGrab then w.(interrupted := true) else w;
    var w2 := ApplyEvents(w1.(store := Refreshed(w1.store, key)), t.after);
    match t.grab
    case GrabFails(m) => StepResult(Some(ThrewFailure(m)), [], w1)
    case NoFrame =>
      if w1.interrupted then StepResult(Some(ThrewInterrupted), [Sleep(sleepMs)], w1)
      else StepResult(None, [Sleep(sleepMs), Refresh(key)], w2)
    case Frame(f) =>
      StepResult(None, [if t.recordFails then RecordFailed(f) else Record(f), Refresh(key)], w2)
  }

  /** The copy loop from one check on, over the remaining ticks. */
  function RunLoop(key: string, ticks: seq<Tick>, w: World, sleepMs: int): LoopResult
    decreases |ticks|
  {
    if w.interrupted || key !in w.store then LoopResult(Exited, [], w)
    else if ticks == [] then LoopResult(Stalled, [], w)
    else
      var s := Body(key, ticks[0], w, sleepMs);
      if s.exit.Some? then LoopResult(s.exit.value, s.trace, s.world)
      else Prefix(s.trace, RunLoop(key, ticks[1..], s.world, sleepMs))
  }

  /** The steps of setup that succeed. */
  function SetupTrace(p: Params, src: Source): seq<Action>
  {
    var g := [OpenGrabber(p.rtspUrl)];
    var gs := g + [StartGrabber];
    var r := gs + [OpenRecorder(p.rtmpUrl, Width(src), Height(src), RoundedRate(src))];
    match src.setup
    case Ready => r + [StartRecorder]
    case FailsAt(phase, _) =>
      match phase
      case GrabberCreate => []
      case GrabberStart => g
      case RecorderCreate => gs
      case RecorderStart => r
  }

  predicate HasGrabber(src: Source)
  {
    !(src.setup.FailsAt? && src.setup.phase == GrabberCreate)
  }

  predicate HasRecorder(src: Source)
  {
    src.setup.Ready? || src.setup.phase == RecorderStart
  }

  /** The `finally` block: both keys, then grabber, then recorder. */
  function Cleanup(p: Params, src: Source): seq<Action>
  {
    [Delete(p.channelKey), Delete(MapKey(p.cameraId))]
    + (if HasGrabber(src) then [StopGrabber] + (if src.grabberStopFails then [] else [ReleaseGrabber]) else [])
    + (if HasRecorder(src) then [StopRecorder] + (if src.recorderStopFails then [] else [ReleaseRecorder]) else [])
  }

  datatype CallResult = CallResult(outcome: Outcome, trace: seq<Action>, world: World)

  function Finish(p: Params, src: Source, outcome: Outcome, trace: seq<Action>, w: World): CallResult
  {
    CallResult(outcome, trace + Cleanup(p, src),
               w.(store := w.store - {p.channelKey} - {MapKey(p.cameraId)}))
  }

  /** The specification of one `call()` on a fresh worker thread. */
  function Run(p: Params, src: Source, store: map<string, Lease>): CallResult
  {
    var w0 := ApplyEvents(World(store, false), src.initial);
    if src.setup.FailsAt? then Finish(p, src, Failed(src.setup.message), SetupTrace(p, src), w0)
    else
      var l := RunLoop(p.channelKey, src.ticks, w0, SleepMillis(src));
      var trace := SetupTrace(p, src) + l.trace;
      match l.exit
      case Stalled => CallResult(Blocked, trace, l.world)
      case Exited => Finish(p, src, Finished, trace, l.world)
      case ThrewInterrupted => Finish(p, src, Interrupted, trace, l.world)
      case ThrewFailure(m) => Finish(p, src, Failed(m), trace, l.world)
  }

  // ----- properties -----

  /** Every step of the copy loop: frames, sleeps and refreshes of its own lease. */
  predicate LoopStep(key: string, a: Action)
  {
    a.Record? || a.RecordFailed? || a.Sleep? || a == Refresh(key)
  }

  /** The loop touches only its own lease and deletes nothing. */
  lemma {:induction false} LoopStepsOnly(key: string, ticks: seq<Tick>, w: World, sleepMs: int)
    ensures forall a | a in RunLoop(key, ticks, w, sleepMs).trace :: LoopStep(key, a)
    decreases |ticks|
  {
    if !(w.interrupted || key !in w.store) && ticks != [] {
      var s := Body(key, ticks[0], w, sleepMs);
      if s.exit.None? {
        LoopStepsOnly(key, ticks[1..], s.world, sleepMs);
      }
    }
  }

  /**
   * The loop ends normally only when the thread is interrupted or the lease
   * is gone, and it stalls only in a grab begun with the lease present.
   */
  lemma {:induction false} ExitMeansStopped(key: string, ticks: seq<Tick>, w: World, sleepMs: int)
    ensures var r := RunLoop(key, ticks, w, sleepMs);
      (r.exit == Exited ==> r.world.interrupted || key !in r.world.store)
      && (r.exit == Stalled ==> !r.world.interrupted && key in r.world.store)
    decreases |ticks|
  {
    if !(w.interrupted || key !in w.store) && ticks != [] {
      var s := Body(key, ticks[0], w, sleepMs);
      if s.exit.None? {
        ExitMeansStopped(key, ticks[1..], s.world, sleepMs);
      }
    }
  }

  /** Total seconds that pass during a run of events. */
  function Elapsed(es: seq<Event>): nat
    decreases |es|
  {
    if es == [] then 0 else (if es[0].Elapse? then es[0].seconds else 0) + Elapsed(es[1..])
  }

  /** No event interrupts the worker or deletes its lease. */
  predicate NoStop(key: string, es: seq<Event>)
  {
    forall i | 0 <= i < |es| :: es[i] != Interrupt && es[i] != DeleteKey(key)
  }

  /** Events keep a lease whose time to live outlasts them, and the flag. */
  lemma {:induction false} QuietEventsKeepLease(key: string, w: World, es: seq<Event>)
    requires key in w.store && NoStop(key, es) && Elapsed(es) < w.store[key].ttl
    ensures var w' := ApplyEvents(w, es);
      key in w'.store && w'.store[key].ttl == w.store[key].ttl - Elapsed(es) && w'.interrupted == w.interrupted
    decreases |es|
  {
    if es != [] {
      assert es[0] != Interrupt && es[0] != DeleteKey(key);
      var w1 := ApplyEvent(w, es[0]);
      assert NoStop(key, es[1..]) by {
        forall i | 0 <= i < |es[1..]| ensures es[1..][i] != Interrupt && es[1..][i] != DeleteKey(key) {
          assert es[1..][i] == es[i + 1];
        }
      }
      QuietEventsKeepLease(key, w1, es[1..]);
    }
  }

  /** Events never create a key. */
  lemma {:induction false} EventsNeverCreate(key: string, w: World, es: seq<Event>)
    requires key !in w.store
    ensures key !in ApplyEvents(w, es).store
    decreases |es|
  {
    if es != [] {
      EventsNeverCreate(key, ApplyEvent(w, es[0]), es[1..]);
    }
  }

  /** A deletion of the key among the events leaves it absent afterwards. */
  lemma {:induction false} DeletionSticks(key: string, w: World, es: seq<Event>)
    requires DeleteKey(key) in es
    ensures key !in ApplyEvents(w, es).store
    decreases |es|
  {
    if es[0] == DeleteKey(key) {
      EventsNeverCreate(key, ApplyEvent(w, es[0]), es[1..]);
    } else {
      DeletionSticks(key, ApplyEvent(w, es[0]), es[1..]);
    }
  }

  /** An iteration that neither throws nor gets stopped. */
  predicate QuietTick(key: string, t: Tick)
  {
    !t.grab.GrabFails? && !t.interruptedDuringGrab && NoStop(key, t.after) && Elapsed(t.after) < LEASE_TTL
  }

  /** The frame numbers the loop hands to the recorder, in order. */
  function Frames(trace: seq<Action>): seq<nat>
    decreases |trace|
  {
    if trace == [] then []
    else (if trace[0].Record? || trace[0].RecordFailed? then [trace[0].frame] else []) + Frames(trace[1..])
  }

  /** The frames the grabber delivers, in order. */
  function Grabbed(ticks: seq<Tick>): seq<nat>
    decreases |ticks|
  {
    if ticks == [] then [] else (if ticks[0].grab.Frame? then [ticks[0].grab.frame] else []) + Grabbed(ticks[1..])
  }

  lemma FramesAppend(a: seq<Action>, b: seq<Action>)
    ensures Frames(a + b) == Frames(a) + Frames(b)
    decreases |a|
  {
    if a != [] {
      assert (a + b)[0] == a[0] && (a + b)[1..] == a[1..] + b;
      FramesAppend(a[1..], b);
      var head: seq<nat> := if a[0].Record? || a[0].RecordFailed? then [a[0].frame] else [];
      assert a + b != [];
      assert Frames(a + b) == head + Frames(a[1..] + b);
      assert Frames(a) == head + Frames(a[1..]);
      assert (head + Frames(a[1..])) + Frames(b) == head + (Frames(a[1..]) + Frames(b));
    } else {
      assert a + b == b;
    }
  }

  /**
   * While nothing stops it and each refresh outlasts the time that passes,
   * the worker keeps its lease through every tick, never exits, and hands
   * every grabbed frame to the recorder in order, even when `record` throws.
   */
  /** One quiet iteration: the lease is refreshed and survives, and the frame (if any) is recorded. */
  lemma QuietBody(key: string, t: Tick, w: World, sleepMs: int)
    requires key in w.store && !w.interrupted && QuietTick(key, t)
    ensures var s := Body(key, t, w, sleepMs);
      s.exit.None? && |s.trace| == 2 && key in s.world.store && !s.world.interrupted
      && Frames(s.trace) == (if t.grab.Frame? then [t.grab.frame] else [])
  {
    var w1 := w.(store := Refreshed(w.store, key));
    QuietEventsKeepLease(key, w1, t.after);
    var s := Body(key, t, w, sleepMs);
    FramesAppend([s.trace[0]], [s.trace[1]]);
    assert [s.trace[0]] + [s.trace[1]] == s.trace;
  }

  lemma {:induction false} RefreshKeepsRelayAlive(key: string, ticks: seq<Tick>, w: World, sleepMs: int)
    requires key in w.store && !w.interrupted
    requires forall i | 0 <= i < |ticks| :: QuietTick(key, ticks[i])
    ensures var r := RunLoop(key, ticks, w, sleepMs);
      r.exit == Stalled && |r.trace| == 2 * |ticks| && Frames(r.trace) == Grabbed(ticks)
    decreases |ticks|
  {
    if ticks != [] {
      var s := Body(key, ticks[0], w, sleepMs);
      QuietBody(key, ticks[0], w, sleepMs);
      RefreshKeepsRelayAlive(key, ticks[1..], s.world, sleepMs);
      FramesAppend(s.trace, RunLoop(key, ticks[1..], s.world, sleepMs).trace);
    }
  }

  /** Deleting the lease during an iteration ends the loop at the next check. */
  lemma StopEndsLoop(key: string, ticks: seq<Tick>, w: World, sleepMs: int)
    requires key in w.store && !w.interrupted && ticks != []
    requires !ticks[0].grab.GrabFails? && !ticks[0].interruptedDuringGrab
    requires DeleteKey(key) in ticks[0].after
    ensures var r := RunLoop(key, ticks, w, sleepMs);
      r.exit == Exited && |r.trace| == 2 && key !in r.world.store
  {
    var w1 := w.(store := Refreshed(w.store, key));
    DeletionSticks(key, w1, ticks[0].after);
  }

  /**
   * Every run that ends deletes the worker's lease and the camera's map key
   * and ends with the cleanup steps; a run whose grab never returns deletes
   * nothing at all.
   */
  lemma CleanupOnEveryExit(p: Params, src: Source, store: map<string, Lease>)
    ensures var r := Run(p, src, store);
      (r.outcome != Blocked ==>
         p.channelKey !in r.world.store && MapKey(p.cameraId) !in r.world.store
         && |Cleanup(p, src)| <= |r.trace| && r.trace[|r.trace| - |Cleanup(p, src)|..] == Cleanup(p, src))
      && (r.outcome == Blocked ==> forall a | a in r.trace :: !a.Delete?)
  {
    var w0 := ApplyEvents(World(store, false), src.initial);
    if src.setup.Ready? {
      LoopStepsOnly(p.channelKey, src.ticks, w0, SleepMillis(src));
    }
  }

  // ----- the implementation -----

  /** The environment's events, applied to the store and the interrupt flag. */
  method Happen(store: Store, interrupted: bool, es: seq<Event>) returns (flag: bool)
    modifies store
    ensures World(store.entries, flag) == ApplyEvents(World(old(store.entries), interrupted), es)
  {
    flag := interrupted;
    var j := 0;
    while j < |es|
      invariant 0 <= j <= |es|
      invariant ApplyEvents(World(store.entries, flag), es[j..]) == ApplyEvents(World(old(store.entries), interrupted), es)
    {
      assert es[j..][1..] == es[j + 1..];
      match es[j] {
        case Interrupt => flag := true;
        case DeleteKey(k) => store.Delete(k);
        case Elapse(n) => store.Elapse(n);
      }
      j := j + 1;
    }
  }

  /** The setup steps of `call()`: grabber, geometry, recorder. */
  method Open(p: Params, src: Source) returns (failure: Option<string>, trace: seq<Action>)
    ensures trace == SetupTrace(p, src)
    ensures failure == if src.setup.FailsAt? then Some(src.setup.message) else None
  {
    trace := [];
    failure := None;
    if src.setup.FailsAt? && src.setup.phase == GrabberCreate {
      failure := Some(src.setup.message);
      return;
    }
    trace := trace + [OpenGrabber(p.rtspUrl)];
    if src.setup.FailsAt? && src.setup.phase == GrabberStart {
      failure := Some(src.setup.message);
      return;
    }
    trace := trace + [StartGrabber];
    var width := if src.width > 0 then src.width else DEFAULT_WIDTH;
    var height := if src.height > 0 then src.height else DEFAULT_HEIGHT;
    var frameRate := if src.frameRate > 0.0 then src.frameRate else DEFAULT_FRAME_RATE;
    var rounded := (frameRate + 0.5).Floor;
    var gop := if rounded < 1 then 1 else rounded;
    if src.setup.FailsAt? && src.setup.phase == RecorderCreate {
      failure := Some(src.setup.message);
      return;
    }
    trace := trace + [OpenRecorder(p.rtmpUrl, width, height, gop)];
    if src.setup.FailsAt? {
      failure := Some(src.setup.message);
      return;
    }
    trace := trace + [StartRecorder];
  }

  /** One pass of the loop body: grab, record or sleep, refresh the lease. */
  method Iterate(store: Store, key: string, t: Tick, interrupted: bool, sleepMs: int)
    returns (exit: Option<LoopExit>, step: seq<Action>, flag: bool)
    modifies store
    ensures StepResult(exit, step, World(store.entries, flag))
      == Body(key, t, World(old(store.entries), interrupted), sleepMs)
  {
    flag := interrupted;
    if t.interruptedDuringGrab {
      flag := true;
    }
    exit := None;
    match t.grab {
      case GrabFails(m) =>
        return Some(ThrewFailure(m)), [], flag;
      case NoFrame =>
        step := [Sleep(sleepMs)];
        if flag {
          return Some(ThrewInterrupted), step, flag;
        }
      case Frame(f) =>
        step := [if t.recordFails then RecordFailed(f) else Record(f)];
    }
    var _ := store.Expire(key, LEASE_TTL);
    step := step + [Refresh(key)];
    flag := Happen(store, flag, t.after);
  }

  /** The copy loop: runs while the thread is not interrupted and the lease exists. */
  method CopyLoop(store: Store, key: string, ticks: seq<Tick>, interrupted: bool, sleepMs: int)
    returns (exit: LoopExit, trace: seq<Action>, flag: bool)
    modifies store
    ensures LoopResult(exit, trace, World(store.entries, flag))
      == RunLoop(key, ticks, World(old(store.entries), interrupted), sleepMs)
  {
    ghost var w0 := World(store.entries, interrupted);
    flag := interrupted;
    trace := [];
    var i := 0;
    var done: Option<LoopExit> := None;
    while done.None?
      invariant 0 <= i <= |ticks|
      invariant done.None? ==>
        Prefix(trace, RunLoop(key, ticks[i..], World(store.entries, flag), sleepMs))
          == RunLoop(key, ticks, w0, sleepMs)
      invariant done.Some? ==>
        LoopResult(done.value, trace, World(store.entries, flag)) == RunLoop(key, ticks, w0, sleepMs)
      decreases |ticks| - i, if done.None? then 1 else 0
    {
      var held := false;
      if !flag {
        held := store.IsExists(key);
      }
      if !held {
        done := Some(Exited);
      } else if i == |ticks| {
        done := Some(Stalled);
      } else {
        assert ticks[i..][0] == ticks[i] && ticks[i..][1..] == ticks[i + 1..];
        ghost var before := trace;
        var step;
        done, step, flag := Iterate(store, key, ticks[i], flag, sleepMs);
        trace := trace + step;
        i := i + 1;
        PrefixAssoc(before, step, RunLoop(key, ticks[i..], World(store.entries, flag), sleepMs));
      }
    }
    exit := done.value;
  }

  /** The `finally` block of `call()`. */
  method Release(store: Store, p: Params, src: Source) returns (steps: seq<Action>)
    modifies store
    ensures steps == Cleanup(p, src)
    ensures store.entries == old(store.entries) - {p.channelKey} - {MapKey(p.cameraId)}
  {
    store.Delete(p.channelKey);
    store.Delete(MapKey(p.cameraId));
    steps := [Delete(p.channelKey), Delete(MapKey(p.cameraId))];
    if src.setup.Ready? || src.setup.phase != GrabberCreate {
      steps := steps + [StopGrabber];
      if !src.grabberStopFails {
        steps := steps + [ReleaseGrabber];
      }
    }
    if src.setup.Ready? || src.setup.phase == RecorderStart {
      steps := steps + [StopRecorder];
      if !src.recorderStopFails {
        steps := steps + [ReleaseRecorder];
      }
    }
  }

  /** `FFmpegRelayTask.call()`. */
  method Call(store: Store, p: Params, src: Source) returns (outcome: Outcome, trace: seq<Action>)
    modifies store
    ensures var r := Run(p, src, old(store.entries));
      outcome == r.outcome && trace == r.trace && store.entries == r.world.store
  {
    var interrupted := Happen(store, false, src.initial);
    ghost var w0 := World(store.entries, interrupted);
    var failure;
    failure, trace := Open(p, src);
    ghost var w := w0;
    if failure.None? {
      var exit, loopTrace;
      exit, loopTrace, interrupted := CopyLoop(store, p.channelKey, src.ticks, interrupted, SleepMillis(src));
      trace := trace + loopTrace;
      w := World(store.entries, interrupted);
      if exit.Stalled? {
        outcome := Blocked;
        return;
      }
      outcome := match exit
        case Exited => Finished
        case ThrewInterrupted => Interrupted
        case ThrewFailure(m) => Failed(m);
    } else {
      outcome := Failed(failure.value);
    }
    assert Run(p, src, old(store.entries)) == Finish(p, src, outcome, trace, w);
    var steps := Release(store, p, src);
    trace := trace + steps;
  }
}
