/**
 * The per-event frame loop: how one window event changes the loop's state
 * (control flow, "swapchain out of date" flag, the previous frame's GPU future,
 * the swapchain and its framebuffers), and how the swapchain is recreated.
 *
 * Every call into the graphics library is replaced by the outcome it reports,
 * given as input (`RedrawOutcomes`). The behaviour is first stated as pure
 * functions over `FrameState` (`Step`, `RedrawStep`, `SubmitStep`,
 * `RecreateStep`); the class `FrameLoop` then updates its fields in place, as
 * the source does through its `&mut` parameters, and is proved to follow them.
 */
module EventLoop {
  import opened Wrappers
  import opened Init

  // ---------------------------------------------------------------------------
  // Inputs and state
  // ---------------------------------------------------------------------------

  datatype ControlFlow = Poll | Exit

  /** The events the loop distinguishes; `escape` tells whether the key is Escape. */
  datatype Event =
    | CloseRequested
    | KeyboardInput(escape: bool)
    | Resized
    | OtherWindowEvent
    | RedrawEventsCleared
    | OtherEvent

  /** Stands for a GPU future produced by a successful flush. */
  type Token = nat

  /** What acquiring the next swapchain image reports. */
  datatype AcquireResult = Acquired(imageNum: nat, suboptimal: bool) | AcquireOutOfDate | AcquireFailed

  /** What signalling the fence and flushing the frame's future reports. */
  datatype FlushResult = Flushed(future: Token) | FlushOutOfDate | FlushFailed

  /** What recreating the swapchain at the window's current size reports. */
  datatype RecreateResult = Recreated(images: seq<Image>) | UnsupportedDimensions | RecreateFailed

  /**
   * The outcomes of the library calls one redraw may make: `setupOk` for the
   * descriptor set and the command-buffer builder, `commandsOk` for recording
   * and building the render pass, `executeOk` for enqueueing execution. At most
   * one swapchain recreation happens per redraw, so one `recreate` suffices.
   */
  datatype RedrawOutcomes = RedrawOutcomes(
    acquire: AcquireResult,
    setupOk: bool,
    commandsOk: bool,
    executeOk: bool,
    flush: FlushResult,
    recreate: RecreateResult)

  /**
   * Fatal outcomes of one event. The last two are panics of the source
   * (indexing an empty image list, indexing past the framebuffers), which end
   * the process just as an error does.
   */
  datatype LoopError =
    | AcquireError
    | SwapchainCreationError
    | FrameRecordError
    | ExecuteError
    | NoSwapchainImages
    | FramebufferIndexOutOfBounds

  /** The swapchain, reduced to its images and how many times it was recreated. */
  datatype Swapchain = Swapchain(generation: nat, images: seq<Image>)

  /** What a new frame's future chain is joined to: a fresh "now" future, or the previous frame's. */
  datatype JoinBase = NowFuture | PreviousFrame(token: Token)

  /** A frame handed to the GPU: what it waited for, the image it drew into and presented, and how its flush ended. */
  datatype Submission = Submission(joined: JoinBase, imageNum: nat, image: Image, framebuffer: Framebuffer, flush: FlushResult)

  /**
   * The loop's state. `submitted` is not state of the source: it records the
   * frames handed to the GPU, so that their ordering can be stated.
   */
  datatype FrameState = FrameState(
    controlFlow: ControlFlow,
    swapchain: Swapchain,
    framebuffers: seq<Framebuffer>,
    outOfDate: bool,
    previousFuture: Option<Token>,
    submitted: seq<Submission>)

  /** The state after one event and the `Result` the handler returns. */
  datatype Transition = Transition(next: FrameState, outcome: Result<(), LoopError>)

  // ---------------------------------------------------------------------------
  // The invariant
  // ---------------------------------------------------------------------------

  /** `take().unwrap_or_else(sync::now)`: the future a new frame is joined to. */
  function JoinBaseFor(f: Option<Token>): JoinBase {
    if f.Some? then PreviousFrame(f.value) else NowFuture
  }

  /** The previous-frame future left behind by a sequence of submitted frames. */
  function FutureAfter(subs: seq<Submission>): Option<Token> {
    if |subs| == 0 then None
    else match subs[|subs| - 1].flush
      case Flushed(t) => Some(t)
      case _ => None
  }

  /**
   * Every frame was joined to the future its predecessor left behind (a fresh
   * one for the first frame and after a failed flush), and drew into the image
   * it presented.
   */
  predicate Chained(subs: seq<Submission>) {
    forall k :: 0 <= k < |subs| ==>
      subs[k].joined == JoinBaseFor(FutureAfter(subs[..k])) && subs[k].framebuffer.color == subs[k].image
  }

  /**
   * The framebuffers are exactly those of the current swapchain images (so
   * there are as many as images), and the stored future is the one the last
   * frame left behind.
   */
  predicate Inv(s: FrameState) {
    && |s.swapchain.images| > 0
    && s.framebuffers == FramebuffersFor(s.swapchain.images)
    && s.previousFuture == FutureAfter(s.submitted)
    && Chained(s.submitted)
  }

  /**
   * The state the loop starts in: framebuffers built from the first
   * swapchain's images, flag clear, no previous future. `None` when building
   * the framebuffers panics.
   */
  function InitialState(images: seq<Image>): (r: Option<FrameState>)
    ensures r.None? <==> |images| == 0
    ensures r.Some? ==> Inv(r.value)
    ensures r.Some? ==> r.value.controlFlow == Poll && !r.value.outOfDate && r.value.previousFuture == None
    ensures r.Some? ==> r.value.submitted == []
    ensures r.Some? ==> r.value.swapchain.images == images && |r.value.framebuffers| == |images|
  {
    if |images| == 0 then None
    else Some(FrameState(Poll, Swapchain(0, images), FramebuffersFor(images), false, None, []))
  }

  // ---------------------------------------------------------------------------
  // The transition functions
  // ---------------------------------------------------------------------------

  /** Swapchain recreation. */
  function RecreateStep(s: FrameState, rr: RecreateResult): Transition {
    match rr
    case UnsupportedDimensions => Transition(s, Ok(()))
    case RecreateFailed => Transition(s, Err(SwapchainCreationError))
    case Recreated(images) =>
      var replaced := s.(swapchain := Swapchain(s.swapchain.generation + 1, images));
      if |images| == 0 then Transition(replaced, Err(NoSwapchainImages))
      else Transition(replaced.(framebuffers := FramebuffersFor(images), outOfDate := false), Ok(()))
  }

  /** How the flush outcome updates the flag and the stored future. */
  function FlushStep(s: FrameState, f: FlushResult): FrameState {
    match f
    case Flushed(t) => s.(previousFuture := Some(t))
    case FlushOutOfDate => s.(outOfDate := true, previousFuture := None)
    case FlushFailed => s.(previousFuture := None)
  }

  /** Drawing and presenting image `imageNum`, then recreating if the flag is set. */
  function SubmitStep(s: FrameState, imageNum: nat, o: RedrawOutcomes): Transition
    requires imageNum < |s.swapchain.images|
  {
    if !o.setupOk then Transition(s, Err(FrameRecordError))
    else if imageNum >= |s.framebuffers| then Transition(s, Err(FramebufferIndexOutOfBounds))
    else if !o.commandsOk then Transition(s, Err(FrameRecordError))
    else
      var joined := JoinBaseFor(s.previousFuture);
      var taken := s.(previousFuture := None);
      if !o.executeOk then Transition(taken, Err(ExecuteError))
      else
        var frame := Submission(joined, imageNum, s.swapchain.images[imageNum], s.framebuffers[imageNum], o.flush);
        var flushed := FlushStep(taken.(submitted := taken.submitted + [frame]), o.flush);
        if flushed.outOfDate then RecreateStep(flushed, o.recreate)
        else Transition(flushed, Ok(()))
  }

  /** One redraw: acquire an image, recreate on out-of-date or a bad index, else submit. */
  function RedrawStep(s: FrameState, o: RedrawOutcomes): Transition {
    match o.acquire
    case AcquireOutOfDate => RecreateStep(s, o.recreate)
    case AcquireFailed => Transition(s, Err(AcquireError))
    case Acquired(imageNum, suboptimal) =>
      var flagged := if suboptimal then s.(outOfDate := true) else s;
      if imageNum >= |flagged.swapchain.images| then RecreateStep(flagged, o.recreate)
      else SubmitStep(flagged, imageNum, o)
  }

  /** One event; `o` is read only by a redraw. */
  function Step(s: FrameState, e: Event, o: RedrawOutcomes): Transition {
    match e
    case CloseRequested => Transition(s.(controlFlow := Exit), Ok(()))
    case KeyboardInput(escape) =>
      if escape then Transition(s.(controlFlow := Exit), Ok(())) else Transition(s, Ok(()))
    case Resized => Transition(s.(outOfDate := true), Ok(()))
    case OtherWindowEvent => Transition(s, Ok(()))
    case RedrawEventsCleared => RedrawStep(s, o)
    case OtherEvent => Transition(s, Ok(()))
  }

  /** One event with its redraw outcomes. */
  datatype Input = Input(event: Event, outcomes: RedrawOutcomes)

  /**
   * Feeding events to the loop until one returns an error (the process then
   * exits). `main_loop` never reads the control flow, so every event given is
   * handled, also after Exit was requested.
   */
  function Run(s: FrameState, inputs: seq<Input>): Transition
    decreases |inputs|
  {
    if |inputs| == 0 then Transition(s, Ok(()))
    else
      var t := Step(s, inputs[0].event, inputs[0].outcomes);
      if t.outcome.Err? then t else Run(t.next, inputs[1..])
  }

  // ---------------------------------------------------------------------------
  // Properties of single events
  // ---------------------------------------------------------------------------

  /** Close and Escape only request exit; Resized only sets the flag; other window events and other keys do nothing. */
  lemma WindowEvents(s: FrameState, o: RedrawOutcomes)
    ensures Step(s, CloseRequested, o) == Transition(s.(controlFlow := Exit), Ok(()))
    ensures Step(s, KeyboardInput(true), o) == Transition(s.(controlFlow := Exit), Ok(()))
    ensures Step(s, KeyboardInput(false), o) == Transition(s, Ok(()))
    ensures Step(s, Resized, o) == Transition(s.(outOfDate := true), Ok(()))
    ensures Step(s, OtherWindowEvent, o) == Transition(s, Ok(()))
    ensures Step(s, OtherEvent, o) == Transition(s, Ok(()))
  {
  }

  /**
   * Recreation: unsupported dimensions change nothing and are not an error;
   * other failures are fatal; success installs the new images with matching
   * framebuffers and clears the flag. Control flow, the stored future and the
   * submitted frames are never touched.
   */
  lemma RecreateOutcomes(s: FrameState, rr: RecreateResult)
    ensures rr == UnsupportedDimensions ==> RecreateStep(s, rr) == Transition(s, Ok(()))
    ensures rr == RecreateFailed ==> RecreateStep(s, rr) == Transition(s, Err(SwapchainCreationError))
    ensures rr.Recreated? && |rr.images| > 0 ==>
      var t := RecreateStep(s, rr);
      && t.outcome.Ok?
      && t.next.swapchain == Swapchain(s.swapchain.generation + 1, rr.images)
      && t.next.framebuffers == FramebuffersFor(rr.images)
      && !t.next.outOfDate
    ensures var t := RecreateStep(s, rr);
      t.next.controlFlow == s.controlFlow && t.next.previousFuture == s.previousFuture && t.next.submitted == s.submitted
    ensures Inv(s) && RecreateStep(s, rr).outcome.Ok? ==> Inv(RecreateStep(s, rr).next)
  {
  }

  /**
   * An out-of-date acquisition goes to recreation without touching the future;
   * only another acquisition failure returns the acquisition error, and it
   * leaves the state unchanged.
   */
  lemma AcquireOutcomes(s: FrameState, o: RedrawOutcomes)
    ensures o.acquire == AcquireOutOfDate ==> Step(s, RedrawEventsCleared, o) == RecreateStep(s, o.recreate)
    ensures o.acquire == AcquireFailed ==> Step(s, RedrawEventsCleared, o) == Transition(s, Err(AcquireError))
    ensures Step(s, RedrawEventsCleared, o).outcome == Err(AcquireError) <==> o.acquire == AcquireFailed
  {
  }

  /**
   * The driver workaround: an index at or past the image count recreates the
   * swapchain and submits nothing (a suboptimal flag is still recorded).
   */
  lemma ImageIndexWorkaround(s: FrameState, o: RedrawOutcomes)
    requires o.acquire.Acquired? && o.acquire.imageNum >= |s.swapchain.images|
    ensures Step(s, RedrawEventsCleared, o)
         == RecreateStep(s.(outOfDate := s.outOfDate || o.acquire.suboptimal), o.recreate)
    ensures Step(s, RedrawEventsCleared, o).next.submitted == s.submitted
  {
  }

  /** Under the invariant the framebuffer index never goes out of bounds. */
  lemma FramebufferIndexInBounds(s: FrameState, e: Event, o: RedrawOutcomes)
    requires Inv(s)
    ensures Step(s, e, o).outcome != Err(FramebufferIndexOutOfBounds)
  {
  }

  /** A redraw that acquired image `imageNum` in range and whose command buffer records. */
  predicate OnSubmitPath(s: FrameState, o: RedrawOutcomes) {
    o.acquire.Acquired? && o.acquire.imageNum < |s.swapchain.images| && o.setupOk && o.commandsOk
  }

  /** When enqueueing execution fails the previous future has already been taken: it is lost. */
  lemma ExecuteFailureDropsFuture(s: FrameState, o: RedrawOutcomes)
    requires Inv(s) && OnSubmitPath(s, o) && !o.executeOk
    ensures Step(s, RedrawEventsCleared, o).outcome == Err(ExecuteError)
    ensures Step(s, RedrawEventsCleared, o).next.previousFuture == None
  {
  }

  /**
   * The submit path, suboptimal or not: exactly one frame is handed over,
   * joined to the previous future (or a fresh one) and drawn into the acquired
   * image's framebuffer; the flush outcome decides the stored future; a
   * flush failure is never fatal; recreation follows iff the flag got set.
   */
  lemma SubmitPath(s: FrameState, o: RedrawOutcomes)
    requires Inv(s) && OnSubmitPath(s, o) && o.executeOk
    ensures var n := o.acquire.imageNum;
      Step(s, RedrawEventsCleared, o).next.submitted
      == s.submitted + [Submission(JoinBaseFor(s.previousFuture), n, s.swapchain.images[n], s.framebuffers[n], o.flush)]
    ensures o.flush.Flushed? ==> Step(s, RedrawEventsCleared, o).next.previousFuture == Some(o.flush.future)
    ensures !o.flush.Flushed? ==> Step(s, RedrawEventsCleared, o).next.previousFuture == None
    ensures Step(s, RedrawEventsCleared, o).outcome.Err? ==>
      Step(s, RedrawEventsCleared, o).outcome.error in {SwapchainCreationError, NoSwapchainImages}
    ensures !s.outOfDate && !o.acquire.suboptimal && o.flush != FlushOutOfDate ==>
      Step(s, RedrawEventsCleared, o).outcome.Ok? && Step(s, RedrawEventsCleared, o).next.swapchain == s.swapchain
    ensures (s.outOfDate || o.acquire.suboptimal || o.flush == FlushOutOfDate) ==>
      var n := o.acquire.imageNum;
      var frame := Submission(JoinBaseFor(s.previousFuture), n, s.swapchain.images[n], s.framebuffers[n], o.flush);
      Step(s, RedrawEventsCleared, o)
      == RecreateStep(FlushStep(s.(outOfDate := true, previousFuture := None, submitted := s.submitted + [frame]), o.flush),
                      o.recreate)
    ensures (s.outOfDate || o.acquire.suboptimal || o.flush == FlushOutOfDate) && o.recreate == RecreateFailed ==>
      Step(s, RedrawEventsCleared, o).outcome == Err(SwapchainCreationError)
    ensures (s.outOfDate || o.acquire.suboptimal || o.flush == FlushOutOfDate) && o.recreate == UnsupportedDimensions ==>
      Step(s, RedrawEventsCleared, o).outcome.Ok? && Step(s, RedrawEventsCleared, o).next.outOfDate
    ensures (s.outOfDate || o.acquire.suboptimal || o.flush == FlushOutOfDate) && o.recreate.Recreated?
            && |o.recreate.images| > 0 ==>
      Step(s, RedrawEventsCleared, o).next.swapchain.images == o.recreate.images
  {
  }

  /** A redraw that returns Ok without meeting unsupported dimensions leaves the flag clear. */
  lemma RedrawOkClearsFlag(s: FrameState, o: RedrawOutcomes)
    requires Step(s, RedrawEventsCleared, o).outcome.Ok? && o.recreate != UnsupportedDimensions
    ensures !Step(s, RedrawEventsCleared, o).next.outOfDate
  {
  }

  /** Appending a frame joined to the current future keeps the chain. */
  lemma {:induction false} ChainedAppend(subs: seq<Submission>, frame: Submission)
    requires Chained(subs)
    requires frame.joined == JoinBaseFor(FutureAfter(subs)) && frame.framebuffer.color == frame.image
    ensures Chained(subs + [frame])
  {
    var all := subs + [frame];
    forall k | 0 <= k < |all|
      ensures all[k].joined == JoinBaseFor(FutureAfter(all[..k])) && all[k].framebuffer.color == all[k].image
    {
      if k < |subs| {
        assert all[..k] == subs[..k];
      } else {
        assert all[..k] == subs;
      }
    }
  }

  /** Submitting a frame, flushing it and possibly recreating keeps the invariant when Ok. */
  lemma SubmitPreservesInv(s: FrameState, imageNum: nat, o: RedrawOutcomes)
    requires Inv(s) && imageNum < |s.swapchain.images|
    ensures SubmitStep(s, imageNum, o).outcome.Ok? ==> Inv(SubmitStep(s, imageNum, o).next)
  {
    if o.setupOk && o.commandsOk && o.executeOk {
      var frame := Submission(JoinBaseFor(s.previousFuture), imageNum, s.swapchain.images[imageNum],
                              s.framebuffers[imageNum], o.flush);
      ChainedAppend(s.submitted, frame);
      var flushed := FlushStep(s.(previousFuture := None, submitted := s.submitted + [frame]), o.flush);
      assert Inv(flushed);
      RecreateOutcomes(flushed, o.recreate);
    }
  }

  /** Every event that returns Ok preserves the invariant. */
  lemma StepPreservesInv(s: FrameState, e: Event, o: RedrawOutcomes)
    requires Inv(s)
    ensures Step(s, e, o).outcome.Ok? ==> Inv(Step(s, e, o).next)
  {
    if e == RedrawEventsCleared {
      match o.acquire {
        case AcquireOutOfDate =>
          RecreateOutcomes(s, o.recreate);
        case AcquireFailed =>
        case Acquired(n, suboptimal) =>
          var flagged := if suboptimal then s.(outOfDate := true) else s;
          if n >= |s.swapchain.images| {
            RecreateOutcomes(flagged, o.recreate);
          } else {
            SubmitPreservesInv(flagged, n, o);
          }
      }
    }
  }

  // ---------------------------------------------------------------------------
  // Properties of event sequences
  // ---------------------------------------------------------------------------

  /**
   * Over any sequence of events that ends without error, the invariant holds
   * throughout: there are exactly as many framebuffers as swapchain images.
   */
  lemma {:induction false} RunPreservesInv(s: FrameState, inputs: seq<Input>)
    requires Inv(s)
    ensures Run(s, inputs).outcome.Ok? ==> Inv(Run(s, inputs).next)
    ensures Run(s, inputs).outcome.Ok? ==>
      |Run(s, inputs).next.framebuffers| == |Run(s, inputs).next.swapchain.images|
    decreases |inputs|
  {
    if |inputs| > 0 {
      var t := Step(s, inputs[0].event, inputs[0].outcomes);
      StepPreservesInv(s, inputs[0].event, inputs[0].outcomes);
      if t.outcome.Ok? {
        RunPreservesInv(t.next, inputs[1..]);
      }
    }
  }

  /** One event hands at most one frame to the GPU and forgets none. */
  lemma StepExtendsSubmitted(s: FrameState, e: Event, o: RedrawOutcomes)
    ensures var after := Step(s, e, o).next.submitted;
      after == s.submitted || (|after| == |s.submitted| + 1 && s.submitted <= after)
  {
  }

  /** Frames once handed to the GPU stay recorded. */
  lemma {:induction false} RunExtendsSubmitted(s: FrameState, inputs: seq<Input>)
    ensures s.submitted <= Run(s, inputs).next.submitted
    decreases |inputs|
  {
    if |inputs| > 0 {
      var t := Step(s, inputs[0].event, inputs[0].outcomes);
      StepExtendsSubmitted(s, inputs[0].event, inputs[0].outcomes);
      if t.outcome.Ok? {
        RunExtendsSubmitted(t.next, inputs[1..]);
      }
    }
  }

  /** Any number of resizes only sets the flag: recreation is deferred to a redraw. */
  lemma {:induction false} ResizesOnlyMarkOutOfDate(s: FrameState, inputs: seq<Input>)
    requires forall k :: 0 <= k < |inputs| ==> inputs[k].event == Resized
    ensures Run(s, inputs) == Transition(if |inputs| == 0 then s else s.(outOfDate := true), Ok(()))
    decreases |inputs|
  {
    if |inputs| > 0 {
      var t := Step(s, inputs[0].event, inputs[0].outcomes);
      assert t == Transition(s.(outOfDate := true), Ok(()));
      ResizesOnlyMarkOutOfDate(t.next, inputs[1..]);
      assert forall k :: 0 <= k < |inputs[1..]| ==> inputs[1..][k].event == Resized;
    }
  }

  // ---------------------------------------------------------------------------
  // The loop's state, updated in place
  // ---------------------------------------------------------------------------

  /** The state `main_loop` updates through its `&mut` parameters. */
  class FrameLoop {
    var controlFlow: ControlFlow
    var swapchain: Swapchain
    var framebuffers: seq<Framebuffer>
    var swapchainOutOfDate: bool
    var previousFrameFuture: Option<Token>
    /** The frames handed to the GPU so far (model-only record). */
    ghost var submitted: seq<Submission>

    ghost function State(): FrameState
      reads this
    {
      FrameState(controlFlow, swapchain, framebuffers, swapchainOutOfDate, previousFrameFuture, submitted)
    }

    ghost predicate Valid()
      reads this
    {
      Inv(State())
    }

    /** The loop as set up before the first event, from the first swapchain's images. */
    constructor (images: seq<Image>)
      requires |images| > 0
      ensures InitialState(images) == Some(State())
      ensures Valid()
    {
      var built := CreateFramebuffers(images);
      controlFlow := Poll;
      swapchain := Swapchain(0, images);
      framebuffers := built.value;
      swapchainOutOfDate := false;
      previousFrameFuture := None;
      submitted := [];
    }

    /** Recreates the swapchain and, on success, its framebuffers. */
    method Recreate(rr: RecreateResult) returns (r: Result<(), LoopError>)
      modifies this
      ensures Transition(State(), r) == RecreateStep(old(State()), rr)
    {
      match rr {
        case UnsupportedDimensions =>
          return Ok(());
        case RecreateFailed =>
          return Err(SwapchainCreationError);
        case Recreated(images) =>
          swapchain := Swapchain(swapchain.generation + 1, images);
          var built := CreateFramebuffers(images);
          if built.None? {
            return Err(NoSwapchainImages);
          }
          framebuffers := built.value;
          swapchainOutOfDate := false;
          return Ok(());
      }
    }

    /** Handles one event; `o` holds the library outcomes a redraw meets. */
    method HandleEvent(event: Event, o: RedrawOutcomes) returns (r: Result<(), LoopError>)
      modifies this
      ensures Transition(State(), r) == Step(old(State()), event, o)
      ensures old(Valid()) && r.Ok? ==> Valid()
    {
      if Valid() {
        StepPreservesInv(State(), event, o);
      }
      match event {
        case CloseRequested =>
          controlFlow := Exit;
        case KeyboardInput(escape) =>
          if escape {
            controlFlow := Exit;
          }
        case Resized =>
          swapchainOutOfDate := true;
        case OtherWindowEvent =>
        case OtherEvent =>
        case RedrawEventsCleared =>
          var imageNum: nat, suboptimal: bool;
          match o.acquire {
            case Acquired(n, sub) =>
              imageNum, suboptimal := n, sub;
            case AcquireOutOfDate =>
              r := Recreate(o.recreate);
              return;
            case AcquireFailed =>
              return Err(AcquireError);
          }
          if suboptimal {
            swapchainOutOfDate := true;
          }
          if imageNum >= |swapchain.images| {
            r := Recreate(o.recreate);
            return;
          }
          if !o.setupOk {
            return Err(FrameRecordError);
          }
          if imageNum >= |framebuffers| {
            return Err(FramebufferIndexOutOfBounds);
          }
          var framebuffer := framebuffers[imageNum];
          if !o.commandsOk {
            return Err(FrameRecordError);
          }
          var joined := JoinBaseFor(previousFrameFuture);
          previousFrameFuture := None;
          if !o.executeOk {
            return Err(ExecuteError);
          }
          submitted := submitted + [Submission(joined, imageNum, swapchain.images[imageNum], framebuffer, o.flush)];
          match o.flush {
            case Flushed(t) =>
              previousFrameFuture := Some(t);
            case FlushOutOfDate =>
              swapchainOutOfDate := true;
              previousFrameFuture := None;
            case FlushFailed =>
              previousFrameFuture := None;
          }
          if swapchainOutOfDate {
            r := Recreate(o.recreate);
            return;
          }
      }
      r := Ok(());
    }
  }
}
