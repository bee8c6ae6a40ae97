/** The synchronization protocol of Draw in vulkan.c as an abstract state
    machine over the objects it uses: one fence, the present semaphore, the
    render semaphores, one command buffer and the set of acquired swapchain
    images. Every Vulkan call is a transition; `Allowed` is the valid-usage
    rule the Vulkan specification states for that call (Synchronization and
    Cache Control chapter for fences and semaphores, Command Buffers chapter
    for the command buffer lifecycle, Window System Integration chapter for
    acquire and present). Every call is taken to succeed.

    The device runs asynchronously; the states below are what the host knows
    whatever the device has done so far. How much it may assume about a
    semaphore wait it has issued but not observed is the `Ordering`.

    Two designs are modelled. vulkan.c uses a single render semaphore for
    every frame; the alternative gives each swapchain image its own. */
module FrameSync {

  /** A fence, as far as the host knows it. */
  datatype FenceState =
    | FenceUnsignaled
    | FenceSignaled
      /** Associated with a queue submission not yet observed complete: it
          will become signaled when that submission completes. */
    | FencePending

  /** A binary semaphore, as far as the host knows it. */
  datatype SemaphoreState =
    | SemaphoreUnsignaled
      /** A signal operation has been issued (it may have executed) and no
          wait has been issued for it. */
    | SignalPending
      /** A signal and then a wait for it by the submission the fence tracks
          have been issued; the wait is known executed once the fence is. */
    | SubmitWaitPending
      /** A signal and then a wait for it by the present of `presentedImage`
          have been issued; the wait is known executed once that image has
          been acquired again. */
    | PresentWaitPending(presentedImage: nat)

  /** The command buffer lifecycle (one-time-submit recording). */
  datatype CommandBufferState = Initial | Recording | Executable | Pending | Invalid

  /** The present semaphore, and the render semaphore in slot `slot`. */
  datatype SemaphoreId = PresentSemaphore | RenderSemaphore(slot: nat)

  /** What the host may assume before a semaphore wait is observed.
      IssueOrder: queue submission and presentation share one queue and
      execute in the order they were issued, so a wait issued before a
      signal has executed by the time the signal does. ObservedCompletion: a
      wait counts as executed only once the host has observed it, through
      the fence for a submission's wait or by acquiring the presented image
      again for a present's wait. */
  datatype Ordering = IssueOrder | ObservedCompletion

  /** One render semaphore shared by all frames (as in vulkan.c), or one per
      swapchain image. */
  datatype Design = SingleRenderSemaphore | RenderSemaphorePerImage

  /** The Vulkan calls Draw makes. RecordDraw stands for the commands
      recorded inside the render pass (begin render pass, drawRectangle, end
      render pass). AcquireNextImage carries the index the presentation
      engine hands back. */
  datatype Call =
    | WaitForFence
    | ResetFence
    | AcquireNextImage(signal: SemaphoreId, imageIndex: nat)
    | ResetCommandBuffer
    | BeginCommandBuffer
    | RecordDraw
    | EndCommandBuffer
    | QueueSubmit(wait: SemaphoreId, signal: SemaphoreId)
    | QueuePresent(presentWait: SemaphoreId, presentIndex: nat)

  datatype SyncState = SyncState(
    fence: FenceState,
    presentSemaphore: SemaphoreState,
    renderSemaphores: seq<SemaphoreState>,
    commandBuffer: CommandBufferState,
    acquired: set<nat>,
    imageCount: nat,
    minImageCount: nat)
  {
    /** The semaphore `id` exists. */
    predicate Has(id: SemaphoreId)
    {
      id.RenderSemaphore? ==> id.slot < |renderSemaphores|
    }

    function Semaphore(id: SemaphoreId): SemaphoreState
      requires Has(id)
    {
      match id
      case PresentSemaphore => presentSemaphore
      case RenderSemaphore(k) => renderSemaphores[k]
    }

    function WithSemaphore(id: SemaphoreId, state: SemaphoreState): (s: SyncState)
      requires Has(id)
      ensures |s.renderSemaphores| == |renderSemaphores|
      ensures s.Has(id) && s.Semaphore(id) == state
      ensures forall other :: other != id && Has(other) ==> s.Has(other) && s.Semaphore(other) == Semaphore(other)
      ensures s.fence == fence && s.commandBuffer == commandBuffer && s.acquired == acquired
      ensures s.imageCount == imageCount && s.minImageCount == minImageCount
    {
      match id
      case PresentSemaphore => this.(presentSemaphore := state)
      case RenderSemaphore(k) => this.(renderSemaphores := renderSemaphores[k := state])
    }
  }

  /** A semaphore once the fenced submission is known complete: the wait
      that submission made has executed. */
  function AfterFence(state: SemaphoreState): SemaphoreState
  {
    if state == SubmitWaitPending then SemaphoreUnsignaled else state
  }

  /** A semaphore once `imageIndex` has been acquired again: the wait of the
      present that last handed that image back has executed. */
  function AfterReacquire(state: SemaphoreState, imageIndex: nat): SemaphoreState
  {
    if state == PresentWaitPending(imageIndex) then SemaphoreUnsignaled else state
  }

  /** The semaphores once the fence wait returns: none still awaits the
      fenced submission's wait, those that did are unsignaled, and the others
      are unchanged. */
  function FenceObserved(states: seq<SemaphoreState>): (r: seq<SemaphoreState>)
    ensures |r| == |states|
    ensures forall k :: 0 <= k < |r| ==> r[k] != SubmitWaitPending
    ensures forall k :: 0 <= k < |r| && states[k] == SubmitWaitPending ==> r[k] == SemaphoreUnsignaled
    ensures forall k :: 0 <= k < |r| && states[k] != SubmitWaitPending ==> r[k] == states[k]
  {
    seq(|states|, k requires 0 <= k < |states| => AfterFence(states[k]))
  }

  /** The semaphores once `imageIndex` is acquired again: none still awaits
      the wait of that image's present, those that did are unsignaled, and
      the others are unchanged. */
  function Reacquired(states: seq<SemaphoreState>, imageIndex: nat): (r: seq<SemaphoreState>)
    ensures |r| == |states|
    ensures forall k :: 0 <= k < |r| ==> r[k] != PresentWaitPending(imageIndex)
    ensures forall k :: 0 <= k < |r| && states[k] == PresentWaitPending(imageIndex) ==> r[k] == SemaphoreUnsignaled
    ensures forall k :: 0 <= k < |r| && states[k] != PresentWaitPending(imageIndex) ==> r[k] == states[k]
  {
    seq(|states|, k requires 0 <= k < |states| => AfterReacquire(states[k], imageIndex))
  }

  /** Every semaphore a call names exists. */
  predicate Refers(s: SyncState, c: Call)
  {
    match c
    case AcquireNextImage(sem, _) => s.Has(sem)
    case QueueSubmit(w, sg) => s.Has(w) && s.Has(sg)
    case QueuePresent(w, _) => s.Has(w)
    case _ => true
  }

  /** A semaphore a new signal operation may target: unsignaled, or, when
      waits execute in issue order, with its last signal's wait issued. */
  predicate Signalable(order: Ordering, state: SemaphoreState)
  {
    state == SemaphoreUnsignaled
    || (order == IssueOrder && (state == SubmitWaitPending || state.PresentWaitPending?))
  }

  /** The valid-usage rule of each call in the given state. */
  predicate Allowed(order: Ordering, s: SyncState, c: Call)
  {
    && Refers(s, c)
    && match c
       // Not a valid-usage rule but the reason the wait returns: with an
       // unbounded timeout, a fence that is unsignaled and tracks no
       // submission is never signaled.
       case WaitForFence => s.fence != FenceUnsignaled
       // vkResetFences: the fence must not be associated with a queue
       // command that has not completed.
       case ResetFence => s.fence != FencePending
       // vkAcquireNextImageKHR: the semaphore must be unsignaled with no
       // signal or wait pending; with an unbounded timeout, no more images
       // may be held than the swapchain has beyond the surface minimum. The
       // index returned names a swapchain image not currently held.
       case AcquireNextImage(sem, i) =>
         && s.Semaphore(sem) == SemaphoreUnsignaled
         && |s.acquired| <= s.imageCount - s.minImageCount
         && i < s.imageCount && i !in s.acquired
       // vkResetCommandBuffer: not pending.
       case ResetCommandBuffer => s.commandBuffer != Pending
       // vkBeginCommandBuffer: not recording and not pending.
       case BeginCommandBuffer => s.commandBuffer != Recording && s.commandBuffer != Pending
       // vkCmd*: the command buffer is recording.
       case RecordDraw => s.commandBuffer == Recording
       // vkEndCommandBuffer: the command buffer is recording.
       case EndCommandBuffer => s.commandBuffer == Recording
       // vkQueueSubmit: the fence is unsignaled and tracks no other
       // submission; the semaphore waited on has a signal issued that
       // nothing else waits for; the semaphore signaled is unsignaled when
       // the signal executes; the command buffer is executable.
       case QueueSubmit(w, sg) =>
         && w != sg
         && s.fence == FenceUnsignaled
         && s.Semaphore(w) == SignalPending
         && Signalable(order, s.Semaphore(sg))
         && s.commandBuffer == Executable
       // vkQueuePresentKHR: the semaphore waited on has a signal issued that
       // nothing else waits for; the image presented is one currently held.
       case QueuePresent(w, i) =>
         && s.Semaphore(w) == SignalPending
         && i in s.acquired
  }

  /** The observed-completion reading is the stricter one: a call it allows
      is allowed when waits execute in issue order. The two differ only on
      the submit's signal semaphore. */
  lemma ObservedCompletionIsStricter(s: SyncState, c: Call)
    ensures Allowed(ObservedCompletion, s, c) ==> Allowed(IssueOrder, s, c)
    ensures !c.QueueSubmit? ==> (Allowed(ObservedCompletion, s, c) <==> Allowed(IssueOrder, s, c))
  {
  }

  /** The effect of a call. Acquiring an image tells the host that the
      present which last handed it back has finished waiting. */
  function Apply(s: SyncState, c: Call): (t: SyncState)
    requires Refers(s, c)
    ensures t.imageCount == s.imageCount && t.minImageCount == s.minImageCount
    ensures |t.renderSemaphores| == |s.renderSemaphores|
  {
    match c
    case WaitForFence =>
      if s.fence == FencePending then
        s.(fence := FenceSignaled,
           presentSemaphore := AfterFence(s.presentSemaphore),
           renderSemaphores := FenceObserved(s.renderSemaphores),
           commandBuffer := if s.commandBuffer == Pending then Invalid else s.commandBuffer)
      else s
    case ResetFence => s.(fence := FenceUnsignaled)
    case AcquireNextImage(sem, i) =>
      s.(presentSemaphore := AfterReacquire(s.presentSemaphore, i),
         renderSemaphores := Reacquired(s.renderSemaphores, i))
       .WithSemaphore(sem, SignalPending).(acquired := s.acquired + {i})
    case ResetCommandBuffer => s.(commandBuffer := Initial)
    case BeginCommandBuffer => s.(commandBuffer := Recording)
    case RecordDraw => s
    case EndCommandBuffer => s.(commandBuffer := Executable)
    case QueueSubmit(w, sg) =>
      s.WithSemaphore(w, SubmitWaitPending).WithSemaphore(sg, SignalPending)
       .(fence := FencePending, commandBuffer := Pending)
    case QueuePresent(w, i) => s.WithSemaphore(w, PresentWaitPending(i)).(acquired := s.acquired - {i})
  }

  datatype Option<T> = None | Some(value: T)

  /** The state after a sequence of calls, or None if one of them breaks its rule. */
  function Run(order: Ordering, s: SyncState, calls: seq<Call>): Option<SyncState>
    decreases |calls|
  {
    if calls == [] then Some(s)
    else if Allowed(order, s, calls[0]) then Run(order, Apply(s, calls[0]), calls[1..])
    else None
  }

  /** The render semaphore a frame presenting `imageIndex` uses. */
  function RenderSlot(design: Design, imageIndex: nat): nat
  {
    match design
    case SingleRenderSemaphore => 0
    case RenderSemaphorePerImage => imageIndex
  }

  function RenderSemaphoreCount(design: Design, imageCount: nat): nat
  {
    match design
    case SingleRenderSemaphore => 1
    case RenderSemaphorePerImage => imageCount
  }

  /** The opening block of Draw: wait for and reset the fence, acquire an
      image signaling the present semaphore. */
  function AcquireCalls(imageIndex: nat): seq<Call>
  {
    [WaitForFence, ResetFence, AcquireNextImage(PresentSemaphore, imageIndex)]
  }

  /** The recording block of Draw. */
  function RecordCalls(): seq<Call>
  {
    [ResetCommandBuffer, BeginCommandBuffer, RecordDraw, EndCommandBuffer]
  }

  /** The closing block of Draw: submit waiting on the present semaphore and
      signaling a render semaphore and the fence, then present the image
      waiting on that render semaphore. */
  function SubmitCalls(design: Design, imageIndex: nat): seq<Call>
  {
    var render := RenderSemaphore(RenderSlot(design, imageIndex));
    [QueueSubmit(PresentSemaphore, render), QueuePresent(render, imageIndex)]
  }

  /** The calls of one Draw, given the image index the acquire returns. */
  function Frame(design: Design, imageIndex: nat): seq<Call>
  {
    AcquireCalls(imageIndex) + RecordCalls() + SubmitCalls(design, imageIndex)
  }

  /** The calls of one Draw per element of `imageIndices`. */
  function Frames(design: Design, imageIndices: seq<nat>): seq<Call>
    decreases |imageIndices|
  {
    if imageIndices == [] then []
    else Frame(design, imageIndices[0]) + Frames(design, imageIndices[1..])
  }

  /** The objects as createSyncObjects and createCommandBuffers leave them:
      the fence created signaled, all semaphores unsignaled, the command
      buffer freshly allocated, no image acquired. */
  function Created(design: Design, imageCount: nat, minImageCount: nat): (s: SyncState)
    ensures s.fence == FenceSignaled && s.acquired == {}
    ensures |s.renderSemaphores| == RenderSemaphoreCount(design, imageCount)
  {
    SyncState(FenceSignaled, SemaphoreUnsignaled,
              seq(RenderSemaphoreCount(design, imageCount), _ => SemaphoreUnsignaled),
              Initial, {}, imageCount, minImageCount)
  }

  /** A render semaphore between frames: unsignaled, or awaiting the wait of
      a present; with one semaphore per image, the present of its own image. */
  predicate Idle(design: Design, slot: nat, state: SemaphoreState)
  {
    || state == SemaphoreUnsignaled
    || (state.PresentWaitPending? && (design == RenderSemaphorePerImage ==> state.presentedImage == slot))
  }

  /** The state between two calls of Draw. Either nothing is in flight, or
      exactly the last frame's submission is: the fence tracks it, its wait
      on the present semaphore is outstanding and its command buffer is
      pending. Every render semaphore is idle. No image is held. */
  predicate Steady(design: Design, s: SyncState)
  {
    && s.minImageCount <= s.imageCount
    && |s.renderSemaphores| == RenderSemaphoreCount(design, s.imageCount)
    && s.acquired == {}
    && (forall k :: 0 <= k < |s.renderSemaphores| ==> Idle(design, k, s.renderSemaphores[k]))
    && (|| (s.fence == FenceSignaled && s.presentSemaphore == SemaphoreUnsignaled
            && (s.commandBuffer == Initial || s.commandBuffer == Invalid))
        || (s.fence == FencePending && s.presentSemaphore == SubmitWaitPending
            && s.commandBuffer == Pending))
  }

  /** The combinations for which Draw keeps every rule: the single render
      semaphore needs waits to execute in issue order; one semaphore per
      image needs nothing beyond what the host observes. */
  predicate Sound(order: Ordering, design: Design)
  {
    order == IssueOrder || design == RenderSemaphorePerImage
  }

  /** The fence is created signaled, so the first Draw's wait returns; the
      created objects are in the steady state. */
  lemma CreatedIsSteady(order: Ordering, design: Design, imageCount: nat, minImageCount: nat)
    requires minImageCount <= imageCount
    ensures Steady(design, Created(design, imageCount, minImageCount))
    ensures Allowed(order, Created(design, imageCount, minImageCount), WaitForFence)
  {
  }

  /** The state after the opening block of Draw from `s`. */
  function Acquired(s: SyncState, imageIndex: nat): (t: SyncState)
    ensures |t.renderSemaphores| == |s.renderSemaphores|
  {
    s.(fence := FenceUnsignaled, presentSemaphore := SignalPending,
       renderSemaphores := Reacquired(s.renderSemaphores, imageIndex), acquired := {imageIndex},
       commandBuffer := if s.commandBuffer == Pending then Invalid else s.commandBuffer)
  }

  /** The state after the recording block. */
  function Recorded(s: SyncState): SyncState
  {
    s.(commandBuffer := Executable)
  }

  /** The state after the closing block: the submission in flight and tracked
      by the fence, its wait on the present semaphore issued, the render
      semaphore awaiting the present's wait, the image handed back. */
  function Submitted(design: Design, s: SyncState, imageIndex: nat): SyncState
    requires RenderSlot(design, imageIndex) < |s.renderSemaphores|
  {
    s.(fence := FencePending, presentSemaphore := SubmitWaitPending,
       renderSemaphores := s.renderSemaphores[RenderSlot(design, imageIndex) := PresentWaitPending(imageIndex)],
       commandBuffer := Pending, acquired := s.acquired - {imageIndex})
  }

  /** The state one Draw leaves behind. */
  function InFlight(design: Design, s: SyncState, imageIndex: nat): SyncState
    requires RenderSlot(design, imageIndex) < |s.renderSemaphores|
  {
    Submitted(design, Recorded(Acquired(s, imageIndex)), imageIndex)
  }

  /** From the steady state the opening block keeps every rule: the wait
      returns, the fence is reset only once its submission has completed and
      the acquire signals a semaphore nothing is pending on. */
  lemma AcquireKeepsRules(order: Ordering, design: Design, s: SyncState, imageIndex: nat)
    requires Steady(design, s)
    requires imageIndex < s.imageCount
    ensures Run(order, s, AcquireCalls(imageIndex)) == Some(Acquired(s, imageIndex))
  {
    var s1 := Apply(s, WaitForFence);
    assert s1.renderSemaphores == s.renderSemaphores;
    var s2 := Apply(s1, ResetFence);
    var s3 := Apply(s2, AcquireNextImage(PresentSemaphore, imageIndex));
    assert s3 == Acquired(s, imageIndex);
    assert Run(order, s2, AcquireCalls(imageIndex)[2..]) == Some(s3);
  }

  /** Recording keeps every rule whenever the command buffer is not pending,
      and leaves it executable. */
  lemma RecordKeepsRules(order: Ordering, s: SyncState)
    requires s.commandBuffer != Pending
    ensures Run(order, s, RecordCalls()) == Some(Recorded(s))
  {
  }

  /** The closing block keeps every rule once the fence is reset, the
      present semaphore signaled, the render semaphore free for a signal,
      the command buffer recorded and the image acquired. */
  lemma SubmitKeepsRules(order: Ordering, design: Design, s: SyncState, imageIndex: nat)
    requires RenderSlot(design, imageIndex) < |s.renderSemaphores|
    requires Allowed(order, s, QueueSubmit(PresentSemaphore, RenderSemaphore(RenderSlot(design, imageIndex))))
    requires s.acquired == {imageIndex}
    ensures Run(order, s, SubmitCalls(design, imageIndex)) == Some(Submitted(design, s, imageIndex))
  {
    var render := RenderSemaphore(RenderSlot(design, imageIndex));
    var s1 := Apply(s, QueueSubmit(PresentSemaphore, render));
    var s2 := Apply(s1, QueuePresent(render, imageIndex));
    assert s2 == Submitted(design, s, imageIndex);
    assert Run(order, s1, SubmitCalls(design, imageIndex)[1..]) == Some(s2);
  }

  /** After the opening and recording blocks of a Draw from the steady
      state, the submit's rule holds: with one semaphore per image the
      acquire has shown the semaphore's last wait executed; with a single
      semaphore, issue order makes its last wait execute before the signal. */
  lemma ReadyToSubmit(order: Ordering, design: Design, s: SyncState, imageIndex: nat)
    requires Sound(order, design)
    requires Steady(design, s)
    requires imageIndex < s.imageCount
    ensures RenderSlot(design, imageIndex) < |s.renderSemaphores|
    ensures Allowed(order, Recorded(Acquired(s, imageIndex)),
                    QueueSubmit(PresentSemaphore, RenderSemaphore(RenderSlot(design, imageIndex))))
    ensures Recorded(Acquired(s, imageIndex)).acquired == {imageIndex}
  {
    var slot := RenderSlot(design, imageIndex);
    assert Idle(design, slot, s.renderSemaphores[slot]);
  }

  /** The state a Draw leaves behind is steady again. */
  lemma InFlightIsSteady(design: Design, s: SyncState, imageIndex: nat)
    requires Steady(design, s)
    requires imageIndex < s.imageCount
    ensures RenderSlot(design, imageIndex) < |s.renderSemaphores|
    ensures Steady(design, InFlight(design, s, imageIndex))
  {
    var t := InFlight(design, s, imageIndex);
    forall k | 0 <= k < |t.renderSemaphores|
      ensures Idle(design, k, t.renderSemaphores[k])
    {
      assert Idle(design, k, s.renderSemaphores[k]);
    }
  }

  /** One Draw from the steady state keeps every rule and ends in the
      steady state with exactly that frame in flight. */
  lemma {:induction false} FrameKeepsRules(order: Ordering, design: Design, s: SyncState, imageIndex: nat)
    requires Sound(order, design)
    requires Steady(design, s)
    requires imageIndex < s.imageCount
    ensures RenderSlot(design, imageIndex) < |s.renderSemaphores|
    ensures Run(order, s, Frame(design, imageIndex)) == Some(InFlight(design, s, imageIndex))
    ensures Steady(design, InFlight(design, s, imageIndex))
  {
    var acquired := Acquired(s, imageIndex);
    AcquireKeepsRules(order, design, s, imageIndex);
    RecordKeepsRules(order, acquired);
    ReadyToSubmit(order, design, s, imageIndex);
    SubmitKeepsRules(order, design, Recorded(acquired), imageIndex);
    RunAppend(order, s, AcquireCalls(imageIndex), RecordCalls());
    RunAppend(order, s, AcquireCalls(imageIndex) + RecordCalls(), SubmitCalls(design, imageIndex));
    InFlightIsSteady(design, s, imageIndex);
  }

  /** Running two call sequences one after the other. */
  lemma {:induction false} RunAppend(order: Ordering, s: SyncState, first: seq<Call>, second: seq<Call>)
    ensures Run(order, s, first + second)
         == if Run(order, s, first).Some? then Run(order, Run(order, s, first).value, second) else None
    decreases |first|
  {
    if first == [] {
      assert first + second == second;
    } else {
      assert (first + second)[0] == first[0];
      assert (first + second)[1..] == first[1..] + second;
      if Allowed(order, s, first[0]) {
        RunAppend(order, Apply(s, first[0]), first[1..], second);
      }
    }
  }

  /** Repeating Draw any number of times, whatever images the presentation
      engine hands out, never breaks a rule and always returns to the steady
      state. */
  lemma {:induction false} DrawForeverKeepsRules(order: Ordering, design: Design, s: SyncState, imageIndices: seq<nat>)
    requires Sound(order, design)
    requires Steady(design, s)
    requires forall k :: 0 <= k < |imageIndices| ==> imageIndices[k] < s.imageCount
    ensures Run(order, s, Frames(design, imageIndices)).Some?
    ensures Steady(design, Run(order, s, Frames(design, imageIndices)).value)
    decreases |imageIndices|
  {
    if imageIndices != [] {
      FrameKeepsRules(order, design, s, imageIndices[0]);
      var next := InFlight(design, s, imageIndices[0]);
      RunAppend(order, s, Frame(design, imageIndices[0]), Frames(design, imageIndices[1..]));
      DrawForeverKeepsRules(order, design, next, imageIndices[1..]);
    }
  }

  /** From the objects as created, any number of Draws, with any images
      handed out, keeps every valid-usage rule: for vulkan.c's single render
      semaphore when waits execute in issue order, and for one render
      semaphore per image without that assumption. */
  lemma DrawForeverFromCreation(order: Ordering, design: Design, imageCount: nat, minImageCount: nat,
                                imageIndices: seq<nat>)
    requires Sound(order, design)
    requires minImageCount <= imageCount
    requires forall k :: 0 <= k < |imageIndices| ==> imageIndices[k] < imageCount
    ensures Run(order, Created(design, imageCount, minImageCount), Frames(design, imageIndices)).Some?
  {
    CreatedIsSteady(order, design, imageCount, minImageCount);
    DrawForeverKeepsRules(order, design, Created(design, imageCount, minImageCount), imageIndices);
  }

  /** A frame whose render semaphore is unsignaled keeps every rule under
      either ordering; the first Draw after creation is one. */
  lemma {:induction false} FreshFrameKeepsRules(order: Ordering, design: Design, s: SyncState, imageIndex: nat)
    requires Steady(design, s)
    requires imageIndex < s.imageCount
    requires s.renderSemaphores[RenderSlot(design, imageIndex)] == SemaphoreUnsignaled
    ensures Run(order, s, Frame(design, imageIndex)) == Some(InFlight(design, s, imageIndex))
  {
    var acquired := Acquired(s, imageIndex);
    AcquireKeepsRules(order, design, s, imageIndex);
    RecordKeepsRules(order, acquired);
    SubmitKeepsRules(order, design, Recorded(acquired), imageIndex);
    RunAppend(order, s, AcquireCalls(imageIndex), RecordCalls());
    RunAppend(order, s, AcquireCalls(imageIndex) + RecordCalls(), SubmitCalls(design, imageIndex));
  }

  /** With a single render semaphore still awaiting the wait of the present
      of `presented`, a Draw that acquires a different image breaks the
      submit rule unless waits execute in issue order. */
  lemma {:induction false} ReusedSemaphoreRefused(s: SyncState, presented: nat, imageIndex: nat)
    requires Steady(SingleRenderSemaphore, s)
    requires imageIndex < s.imageCount
    requires s.renderSemaphores[0] == PresentWaitPending(presented) && presented != imageIndex
    ensures Run(ObservedCompletion, s, Frame(SingleRenderSemaphore, imageIndex)) == None
  {
    var order := ObservedCompletion;
    var design := SingleRenderSemaphore;
    var acquired := Acquired(s, imageIndex);
    AcquireKeepsRules(order, design, s, imageIndex);
    RecordKeepsRules(order, acquired);
    assert Recorded(acquired).renderSemaphores[0] == PresentWaitPending(presented);
    assert Run(order, Recorded(acquired), SubmitCalls(design, imageIndex)) == None;
    RunAppend(order, s, AcquireCalls(imageIndex), RecordCalls());
    RunAppend(order, s, AcquireCalls(imageIndex) + RecordCalls(), SubmitCalls(design, imageIndex));
  }

  /** vulkan.c's single render semaphore breaks the submit rule as soon as
      two consecutive frames present different images, unless waits execute
      in issue order: the second submit signals the render semaphore while
      the first present's wait on it is not known to have executed. */
  lemma SingleRenderSemaphoreRefused(imageCount: nat, minImageCount: nat, first: nat, second: nat)
    requires minImageCount <= imageCount
    requires first < imageCount && second < imageCount && first != second
    ensures Run(IssueOrder, Created(SingleRenderSemaphore, imageCount, minImageCount),
                Frames(SingleRenderSemaphore, [first, second])).Some?
    ensures Run(ObservedCompletion, Created(SingleRenderSemaphore, imageCount, minImageCount),
                Frames(SingleRenderSemaphore, [first, second])) == None
  {
    var design := SingleRenderSemaphore;
    var order := ObservedCompletion;
    var s0 := Created(design, imageCount, minImageCount);
    DrawForeverFromCreation(IssueOrder, design, imageCount, minImageCount, [first, second]);
    CreatedIsSteady(order, design, imageCount, minImageCount);
    FreshFrameKeepsRules(order, design, s0, first);
    InFlightIsSteady(design, s0, first);
    var s1 := InFlight(design, s0, first);
    ReusedSemaphoreRefused(s1, first, second);
    assert [first, second][1..] == [second];
    assert Frames(design, [second]) == Frame(design, second) + Frames(design, []);
    assert Frames(design, [second]) == Frame(design, second);
    RunAppend(order, s0, Frame(design, first), Frame(design, second));
  }

  /** One render semaphore per swapchain image keeps every rule with no
      assumption about the order in which waits execute. */
  lemma PerImageSemaphoresKeepRules(imageCount: nat, minImageCount: nat, imageIndices: seq<nat>)
    requires minImageCount <= imageCount
    requires forall k :: 0 <= k < |imageIndices| ==> imageIndices[k] < imageCount
    ensures Run(ObservedCompletion, Created(RenderSemaphorePerImage, imageCount, minImageCount),
                Frames(RenderSemaphorePerImage, imageIndices)).Some?
  {
    DrawForeverFromCreation(ObservedCompletion, RenderSemaphorePerImage, imageCount, minImageCount, imageIndices);
  }

  /** The pairing inside one frame: the fence is waited on and reset before
      anything else; the submission waits on the semaphore the acquire
      signals; the present waits on the semaphore the submission signals;
      the image presented is the one acquired. */
  lemma FramePairsSemaphores(design: Design, imageIndex: nat)
    ensures AcquireCalls(imageIndex)[0] == WaitForFence && AcquireCalls(imageIndex)[1] == ResetFence
    ensures AcquireCalls(imageIndex)[2].signal == SubmitCalls(design, imageIndex)[0].wait == PresentSemaphore
    ensures SubmitCalls(design, imageIndex)[0].signal == SubmitCalls(design, imageIndex)[1].presentWait
    ensures AcquireCalls(imageIndex)[2].imageIndex == SubmitCalls(design, imageIndex)[1].presentIndex == imageIndex
  {
  }

  /** A second submission before the fence is waited on and reset is
      refused: the fence still tracks the first one. */
  lemma SubmitTwiceRefused(order: Ordering, design: Design, s: SyncState, imageIndex: nat)
    requires Sound(order, design)
    requires Steady(design, s) && imageIndex < s.imageCount
    ensures RenderSlot(design, imageIndex) < |s.renderSemaphores|
    ensures !Allowed(order, InFlight(design, s, imageIndex),
                     QueueSubmit(PresentSemaphore, RenderSemaphore(RenderSlot(design, imageIndex))))
    ensures !Allowed(order, InFlight(design, s, imageIndex), ResetFence)
    ensures !Allowed(order, InFlight(design, s, imageIndex), ResetCommandBuffer)
  {
    FrameKeepsRules(order, design, s, imageIndex);
  }
}
