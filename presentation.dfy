/** The per-frame state of vulkan.c: the render fence, the two semaphores,
    the draw command buffer, the swapchain images the application holds and
    the push-constant position `delta`. Each Vulkan call Draw makes is a
    method whose precondition is the call's valid-usage rule and whose
    effect is the transition of the FrameSync state machine; Draw runs them
    in the source's order. The image index the presentation engine hands
    back from an acquire is a parameter. vulkan.c has one render semaphore,
    so the rules are those that hold when waits execute in issue order. */
module Presentation {
  import opened FrameSync

  /** What drawRectangle adds to delta.x per call. */
  const DeltaStep: real := 0.01

  /** The value at which delta.x returns to 0. */
  const DeltaWrap: real := 2.0

  /** drawRectangle's update of delta.x: one step to the right, back to 0
      once the value reaches the wrap. */
  function NextDeltaX(x: real): (next: real)
    ensures next < DeltaWrap
    ensures 0.0 <= x ==> 0.0 <= next
    ensures next == 0.0 || next == x + DeltaStep
    ensures x + DeltaStep < DeltaWrap ==> next > x
  {
    if x + DeltaStep >= DeltaWrap then 0.0 else x + DeltaStep
  }

  /** delta.x after `frames` calls of drawRectangle starting from `x`. */
  function DeltaXAfter(x: real, frames: nat): real
  {
    if frames == 0 then x else NextDeltaX(DeltaXAfter(x, frames - 1))
  }

  /** Starting from its initial 0, delta.x moves one step per frame without
      wrapping for the first 199 frames. */
  lemma {:induction false} DeltaXClimbs(frames: nat)
    requires frames < 200
    ensures DeltaXAfter(0.0, frames) == frames as real * DeltaStep
  {
    if frames > 0 {
      DeltaXClimbs(frames - 1);
    }
  }

  /** ... and is back at 0 on the 200th frame, so the push constant cycles
      with a period of 200 frames. */
  lemma DeltaXPeriod(frames: nat)
    ensures DeltaXAfter(0.0, 200) == 0.0
    ensures DeltaXAfter(0.0, 200 + frames) == DeltaXAfter(0.0, frames)
  {
    DeltaXClimbs(199);
    DeltaXShift(200, frames);
  }

  /** Running the step `first` times and then `frames` more. */
  lemma {:induction false} DeltaXShift(first: nat, frames: nat)
    requires DeltaXAfter(0.0, first) == 0.0
    ensures DeltaXAfter(0.0, first + frames) == DeltaXAfter(0.0, frames)
  {
    if frames > 0 {
      DeltaXShift(first, frames - 1);
    }
  }

  /** From any value in [0, 2), delta.x stays in [0, 2) however many frames
      are drawn. */
  lemma {:induction false} DeltaXStaysInRange(x: real, frames: nat)
    requires 0.0 <= x < DeltaWrap
    ensures 0.0 <= DeltaXAfter(x, frames) < DeltaWrap
  {
    if frames > 0 {
      DeltaXStaysInRange(x, frames - 1);
    }
  }

  /** The globals of vulkan.c that Draw reads and writes. */
  class Renderer {
    var renderFence: FenceState
    var presentSemaphore: SemaphoreState
    var renderSemaphore: SemaphoreState
    var cmdBufferDraw: CommandBufferState
    /** The swapchain images acquired and not yet presented. */
    var acquiredImages: set<nat>
    /** g_swapchainImageCount. */
    const swapchainImageCount: nat
    /** The surface's minImageCount, which bounds how many images may be held. */
    const surfaceMinImageCount: nat
    /** The push-constant position delta.x. */
    var deltaX: real
    /** The value of delta.x recorded into the command buffer by the last
        drawRectangle. */
    var pushedDeltaX: real
    /** The swapchain image whose framebuffer the last render pass targets. */
    var renderedImage: nat

    /** The synchronization objects as the FrameSync state machine sees them. */
    function State(): SyncState
      reads this
    {
      SyncState(renderFence, presentSemaphore, [renderSemaphore], cmdBufferDraw,
                acquiredImages, swapchainImageCount, surfaceMinImageCount)
    }

    /** createCommandBuffers and createSyncObjects: a freshly allocated
        command buffer, two unsignaled semaphores and a fence created in the
        signaled state; delta starts at 0. */
    constructor (swapchainImageCount: nat, surfaceMinImageCount: nat)
      requires surfaceMinImageCount <= swapchainImageCount
      ensures State() == Created(SingleRenderSemaphore, swapchainImageCount, surfaceMinImageCount)
      ensures Steady(SingleRenderSemaphore, State())
      ensures deltaX == 0.0
    {
      renderFence := FenceSignaled;
      presentSemaphore := SemaphoreUnsignaled;
      renderSemaphore := SemaphoreUnsignaled;
      cmdBufferDraw := Initial;
      acquiredImages := {};
      this.swapchainImageCount := swapchainImageCount;
      this.surfaceMinImageCount := surfaceMinImageCount;
      deltaX := 0.0;
      pushedDeltaX := 0.0;
      renderedImage := 0;
    }

    /** vkWaitForFences with an unbounded timeout. Once it returns, the
        submission the fence tracks has completed: its semaphore wait has
        executed and its command buffer left the pending state (a
        one-time-submit buffer becomes invalid). */
    method WaitForFences()
      requires Allowed(IssueOrder, State(), WaitForFence)
      modifies this`renderFence, this`presentSemaphore, this`renderSemaphore, this`cmdBufferDraw
      ensures State() == Apply(old(State()), WaitForFence)
      ensures renderFence == FenceSignaled
    {
      if renderFence == FencePending {
        renderFence := FenceSignaled;
        presentSemaphore := AfterFence(presentSemaphore);
        renderSemaphore := AfterFence(renderSemaphore);
        if cmdBufferDraw == Pending {
          cmdBufferDraw := Invalid;
        }
      }
    }

    /** vkResetFences. */
    method ResetFences()
      requires Allowed(IssueOrder, State(), ResetFence)
      modifies this`renderFence
      ensures State() == Apply(old(State()), ResetFence)
      ensures renderFence == FenceUnsignaled
    {
      renderFence := FenceUnsignaled;
    }

    /** vkAcquireNextImageKHR signaling g_presentSemaphore; the presentation
        engine hands back `imageIndex`. */
    method AcquireNextImage(imageIndex: nat)
      requires Allowed(IssueOrder, State(), FrameSync.AcquireNextImage(PresentSemaphore, imageIndex))
      modifies this`presentSemaphore, this`renderSemaphore, this`acquiredImages
      ensures State() == Apply(old(State()), FrameSync.AcquireNextImage(PresentSemaphore, imageIndex))
      ensures imageIndex in acquiredImages
    {
      presentSemaphore := SignalPending;
      renderSemaphore := AfterReacquire(renderSemaphore, imageIndex);
      acquiredImages := acquiredImages + {imageIndex};
    }

    /** vkResetCommandBuffer (the pool allows per-buffer resets). */
    method ResetCommandBuffer()
      requires Allowed(IssueOrder, State(), FrameSync.ResetCommandBuffer)
      modifies this`cmdBufferDraw
      ensures State() == Apply(old(State()), FrameSync.ResetCommandBuffer)
    {
      cmdBufferDraw := Initial;
    }

    /** vkBeginCommandBuffer with the one-time-submit flag. */
    method BeginCommandBuffer()
      requires Allowed(IssueOrder, State(), FrameSync.BeginCommandBuffer)
      modifies this`cmdBufferDraw
      ensures State() == Apply(old(State()), FrameSync.BeginCommandBuffer)
    {
      cmdBufferDraw := Recording;
    }

    /** drawRectangle: record the current delta as the push constant and the
        draw, then step delta.x. */
    method DrawRectangle()
      requires cmdBufferDraw == Recording
      modifies this`deltaX, this`pushedDeltaX
      ensures pushedDeltaX == old(deltaX)
      ensures deltaX == NextDeltaX(old(deltaX))
    {
      pushedDeltaX := deltaX;
      deltaX := deltaX + DeltaStep;
      if deltaX >= DeltaWrap {
        deltaX := 0.0;
      }
    }

    /** The render pass of Draw: begin it on the framebuffer of the acquired
        image, draw the rectangle, end it. */
    method RecordRenderPass(imageIndex: nat)
      requires imageIndex in acquiredImages
      requires Allowed(IssueOrder, State(), RecordDraw)
      modifies this`deltaX, this`pushedDeltaX, this`renderedImage
      ensures State() == Apply(old(State()), RecordDraw)
      ensures renderedImage == imageIndex
      ensures pushedDeltaX == old(deltaX)
      ensures deltaX == NextDeltaX(old(deltaX))
    {
      renderedImage := imageIndex;
      DrawRectangle();
    }

    /** vkEndCommandBuffer. */
    method EndCommandBuffer()
      requires Allowed(IssueOrder, State(), FrameSync.EndCommandBuffer)
      modifies this`cmdBufferDraw
      ensures State() == Apply(old(State()), FrameSync.EndCommandBuffer)
    {
      cmdBufferDraw := Executable;
    }

    /** vkQueueSubmit of the draw command buffer, waiting on
        g_presentSemaphore, signaling g_renderSemaphore and the fence. */
    method QueueSubmit()
      requires Allowed(IssueOrder, State(), FrameSync.QueueSubmit(PresentSemaphore, RenderSemaphore(0)))
      modifies this`renderFence, this`presentSemaphore, this`renderSemaphore, this`cmdBufferDraw
      ensures State() == Apply(old(State()), FrameSync.QueueSubmit(PresentSemaphore, RenderSemaphore(0)))
      ensures renderFence == FencePending
    {
      presentSemaphore := SubmitWaitPending;
      renderSemaphore := SignalPending;
      renderFence := FencePending;
      cmdBufferDraw := Pending;
    }

    /** vkQueuePresentKHR of `imageIndex`, waiting on g_renderSemaphore. */
    method QueuePresent(imageIndex: nat)
      requires Allowed(IssueOrder, State(), FrameSync.QueuePresent(RenderSemaphore(0), imageIndex))
      modifies this`renderSemaphore, this`acquiredImages
      ensures State() == Apply(old(State()), FrameSync.QueuePresent(RenderSemaphore(0), imageIndex))
      ensures imageIndex !in acquiredImages
    {
      renderSemaphore := PresentWaitPending(imageIndex);
      acquiredImages := acquiredImages - {imageIndex};
    }

    /** The opening block of Draw: wait for the previous frame's
        submission through the fence, reset the fence and acquire the image
        to render into. */
    method BeginFrame(imageIndex: nat)
      requires Steady(SingleRenderSemaphore, State())
      requires imageIndex < swapchainImageCount
      modifies this`renderFence, this`presentSemaphore, this`renderSemaphore, this`cmdBufferDraw,
               this`acquiredImages
      ensures State() == Acquired(old(State()), imageIndex)
    {
      ghost var before := State();
      assert Idle(SingleRenderSemaphore, 0, before.renderSemaphores[0]);
      WaitForFences();
      assert renderSemaphore == before.renderSemaphores[0];
      ResetFences();
      AcquireNextImage(imageIndex);
      assert State().renderSemaphores == Reacquired(before.renderSemaphores, imageIndex);
    }

    /** The recording block of Draw: reset the command buffer, record the
        render pass on the acquired image's framebuffer and end recording. */
    method RecordCommands(imageIndex: nat)
      requires imageIndex in acquiredImages
      requires cmdBufferDraw != Pending
      modifies this`cmdBufferDraw, this`deltaX, this`pushedDeltaX, this`renderedImage
      ensures State() == Recorded(old(State()))
      ensures renderedImage == imageIndex
      ensures pushedDeltaX == old(deltaX)
      ensures deltaX == NextDeltaX(old(deltaX))
    {
      ResetCommandBuffer();
      BeginCommandBuffer();
      RecordRenderPass(imageIndex);
      EndCommandBuffer();
    }

    /** The closing block of Draw: submit the recorded commands and present
        the acquired image. */
    method SubmitAndPresent(imageIndex: nat)
      requires Allowed(IssueOrder, State(), FrameSync.QueueSubmit(PresentSemaphore, RenderSemaphore(0)))
      requires acquiredImages == {imageIndex}
      modifies this`renderFence, this`presentSemaphore, this`renderSemaphore, this`cmdBufferDraw,
               this`acquiredImages
      ensures State() == Submitted(SingleRenderSemaphore, old(State()), imageIndex)
    {
      QueueSubmit();
      QueuePresent(imageIndex);
    }

    /** Draw: one frame, given the index the acquire returns. Every call
        meets its valid-usage rule when waits execute in issue order: the
        calls are exactly those of FrameSync.Frame for the single render
        semaphore and running them from the state before Draw gives
        the state after it. Draw leaves exactly this frame in flight, which
        is the steady state again, renders into the acquired image and
        advances delta.x by one step. */
    method Draw(imageIndex: nat)
      requires Steady(SingleRenderSemaphore, State())
      requires imageIndex < swapchainImageCount
      modifies this
      ensures Run(IssueOrder, old(State()), Frame(SingleRenderSemaphore, imageIndex)) == Some(State())
      ensures State() == InFlight(SingleRenderSemaphore, old(State()), imageIndex)
      ensures Steady(SingleRenderSemaphore, State())
      ensures renderedImage == imageIndex
      ensures pushedDeltaX == old(deltaX)
      ensures deltaX == NextDeltaX(old(deltaX))
    {
      ghost var before := State();
      ReadyToSubmit(IssueOrder, SingleRenderSemaphore, before, imageIndex);
      BeginFrame(imageIndex);
      RecordCommands(imageIndex);
      SubmitAndPresent(imageIndex);
      FrameKeepsRules(IssueOrder, SingleRenderSemaphore, before, imageIndex);
    }
  }
}
