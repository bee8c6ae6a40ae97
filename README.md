# vk-gsync-demo: a verified model of the frame loop

vk-gsync-demo is a small SDL/Vulkan program. It draws a moving rectangle
while a frame-rate controller makes the frame rate oscillate. This shows how
a variable-refresh display (G-Sync) copes with a changing frame rate. Each
pass through the main loop does four things:

- it samples the clock and picks the next frame delay from the simulated rate;
- it advances the bar animation;
- it records, submits and presents one Vulkan frame;
- it sleeps for the frame delay.

The Dafny project models that loop's logic and proves what it promises:

- `timing.dfy` (module `Timing`): the application clock (`struct Clock`),
  with the wall-clock sample passed in. Over any run of updates the deltas
  telescope to the elapsed time.
- `frame_rate.dfy` (module `FrameRate`): the frame-rate controller.
  - The three integer bounds (floor, min, max) are a `Bounds` value with a
    pure transition per key-press mutator, and a `FrameRateController` class
    whose methods update the fields in place.
  - The simulated rate is the mean of the effective minimum and the maximum,
    plus the amplitude times sin(t).
  - The frame delay is the reciprocal of the rate.
  - Proved: with non-negative steps the bounds stay ordered, so the rate
    stays within its range and the delay within (0, 0.1] s. The nanosecond
    field endFrame hands to `nanosleep` therefore always lies in [0, 10^9).
- `animation.dfy` (module `Animation`): the bar offset of
  `computeVerticalBarXPosition`, a persistent accumulator that wraps to 0 at
  2.
  - For a non-negative start and non-negative deltas it stays in [0, 2).
  - Until it wraps, it equals its start plus the speed times the elapsed
    time.
  - Starting from 0, frames covering exactly one animation duration bring it
    back to 0. From any other start they need not bring it back to where it
    started (see the notes below).
- `vulkan_select.dfy` (module `VulkanSelect`): the memory-type search of
  `getMemoryType` and the swapchain image-count rule of `initSwapchain`.
- `frame_sync.dfy` (module `FrameSync`): the synchronization protocol of
  `Draw`, as an abstract state machine.
  - The state is one fence, the present semaphore, the render semaphores,
    the draw command buffer and the set of acquired swapchain images.
  - Each Vulkan call is a transition guarded by its valid-usage rule from
    the Vulkan specification: the Synchronization and Cache Control chapter
    (fences, semaphores, queue submission), the Command Buffers chapter
    (lifecycle) and the Window System Integration chapter (acquire, present).
  - The rules come in two readings (`Ordering`). Under `IssueOrder`,
    submissions and presents on the one queue execute in the order they
    were issued. Under `ObservedCompletion`, the host counts a semaphore
    wait as executed only once it has observed it. For a submission that
    means through the fence. For a present it means by acquiring the
    presented image again.
  - Two designs (`Design`) are modelled: the single render semaphore of
    vulkan.c, and one render semaphore per swapchain image.
  - Proved: from the objects as `createSyncObjects` creates them, any number
    of `Draw` calls, with any image indices the presentation engine hands
    out, never breaks a rule. For the single render semaphore this needs
    in-order execution. One render semaphore per image needs no such
    assumption. Without it, the single semaphore is refused as soon as two
    consecutive frames present different images (see Findings).
- `presentation.dfy` (module `Presentation`): the globals `Draw` steps
  through.
  - The `Renderer` class holds the fence, the semaphores, the command buffer,
    the acquired images and the push-constant position `delta`.
  - There is one method per Vulkan call, each proved against the matching
    `FrameSync` transition under in-order execution.
  - `Draw` is proved to perform exactly the state machine's frame.
  - `drawRectangle`'s step of `delta.x` stays in [0, 2) and cycles every
    200 frames.

Conventions:

- C `double` and `float` values are Dafny `real`s.
- Conversions from double to int are `FrameRate.Truncate` (toward zero).
- Vulkan's 32-bit masks are `bv32`.
- uint32_t arithmetic that can wrap is written out modulo 2^32.
- Values that come from outside the program are parameters: the
  `gettimeofday` sample, the value of `sin(currentTimeSec)`, the display's
  refresh rate, the memory properties and surface capabilities the driver
  reports, and the image index `vkAcquireNextImageKHR` returns.

Notes on the code:

- **The wrap drops the overshoot.** `computeVerticalBarXPosition` resets
  the offset to exactly 0 once it reaches 2 (main.c:185-186). It does not
  subtract 2. One animation duration therefore brings the bar back to where
  it started only when it starts at 0. From offset 1 with a 5 s duration,
  frames of 3 s and 2 s end at 0.8. `Animation.FullCycleFromMidScreenMissesStart`
  exhibits this.

- **The adjustment steps.** `increaseMaxFrameRate` does not clamp
  (main.c:83), so a negative step can push max below min.
  `FrameRate.RaiseMaxNegativeBreaksOrder` exhibits this. The preservation
  properties are stated for the non-negative steps every caller uses.
- **The first frame's delta.** `initializeApplication` only zeroes the
  clock (main.c:169), so the first `updateClock` in the main loop reports
  the whole wall-clock time since the epoch as its delta. The bar offset
  therefore wraps to 0 on the first frame. From then on, clock time counts
  from that first sample, which `Animation.OneDurationOfClockTimeReturnsToStart`
  allows by taking any starting time.
- **The units of the delay.** `computeNextFrameDelayMsec` computes a delay
  in seconds, not milliseconds. The model calls it `ComputeNextFrameDelay`.
- **What `Update` does.** Its result is passed to `Update`, whose body is
  empty (vulkan.c:673-675), so the bar offset never reaches the GPU. The
  position the shader receives is `delta.x`, which `drawRectangle` advances
  by 0.01 per frame. Both are modelled.

## Model

| member | source | states |
|---|---|---|
| Timing.Clock.constructor | main.c:27-32 | initializeClock: current, last and delta all start at 0 |
| Timing.Clock.Update | main.c:34-42 | the current time moves into last, the new sample becomes current and delta is their difference; a non-decreasing sample gives a non-negative delta |
| Timing.Deltas | main.c:34-42 | the deltas reported by successive updates: one per sample, the first is the sample minus the starting time |
| Timing.DeltaAt | main.c:39-41 | every reported delta is a sample minus the sample before it |
| Timing.DeltasTelescope | main.c:39-41 | summed over any run of updates the deltas equal the last sample minus the starting time |
| Timing.DeltasSnoc | main.c:39-41 | one more update appends the new sample minus the previous one |
| Timing.UpdateEach | main.c:442-444 | updating the clock once per frame with each sample reports exactly the deltas of `Deltas` from the starting time; afterwards the clock is consistent, its current time is the last sample, its last time the sample before (or the old current time after one update), its delta the last reported delta, and the reported deltas sum to the time elapsed; with no samples the clock is unchanged |
| FrameRate.Max | main.c:58-61 | the result is at least both arguments and is one of them |
| FrameRate.Min | main.c:63-66 | the result is at most both arguments and is one of them |
| FrameRate.Truncate | main.c:72 | double to int conversion: rounds toward zero, within one of the argument |
| FrameRate.InitialBounds | main.c:68-73 | floor 10, min 30, max the larger of 60 and the refresh rate; the ordering holds |
| FrameRate.RaiseMin | main.c:75-79 | min becomes the smaller of min+n and max; floor and max unchanged; with n >= 0 the ordering is kept and min does not drop |
| FrameRate.RaiseMax | main.c:81-84 | max grows by exactly n and nothing else changes; with n >= 0 the ordering is kept |
| FrameRate.LowerMin | main.c:86-90 | min becomes the larger of min-n and floor, so never below floor; with n >= 0 the ordering is kept and min does not grow |
| FrameRate.LowerMax | main.c:92-96 | max becomes the larger of max-n and min, so never below min, for any n; floor and min unchanged |
| FrameRate.EffectiveMin | main.c:100 | the lower end of the oscillation is the larger of floor and min |
| FrameRate.SimulatedFrameRate | main.c:98-106 | the rate lies between the effective minimum and max; it is the mean at sin 0, max at sin 1 and the effective minimum at sin -1 |
| FrameRate.FrameDelay | main.c:108 | the delay is the reciprocal of the rate, positive and at most 1/floor under the ordering |
| FrameRate.SleepNanoseconds | main.c:478-482 | the nanosecond field is the delay times 10^9 truncated: non-negative, not above the exact value, at most 10^8 for a delay of at most 0.1 s |
| FrameRate.FrameDelayFitsTimespec | main.c:478-485 | with floor 10 and ordered bounds the nanosecond field is in [0, 10^9) for every time |
| FrameRate.AdjustmentsKeepBounds | main.c:75-96 | any sequence of adjustments with non-negative steps keeps the ordering and the floor |
| FrameRate.DefaultsAtTimeZero | main.c:68-109 | at 60 Hz the bounds are (10, 30, 60); at time 0 the rate is 45 and the delay 1/45 s |
| FrameRate.RaiseMaxFiveTimes | main.c:81-84 | five increases of max by 10 from the defaults give max 110 with min still 30 |
| FrameRate.LowerMinStopsAtFloor | main.c:86-90 | lowering min by 100 from the defaults gives min 10 |
| FrameRate.RaiseMaxNegativeBreaksOrder | main.c:83 | increasing max by a negative step can break the ordering |
| FrameRate.FrameRateController.constructor | main.c:68-73 | initializeFrameRateController: the fields hold the initial bounds and the invariant holds |
| FrameRate.FrameRateController.IncreaseMinFrameRate | main.c:75-79 | the fields become RaiseMin of the old bounds; a non-negative step keeps the invariant |
| FrameRate.FrameRateController.IncreaseMaxFrameRate | main.c:81-84 | the fields become RaiseMax of the old bounds; a non-negative step keeps the invariant |
| FrameRate.FrameRateController.DecreaseMinFrameRate | main.c:86-90 | the fields become LowerMin of the old bounds; a non-negative step keeps the invariant |
| FrameRate.FrameRateController.DecreaseMaxFrameRate | main.c:92-96 | the fields become LowerMax of the old bounds; every step keeps the invariant |
| FrameRate.FrameRateController.ComputeNextFrameDelay | main.c:98-109 | the rate and delay fields hold the simulated rate and its reciprocal; the rate is within [effective min, max] and the delay within (0, 0.1] |
| Animation.Speed | main.c:181-182 | a positive duration gives a positive speed |
| Animation.SpeedCoversScreen | main.c:181-182 | one duration at that speed covers the screen width 2 |
| Animation.NextTranslation | main.c:177-189 | the offset is below 2; it resets to exactly 0 if and only if the advanced offset reaches 2, and is the advanced offset otherwise; it stays non-negative for a non-negative start and delta; a zero delta leaves an offset below 2 unchanged |
| Animation.TravelIsSpeedTimesElapsed | main.c:183 | the distance summed frame by frame is the speed times the total elapsed time |
| Animation.TravelGrows | main.c:183 | with non-negative deltas the distance never decreases from frame to frame |
| Animation.OffsetTracksTravel | main.c:177-189 | until it reaches the edge the offset is the start plus the distance travelled |
| Animation.FullCycleReturnsToStart | main.c:177-189 | any frames with non-negative deltas adding up to exactly one duration bring the bar from 0 back to 0, including frames with a zero delta after the wrap |
| Animation.FullCycleFromMidScreenMissesStart | main.c:185-186 | from offset 1, frames of 3 s and 2 s (one 5 s duration) end at 0.8, not back at 1, because the wrap resets to 0 |
| Animation.LastFrameWraps | main.c:183-186 | when the last of the frames adding up to one duration has a positive delta, that frame reaches the edge and wraps the bar to 0 |
| Animation.OneDurationOfClockTimeReturnsToStart | main.c:510-514 | from any starting clock time, non-decreasing samples whose last one is one duration after the start, fed through updateClock and the animation each frame, bring the bar from 0 back to 0 |
| Animation.BarAnimator.constructor | main.c:179 | the static offset starts at 0 |
| Animation.BarAnimator.ComputeVerticalBarXPosition | main.c:177-189 | the stored offset becomes NextTranslation of the old one and the clock delta and is returned; it lies in [0, 2) for non-negative inputs |
| VulkanSelect.GetMemoryType | vulkan.c:66-76 | reports success iff some memory type allowed by the filter has all required flags; on success the index is the first such type; on failure the caller's index is unchanged |
| VulkanSelect.SwapchainImageCount | vulkan.c:282-285 | minImageCount+1 when there is no maximum, otherwise capped at the maximum; never above a nonzero maximum; fits uint32_t |
| VulkanSelect.SelectImageCount | vulkan.c:282-285 | the count initSwapchain computes is SwapchainImageCount of the capabilities |
| VulkanSelect.ImageCountWithinSurfaceLimits | vulkan.c:282-285 | for a valid surface the count is at least minImageCount and at most a nonzero maxImageCount |
| VulkanSelect.ImageCountWrapsAtUint32Max | vulkan.c:282 | a minImageCount of 2^32-1 wraps the count to 0 |
| FrameSync.WithSemaphore | vulkan.c:685 | updating one semaphore gives it the new state and leaves every other semaphore, the fence, the command buffer, the held images and the image counts unchanged |
| FrameSync.FenceObserved | vulkan.c:681 | once the fence wait returns, no semaphore still awaits the fenced submission's wait; those that did are unsignaled and the rest are unchanged |
| FrameSync.Reacquired | vulkan.c:685 | once an image is acquired again, no semaphore still awaits its present's wait; those that did are unsignaled and the rest are unchanged |
| FrameSync.Allowed | vulkan.c:681-746 | the valid-usage rule of each call Draw makes: the fence wait needs a signaled or pending fence, the reset a fence not pending; the acquire needs an unsignaled semaphore and a free image, within the images the surface minimum leaves; reset and begin need a command buffer not pending (begin also not recording), record and end one that is recording; the submit needs an unsignaled fence, a signaled wait semaphore and an executable command buffer, and a signal semaphore that is unsignaled (or, in issue order, whose last wait has been issued); the present needs a signaled wait semaphore and a held image |
| FrameSync.ObservedCompletionIsStricter | vulkan.c:717-732 | every call the observed-completion reading allows is allowed in issue order, and the two readings agree on every call but the submit |
| FrameSync.Apply | vulkan.c:681-746 | a transition never changes the swapchain's image counts or the number of render semaphores |
| FrameSync.Created | vulkan.c:451-483 | the fence is created signaled, no image is acquired, and there is one render semaphore per image, or a single one in vulkan.c's design |
| FrameSync.Acquired | vulkan.c:681-685 | the opening block keeps the number of render semaphores |
| FrameSync.CreatedIsSteady | vulkan.c:474 | the created objects are in the steady state and the first fence wait returns |
| FrameSync.AcquireKeepsRules | vulkan.c:681-685 | from a steady state, under either ordering, the fence wait, fence reset and acquire all meet their rules |
| FrameSync.RecordKeepsRules | vulkan.c:687-714 | reset, begin, render pass and end of the command buffer meet their rules and leave it executable |
| FrameSync.SubmitKeepsRules | vulkan.c:717-747 | once the render semaphore may be signaled, the submit and the present meet their rules and leave exactly this frame in flight |
| FrameSync.ReadyToSubmit | vulkan.c:717-732 | after the opening and recording blocks, the submit's rule holds for the single render semaphore assuming in-order queue execution, and for one render semaphore per image under either ordering |
| FrameSync.InFlightIsSteady | vulkan.c:731-746 | the state a frame leaves behind is a steady state |
| FrameSync.FrameKeepsRules | vulkan.c:677-754 | one Draw from a steady state meets every rule and ends with exactly that frame in flight: for the single render semaphore assuming in-order queue execution, for one per image under either ordering |
| FrameSync.RunAppend | vulkan.c:677-754 | running two call sequences one after the other is running their concatenation |
| FrameSync.DrawForeverKeepsRules | vulkan.c:677-754 | any number of Draws from a steady state, with any acquired indices, meets every rule and ends steady: for the single render semaphore assuming in-order queue execution, for one per image under either ordering |
| FrameSync.DrawForeverFromCreation | vulkan.c:451-483 | from the objects as created, any number of Draws meets every rule: for the single render semaphore assuming in-order queue execution, for one per image under either ordering |
| FrameSync.FreshFrameKeepsRules | vulkan.c:677-754 | a Draw whose render semaphore is unsignaled meets every rule under either ordering |
| FrameSync.ReusedSemaphoreRefused | vulkan.c:724-741 | under the observed-completion reading, a Draw that signals the single render semaphore while it awaits the wait of another image's present is refused |
| FrameSync.SingleRenderSemaphoreRefused | vulkan.c:724-741 | two Draws of different images from creation meet every rule in issue order and are refused under the observed-completion reading |
| FrameSync.PerImageSemaphoresKeepRules | vulkan.c:724-741 | with one render semaphore per image, any number of Draws from creation meets every rule under the observed-completion reading |
| FrameSync.AcquireCalls | vulkan.c:681-685 | the opening block of Draw: wait for the fence, reset it, acquire an image signaling the present semaphore |
| FrameSync.RecordCalls | vulkan.c:687-714 | the recording block of Draw: reset the command buffer, begin it, record the render pass, end it |
| FrameSync.SubmitCalls | vulkan.c:717-747 | the closing block of Draw: submit waiting on the present semaphore and signaling the frame's render semaphore, then present the acquired image waiting on that render semaphore |
| FrameSync.Frame | vulkan.c:677-754 | the calls of one Draw in the source's order: the three blocks one after the other |
| FrameSync.Frames | vulkan.c:677-754 | the calls of one Draw per acquired index, in order |
| FrameSync.FramePairsSemaphores | vulkan.c:681-746 | the fence is waited on and reset first; acquire signals the present semaphore that submit waits on; submit signals the render semaphore that present waits on; present uses the acquired index |
| FrameSync.SubmitTwiceRefused | vulkan.c:681-731 | after a frame, resetting the fence, resetting the command buffer or submitting again are refused until the fence has been waited on |
| Presentation.NextDeltaX | vulkan.c:624-625 | delta.x stays below 2 and non-negative; it either advances by 0.01 or resets to 0 |
| Presentation.DeltaXClimbs | vulkan.c:624-625 | from 0, after k < 200 frames delta.x is k times 0.01 |
| Presentation.DeltaXPeriod | vulkan.c:624-625 | delta.x is back at 0 after 200 frames and then repeats with period 200 |
| Presentation.DeltaXShift | vulkan.c:624-625 | once delta.x is back at 0 the sequence repeats |
| Presentation.DeltaXStaysInRange | vulkan.c:624-625 | from any value in [0, 2) delta.x stays in [0, 2) for any number of frames |
| Presentation.Renderer.constructor | vulkan.c:451-483 | the objects are in the created state, which is steady, and delta starts at 0 |
| Presentation.Renderer.WaitForFences | vulkan.c:681 | the state follows the fence-wait transition; afterwards the fence is signaled |
| Presentation.Renderer.ResetFences | vulkan.c:682 | the state follows the fence-reset transition; afterwards the fence is unsignaled |
| Presentation.Renderer.AcquireNextImage | vulkan.c:684-685 | the state follows the acquire transition; the index is held |
| Presentation.Renderer.ResetCommandBuffer | vulkan.c:687 | the state follows the command-buffer reset transition |
| Presentation.Renderer.BeginCommandBuffer | vulkan.c:689-693 | the state follows the begin transition |
| Presentation.Renderer.DrawRectangle | vulkan.c:617-628 | the pushed constant is the old delta.x, which then takes one step |
| Presentation.Renderer.RecordRenderPass | vulkan.c:695-712 | the render pass targets the framebuffer of an acquired image and records drawRectangle |
| Presentation.Renderer.EndCommandBuffer | vulkan.c:714 | the state follows the end transition |
| Presentation.Renderer.QueueSubmit | vulkan.c:717-732 | the state follows the submit transition; the fence is pending |
| Presentation.Renderer.QueuePresent | vulkan.c:735-747 | the state follows the present transition; the image is handed back |
| Presentation.Renderer.BeginFrame | vulkan.c:681-685 | from a steady state, the opening block reaches the Acquired state, assuming in-order queue execution |
| Presentation.Renderer.RecordCommands | vulkan.c:687-714 | recording into an acquired image's framebuffer leaves the command buffer executable and steps delta.x once |
| Presentation.Renderer.SubmitAndPresent | vulkan.c:717-747 | submitting and presenting leave exactly this frame in flight, with the single render semaphore awaiting the present's wait |
| Presentation.Renderer.Draw | vulkan.c:677-754 | assuming in-order queue execution, running FrameSync.Frame for the single render semaphore from the old state gives the new state, which is steady with exactly this frame in flight; it renders into the acquired image and steps delta.x once |

## Findings

| source | as written | input that shows it | evidently intended | confidence | as-written member | corrected member |
|---|---|---|---|---|---|---|
| vulkan.c:724-741 | one `g_renderSemaphore` is signaled by every frame's submit and waited on by every frame's present | two consecutive Draws presenting images 0 and then 1 of a two-image swapchain: the second submit signals the render semaphore while the first present's wait on it is known to have executed only once image 0 is acquired again | one render semaphore per swapchain image, so a semaphore is signaled again only after its image has been re-acquired | medium, not executed; holds only without in-order queue execution | FrameSync.SingleRenderSemaphoreRefused | FrameSync.PerImageSemaphoresKeepRules |

## Left out

- Animation.FullCycleReturnsToStart: the return to the starting offset is stated from offset 0 only, because the source's wrap to exactly 0 makes it false from other starts (see the notes above).
- Instance, device, swapchain, render pass, pipeline, framebuffer and command pool creation: foreign Vulkan and SDL calls whose only logic is their order. The model takes them to succeed. The source carries on after a failed `InitializeVulkan` (main.c:165-167); that path is not modelled.
- `VkResult` values in `Draw`: the source ignores them, so every call is a transition that succeeds.
- `prepareShaderModule`: file I/O.
- `CleanupVulkan`: destroy calls only. It does not wait on the fence, so no drain-before-destroy property is claimed.
- `gettimeofday`, `sin` and `nanosleep`, including the fixed 16.6 ms sleep at the end of `Draw`: the clock sample and the sine value are parameters, and sleeping is not modelled.
- The G-Sync and V-Sync controllers and `processEvents` (SDL polling): their sources are not part of this model.
- The `USE_OPENGL` block (GLUT/GL HUD drawing and the special-key handler that calls the four adjustments with step 10). In the SDL build the Page Up and Page Down branches are empty. The adjustments are modelled as functions and methods any caller may use.
- IEEE rounding of float and double: all arithmetic is exact over the reals. The 200-frame period of `delta.x` holds for exact arithmetic. With float accumulation of 0.01 the wrap can land a frame earlier or later.
- FrameRate.FrameRateController.IncreaseMinFrameRate: 32-bit `int` overflow of the bounds is not modelled; the fields are unbounded integers.
- FrameRate.FrameRateController.IncreaseMaxFrameRate: 32-bit `int` overflow of the bounds is not modelled; the fields are unbounded integers.
- FrameRate.FrameRateController.DecreaseMinFrameRate: 32-bit `int` overflow of the bounds is not modelled; the fields are unbounded integers.
- FrameRate.FrameRateController.DecreaseMaxFrameRate: 32-bit `int` overflow of the bounds is not modelled; the fields are unbounded integers.
- FrameRate.FrameRateController.ComputeNextFrameDelay: requires the bounds invariant. Without it the rate can be zero or negative, and the source then divides by zero or produces a negative delay; that IEEE behaviour is not modelled.
- Animation.BarAnimator.ComputeVerticalBarXPosition: requires a nonzero duration, since the source divides by it. The program always uses 5.
- VulkanSelect.GetMemoryType: `1 << i` is a C `int` shift, undefined for i = 31. The model treats it as the 32-bit mask with bit i set, which is what compilers produce.
- Presentation.Renderer: the methods are proved against the in-order reading of the rules only, since vulkan.c's single render semaphore fails the observed-completion reading (see Findings); the per-image design is modelled in `FrameSync` but not as a class.
- The clear color, render area, push-constant layout and draw parameters of the render pass: they are fixed values with no logic.
- The `vkCmdBindPipeline`, `vkCmdPushConstants` and `vkCmdDraw` calls inside `drawRectangle`: they are the single recording step `RecordDraw`, with the pushed value kept in `pushedDeltaX`.
