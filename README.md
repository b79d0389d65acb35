# Frame loop and configuration choices of a Vulkan tutorial renderer

This project models two parts of a small Rust renderer built on vulkano and winit. Both are stated in Dafny and proved.

**The per-event frame loop** (`event_loop.dfy`, module `EventLoop`). This is what `main_loop` and `recreate_swapchain` do with each window event:

- Close and Escape request exit.
- A resize only marks the swapchain out of date.
- A redraw does the following:
  - acquires an image;
  - recreates the swapchain when acquisition reports out-of-date, or when the image index is past the image count (a driver workaround);
  - records and submits one frame, joined to the previous frame's GPU future;
  - stores, clears or drops that future according to the flush outcome;
  - recreates the swapchain at the end when the out-of-date flag is set.

Each vulkano call is replaced by the outcome it reports, and that outcome is an input (`RedrawOutcomes`). The behaviour is stated as pure transition functions over a `FrameState` record: `Step`, `RedrawStep`, `SubmitStep`, `RecreateStep` and `Run`. The class `FrameLoop` keeps the same fields and updates them in place, as the source does through its `&mut` parameters. Its methods `HandleEvent` and `Recreate` are proved to follow the functions.

The invariant `Inv` says three things:

- the framebuffers are exactly one per current swapchain image, in image order, sharing one depth buffer;
- the stored future is the one the last submitted frame left behind;
- every submitted frame was joined to its predecessor's future.

Every event that returns `Ok` preserves it. The first point is what makes `framebuffers[image_num]` safe to index. The model adds one record the source does not have: `submitted`, the frames handed to the GPU. It is ghost in the class and exists so that the ordering of futures can be stated.

**Configuration choices made at start-up** (`init.dfy`, module `Init`):

- the physical-device and queue-family search;
- the list of queue families requested from the device;
- the swapchain's sharing mode, image count, surface format and present mode;
- one framebuffer per swapchain image;
- the label printed for a validation-layer message.

Wherever the source panics (indexing an empty list, `u32` overflow in a debug build, `unimplemented!()`), the model returns an explicit outcome: `None`, or a `LoopError` such as `NoSwapchainImages`.

Two details of the code that the model keeps:

- The recreation at the end of a redraw runs whenever the flag is set (src/event_loop.rs:152). That includes a flag set by an earlier resize, or one left set by an earlier recreation that met unsupported dimensions.
- Recreation rebuilds the framebuffers from the new images (src/event_loop.rs:230), together with a new depth buffer.

The model compares queue families by id, while src/init.rs:179 compares whole `QueueFamily` values (physical device and id). The two agree here because both families come from the one device that `pick_queues_families` chose and `create_device` opened.

`wrappers.dfy` (module `Wrappers`) holds the `Option` and `Result` types.

## Model

| member | source | states |
|---|---|---|
| `Init.FirstIndex` | src/init.rs:112-117 | Iterator `find`. The result is the position of the first element that satisfies the predicate. It is `None` exactly when no element does. |
| `Init.PickQueueFamilies` | src/init.rs:108-122 | Devices are searched in enumeration order. The result is an error exactly when no device has both a graphics family and a presenting family. Otherwise it names the first device that has both, with its first graphics family and its first presenting family. A failing `is_supported` query counts as not presenting. |
| `Init.QueueRequests` | src/init.rs:129-132 | The request list has 1 or 2 entries and starts with the graphics family. It ends with a family whose id is the present family's id, so both queues looked up after `Device::new` were requested. It has two entries exactly when the ids differ, which is exactly when the sharing mode is concurrent, and then the concurrent ids are the request list's ids in order. |
| `Init.ChooseSharingMode` | src/init.rs:179-186 | Concurrent exactly when the two families differ, with the ids `[graphics, present]`. Exclusive otherwise. |
| `Init.ImageCount` | src/init.rs:188-189 | Fails (the `+ 1` overflow panic) exactly when the minimum is `u32::MAX`. Otherwise the count is at most minimum + 1 and at most the maximum when one is given, and it equals one of these two bounds. With a maximum no smaller than the minimum, the count is at least the minimum. |
| `Init.ChooseSurfaceFormat` | src/init.rs:191-196 | Fails (the index panic) exactly on an empty list. The result is always a supported entry. It is `(B8G8R8A8Srgb, SrgbNonLinear)` whenever that pair is supported, and otherwise the first entry. |
| `Init.ChoosePresentMode` | src/init.rs:198-204 | The chosen mode is supported, and no supported mode is preferred over it. The preference order is Mailbox, then Immediate, then FIFO, and FIFO is always supported. |
| `Init.ChooseSwapchainConfig` | src/init.rs:172-221 | The configuration passed to `Swapchain::new` exists exactly when neither choice panics. Its image count is min(minimum + 1, maximum or `u32::MAX`), so within both bounds. Its format is supported: the preferred pair whenever that is supported, else the first entry. Its present mode is supported and no supported mode is preferred over it. Its sharing is the chosen sharing mode: exclusive exactly when the families are equal, else concurrent over `[graphics, present]`. |
| `Init.FramebuffersFor` | src/init.rs:366-387 | One framebuffer per image. Framebuffer `i` has image `i` as its colour attachment, and all framebuffers share a depth buffer sized from image 0. |
| `Init.CreateFramebuffers` | src/init.rs:366-387 | The `for`/`push` loop fails (the `swapchain_images[0]` panic) exactly on an empty image list. Otherwise it yields exactly `FramebuffersFor(images)`. |
| `Init.SeverityLabel` | src/init.rs:71-81 | Panics exactly when no severity flag is set. Otherwise the label is the name of a set flag that no other set flag outranks, with error > warning > information > verbose. |
| `EventLoop.InitialState` | src/application.rs:43-54 | The loop's starting state. Framebuffers are built from the first swapchain's images, control flow is Poll, the flag is clear, there is no previous future and no frame has been submitted. It satisfies the invariant, and it fails exactly when there are no images. |
| `EventLoop.WindowEvents` | src/event_loop.rs:52-66 | Close and Escape set control flow to Exit and change nothing else. Resized only sets the out-of-date flag. Other keys, other window events and other events change nothing. |
| `EventLoop.RecreateOutcomes` | src/event_loop.rs:211-234 | Unsupported dimensions return Ok and change nothing, so recreation is retried later. Any other creation error is fatal. Success installs the new images with matching framebuffers and clears the flag. Recreation never touches control flow, the stored future or the submitted frames, and it keeps the invariant when Ok. |
| `EventLoop.AcquireOutcomes` | src/event_loop.rs:73-86 | An out-of-date acquisition recreates the swapchain and returns its result, leaving the future in place. The acquisition error is returned exactly when acquisition fails in another way, and the state is then unchanged. |
| `EventLoop.ImageIndexWorkaround` | src/event_loop.rs:88-101 | An image index at or past the image count recreates the swapchain (after a suboptimal acquisition has set the flag) and submits nothing. |
| `EventLoop.FramebufferIndexInBounds` | src/event_loop.rs:93-116 | Under the invariant, no event ever indexes the framebuffers out of bounds. |
| `EventLoop.ExecuteFailureDropsFuture` | src/event_loop.rs:131-135 | When `then_execute` fails, the error is fatal. The previous future has already been taken, so it is gone. |
| `EventLoop.SubmitPath` | src/event_loop.rs:103-160 | Applies when the acquired index is in range and the command buffer is built, whether or not the acquisition was suboptimal. Exactly one frame is handed over. It is joined to the old future, or to a fresh one when there was none, and drawn into the acquired image's framebuffer. A successful flush stores the new future, and any flush error clears it. A flush error is never fatal. When the flag is set at the end (by an earlier event, a suboptimal acquisition or an out-of-date flush), the redraw ends in the recreation step and returns its result, so a failed recreation is fatal and unsupported dimensions leave the flag set. Otherwise the redraw returns Ok with the swapchain unchanged. |
| `EventLoop.RedrawOkClearsFlag` | src/event_loop.rs:68-160 | A redraw that returns Ok without meeting unsupported dimensions leaves the out-of-date flag clear. |
| `EventLoop.ChainedAppend` | src/event_loop.rs:131-150 | A frame joined to the future the previous frames left behind extends a well-chained sequence of frames. |
| `EventLoop.SubmitPreservesInv` | src/event_loop.rs:103-160 | The submit path, when it returns Ok, keeps the invariant. |
| `EventLoop.StepPreservesInv` | src/event_loop.rs:52-164 | Every event that returns Ok preserves the invariant. |
| `EventLoop.StepExtendsSubmitted` | src/event_loop.rs:131-150 | One event hands at most one frame to the GPU and forgets none. |
| `EventLoop.RunPreservesInv` | src/application.rs:57-82 | Over any sequence of events that ends without error, the invariant holds, so there are exactly as many framebuffers as swapchain images. |
| `EventLoop.RunExtendsSubmitted` | src/application.rs:57-82 | Frames handed to the GPU over a sequence of events are never forgotten. |
| `EventLoop.ResizesOnlyMarkOutOfDate` | src/event_loop.rs:62-64 | Any run of resizes only sets the flag and returns Ok. Recreation is deferred to a redraw. |
| `EventLoop.FrameLoop.constructor` | src/application.rs:43-54 | The in-place loop state starts as `InitialState` and is valid. |
| `EventLoop.FrameLoop.Recreate` | src/event_loop.rs:211-234 | The in-place recreation changes the fields exactly as `RecreateStep` says and returns its result. |
| `EventLoop.FrameLoop.HandleEvent` | src/event_loop.rs:31-165 | The in-place handler changes the fields exactly as `Step` says and returns its result. It keeps the invariant whenever it returns Ok. |

## Left out

- `update_dynamic_viewport` (src/init.rs:339-364) and `update_descriptor_set` (src/event_loop.rs:167-209): floating-point aspect-ratio and matrix arithmetic. The dynamic state is not part of the model's state, and the descriptor set only contributes its success or failure (`setupOk`).
- Instance, debug-callback, window, surface, render-pass, pipeline and sampler creation, `create_buffers` and `load_texture`: these are library calls and file I/O. Their failures are fatal at start-up.
- `Device::new` and the lookup of the two queues in its result (src/init.rs:134-160) are library calls. `QueueRequests` only shows that both families were requested. The queue priority `1.0` is a floating-point constant and is not modelled.
- GPU futures: `cleanup_finished`, `join`, fences and presentation concern GPU-side synchronisation. A future is an opaque `Token`, and the chain a frame is built on is recorded as a `JoinBase`.
- The `println!` of a flush failure and of validation messages (output only). The `exit(1)` on a loop error is modelled as `Run` stopping at the first error.
- The `try_into()?` conversion of the image count to `usize` (src/event_loop.rs:93): it cannot fail on 32- or 64-bit targets and is not modelled.
- Errors from the surface capabilities query and from `Swapchain::new` (src/init.rs:172, 206-221) come from library calls. `ChooseSwapchainConfig` starts from capabilities already obtained.
- Errors from allocating the depth image, from the image views and from building a framebuffer inside `create_framebuffers` come from library calls. `CreateFramebuffers` fails only on an empty image list.
- Init.ImageCount: models the debug build, where `min_image_count + 1` panics on `u32::MAX`. A release build wraps to 0 instead, and that is not modelled.
- EventLoop.FrameLoop.constructor: requires a non-empty image list. With none, the source panics in `create_framebuffers` before the loop starts, and `InitialState` models that case as `None`.
- The swapchain images are taken as reported by the driver. The model does not assume they share one size, so the depth buffer is only proved to match image 0.
- When winit stops delivering events after control flow becomes Exit is up to winit and is not modelled. `main_loop` never reads the control flow, so `Run` handles every event it is given, also after Exit, and stops only at the first error.
