# multimon-wayland core, modelled in Dafny

This project models the sequential logic of multimon-wayland and proves properties of it. That logic is what sits between the program's calls into Wayland, GBM, EGL, OpenGL and sockets. It has three parts.

- **Zero-copy capture session** (`src/capture_wlr_dmabuf.cpp`). All state lives in one global record `G`; the model covers these parts of it:
  - the registry listener;
  - the wlr-screencopy frame events and the dispatch wait loops;
  - the render-node search;
  - the GBM allocation ladder;
  - the one-plane description sent with the `zwp_linux_dmabuf_params_v1.add` request of the linux-dmabuf protocol;
  - lazy creation of the EGL image and GL texture;
  - teardown.

  The files are:
  - `capture_rules.dfy` (module `DmabufCapture`): constants, the registry and frame listeners, the wait loops, the render-node search and the allocation ladder, as functions.
  - `capture_state.dfy` (module `DmabufState`): `G` as a `Session` value, and every entry point as a function from the old record to the new record plus an outcome; the properties are proved there.
  - `capture_session.dfy` (module `DmabufSession`): the class `CaptureSession`. Its fields mirror `G`, and its methods update them step by step. Each method proves that its new `State()` equals the corresponding function. The four plane slots `fds`, `strides` and `offsets` are arrays, and shutdown closes `fds` in a loop.
  - Foreign calls are oracle records. `Compositor` gives the globals announced and the event batches each `wl_display_dispatch` delivers. `Driver` gives what `open`, GBM, the dmabuf protocol, EGL and GL return. Calls whose order or count matters are appended to a `calls` log.
- **Viewer state** (`src/main.cpp`, module `Viewer` in `viewer.dfy`), modelled as the class `ViewerState`:
  - the focus list `focusedmonitors`, shifted in place by `on_push`/`on_pop` and truncated to seven entries before each frame;
  - the side-by-side monitor layout and the initial focus;
  - the gaze-dwell counters (`focusIndex`, `focusCandidate`, `focusFrames`, held for `FOCUS_HOLD_FRAMES` = 20 frames);
  - the rules that decide which quads a frame draws and which entries it skips.
  - A pointer `&monitors[k]` is `Some(k)`; `nullptr` is `None`.
- **Command channel** (`src/command_server.cpp`, module `CommandServer` in `command_server.dfy`):
  - exact-token dispatch of the ten hooks;
  - the receive, cut-at-NUL and trim path of `cmdsrv_poll`;
  - the socket-activation selection of `sd_listen_fds(3)`: `LISTEN_PID`, `LISTEN_FDS`, colon-separated `LISTEN_FDNAMES`, descriptors from `SD_LISTEN_FDS_START` = 3;
  - the own-socket path;
  - the class `Server`, holding `g_listen_fd` and an effect log, with `Init`, `Poll` and `Shutdown`.
  - The environment, the pids/uids and the socket system calls are fields of a `Host` record.

`wrappers.dfy` holds `Option`, `Outcome` and `Result`.

Four behaviours of the code shape the model:
- **Shutdown order.** Shutdown releases in this order: image, texture, wl_buffer, the `fds` descriptors, buffer object, GBM device, output, linux-dmabuf, screencopy, registry, display, render node (`DmabufState.ReleasePlan`).
- **Geometry.** Every `buffer` or `linux_dmabuf` event overwrites width and height, including those during `wlr_dmabuf_next_frame`. So `DmabufState.NextFrameIsStable` assumes a compositor that keeps reporting the session's geometry.
- **`fds` slots after shutdown.** Shutdown sets a slot to -1 only after closing it. A negative slot keeps its value, so every slot ends below 0 (`DmabufState.ClearFds`).
- **Versions and output name.** Neither the registry listener nor init checks the announced version or the output name.

## Model

| member | source | states |
|---|---|---|
| DmabufCapture.AsInt32 | src/capture_wlr_dmabuf.cpp:110 | The `(int)` cast of an unsigned 32-bit width or height: it is congruent modulo 2^32, lies in the int range, and is positive exactly when the unsigned value is in (0, 2^31). |
| DmabufCapture.FirstOpening | src/capture_wlr_dmabuf.cpp:78-81 | The candidate loop stops at the first path that opens; every earlier path failed. |
| DmabufCapture.RenderNode | src/capture_wlr_dmabuf.cpp:72-83 | The descriptor returned is that of the first of renderD128, renderD129, renderD130 that opens. The error is raised exactly when all three fail. |
| DmabufCapture.RegGlobal | src/capture_wlr_dmabuf.cpp:92-103 | A bound output is kept; otherwise a `wl_output` announcement binds at version 2. Screencopy and linux-dmabuf announcements always rebind, at versions 3 and 4. A binding changes only for an announcement of its own interface. |
| DmabufCapture.Roundtrip | src/capture_wlr_dmabuf.cpp:244-246 | A bound output survives the roundtrip. Each binding is the earlier one or a bind, at its fixed version, of some announcement of its interface. |
| DmabufCapture.RoundtripBindsFirstOutput | src/capture_wlr_dmabuf.cpp:94-95 | After a roundtrip, the output binding is the earlier binding if there was one; otherwise it is the first `wl_output` announced, at version 2. |
| DmabufCapture.RoundtripBindsLastManagers | src/capture_wlr_dmabuf.cpp:96-101 | The last screencopy and linux-dmabuf announcements win, at versions 3 and 4. With none announced, the earlier binding stays. |
| DmabufCapture.RoundtripIgnoresVersions | src/capture_wlr_dmabuf.cpp:92-103 | Announcement lists that differ only in their versions bind the same objects. |
| DmabufCapture.OnFrameEvent | src/capture_wlr_dmabuf.cpp:108-127 | `failed` is the only error and changes nothing. `linux_dmabuf` sets fourcc to the offered format, or to XRGB8888 when that is 0, and sets `got_linux_dmabuf`. `buffer` and `linux_dmabuf` overwrite width and height. `ready` sets `frame_ready`. Other events change nothing. |
| DmabufCapture.DispatchBatch | src/capture_wlr_dmabuf.cpp:128-130 | One dispatch fails exactly when the batch holds `failed`. Otherwise each flag is set exactly when it was set before or the batch holds its event. A batch that repeats the geometry keeps it. |
| DmabufCapture.Pump | src/capture_wlr_dmabuf.cpp:258 | The wait loop runs at most one dispatch per batch. When it stops before the batches run out without an error, the awaited flag is set. |
| DmabufCapture.PumpStopsAtCompletingDispatch | src/capture_wlr_dmabuf.cpp:266 | When the awaited event first arrives in dispatch n, with no failure before it, the loop runs exactly n+1 dispatches and ends with the flag set. |
| DmabufCapture.PumpKeepsGeometry | src/capture_wlr_dmabuf.cpp:283 | When every geometry event repeats the current size, the wait leaves width and height unchanged. |
| DmabufCapture.Tried | src/capture_wlr_dmabuf.cpp:158-160 | The rungs tried are a prefix of RENDERING, 0, LINEAR: at least one, every rung but the last failed, and the last succeeded unless all were tried. |
| DmabufCapture.Allocated | src/capture_wlr_dmabuf.cpp:158-162 | The buffer object kept is NULL exactly when every rung fails; otherwise it is the answer of the first rung that succeeds. |
| DmabufCapture.DescribePlane | src/capture_wlr_dmabuf.cpp:176-180 | The plane sent is index 0 with the given fd, offset and stride. Its two 32-bit halves rebuild the modifier: hi·2^32 + lo = m. |
| DmabufCapture.ModifierHalvesUnique | src/capture_wlr_dmabuf.cpp:179-180 | The halves sent are the only pair of 32-bit words that rebuilds the modifier. |
| DmabufState.LadderOfThree | src/capture_wlr_dmabuf.cpp:158-160 | The three statements unfold to the ladder: they list which rungs run, what is logged and which answer is kept. |
| DmabufState.TryMakeBoWith | src/capture_wlr_dmabuf.cpp:133-142 | One attempt stores the driver's answer for this usage as the buffer object. To the log it adds the create, then a failure line exactly when the answer is 0. Nothing else changes. |
| DmabufState.AttemptLog | src/capture_wlr_dmabuf.cpp:133-142 | An attempt logs one create, then one failure line exactly when the answer is 0. |
| DmabufState.AllocateBo | src/capture_wlr_dmabuf.cpp:158-160 | The three statements change only the buffer object and extend the log. The buffer object is 0 exactly when the RENDERING, 0 and LINEAR answers are all 0. AllocateBoFollowsLadder gives which answer is kept. |
| DmabufState.AllocateBoUnfolded | src/capture_wlr_dmabuf.cpp:158-160 | The buffer object kept is the first non-zero answer of RENDERING, 0 and LINEAR, and the log holds the attempts in that order. |
| DmabufState.AllocateBoFollowsLadder | src/capture_wlr_dmabuf.cpp:133-162 | Allocation keeps the ladder's first success, logs one create per rung tried plus one failure line per failed rung, and changes only the buffer object and the log. |
| DmabufState.OpenDevice | src/capture_wlr_dmabuf.cpp:145-150 | A size ≤ 0 fails before anything else. A held render node or GBM device is reused and not reopened. Success leaves both open. |
| DmabufState.ExportPlane | src/capture_wlr_dmabuf.cpp:164-169 | `nplanes` becomes 1 and `fds[0]` takes the exported fd. Export fails exactly when that fd is negative. On success the stride is stored and the offset is 0. |
| DmabufState.ShareBuffer | src/capture_wlr_dmabuf.cpp:171-184 | A missing linux-dmabuf binding fails. Success issues create_params, add (the plane description), create_immed and destroy, in that order, and leaves a non-NULL wl_buffer. |
| DmabufState.CreateGbmWlBuffer | src/capture_wlr_dmabuf.cpp:144-185 | Buffer creation keeps the four-slot arrays. Bindings, frame fields, GL state and modifier stay unchanged. |
| DmabufState.BufferIsOnePlane | src/capture_wlr_dmabuf.cpp:145-169 | Success requires a positive size. It leaves the device, the buffer object and the wl_buffer held, one plane, `fds[0]` ≥ 0, offset 0, and the other slots unchanged. |
| DmabufState.BufferDescribesItsPlane | src/capture_wlr_dmabuf.cpp:176-180 | The add request describes index 0 with the exported fd and offset 0; its modifier halves rebuild the session's modifier. |
| DmabufState.AllocationFailsOnlyWhenLadderExhausted | src/capture_wlr_dmabuf.cpp:158-162 | Buffer creation fails for lack of a buffer object exactly when the device opens and all three rungs are refused. This covers the first call from a fresh session, which opens the device on demand. |
| DmabufState.ImportImage | src/capture_wlr_dmabuf.cpp:191-231 | The import succeeds exactly when an image is held afterwards. It creates at most one image, from the exported plane, and never touches the texture. |
| DmabufState.EnsureImageAndTexture | src/capture_wlr_dmabuf.cpp:188-237 | A texture is generated only when none is held. A held image is kept and the call succeeds. Success leaves an image held. With both already held, only bind and image-target are issued. |
| DmabufState.EnsureImageAndTextureIdempotent | src/capture_wlr_dmabuf.cpp:188-191 | A second call after a success creates neither a texture nor an image, and leaves the GL state unchanged. |
| DmabufState.Discover | src/capture_wlr_dmabuf.cpp:240-251 | The connect failure is reported exactly when the display is NULL. Discovery succeeds exactly when both managers are bound after the roundtrip; each missing manager has its own error. |
| DmabufState.Probe | src/capture_wlr_dmabuf.cpp:253-260 | The probe requests capture of the bound output and waits for the format. It succeeds exactly when the wait succeeds with a positive size. |
| DmabufState.CopyFirstFrame | src/capture_wlr_dmabuf.cpp:264-268 | The copy targets the session's wl_buffer. On success the frame is destroyed and `frame_ready` is cleared. |
| DmabufState.Setup | src/capture_wlr_dmabuf.cpp:253-273 | Success returns the recorded size and leaves one plane, both buffers and an image held, with `frame_ready` false. |
| DmabufState.Init | src/capture_wlr_dmabuf.cpp:240-274 | Init fails with the connect error exactly when the display is NULL. Success returns the recorded size, with both managers bound by the roundtrip and the resources of Setup held. |
| DmabufState.InitNeedsBothManagers | src/capture_wlr_dmabuf.cpp:248-251 | Init fails when screencopy, or else linux-dmabuf, is unbound after the roundtrip. |
| DmabufState.InitRejectsEmptyProbe | src/capture_wlr_dmabuf.cpp:259-260 | Init fails when the probe leaves width or height ≤ 0. |
| DmabufState.InitIgnoresOutputName | src/capture_wlr_dmabuf.cpp:240 | The output-name argument changes nothing. |
| DmabufState.NextFrame | src/capture_wlr_dmabuf.cpp:276-292 | A frame fails exactly when its wait fails. It returns the held texture and the current size, clears `frame_ready`, and issues capture, copy, destroy and bind in that order. |
| DmabufState.NextFrameIsStable | src/capture_wlr_dmabuf.cpp:276-291 | Two consecutive frames return the same texture and size. They keep GL state and plane, and create no texture or image. |
| DmabufState.FdCloses | src/capture_wlr_dmabuf.cpp:302 | The loop issues only closes of non-negative descriptors. |
| DmabufState.FdClosesCount | src/capture_wlr_dmabuf.cpp:302 | There is one close per slot that holds a descriptor. |
| DmabufState.FdClosesHeld | src/capture_wlr_dmabuf.cpp:302 | A descriptor is closed exactly when a slot holds it. |
| DmabufState.FdClosesNone | src/capture_wlr_dmabuf.cpp:302 | Slots that hold no descriptor produce no close. |
| DmabufState.ClearFds | src/capture_wlr_dmabuf.cpp:302 | After the loop every slot is negative: closed slots are -1 and the others keep their value. |
| DmabufState.GlReleases | src/capture_wlr_dmabuf.cpp:295-301 | There are as many releases as held resources among the image, the texture and the wl_buffer, and no close. |
| DmabufState.GlReleasesHeld | src/capture_wlr_dmabuf.cpp:295-301 | Each of the image, the texture and the wl_buffer is released exactly when it is held (non-zero). Nothing else is released. |
| DmabufState.GbmReleases | src/capture_wlr_dmabuf.cpp:303-304 | There are as many releases as held resources among the buffer object and the GBM device, and no close. |
| DmabufState.GbmReleasesHeld | src/capture_wlr_dmabuf.cpp:303-304 | The buffer object and the GBM device are each destroyed exactly when held. Nothing else is released. |
| DmabufState.BindingReleases | src/capture_wlr_dmabuf.cpp:305-307 | There is one destroy per bound global, and no close. |
| DmabufState.BindingReleasesHeld | src/capture_wlr_dmabuf.cpp:305-307 | A global's destroy call, for a given proxy, is issued exactly when that proxy is bound. Only these three destroy calls occur. |
| DmabufState.WaylandReleasesKinds | src/capture_wlr_dmabuf.cpp:305-310 | The tail of shutdown holds only binding, registry, display and close calls. |
| DmabufState.WaylandReleasesHeld | src/capture_wlr_dmabuf.cpp:305-309 | The tail destroys each bound global, the registry and the display, each exactly when held. |
| DmabufState.WaylandReleasesCloseRenderNode | src/capture_wlr_dmabuf.cpp:305-310 | The only descriptor the tail of shutdown closes is the render node, and only when it is open. |
| DmabufState.Shutdown | src/capture_wlr_dmabuf.cpp:294-311 | Shutdown logs the release plan and resets every handle to its sentinel. The frame fields are kept. |
| DmabufState.ShutdownReleaseCountIsHeldCount | src/capture_wlr_dmabuf.cpp:294-311 | Shutdown issues exactly as many releases as there are held resources. |
| DmabufState.ShutdownReleasesHeldGl | src/capture_wlr_dmabuf.cpp:295-301 | Shutdown releases the image, the texture and the wl_buffer exactly when the session holds them. With the count lemma, each is released once. |
| DmabufState.ShutdownReleasesHeldGbm | src/capture_wlr_dmabuf.cpp:303-304 | Shutdown destroys the buffer object and the GBM device exactly when the session holds them. |
| DmabufState.ShutdownReleasesHeldWayland | src/capture_wlr_dmabuf.cpp:305-309 | Shutdown destroys each bound global, the registry and the display exactly when the session holds them. |
| DmabufState.ShutdownClosesHeldDescriptors | src/capture_wlr_dmabuf.cpp:302-310 | The descriptors closed are exactly the held plane descriptors and the open render node. |
| DmabufState.ShutdownIsIdempotent | src/capture_wlr_dmabuf.cpp:294-311 | After shutdown nothing is held. A second shutdown releases nothing and changes nothing. |
| DmabufSession.CaptureSession.constructor | src/capture_wlr_dmabuf.cpp:25-60 | The object starts in the static initial state of `G`. |
| DmabufSession.CaptureSession.OpenRenderNode | src/capture_wlr_dmabuf.cpp:72-83 | The loop over the candidates returns the render-node result. |
| DmabufSession.CaptureSession.RegGlobal | src/capture_wlr_dmabuf.cpp:92-103 | The fields become the registry rule applied to the old bindings; nothing else changes. |
| DmabufSession.CaptureSession.Roundtrip | src/capture_wlr_dmabuf.cpp:244-246 | The listener runs once per announcement, in order. |
| DmabufSession.CaptureSession.OnFrameEvent | src/capture_wlr_dmabuf.cpp:108-127 | The frame fields and the outcome are those of the event rule; nothing else changes. |
| DmabufSession.CaptureSession.Dispatch | src/capture_wlr_dmabuf.cpp:128-130 | The events run in order until one throws. |
| DmabufSession.CaptureSession.AwaitFlag | src/capture_wlr_dmabuf.cpp:258 | The wait loop dispatches and then tests the flag, as the wait rule says. |
| DmabufSession.CaptureSession.TryMakeBoWith | src/capture_wlr_dmabuf.cpp:133-142 | One allocation attempt: it stores the answer and logs the failure. |
| DmabufSession.CaptureSession.OpenDevice | src/capture_wlr_dmabuf.cpp:145-150 | The size check and lazy device opening, on the fields. |
| DmabufSession.CaptureSession.AllocateBo | src/capture_wlr_dmabuf.cpp:158-162 | The three-rung ladder, on the fields. |
| DmabufSession.CaptureSession.ExportPlane | src/capture_wlr_dmabuf.cpp:164-169 | Writes slot 0 of the `fds`, `strides` and `offsets` arrays. |
| DmabufSession.CaptureSession.ShareBuffer | src/capture_wlr_dmabuf.cpp:171-184 | The params exchange, on the fields. |
| DmabufSession.CaptureSession.CreateGbmWlBuffer | src/capture_wlr_dmabuf.cpp:144-185 | Buffer creation, on the fields. |
| DmabufSession.CaptureSession.EnsureImageAndTexture | src/capture_wlr_dmabuf.cpp:188-237 | The lazy texture and image, on the fields. |
| DmabufSession.CaptureSession.Discover | src/capture_wlr_dmabuf.cpp:240-251 | Connect, roundtrip and the manager checks, on the fields. |
| DmabufSession.CaptureSession.Init | src/capture_wlr_dmabuf.cpp:240-274 | `wlr_dmabuf_capture_init`, on the fields. |
| DmabufSession.CaptureSession.NextFrame | src/capture_wlr_dmabuf.cpp:276-292 | `wlr_dmabuf_next_frame`, on the fields. |
| DmabufSession.CaptureSession.ReleaseGl | src/capture_wlr_dmabuf.cpp:295-301 | Releases the image, texture and wl_buffer; those fields become sentinels. |
| DmabufSession.CaptureSession.CloseFds | src/capture_wlr_dmabuf.cpp:302 | The loop closes each held slot and sets it to -1. |
| DmabufSession.CaptureSession.ReleaseGbm | src/capture_wlr_dmabuf.cpp:303-304 | Releases the buffer object and then the GBM device. |
| DmabufSession.CaptureSession.ReleaseBindings | src/capture_wlr_dmabuf.cpp:305-307 | Destroys output, linux-dmabuf and screencopy, in that order. |
| DmabufSession.CaptureSession.ReleaseWayland | src/capture_wlr_dmabuf.cpp:305-310 | Destroys the bindings, then the registry; disconnects; closes the render node. |
| DmabufSession.CaptureSession.Shutdown | src/capture_wlr_dmabuf.cpp:294-311 | The new state is the shutdown rule applied to the old state. |
| Viewer.Truncated | src/main.cpp:211-212 | The result is a prefix of at most 7 entries: the whole list when that is short, exactly 7 entries otherwise. |
| Viewer.Pushed | src/main.cpp:39-47 | An empty list stays empty. Otherwise the list grows by one, with a null in front and every old entry one place later. |
| Viewer.Popped | src/main.cpp:48-54 | The list shrinks by one, an empty one staying empty, and every entry moves one place forward. |
| Viewer.PopUndoesPush | src/main.cpp:39-54 | Popping after pushing restores any list. |
| Viewer.TruncationIsIdempotent | src/main.cpp:211-212 | Truncating twice is truncating once. |
| Viewer.ShiftsKeepPointers | src/main.cpp:39-54 | Push, pop and truncation keep every non-null entry pointing into the layout. |
| Viewer.LayoutOf | src/main.cpp:348-359 | The layout has one monitor per output. |
| Viewer.LayoutIsSideBySide | src/main.cpp:348-359 | Monitor i has index i, y 0 and the size of output i. The first starts at x 0, and each next one starts where the previous one ends. |
| Viewer.InitialFocus | src/main.cpp:361-364 | The initial focus list is [monitor 0] when there is a monitor, and empty otherwise. |
| Viewer.Look | src/main.cpp:276-291 | A look either leaves thumbnail i as candidate, with the list and focus index untouched, or commits i. A commit resets the counters, makes i the focus index and puts i at the front of the list, pushing it when the list is empty. |
| Viewer.LookCommitsOnHold | src/main.cpp:273-292 | Every look keeps frames < 20 and candidate = -1 ⇔ frames = 0. It commits exactly on the 20th look at the candidate: the focus index and the list front become i, or i is pushed into an empty list. Otherwise i becomes the candidate, frames goes up by one for the same candidate or restarts at 1 for a new one, and the list and focus index are untouched. |
| Viewer.HoldingGazeCommits | src/main.cpp:273-292 | Fewer than 20 consecutive looks at a new thumbnail only count, and the 20th commits it. |
| Viewer.RingDraws | src/main.cpp:215-238 | Each ring quad comes from a non-null entry after the front whose output index is in range. Every such entry is drawn at its slot. Null entries and out-of-range indices are skipped. |
| Viewer.ForegroundDraws | src/main.cpp:240-255 | Entry 0 is drawn exactly when the list is non-empty, the entry is not null and its output index is in range. Otherwise nothing is drawn. |
| Viewer.Thumbnails | src/main.cpp:257-293 | A thumbnail quad is drawn for each monitor of the row whose output index is in range, and for no other. There are no more quads than monitors. The row keeps the dwell invariant and the pointers into the layout. The list length changes only when a commit pushes into an empty list. |
| Viewer.FrameDrawsAreSafe | src/main.cpp:211-296 | Every quad of a frame samples an existing output, and the centre dot is drawn only when enabled. |
| Viewer.RenderFrame | src/main.cpp:179-297 | The centre dot is drawn exactly when enabled, and then last. At most 7 entries remain, and all of them point into the layout. |
| Viewer.RenderFrameIsValid | src/main.cpp:211-293 | A frame keeps the dwell invariant and the pointers into the layout, and leaves at most 7 entries in the list. |
| Viewer.ViewerState.constructor | src/main.cpp:150-152 | Starts with no monitors, an empty list, the dot enabled, focus index 0, no candidate and no frames. |
| Viewer.ViewerState.OnPush | src/main.cpp:39-47 | The back-to-front loop yields null followed by the old list; an empty list stays empty. |
| Viewer.ViewerState.OnPop | src/main.cpp:48-54 | The front-to-back loop and `pop_back` yield the old list without its first entry; an empty list stays empty. |
| Viewer.ViewerState.ToggleCenterDot | src/main.cpp:63 | Negates the dot flag and changes nothing else, so toggling twice restores it. |
| Viewer.ViewerState.LayOut | src/main.cpp:348-359 | The loop with its running x builds exactly the side-by-side layout. |
| Viewer.ViewerState.Arrange | src/main.cpp:348-364 | Builds the layout, then sets the initial focus. |
| Viewer.ViewerState.Truncate | src/main.cpp:211-212 | The `pop_back` loop leaves the truncated list. |
| Viewer.ViewerState.DrawRing | src/main.cpp:214-238 | The ring loop draws exactly the ring of the current list, and changes nothing. |
| Viewer.ViewerState.Gaze | src/main.cpp:273-292 | The gaze block updates the counters and the list as one look does. |
| Viewer.ViewerState.DrawThumbnails | src/main.cpp:257-293 | The row loop draws and updates as the thumbnails rule says. |
| Viewer.ViewerState.Render | src/main.cpp:179-297 | The counters, the list and the quads drawn equal those of one frame. |
| CommandServer.TokensAreDistinct | src/command_server.cpp:198-207 | No two hooks share a token. |
| CommandServer.HandleCmd | src/command_server.cpp:197-211 | A hook is selected only by its own token. It runs only if installed, and is reported unset otherwise. An unknown command is reported with its text. |
| CommandServer.HandleCmdIsExact | src/command_server.cpp:197-211 | Each of the ten tokens runs only its own hook, and only if that hook is installed. Every other string is reported as unknown and runs nothing; this includes "" and prefixes such as "zoom". |
| CommandServer.Trimmed | src/command_server.cpp:231 | The result is a prefix that does not end in '\n', '\r' or ' ', and it removes only those characters. |
| CommandServer.TrimIsIdempotent | src/command_server.cpp:231 | Trimming twice is trimming once, and a string with nothing to trim is unchanged. |
| CommandServer.TrimKeepsBody | src/command_server.cpp:231 | Everything before the trailing run is kept, including leading spaces and tabs. |
| CommandServer.TrimTrailing | src/command_server.cpp:231 | The `pop_back` loop computes the trimmed string. |
| CommandServer.UpToNul | src/command_server.cpp:228-229 | The string stops at the first NUL and contains none. |
| CommandServer.Received | src/command_server.cpp:225-229 | A command is read exactly when recv returns a positive count. The command is under 256 characters, has no NUL, and is a prefix of the datagram. |
| CommandServer.PollClosesEveryConnection | src/command_server.cpp:216-235 | Every accepted connection is closed. |
| CommandServer.PollCounts | src/command_server.cpp:216-235 | There is one close per connection. There is one command per connection that delivered data, so at most one per connection. |
| CommandServer.Atoi | src/command_server.cpp:90-92 | After leading white space, a result below 0 needs a '-'. Text that does not start with a sign or a digit reads as 0. |
| CommandServer.AtoiReadsDecimal | src/command_server.cpp:90-92 | atoi reads a decimal number back as that number. |
| CommandServer.FirstSeqpacket | src/command_server.cpp:113-118 | The result is -1, or a sequenced-packet descriptor among the n inherited ones at or after the start. |
| CommandServer.FirstSeqpacketIsLowest | src/command_server.cpp:113-118 | No lower inherited descriptor is a sequenced-packet socket. |
| CommandServer.Find | src/command_server.cpp:102 | The result is npos (-1) or an index holding ':'. |
| CommandServer.FindIsFirstColon | src/command_server.cpp:102 | There is no colon before the index found. |
| CommandServer.Fields | src/command_server.cpp:99-111 | There is at least one name, and joining the names with ':' gives the variable back. FieldsHaveNoColon adds that no name holds a colon. |
| CommandServer.FieldsFromJoin | src/command_server.cpp:99-111 | Joining the colon-separated names with ':' gives the variable back. |
| CommandServer.FieldsHaveNoColon | src/command_server.cpp:99-111 | No name contains a colon. |
| CommandServer.FirstNamed | src/command_server.cpp:101-111 | The result is -1, or 3+i where name i is "viture", i < n, and the descriptor is a sequenced-packet socket. |
| CommandServer.FirstNamedIsFirst | src/command_server.cpp:101-111 | No earlier position qualifies. |
| CommandServer.NamedWalkIsFirstNamed | src/command_server.cpp:99-111 | The walk that updates start and end finds what the search over the split names finds. |
| CommandServer.EnvSocket | src/command_server.cpp:85-120 | The result is -1 or a sequenced-packet descriptor at or above 3. EnvSocketRules and EnvSocketPrefersNamed state when and which. |
| CommandServer.NamedOrFirstPrefersNamed | src/command_server.cpp:94-118 | The first "viture"-named sequenced-packet position is preferred when there is one. Otherwise it falls back to the lowest sequenced-packet descriptor. |
| CommandServer.EnvSocketRules | src/command_server.cpp:85-119 | The result is -1 unless both variables are set, the pid is this process's and the count n > 0. A non-negative result is a sequenced-packet descriptor in [3, 3+n). Without names, the result is 3 when descriptor 3 qualifies. |
| CommandServer.EnvSocketPrefersNamed | src/command_server.cpp:94-118 | With a valid pair, a "viture"-named sequenced-packet descriptor is chosen when one exists among the first n: the lowest such. Failing one, the result is the lowest sequenced-packet descriptor, or -1 when there is none. |
| CommandServer.FirstSdNamed | src/command_server.cpp:62-68 | A descriptor named "viture" among the first n, as the systemd names array gives them, that is a sequenced-packet socket; or -1. |
| CommandServer.FirstSdNamedIsFirst | src/command_server.cpp:62-68 | No earlier descriptor qualifies by name. |
| CommandServer.SystemdSocketPrefersNamed | src/command_server.cpp:62-80 | With systemd's names, a "viture"-named sequenced-packet descriptor among the n is chosen when one exists: the lowest such. Failing one, the result is the lowest sequenced-packet descriptor, or -1 when there is none. |
| CommandServer.Inherited | src/command_server.cpp:170-182 | With libsystemd the systemd pick is taken, otherwise the environment one. Either way the result is -1 or a sequenced-packet descriptor at or above 3. |
| CommandServer.SystemdSocket | src/command_server.cpp:54-82 | The result is -1 or a sequenced-packet descriptor in [3, 3+n). |
| CommandServer.SocketPath | src/command_server.cpp:124-136 | The path is longer than "/viture.sock" and ends in it. |
| CommandServer.SocketPathShape | src/command_server.cpp:124-136 | The path ends in "/viture.sock". It is inside $XDG_RUNTIME_DIR when that variable is set and non-empty, and in /run/user/ followed by the decimal uid otherwise. |
| CommandServer.FallbackPathNamesUid | src/command_server.cpp:133-135 | The fallback directory reads back as the uid. |
| CommandServer.Address | src/command_server.cpp:146-148 | The bound address is the path when it fits in the 108-byte `sun_path`, and otherwise its first 107 characters. |
| CommandServer.OwnSocket | src/command_server.cpp:122-165 | The stale file is unlinked first. The socket is bound to the truncated address. The result is the socket exactly when socket, bind and listen all succeed; it is then made mode 0600, listened on with backlog 8, and set non-blocking last. A failure after the socket opened ends by closing it. |
| CommandServer.Server.constructor | src/command_server.cpp:21 | The server starts with no listener and no effects. |
| CommandServer.Server.PickSocketFdFromEnv | src/command_server.cpp:85-119 | The method computes the environment selection. |
| CommandServer.Server.FirstNamedLoop | src/command_server.cpp:95-111 | The `LISTEN_FDNAMES` loop computes the search over the split names. |
| CommandServer.Server.FirstSeqpacketLoop | src/command_server.cpp:113-118 | The fallback loop computes the lowest sequenced-packet descriptor. |
| CommandServer.Server.PickSocketFdSystemd | src/command_server.cpp:54-82 | The two loops compute the systemd selection. |
| CommandServer.Server.Init | src/command_server.cpp:168-195 | Init prefers an inherited socket and makes it non-blocking. Otherwise it binds its own, keeping the old listener if that fails. It returns false exactly when both fail. |
| CommandServer.Server.Poll | src/command_server.cpp:213-236 | Poll does nothing without a listener. Otherwise it handles every pending connection in accept order. |
| CommandServer.Server.Serve | src/command_server.cpp:224-234 | For one connection: receive, cut at NUL, trim, dispatch, close. |
| CommandServer.Server.Shutdown | src/command_server.cpp:238-243 | Shutdown closes the listener only if one is held and sets it to -1; a repeated call changes nothing. |

## Left out

- All Wayland, GBM, DRM, EGL, GL, GLFW and socket calls. They are oracle answers: `DmabufCapture.Compositor`, `DmabufCapture.Driver`, `CommandServer.Host`, and the `looking` predicate of the viewer. Their effects appear only as entries in the `calls` and `effects` logs.
- The blocking of `wl_display_dispatch` and its -1 exit. The wait loops consume a finite list of event batches; running out of batches stands for "would block or fail".
- Throwing from inside a callback is an error outcome of the dispatch that delivered the event.
- Pixel contents; the EGL attribute array beyond the fields that feed it (both EGL 1.5 and KHR builds are the same `ImageDesc`); texture filtering parameters.
- `current_egl_display_or_throw`: nothing in the capture file calls it.
- `curX` and the other `int` arithmetic of the layout are unbounded integers; 32-bit overflow is not modelled.
- `isLookingAt`, `getLookVector`, the camera transforms, the float zoom, shift and FOV handlers, `on_align`, `draw_filled_center_rect` and the frame-timing loop. They are floating-point, GL or timing code.
- The render's `mons` parameter and the global `monitors` are the same layout in the model; main passes the global to render.
- include/glasses.hpp (SDK initialisation and float orientation), src/platform_glfw.cpp (a thin GLFW wrapper) and the headers. The `wlr_multi_*` calls main.cpp makes are not part of this model; their implementation is absent.
- The allocation-failure and unknown-command lines on stderr are log entries, without their text. `perror` output is not modelled.
- Freeing the systemd names array; memory management in general.
- Strings are `seq<char>`, one character per byte; multi-byte encodings are not modelled.
- The `pid_t` cast; atoi overflow (undefined in C). `CommandServer.Atoi` is exact on unbounded integers.
- `accept4` errors other than "no more connections": the connection list simply ends.
- Screencopy frame events other than the six with handlers (src/capture_wlr_dmabuf.cpp:128-130). The screencopy manager is bound at version 3, whose frames also send `buffer_done`, and the listener has no slot for it; the event type cannot express it, and what libwayland does on its arrival is not modelled.
