/**
 * The pure rules of the zero-copy capture in src/capture_wlr_dmabuf.cpp: constants, the
 * registry listener, the frame listener and its dispatch loops, the render-node search and
 * the GBM allocation ladder. The session record `G` as a value is in capture_state.dfy and
 * as an object in capture_session.dfy.
 *
 * Foreign calls are described by two oracle records: `Compositor` (what the Wayland server
 * announces and which frame events each dispatch delivers) and `Driver` (what open, GBM,
 * the linux-dmabuf protocol, EGL and GL return). Calls whose effect matters for ordering,
 * fallback or resource lifetime are appended to the session's `calls` log.
 */
module DmabufCapture {
  import opened Wrappers

  type uint32 = x: int | 0 <= x < 0x1_0000_0000
  type uint64 = x: int | 0 <= x < 0x1_0000_0000_0000_0000

  const TwoTo32: int := 0x1_0000_0000

  /** fourcc_code('X', 'R', '2', '4') of drm_fourcc.h */
  const DRM_FORMAT_XRGB8888: uint32 := 0x3432_5258
  /** fourcc_mod_code(NONE, DRM_FORMAT_RESERVED): "no explicit modifier" */
  const DRM_FORMAT_MOD_INVALID: uint64 := 0x00ff_ffff_ffff_ffff
  /** gbm.h usage bits */
  const GBM_BO_USE_RENDERING: uint32 := 4
  const GBM_BO_USE_LINEAR: uint32 := 16

  /** The render nodes open_render_node tries, in this order. */
  const RenderNodes: seq<string> := ["/dev/dri/renderD128", "/dev/dri/renderD129", "/dev/dri/renderD130"]
  /** The usage flags create_gbm_wlbuffer hands to gbm_bo_create, in this order. */
  const AllocationLadder: seq<uint32> := [GBM_BO_USE_RENDERING, 0, GBM_BO_USE_LINEAR]

  const WlOutputInterface: string := "wl_output"
  const ScreencopyInterface: string := "zwlr_screencopy_manager_v1"
  const LinuxDmabufInterface: string := "zwp_linux_dmabuf_v1"
  /** The versions reg_global asks wl_registry_bind for, whatever version was announced. */
  const WlOutputVersion: nat := 2
  const ScreencopyVersion: nat := 3
  const LinuxDmabufVersion: nat := 4

  /** One constructor per std::runtime_error the capture code throws. */
  datatype Error =
    | DisplayConnectFailed
    | ScreencopyManagerMissing
    | LinuxDmabufMissing
    | ScreencopyFailed
    | InvalidProbeSize
    | InvalidAllocationSize
    | NoRenderNode
    | GbmDeviceFailed
    | AllocationExhausted
    | BoExportFailed
    | CreateParamsFailed
    | CreateImmedFailed
    | NoEglDisplay
    | ImageTargetMissing
    | ImageImportFailed

  /** The C cast `(int)x` of a uint32 on a platform with 32-bit two's complement int. */
  function AsInt32(x: uint32): (r: int)
    ensures -0x8000_0000 <= r < 0x8000_0000
    ensures (r - x) % TwoTo32 == 0
    ensures r > 0 <==> 0 < x < 0x8000_0000
  {
    if x < 0x8000_0000 then x else x - TwoTo32
  }

  // ---------------------------------------------------------------------------
  // Render node
  // ---------------------------------------------------------------------------

  /** Index of the first path that opens (open returns a descriptor >= 0), or |paths|. */
  function FirstOpening(paths: seq<string>, open: string -> int): (k: nat)
    ensures k <= |paths|
    ensures forall j :: 0 <= j < k ==> open(paths[j]) < 0
    ensures k < |paths| ==> open(paths[k]) >= 0
  {
    if paths == [] then 0
    else if open(paths[0]) >= 0 then 0
    else 1 + FirstOpening(paths[1..], open)
  }

  /** open_render_node: the descriptor of the first render node that opens, tried in order. */
  function RenderNode(open: string -> int): (r: Result<int, Error>)
    ensures r.Ok? ==> r.value >= 0
    ensures r.Ok? ==> exists k :: 0 <= k < |RenderNodes| && r.value == open(RenderNodes[k]) &&
                                  forall j :: 0 <= j < k ==> open(RenderNodes[j]) < 0
    ensures r.Err? <==> forall j :: 0 <= j < |RenderNodes| ==> open(RenderNodes[j]) < 0
    ensures r.Err? ==> r.error == NoRenderNode
  {
    var k := FirstOpening(RenderNodes, open);
    if k < |RenderNodes| then Ok(open(RenderNodes[k])) else Err(NoRenderNode)
  }

  // ---------------------------------------------------------------------------
  // Registry
  // ---------------------------------------------------------------------------

  /** A wl_registry.global announcement. */
  datatype Global = Global(name: nat, iface: string, version: nat)
  /** A proxy obtained by wl_registry_bind: the global's name and the version requested. */
  datatype Binding = Binding(name: nat, version: nat)
  /** G.output, G.screencopy and G.linux_dmabuf; None is a null pointer. */
  datatype Bindings = Bindings(output: Option<Binding>, screencopy: Option<Binding>, linuxDmabuf: Option<Binding>)

  /** reg_global */
  function RegGlobal(b: Bindings, g: Global): (r: Bindings)
    ensures b.output.Some? ==> r.output == b.output
    ensures r.output == b.output || (g.iface == WlOutputInterface && r.output == Some(Binding(g.name, WlOutputVersion)))
    ensures g.iface == ScreencopyInterface ==> r.screencopy == Some(Binding(g.name, ScreencopyVersion))
    ensures g.iface != ScreencopyInterface ==> r.screencopy == b.screencopy
    ensures g.iface == LinuxDmabufInterface ==> r.linuxDmabuf == Some(Binding(g.name, LinuxDmabufVersion))
    ensures g.iface != LinuxDmabufInterface ==> r.linuxDmabuf == b.linuxDmabuf
  {
    if g.iface == WlOutputInterface then
      if b.output.None? then b.(output := Some(Binding(g.name, WlOutputVersion))) else b
    else if g.iface == ScreencopyInterface then
      b.(screencopy := Some(Binding(g.name, ScreencopyVersion)))
    else if g.iface == LinuxDmabufInterface then
      b.(linuxDmabuf := Some(Binding(g.name, LinuxDmabufVersion)))
    else b
  }

  /** The announcements delivered by one wl_display_roundtrip, handled in order. */
  function Roundtrip(b: Bindings, gs: seq<Global>): (r: Bindings)
    ensures b.output.Some? ==> r.output == b.output
    ensures r.output == b.output ||
      exists i :: 0 <= i < |gs| && gs[i].iface == WlOutputInterface && r.output == Some(Binding(gs[i].name, WlOutputVersion))
    ensures r.screencopy == b.screencopy ||
      exists i :: 0 <= i < |gs| && gs[i].iface == ScreencopyInterface && r.screencopy == Some(Binding(gs[i].name, ScreencopyVersion))
    ensures r.linuxDmabuf == b.linuxDmabuf ||
      exists i :: 0 <= i < |gs| && gs[i].iface == LinuxDmabufInterface &&
        r.linuxDmabuf == Some(Binding(gs[i].name, LinuxDmabufVersion))
  {
    if gs == [] then b else RegGlobal(Roundtrip(b, gs[..|gs| - 1]), gs[|gs| - 1])
  }

  /** Reference definition: the name of the first announcement of `iface`. */
  function FirstNamed(gs: seq<Global>, iface: string): Option<nat>
  {
    if gs == [] then None
    else if gs[0].iface == iface then Some(gs[0].name)
    else FirstNamed(gs[1..], iface)
  }

  /** Reference definition: the name of the last announcement of `iface`. */
  function LastNamed(gs: seq<Global>, iface: string): Option<nat>
  {
    if gs == [] then None
    else match LastNamed(gs[1..], iface)
      case Some(n) => Some(n)
      case None => if gs[0].iface == iface then Some(gs[0].name) else None
  }

  /** The binding at `version` of the announced name, if any. */
  function BindAt(name: Option<nat>, version: nat): Option<Binding>
  {
    match name
    case Some(n) => Some(Binding(n, version))
    case None => None
  }

  lemma {:induction false} FirstNamedSnoc(gs: seq<Global>, iface: string)
    requires gs != []
    ensures FirstNamed(gs, iface) ==
      if FirstNamed(gs[..|gs| - 1], iface).Some? then FirstNamed(gs[..|gs| - 1], iface)
      else if gs[|gs| - 1].iface == iface then Some(gs[|gs| - 1].name)
      else None
  {
    if |gs| > 1 {
      assert gs[1..][..|gs[1..]| - 1] == gs[..|gs| - 1][1..];
      FirstNamedSnoc(gs[1..], iface);
    }
  }

  lemma {:induction false} LastNamedSnoc(gs: seq<Global>, iface: string)
    requires gs != []
    ensures LastNamed(gs, iface) ==
      if gs[|gs| - 1].iface == iface then Some(gs[|gs| - 1].name)
      else LastNamed(gs[..|gs| - 1], iface)
  {
    if |gs| > 1 {
      assert gs[1..][..|gs[1..]| - 1] == gs[..|gs| - 1][1..];
      LastNamedSnoc(gs[1..], iface);
    }
  }

  /** Only the first wl_output announced is bound, and only if none was bound before. */
  lemma {:induction false} RoundtripBindsFirstOutput(b: Bindings, gs: seq<Global>)
    ensures Roundtrip(b, gs).output ==
      if b.output.Some? then b.output else BindAt(FirstNamed(gs, WlOutputInterface), WlOutputVersion)
  {
    if gs != [] {
      RoundtripBindsFirstOutput(b, gs[..|gs| - 1]);
      FirstNamedSnoc(gs, WlOutputInterface);
    }
  }

  /** A later screencopy or linux-dmabuf announcement replaces the earlier binding. */
  lemma {:induction false} RoundtripBindsLastManagers(b: Bindings, gs: seq<Global>)
    ensures Roundtrip(b, gs).screencopy ==
      if LastNamed(gs, ScreencopyInterface).Some? then BindAt(LastNamed(gs, ScreencopyInterface), ScreencopyVersion)
      else b.screencopy
    ensures Roundtrip(b, gs).linuxDmabuf ==
      if LastNamed(gs, LinuxDmabufInterface).Some? then BindAt(LastNamed(gs, LinuxDmabufInterface), LinuxDmabufVersion)
      else b.linuxDmabuf
  {
    if gs != [] {
      RoundtripBindsLastManagers(b, gs[..|gs| - 1]);
      LastNamedSnoc(gs, ScreencopyInterface);
      LastNamedSnoc(gs, LinuxDmabufInterface);
    }
  }

  /** Two announcement lists that differ only in the versions offered bind the same objects. */
  lemma {:induction false} RoundtripIgnoresVersions(b: Bindings, gs: seq<Global>, hs: seq<Global>)
    requires |gs| == |hs|
    requires forall i :: 0 <= i < |gs| ==> gs[i].name == hs[i].name && gs[i].iface == hs[i].iface
    ensures Roundtrip(b, gs) == Roundtrip(b, hs)
  {
    if gs != [] {
      RoundtripIgnoresVersions(b, gs[..|gs| - 1], hs[..|hs| - 1]);
    }
  }

  // ---------------------------------------------------------------------------
  // Screencopy frame events
  // ---------------------------------------------------------------------------

  /** The events of zwlr_screencopy_frame_v1 the listener handles, with their arguments. */
  datatype FrameEvent =
    | Buffer(format: uint32, width: uint32, height: uint32, stride: uint32)
    | Flags(flags: uint32)
    | Ready(tvSecHi: uint32, tvSecLo: uint32, tvNsec: uint32)
    | Failed
    | Damage(x: uint32, y: uint32, w: uint32, h: uint32)
    | LinuxDmabuf(format: uint32, width: uint32, height: uint32)

  /** The part of G the frame callbacks write. */
  datatype FrameState = FrameState(width: int, height: int, fourcc: uint32, gotLinuxDmabuf: bool, frameReady: bool)

  /** frame_buffer, frame_flags, frame_ready, frame_failed, frame_damage and frame_linux_dmabuf. */
  function OnFrameEvent(fs: FrameState, e: FrameEvent): (r: (FrameState, Outcome<Error>))
    ensures r.1.Fail? <==> e.Failed?
    ensures r.1.Fail? ==> r.1.error == ScreencopyFailed && r.0 == fs
    ensures r.0.gotLinuxDmabuf == (fs.gotLinuxDmabuf || e.LinuxDmabuf?)
    ensures r.0.frameReady == (fs.frameReady || e.Ready?)
    ensures e.LinuxDmabuf? ==> r.0.fourcc == (if e.format != 0 then e.format else DRM_FORMAT_XRGB8888)
    ensures !e.LinuxDmabuf? ==> r.0.fourcc == fs.fourcc
    ensures e.Buffer? || e.LinuxDmabuf? ==> r.0.width == AsInt32(e.width) && r.0.height == AsInt32(e.height)
    ensures !(e.Buffer? || e.LinuxDmabuf?) ==> r.0.width == fs.width && r.0.height == fs.height
  {
    match e
    case Buffer(_, w, h, _) => (fs.(width := AsInt32(w), height := AsInt32(h)), Pass)
    case Flags(_) => (fs, Pass)
    case Ready(_, _, _) => (fs.(frameReady := true), Pass)
    case Failed => (fs, Fail(ScreencopyFailed))
    case Damage(_, _, _, _) => (fs, Pass)
    case LinuxDmabuf(f, w, h) =>
      (fs.(fourcc := if f != 0 then f else DRM_FORMAT_XRGB8888,
           width := AsInt32(w), height := AsInt32(h), gotLinuxDmabuf := true), Pass)
  }

  /** What a wait loop waits for: the dmabuf format (probe) or the copied frame. */
  datatype Await = FormatKnown | FrameDone

  predicate Done(fs: FrameState, until: Await)
  {
    match until
    case FormatKnown => fs.gotLinuxDmabuf
    case FrameDone => fs.frameReady
  }

  /** The event that sets the flag `until` waits for. */
  predicate Completes(e: FrameEvent, until: Await)
  {
    match until
    case FormatKnown => e.LinuxDmabuf?
    case FrameDone => e.Ready?
  }

  predicate BatchCompletes(batch: seq<FrameEvent>, until: Await)
  {
    exists i :: 0 <= i < |batch| && Completes(batch[i], until)
  }

  /** Every geometry event of the batch reports the geometry (w, h). */
  predicate BatchKeeps(batch: seq<FrameEvent>, w: int, h: int)
  {
    forall i :: 0 <= i < |batch| ==>
      (batch[i].Buffer? || batch[i].LinuxDmabuf?) ==> AsInt32(batch[i].width) == w && AsInt32(batch[i].height) == h
  }

  /** One wl_display_dispatch: the batch's events run in order; a `failed` event throws out of it. */
  function DispatchBatch(fs: FrameState, batch: seq<FrameEvent>): (r: (FrameState, Outcome<Error>))
    ensures r.1.Fail? <==> Failed in batch
    ensures r.1.Fail? ==> r.1.error == ScreencopyFailed
    ensures r.1.Pass? ==> (Done(r.0, FormatKnown) <==> Done(fs, FormatKnown) || BatchCompletes(batch, FormatKnown))
    ensures r.1.Pass? ==> (Done(r.0, FrameDone) <==> Done(fs, FrameDone) || BatchCompletes(batch, FrameDone))
    ensures BatchKeeps(batch, fs.width, fs.height) ==> r.0.width == fs.width && r.0.height == fs.height
    decreases |batch|
  {
    if batch == [] then (fs, Pass)
    else
      var (fs1, o) := OnFrameEvent(fs, batch[0]);
      if o.Fail? then (fs1, o)
      else
        var r := DispatchBatch(fs1, batch[1..]);
        assert BatchCompletes(batch[1..], FormatKnown) ==> BatchCompletes(batch, FormatKnown) by {
          if BatchCompletes(batch[1..], FormatKnown) {
            var i :| 0 <= i < |batch[1..]| && Completes(batch[1..][i], FormatKnown);
            assert Completes(batch[i + 1], FormatKnown);
          }
        }
        assert BatchCompletes(batch[1..], FrameDone) ==> BatchCompletes(batch, FrameDone) by {
          if BatchCompletes(batch[1..], FrameDone) {
            var i :| 0 <= i < |batch[1..]| && Completes(batch[1..][i], FrameDone);
            assert Completes(batch[i + 1], FrameDone);
          }
        }
        assert BatchKeeps(batch, fs.width, fs.height) ==> BatchKeeps(batch[1..], fs1.width, fs1.height) by {
          if BatchKeeps(batch, fs.width, fs.height) {
            assert batch[0] == batch[0];
            forall i | 0 <= i < |batch[1..]|
              ensures (batch[1..][i].Buffer? || batch[1..][i].LinuxDmabuf?) ==>
                AsInt32(batch[1..][i].width) == fs1.width && AsInt32(batch[1..][i].height) == fs1.height
            {
              assert batch[1..][i] == batch[i + 1];
            }
          }
        }
        r
  }

  /** The result of a wait loop: the frame fields, the outcome and how many dispatches ran. */
  datatype Pumped = Pumped(frame: FrameState, outcome: Outcome<Error>, dispatches: nat)

  /**
   * The wait loop: dispatch one batch first, then stop once the awaited flag is set.
   * An exhausted list of batches ends the loop where the real dispatch would block or fail.
   */
  function Pump(fs: FrameState, batches: seq<seq<FrameEvent>>, until: Await): (r: Pumped)
    ensures r.dispatches <= |batches|
    ensures batches != [] ==> r.dispatches >= 1
    ensures r.outcome.Pass? && r.dispatches < |batches| ==> Done(r.frame, until)
    ensures r.outcome.Fail? ==> r.outcome.error == ScreencopyFailed
    decreases |batches|
  {
    if batches == [] then Pumped(fs, Pass, 0)
    else
      var (fs1, o) := DispatchBatch(fs, batches[0]);
      if o.Fail? then Pumped(fs1, o, 1)
      else if Done(fs1, until) then Pumped(fs1, Pass, 1)
      else
        var r := Pump(fs1, batches[1..], until);
        Pumped(r.frame, r.outcome, r.dispatches + 1)
  }

  /**
   * A compositor that delivers the awaited event only in dispatch n (and no failure before)
   * makes the wait loop run exactly n + 1 dispatches and end with the flag set.
   */
  lemma {:induction false} PumpStopsAtCompletingDispatch(fs: FrameState, batches: seq<seq<FrameEvent>>, until: Await, n: nat)
    requires !Done(fs, until)
    requires n < |batches|
    requires forall j :: 0 <= j < n ==> Failed !in batches[j] && !BatchCompletes(batches[j], until)
    requires Failed !in batches[n] && BatchCompletes(batches[n], until)
    ensures Pump(fs, batches, until).outcome.Pass?
    ensures Pump(fs, batches, until).dispatches == n + 1
    ensures Done(Pump(fs, batches, until).frame, until)
    decreases n
  {
    var (fs1, o) := DispatchBatch(fs, batches[0]);
    if n > 0 {
      assert !Done(fs1, until) by {
        match until
        case FormatKnown =>
        case FrameDone =>
      }
      forall j | 0 <= j < n - 1
        ensures Failed !in batches[1..][j] && !BatchCompletes(batches[1..][j], until)
      {
        assert batches[1..][j] == batches[j + 1];
      }
      PumpStopsAtCompletingDispatch(fs1, batches[1..], until, n - 1);
    } else {
      assert Done(fs1, until) by {
        match until
        case FormatKnown =>
        case FrameDone =>
      }
    }
  }

  /** When every geometry event repeats the current geometry, a wait loop leaves it unchanged. */
  lemma {:induction false} PumpKeepsGeometry(fs: FrameState, batches: seq<seq<FrameEvent>>, until: Await)
    requires forall j :: 0 <= j < |batches| ==> BatchKeeps(batches[j], fs.width, fs.height)
    ensures Pump(fs, batches, until).frame.width == fs.width
    ensures Pump(fs, batches, until).frame.height == fs.height
    decreases |batches|
  {
    if batches != [] {
      var (fs1, o) := DispatchBatch(fs, batches[0]);
      if o.Pass? && !Done(fs1, until) {
        forall j | 0 <= j < |batches[1..]|
          ensures BatchKeeps(batches[1..][j], fs1.width, fs1.height)
        {
          assert batches[1..][j] == batches[j + 1];
        }
        PumpKeepsGeometry(fs1, batches[1..], until);
      }
    }
  }

  // ---------------------------------------------------------------------------
  // Allocation ladder and plane description
  // ---------------------------------------------------------------------------

  /** The rungs of `ladder` actually tried when `create` answers each usage flag (0 is NULL). */
  function Tried(ladder: seq<uint32>, create: uint32 -> nat): (r: seq<uint32>)
    ensures |r| <= |ladder| && r == ladder[..|r|]
    ensures ladder != [] ==> |r| >= 1
    ensures forall j :: 0 <= j < |r| - 1 ==> create(r[j]) == 0
    ensures |r| < |ladder| ==> create(r[|r| - 1]) != 0
  {
    if ladder == [] then []
    else if create(ladder[0]) != 0 then [ladder[0]]
    else [ladder[0]] + Tried(ladder[1..], create)
  }

  /** The buffer object left after the ladder: the first non-NULL answer, or NULL. */
  function Allocated(ladder: seq<uint32>, create: uint32 -> nat): (bo: nat)
    ensures bo == 0 <==> forall j :: 0 <= j < |ladder| ==> create(ladder[j]) == 0
    ensures bo != 0 ==> exists k :: 0 <= k < |ladder| && bo == create(ladder[k]) &&
                                    forall j :: 0 <= j < k ==> create(ladder[j]) == 0
  {
    var t := Tried(ladder, create);
    if t == [] then 0 else create(t[|t| - 1])
  }

  /** The arguments of zwp_linux_dmabuf_params_v1.add. */
  datatype PlaneAdd = PlaneAdd(fd: int, planeIndex: nat, offset: uint32, stride: uint32, modifierHi: uint32, modifierLo: uint32)

  /**
   * The single plane create_gbm_wlbuffer describes: plane 0 at the given offset, with the
   * modifier split as (m >> 32, m & 0xffffffff); for an unsigned 64-bit m these are the
   * quotient and the remainder of the division by 2^32.
   */
  function DescribePlane(fd: int, offset: uint32, stride: uint32, modifier: uint64): (p: PlaneAdd)
    ensures p.fd == fd && p.planeIndex == 0 && p.offset == offset && p.stride == stride
    ensures p.modifierHi * TwoTo32 + p.modifierLo == modifier
  {
    PlaneAdd(fd, 0, offset, stride, modifier / TwoTo32, modifier % TwoTo32)
  }

  /** The halves are the only pair of 32-bit words that rebuilds the modifier. */
  lemma ModifierHalvesUnique(m: uint64, hi: uint32, lo: uint32)
    requires hi * TwoTo32 + lo == m
    ensures DescribePlane(0, 0, 0, m).modifierHi == hi && DescribePlane(0, 0, 0, m).modifierLo == lo
  {
  }

  /** The attributes that feed eglCreateImage(EGL_LINUX_DMA_BUF_EXT). */
  datatype ImageDesc = ImageDesc(width: int, height: int, fourcc: uint32, fd: int, offset: uint32, pitch: uint32)

  /** The value wlr_dmabuf_next_frame returns. */
  datatype CaptureFrame = CaptureFrame(texture: nat, width: int, height: int)

  // ---------------------------------------------------------------------------
  // Oracles and the call log
  // ---------------------------------------------------------------------------

  /** What the compositor answers during wlr_dmabuf_capture_init. Handles are non-zero unless NULL. */
  datatype Compositor = Compositor(
    display: nat,                      // wl_display_connect
    registry: nat,                     // wl_display_get_registry
    globals: seq<Global>,              // announcements seen by the roundtrip
    probe: seq<seq<FrameEvent>>,       // dispatches while waiting for the dmabuf format
    copy: seq<seq<FrameEvent>>)        // dispatches while waiting for the first frame

  /** What the kernel, GBM, the dmabuf protocol, EGL and GL answer. */
  datatype Driver = Driver(
    open: string -> int,                          // open(path, O_RDWR | O_CLOEXEC)
    gbmCreateDevice: int -> nat,                  // gbm_create_device(fd)
    boCreate: (nat, int, int, uint32, uint32) -> nat,  // gbm_bo_create(gbm, w, h, format, usage)
    boFd: nat -> int,                             // gbm_bo_get_fd(bo)
    boStride: nat -> uint32,                      // gbm_bo_get_stride(bo)
    createParams: nat,                            // zwp_linux_dmabuf_v1_create_params
    createImmed: (int, int, uint32) -> nat,       // ..._create_immed(params, w, h, format, 0)
    currentDisplay: nat,                          // eglGetCurrentDisplay
    imageTargetProc: bool,                        // eglGetProcAddress("glEGLImageTargetTexture2DOES") != NULL
    createImage: ImageDesc -> nat,                // eglCreateImage
    genTexture: nat)                              // glGenTextures

  /** Foreign calls whose order or count the model speaks about. */
  datatype Call =
    | CreateGbmDevice(fd: int)
    | BoCreate(width: int, height: int, format: uint32, usage: uint32)
    | AllocFailureLogged(width: int, height: int, format: uint32, usage: uint32)
    | CreateParams
    | ParamsAdd(plane: PlaneAdd)
    | CreateImmed(width: int, height: int, format: uint32)
    | ParamsDestroy
    | CaptureOutput(output: Option<Binding>)
    | FrameCopy(buffer: nat)
    | FrameDestroy
    | GenTexture
    | CreateImage(desc: ImageDesc)
    | BindTexture(tex: nat)
    | ImageTargetTexture(tex: nat, image: nat)
    | DestroyImage(eglDisplay: nat, image: nat)
    | DeleteTexture(tex: nat)
    | DestroyWlBuffer(buffer: nat)
    | Close(fd: int)
    | DestroyBo(bo: nat)
    | DestroyGbmDevice(gbm: nat)
    | DestroyOutput(binding: Binding)
    | DestroyLinuxDmabuf(binding: Binding)
    | DestroyScreencopy(binding: Binding)
    | DestroyRegistry(registry: nat)
    | Disconnect(display: nat)

}
