/**
 * The session record `G` of src/capture_wlr_dmabuf.cpp as a value, and the public entry
 * points (init, next frame, shutdown) with the helpers they call, as functions from the old
 * record to the new one paired with the outcome (a thrown error leaves the record as it was
 * at the throw).
 */
module DmabufState {
  import opened Wrappers
  import opened DmabufCapture

  /** The "Wayland" and "Protocols" fields of G. Handles are naturals, 0 standing for NULL. */
  datatype Wayland = Wayland(display: nat, registry: nat, bindings: Bindings)

  /** The "DRM/GBM" fields: the render node descriptor (-1: none) and the GBM device. */
  datatype Device = Device(drmFd: int, gbm: nat)

  /** The modifier and the "GBM BO + dmabuf plane info and wl_buffer" fields. */
  datatype Plane = Plane(modifier: uint64, bo: nat, nplanes: int, fds: seq<int>, strides: seq<uint32>, offsets: seq<uint32>, wlbuf: nat)

  /**
   * The "EGL/GL" fields, plus whether the static glEGLImageTargetTexture2DOES_ pointer has been
   * resolved. 0 stands for EGL_NO_DISPLAY, EGL_NO_IMAGE_KHR and "no texture".
   */
  datatype Gl = Gl(eglDpy: nat, eglImg: nat, tex: nat, imageTargetFn: bool)

  /** G, with the frame-callback fields in `frame`, and the log of foreign calls. */
  datatype Session = Session(wl: Wayland, dev: Device, frame: FrameState, plane: Plane, gl: Gl, calls: seq<Call>)

  /** The four-slot arrays of G. */
  predicate WellFormed(s: Session)
  {
    |s.plane.fds| == 4 && |s.plane.strides| == 4 && |s.plane.offsets| == 4
  }

  /** The initialisers of struct WLCtx. */
  const Fresh: Session := Session(
    Wayland(0, 0, Bindings(None, None, None)),
    Device(-1, 0),
    FrameState(0, 0, DRM_FORMAT_XRGB8888, false, false),
    Plane(DRM_FORMAT_MOD_INVALID, 0, 1, [-1, -1, -1, -1], [0, 0, 0, 0], [0, 0, 0, 0], 0),
    Gl(0, 0, 0, false),
    [])

  /** The calls appended to the log since `s`. */
  function Appended(s: Session, r: Session): seq<Call>
  {
    if |s.calls| <= |r.calls| then r.calls[|s.calls|..] else []
  }

  // ---------------------------------------------------------------------------
  // create_gbm_wlbuffer
  // ---------------------------------------------------------------------------

  /** The log entries of one try_make_gbm_bo_with call that returned `bo`. */
  function AttemptLog(w: int, h: int, fmt: uint32, use: uint32, bo: nat): (r: seq<Call>)
    ensures |r| == if bo == 0 then 2 else 1
    ensures r[0] == BoCreate(w, h, fmt, use)
    ensures bo == 0 ==> r[1] == AllocFailureLogged(w, h, fmt, use)
  {
    [BoCreate(w, h, fmt, use)] + (if bo == 0 then [AllocFailureLogged(w, h, fmt, use)] else [])
  }

  /** The log entries of the rungs `tried`, each logging its failure. */
  function LadderLog(w: int, h: int, fmt: uint32, tried: seq<uint32>, create: uint32 -> nat): seq<Call>
  {
    if tried == [] then [] else AttemptLog(w, h, fmt, tried[0], create(tried[0])) + LadderLog(w, h, fmt, tried[1..], create)
  }

  /** The log of the second and third rungs, each tried only after the previous one failed. */
  function LaterAttempts(w: int, h: int, fmt: uint32, f: uint32 -> nat): seq<Call>
  {
    if f(GBM_BO_USE_RENDERING) != 0 then []
    else if f(0) != 0 then AttemptLog(w, h, fmt, 0, f(0))
    else AttemptLog(w, h, fmt, 0, f(0)) + AttemptLog(w, h, fmt, GBM_BO_USE_LINEAR, f(GBM_BO_USE_LINEAR))
  }

  /** The ladder RENDERING, 0, LINEAR, unfolded: which rungs are tried, what is logged, what is kept. */
  lemma LadderOfThree(w: int, h: int, fmt: uint32, f: uint32 -> nat)
    ensures Tried(AllocationLadder, f) ==
      if f(GBM_BO_USE_RENDERING) != 0 then [GBM_BO_USE_RENDERING]
      else if f(0) != 0 then [GBM_BO_USE_RENDERING, 0]
      else AllocationLadder
    ensures LadderLog(w, h, fmt, Tried(AllocationLadder, f), f) ==
      AttemptLog(w, h, fmt, GBM_BO_USE_RENDERING, f(GBM_BO_USE_RENDERING)) + LaterAttempts(w, h, fmt, f)
    ensures Allocated(AllocationLadder, f) ==
      if f(GBM_BO_USE_RENDERING) != 0 then f(GBM_BO_USE_RENDERING)
      else if f(0) != 0 then f(0)
      else f(GBM_BO_USE_LINEAR)
  {
    var L := AllocationLadder;
    assert L[1..] == [0, GBM_BO_USE_LINEAR];
    assert L[1..][1..] == [GBM_BO_USE_LINEAR];
    assert L[1..][1..][1..] == [];
    var log1 := AttemptLog(w, h, fmt, GBM_BO_USE_RENDERING, f(GBM_BO_USE_RENDERING));
    var log2 := AttemptLog(w, h, fmt, 0, f(0));
    var log3 := AttemptLog(w, h, fmt, GBM_BO_USE_LINEAR, f(GBM_BO_USE_LINEAR));
    assert LadderLog(w, h, fmt, [GBM_BO_USE_LINEAR], f) == log3;
    if f(GBM_BO_USE_RENDERING) != 0 {
      assert Tried(L, f) == [GBM_BO_USE_RENDERING];
      assert LadderLog(w, h, fmt, [GBM_BO_USE_RENDERING], f) == log1;
    } else if f(0) != 0 {
      assert Tried(L[1..], f) == [0];
      assert Tried(L, f) == [GBM_BO_USE_RENDERING, 0];
      assert [GBM_BO_USE_RENDERING, 0][1..] == [0];
      assert LadderLog(w, h, fmt, [0], f) == log2;
      assert LadderLog(w, h, fmt, [GBM_BO_USE_RENDERING, 0], f) == log1 + log2;
    } else {
      assert Tried(L[1..][1..], f) == [GBM_BO_USE_LINEAR];
      assert Tried(L[1..], f) == L[1..];
      assert Tried(L, f) == L;
      assert LadderLog(w, h, fmt, L[1..], f) == log2 + log3;
      assert LadderLog(w, h, fmt, L, f) == log1 + (log2 + log3);
    }
  }

  /** try_make_gbm_bo_with */
  function TryMakeBoWith(s: Session, fmt: uint32, use: uint32, d: Driver): (r: Session)
    ensures r == s.(plane := s.plane.(bo := r.plane.bo), calls := r.calls)
    ensures r.plane.bo == d.boCreate(s.dev.gbm, s.frame.width, s.frame.height, fmt, use)
    ensures r.calls == s.calls + AttemptLog(s.frame.width, s.frame.height, fmt, use, r.plane.bo)
  {
    var bo := d.boCreate(s.dev.gbm, s.frame.width, s.frame.height, fmt, use);
    s.(plane := s.plane.(bo := bo), calls := s.calls + AttemptLog(s.frame.width, s.frame.height, fmt, use, bo))
  }

  /** The three try_make_gbm_bo_with calls of create_gbm_wlbuffer. */
  function AllocateBo(s: Session, fmt: uint32, d: Driver): (r: Session)
    ensures r == s.(plane := s.plane.(bo := r.plane.bo), calls := r.calls)
    ensures |r.calls| > |s.calls| && r.calls[..|s.calls|] == s.calls
    ensures r.plane.bo == 0 <==>
      BoAnswers(s, fmt, d)(GBM_BO_USE_RENDERING) == 0 && BoAnswers(s, fmt, d)(0) == 0 &&
      BoAnswers(s, fmt, d)(GBM_BO_USE_LINEAR) == 0
  {
    var s1 := TryMakeBoWith(s, fmt, GBM_BO_USE_RENDERING, d);
    var s2 := if s1.plane.bo == 0 then TryMakeBoWith(s1, fmt, 0, d) else s1;
    if s2.plane.bo == 0 then TryMakeBoWith(s2, fmt, GBM_BO_USE_LINEAR, d) else s2
  }

  /** The driver's answer to gbm_bo_create for each usage, at the session's device, size and format. */
  function BoAnswers(s: Session, fmt: uint32, d: Driver): uint32 -> nat
  {
    use => d.boCreate(s.dev.gbm, s.frame.width, s.frame.height, fmt, use)
  }

  /**
   * The three statements of the ladder are the ordered ladder RENDERING, 0, LINEAR: they stop
   * at the first success, log every failure, and change only the buffer object and the log.
   */
  lemma AllocateBoFollowsLadder(s: Session, fmt: uint32, d: Driver)
    ensures AllocateBo(s, fmt, d).plane.bo == Allocated(AllocationLadder, BoAnswers(s, fmt, d))
    ensures AllocateBo(s, fmt, d).calls ==
      s.calls + LadderLog(s.frame.width, s.frame.height, fmt, Tried(AllocationLadder, BoAnswers(s, fmt, d)), BoAnswers(s, fmt, d))
    ensures AllocateBo(s, fmt, d) ==
      s.(plane := s.plane.(bo := AllocateBo(s, fmt, d).plane.bo), calls := AllocateBo(s, fmt, d).calls)
  {
    var f := BoAnswers(s, fmt, d);
    LadderOfThree(s.frame.width, s.frame.height, fmt, f);
    AllocateBoUnfolded(s, fmt, d);
  }

  /** The three statements, case by case on the driver's answers. */
  lemma AllocateBoUnfolded(s: Session, fmt: uint32, d: Driver)
    ensures var f := BoAnswers(s, fmt, d);
      AllocateBo(s, fmt, d).plane.bo ==
        if f(GBM_BO_USE_RENDERING) != 0 then f(GBM_BO_USE_RENDERING)
        else if f(0) != 0 then f(0)
        else f(GBM_BO_USE_LINEAR)
    ensures var f, w, h := BoAnswers(s, fmt, d), s.frame.width, s.frame.height;
      AllocateBo(s, fmt, d).calls ==
        s.calls + (AttemptLog(w, h, fmt, GBM_BO_USE_RENDERING, f(GBM_BO_USE_RENDERING)) + LaterAttempts(w, h, fmt, f))
  {
    var f, w, h := BoAnswers(s, fmt, d), s.frame.width, s.frame.height;
    var log1 := AttemptLog(w, h, fmt, GBM_BO_USE_RENDERING, f(GBM_BO_USE_RENDERING));
    var s1 := TryMakeBoWith(s, fmt, GBM_BO_USE_RENDERING, d);
    assert s1.plane.bo == f(GBM_BO_USE_RENDERING) && s1.calls == s.calls + log1;
    if f(GBM_BO_USE_RENDERING) != 0 {
      assert AllocateBo(s, fmt, d) == s1;
      assert log1 + LaterAttempts(w, h, fmt, f) == log1;
    } else {
      var log2 := AttemptLog(w, h, fmt, 0, f(0));
      var s2 := TryMakeBoWith(s1, fmt, 0, d);
      assert s2.plane.bo == f(0) && s2.calls == s.calls + log1 + log2;
      if f(0) != 0 {
        assert AllocateBo(s, fmt, d) == s2;
        assert LaterAttempts(w, h, fmt, f) == log2;
      } else {
        var log3 := AttemptLog(w, h, fmt, GBM_BO_USE_LINEAR, f(GBM_BO_USE_LINEAR));
        var s3 := TryMakeBoWith(s2, fmt, GBM_BO_USE_LINEAR, d);
        assert s3.plane.bo == f(GBM_BO_USE_LINEAR) && s3.calls == s.calls + log1 + log2 + log3;
        assert AllocateBo(s, fmt, d) == s3;
        assert LaterAttempts(w, h, fmt, f) == log2 + log3;
      }
    }
  }

  /** The format create_gbm_wlbuffer allocates: the negotiated fourcc, XRGB8888 if it is 0. */
  function BoFormat(s: Session): uint32
  {
    if s.frame.fourcc != 0 then s.frame.fourcc else DRM_FORMAT_XRGB8888
  }

  /** The size check and the lazy opening of the render node and the GBM device. */
  function OpenDevice(s: Session, d: Driver): (r: (Session, Outcome<Error>))
    ensures r.0 == s.(dev := r.0.dev, calls := r.0.calls)
    ensures r.1.Pass? ==> s.frame.width > 0 && s.frame.height > 0 && r.0.dev.drmFd >= 0 && r.0.dev.gbm != 0
    ensures s.frame.width <= 0 || s.frame.height <= 0 ==> r == (s, Fail(InvalidAllocationSize))
    ensures s.dev.drmFd >= 0 ==> r.0.dev.drmFd == s.dev.drmFd
    ensures s.dev.gbm != 0 ==> r.0.dev.gbm == s.dev.gbm && r.0.calls == s.calls
    ensures r.1 != Fail(DisplayConnectFailed)
  {
    if s.frame.width <= 0 || s.frame.height <= 0 then (s, Fail(InvalidAllocationSize))
    else
      var node := if s.dev.drmFd < 0 then RenderNode(d.open) else Ok(s.dev.drmFd);
      if node.Err? then (s, Fail(node.error))
      else
        var fd := node.value;
        if s.dev.gbm != 0 then (s.(dev := Device(fd, s.dev.gbm)), Pass)
        else
          var gbm := d.gbmCreateDevice(fd);
          var s2 := s.(dev := Device(fd, gbm), calls := s.calls + [CreateGbmDevice(fd)]);
          if gbm == 0 then (s2, Fail(GbmDeviceFailed)) else (s2, Pass)
  }

  /** Plane 0 of the buffer object: its descriptor, stride and offset 0. */
  function ExportPlane(p: Plane, d: Driver): (r: (Plane, Outcome<Error>))
    requires |p.fds| == 4 && |p.strides| == 4 && |p.offsets| == 4
    ensures |r.0.fds| == 4 && |r.0.strides| == 4 && |r.0.offsets| == 4
    ensures r.0 == p.(nplanes := 1, fds := p.fds[0 := d.boFd(p.bo)], strides := r.0.strides, offsets := r.0.offsets)
    ensures r.1.Pass? <==> d.boFd(p.bo) >= 0
    ensures r.1.Pass? ==> r.0.offsets == p.offsets[0 := 0] && r.0.strides == p.strides[0 := d.boStride(p.bo)]
    ensures r.1.Fail? ==> r.1.error == BoExportFailed && r.0.strides == p.strides && r.0.offsets == p.offsets
  {
    var fd := d.boFd(p.bo);
    var p1 := p.(nplanes := 1, fds := p.fds[0 := fd]);
    if fd < 0 then (p1, Fail(BoExportFailed))
    else (p1.(strides := p.strides[0 := d.boStride(p.bo)], offsets := p.offsets[0 := 0]), Pass)
  }

  /** The zwp_linux_dmabuf_params_v1 exchange that wraps the exported plane in a wl_buffer. */
  function ShareBuffer(s: Session, fmt: uint32, d: Driver): (r: (Session, Outcome<Error>))
    requires WellFormed(s)
    ensures r.0 == s.(plane := s.plane.(wlbuf := r.0.plane.wlbuf), calls := r.0.calls)
    ensures r.1.Pass? ==> r.0.plane.wlbuf != 0 && s.wl.bindings.linuxDmabuf.Some?
    ensures r.1.Pass? ==>
      r.0.calls == s.calls +
        [CreateParams, ParamsAdd(DescribePlane(s.plane.fds[0], s.plane.offsets[0], s.plane.strides[0], s.plane.modifier)),
         CreateImmed(s.frame.width, s.frame.height, fmt), ParamsDestroy]
    ensures r.1 != Fail(DisplayConnectFailed) && r.1 != Fail(AllocationExhausted)
  {
    if s.wl.bindings.linuxDmabuf.None? then (s, Fail(LinuxDmabufMissing))
    else if d.createParams == 0 then (s.(calls := s.calls + [CreateParams]), Fail(CreateParamsFailed))
    else
      var plane := DescribePlane(s.plane.fds[0], s.plane.offsets[0], s.plane.strides[0], s.plane.modifier);
      var w, h := s.frame.width, s.frame.height;
      var buf := d.createImmed(w, h, fmt);
      var s6 := s.(plane := s.plane.(wlbuf := buf), calls := s.calls + [CreateParams, ParamsAdd(plane), CreateImmed(w, h, fmt), ParamsDestroy]);
      if buf == 0 then (s6, Fail(CreateImmedFailed)) else (s6, Pass)
  }

  /** create_gbm_wlbuffer */
  function CreateGbmWlBuffer(s: Session, d: Driver): (r: (Session, Outcome<Error>))
    requires WellFormed(s)
    ensures WellFormed(r.0)
    ensures r.0.wl == s.wl && r.0.frame == s.frame && r.0.gl == s.gl && r.0.plane.modifier == s.plane.modifier
    ensures r.1 != Fail(DisplayConnectFailed)
  {
    var (s2, dev) := OpenDevice(s, d);
    if dev.Fail? then (s2, dev)
    else
      var fmt := BoFormat(s2);
      var s3 := AllocateBo(s2, fmt, d);
      if s3.plane.bo == 0 then (s3, Fail(AllocationExhausted))
      else
        var (p4, exp) := ExportPlane(s3.plane, d);
        if exp.Fail? then (s3.(plane := p4), exp)
        else ShareBuffer(s3.(plane := p4), fmt, d)
  }

  /**
   * A successful buffer creation leaves exactly one plane described: the exported descriptor
   * is non-negative, its offset is 0, and the modifier travels as two 32-bit halves that
   * rebuild it.
   */
  lemma BufferIsOnePlane(s: Session, d: Driver)
    requires WellFormed(s)
    requires CreateGbmWlBuffer(s, d).1.Pass?
    ensures var r := CreateGbmWlBuffer(s, d).0;
      && s.frame.width > 0 && s.frame.height > 0
      && r.plane.bo != 0 && r.plane.wlbuf != 0 && r.dev.gbm != 0 && r.dev.drmFd >= 0
      && r.plane.nplanes == 1 && r.plane.fds[0] >= 0 && r.plane.offsets[0] == 0
      && r.plane.fds[1..] == s.plane.fds[1..]
  {
    var (s2, dev) := OpenDevice(s, d);
    var s3 := AllocateBo(s2, BoFormat(s2), d);
    AllocateBoFollowsLadder(s2, BoFormat(s2), d);
  }

  /**
   * The one plane is described to the compositor with the exported descriptor, plane index 0,
   * offset 0, and the modifier split into two 32-bit halves that rebuild it.
   */
  lemma BufferDescribesItsPlane(s: Session, d: Driver)
    requires WellFormed(s)
    requires CreateGbmWlBuffer(s, d).1.Pass?
    ensures var r := CreateGbmWlBuffer(s, d).0;
      && |r.calls| >= 3
      && r.calls[|r.calls| - 3].ParamsAdd?
      && r.calls[|r.calls| - 3].plane.fd == r.plane.fds[0]
      && r.calls[|r.calls| - 3].plane.planeIndex == 0
      && r.calls[|r.calls| - 3].plane.offset == 0
      && r.calls[|r.calls| - 3].plane.modifierHi * TwoTo32 + r.calls[|r.calls| - 3].plane.modifierLo == s.plane.modifier
  {
    var (s2, dev) := OpenDevice(s, d);
    var s3 := AllocateBo(s2, BoFormat(s2), d);
    AllocateBoFollowsLadder(s2, BoFormat(s2), d);
    var (p4, exp) := ExportPlane(s3.plane, d);
    var s4 := s3.(plane := p4);
    var (s5, sh) := ShareBuffer(s4, BoFormat(s2), d);
    assert s5.calls[|s5.calls| - 3] == ParamsAdd(DescribePlane(p4.fds[0], p4.offsets[0], p4.strides[0], p4.modifier));
  }

  /**
   * Allocation fails exactly when the device (opened on demand) is ready and every rung of the
   * ladder is refused by it.
   */
  lemma AllocationFailsOnlyWhenLadderExhausted(s: Session, d: Driver)
    requires WellFormed(s)
    ensures var dev := OpenDevice(s, d);
      CreateGbmWlBuffer(s, d).1 == Fail(AllocationExhausted) <==>
        && dev.1.Pass?
        && forall j :: 0 <= j < |AllocationLadder| ==> BoAnswers(dev.0, BoFormat(dev.0), d)(AllocationLadder[j]) == 0
  {
    AllocateBoFollowsLadder(OpenDevice(s, d).0, BoFormat(OpenDevice(s, d).0), d);
  }

  // ---------------------------------------------------------------------------
  // ensure_egl_image_and_texture
  // ---------------------------------------------------------------------------

  /** A texture name is generated only when none is held yet. */
  function EnsureTexture(s: Session, d: Driver): Session
  {
    if s.gl.tex == 0 then s.(gl := s.gl.(tex := d.genTexture), calls := s.calls + [GenTexture]) else s
  }

  /** What eglCreateImage is told about the exported plane. */
  function ImageOf(s: Session): ImageDesc
    requires WellFormed(s)
  {
    ImageDesc(s.frame.width, s.frame.height, s.frame.fourcc, s.plane.fds[0], s.plane.offsets[0], s.plane.strides[0])
  }

  /** The EGL image import over the exported plane, done only when no image is held. */
  function ImportImage(s: Session, d: Driver): (r: (Session, Outcome<Error>))
    requires WellFormed(s) && s.gl.eglImg == 0
    ensures r.0 == s.(gl := r.0.gl, calls := r.0.calls)
    ensures r.0.gl.tex == s.gl.tex
    ensures r.1.Pass? <==> r.0.gl.eglImg != 0
    ensures r.1.Pass? ==> r.0.calls == s.calls + [CreateImage(ImageOf(s))]
    ensures |r.0.calls| <= |s.calls| + 1
    ensures r.1 != Fail(DisplayConnectFailed)
  {
    var g2 := s.gl.(eglDpy := d.currentDisplay);
    if g2.eglDpy == 0 then (s.(gl := g2), Fail(NoEglDisplay))
    else
      var g3 := if g2.imageTargetFn then g2 else g2.(imageTargetFn := d.imageTargetProc);
      if !g3.imageTargetFn then (s.(gl := g3), Fail(ImageTargetMissing))
      else
        var img := d.createImage(ImageOf(s));
        var s4 := s.(gl := g3.(eglImg := img), calls := s.calls + [CreateImage(ImageOf(s))]);
        if img == 0 then (s4, Fail(ImageImportFailed)) else (s4, Pass)
  }

  /** glBindTexture and glEGLImageTargetTexture2DOES on the held texture and image. */
  function BindImage(s: Session): Session
  {
    s.(calls := s.calls + [BindTexture(s.gl.tex), ImageTargetTexture(s.gl.tex, s.gl.eglImg)])
  }

  /** ensure_egl_image_and_texture */
  function EnsureImageAndTexture(s: Session, d: Driver): (r: (Session, Outcome<Error>))
    requires WellFormed(s)
    ensures WellFormed(r.0)
    ensures r.0.wl == s.wl && r.0.dev == s.dev && r.0.frame == s.frame && r.0.plane == s.plane
    ensures r.0.gl.tex == (if s.gl.tex == 0 then d.genTexture else s.gl.tex)
    ensures s.gl.eglImg != 0 ==> r.1.Pass? && r.0.gl.eglImg == s.gl.eglImg
    ensures r.1.Pass? ==> r.0.gl.eglImg != 0
    ensures r.1 != Fail(DisplayConnectFailed)
    ensures s.gl.tex != 0 && s.gl.eglImg != 0 ==> r.0 == BindImage(s)
  {
    var s1 := EnsureTexture(s, d);
    if s1.gl.eglImg == 0 then
      var (s4, o) := ImportImage(s1, d);
      if o.Fail? then (s4, o) else (BindImage(s4), Pass)
    else (BindImage(s1), Pass)
  }

  /** A collection of calls creates no texture and no image. */
  predicate CreatesNothing(cs: seq<Call>)
  {
    forall i :: 0 <= i < |cs| ==> !cs[i].GenTexture? && !cs[i].CreateImage?
  }

  /** Calling ensure_egl_image_and_texture again after a success creates neither a texture nor an image. */
  lemma EnsureImageAndTextureIdempotent(s: Session, d: Driver, d': Driver)
    requires WellFormed(s)
    requires EnsureImageAndTexture(s, d).1.Pass?
    requires d.genTexture != 0 || s.gl.tex != 0
    ensures var s1 := EnsureImageAndTexture(s, d).0;
      var s2 := EnsureImageAndTexture(s1, d');
      && s2.1.Pass?
      && s2.0.gl == s1.gl
      && s2.0.calls == s1.calls + [BindTexture(s1.gl.tex), ImageTargetTexture(s1.gl.tex, s1.gl.eglImg)]
      && CreatesNothing(Appended(s1, s2.0))
  {
    var s1 := EnsureImageAndTexture(s, d).0;
    var s2 := EnsureImageAndTexture(s1, d').0;
    assert Appended(s1, s2) == [BindTexture(s1.gl.tex), ImageTargetTexture(s1.gl.tex, s1.gl.eglImg)];
  }

  // ---------------------------------------------------------------------------
  // wlr_dmabuf_capture_init
  // ---------------------------------------------------------------------------

  /** Connection, registry roundtrip and the check that both managers were announced. */
  function Discover(w: Wayland, c: Compositor): (r: (Wayland, Outcome<Error>))
    ensures r.0.display == c.display
    ensures c.display == 0 <==> r.1 == Fail(DisplayConnectFailed)
    ensures c.display == 0 ==> r.0 == w.(display := 0)
    ensures c.display != 0 ==> r.0 == Wayland(c.display, c.registry, Roundtrip(w.bindings, c.globals))
    ensures r.1.Pass? <==> c.display != 0 && r.0.bindings.screencopy.Some? && r.0.bindings.linuxDmabuf.Some?
    ensures c.display != 0 && r.0.bindings.screencopy.None? ==> r.1 == Fail(ScreencopyManagerMissing)
    ensures c.display != 0 && r.0.bindings.screencopy.Some? && r.0.bindings.linuxDmabuf.None? ==> r.1 == Fail(LinuxDmabufMissing)
  {
    if c.display == 0 then (w.(display := 0), Fail(DisplayConnectFailed))
    else
      var w2 := Wayland(c.display, c.registry, Roundtrip(w.bindings, c.globals));
      if w2.bindings.screencopy.None? then (w2, Fail(ScreencopyManagerMissing))
      else if w2.bindings.linuxDmabuf.None? then (w2, Fail(LinuxDmabufMissing))
      else (w2, Pass)
  }

  /** The probe request: capture_output, the wait for the dmabuf format, and the size check. */
  function Probe(s: Session, c: Compositor): (r: (Session, Outcome<Error>))
    ensures r.0 == s.(frame := Pump(s.frame, c.probe, FormatKnown).frame, calls := s.calls + [CaptureOutput(s.wl.bindings.output)])
    ensures r.1.Pass? <==> Pump(s.frame, c.probe, FormatKnown).outcome.Pass? && r.0.frame.width > 0 && r.0.frame.height > 0
    ensures Pump(s.frame, c.probe, FormatKnown).outcome.Pass? && (r.0.frame.width <= 0 || r.0.frame.height <= 0) ==>
      r.1 == Fail(InvalidProbeSize)
    ensures r.1 != Fail(DisplayConnectFailed)
  {
    var probe := Pump(s.frame, c.probe, FormatKnown);
    var s4 := s.(frame := probe.frame, calls := s.calls + [CaptureOutput(s.wl.bindings.output)]);
    if probe.outcome.Fail? then (s4, probe.outcome)
    else if s4.frame.width <= 0 || s4.frame.height <= 0 then (s4, Fail(InvalidProbeSize))
    else (s4, Pass)
  }

  /** The copy of the probed frame into the new buffer and the wait for `ready`. */
  function CopyFirstFrame(s: Session, c: Compositor): (r: (Session, Outcome<Error>))
    ensures r.1.Pass? <==> Pump(s.frame, c.copy, FrameDone).outcome.Pass?
    ensures r.0 == s.(frame := r.0.frame, calls := r.0.calls)
    ensures r.1.Pass? ==>
      && r.0.frame == Pump(s.frame, c.copy, FrameDone).frame.(frameReady := false)
      && r.0.calls == s.calls + [FrameCopy(s.plane.wlbuf), FrameDestroy]
    ensures r.1 != Fail(DisplayConnectFailed)
  {
    var copy := Pump(s.frame, c.copy, FrameDone);
    var s6 := s.(calls := s.calls + [FrameCopy(s.plane.wlbuf)]);
    if copy.outcome.Fail? then (s6.(frame := copy.frame), copy.outcome)
    else (s6.(frame := copy.frame.(frameReady := false), calls := s6.calls + [FrameDestroy]), Pass)
  }

  /** The part of wlr_dmabuf_capture_init after discovery: probe, buffer, first copy, EGL import. */
  function Setup(s: Session, c: Compositor, d: Driver): (r: (Session, Result<(int, int), Error>))
    requires WellFormed(s)
    ensures WellFormed(r.0)
    ensures r.0.wl == s.wl
    ensures r.1 != Err(DisplayConnectFailed)
    ensures r.1.Ok? ==> r.1.value == (r.0.frame.width, r.0.frame.height)
    ensures r.1.Ok? ==> r.0.plane.bo != 0 && r.0.plane.wlbuf != 0 && r.0.plane.nplanes == 1 && r.0.plane.fds[0] >= 0 && r.0.plane.offsets[0] == 0
    ensures r.1.Ok? ==> r.0.gl.eglImg != 0 && !r.0.frame.frameReady
    ensures r.1.Ok? ==> r.0.gl.tex == (if s.gl.tex == 0 then d.genTexture else s.gl.tex)
  {
    var (s4, probed) := Probe(s, c);
    if probed.Fail? then (s4, Err(probed.error))
    else
      var (s5, alloc) := CreateGbmWlBuffer(s4, d);
      if alloc.Fail? then (s5, Err(alloc.error))
      else
        assert s5.plane.nplanes == 1 && s5.plane.fds[0] >= 0 && s5.plane.offsets[0] == 0 && s5.plane.bo != 0 && s5.plane.wlbuf != 0 by {
          BufferIsOnePlane(s4, d);
        }
        var (s8, copied) := CopyFirstFrame(s5, c);
        if copied.Fail? then (s8, Err(copied.error))
        else
          var (s9, img) := EnsureImageAndTexture(s8, d);
          if img.Fail? then (s9, Err(img.error))
          else (s9, Ok((s9.frame.width, s9.frame.height)))
  }

  /** wlr_dmabuf_capture_init; the output name is accepted and ignored, as in the source. */
  function Init(s: Session, outputName: Option<string>, c: Compositor, d: Driver): (r: (Session, Result<(int, int), Error>))
    requires WellFormed(s)
    ensures WellFormed(r.0)
    ensures c.display == 0 <==> r.1 == Err(DisplayConnectFailed)
    ensures r.1.Ok? ==> r.1.value == (r.0.frame.width, r.0.frame.height)
    ensures r.1.Ok? ==> r.0.wl.bindings == Roundtrip(s.wl.bindings, c.globals)
    ensures r.1.Ok? ==> r.0.wl.bindings.screencopy.Some? && r.0.wl.bindings.linuxDmabuf.Some?
    ensures r.1.Ok? ==> r.0.plane.bo != 0 && r.0.plane.wlbuf != 0 && r.0.plane.nplanes == 1 && r.0.plane.fds[0] >= 0 && r.0.plane.offsets[0] == 0
    ensures r.1.Ok? ==> r.0.gl.eglImg != 0 && !r.0.frame.frameReady
    ensures r.1.Ok? ==> r.0.gl.tex == (if s.gl.tex == 0 then d.genTexture else s.gl.tex)
  {
    var (w, found) := Discover(s.wl, c);
    if found.Fail? then (s.(wl := w), Err(found.error))
    else Setup(s.(wl := w), c, d)
  }

  /** Init stops with an error when either manager is still unbound after the roundtrip. */
  lemma InitNeedsBothManagers(s: Session, name: Option<string>, c: Compositor, d: Driver)
    requires WellFormed(s) && c.display != 0
    ensures var b := Roundtrip(s.wl.bindings, c.globals);
      (b.screencopy.None? ==> Init(s, name, c, d).1 == Err(ScreencopyManagerMissing)) &&
      (b.screencopy.Some? && b.linuxDmabuf.None? ==> Init(s, name, c, d).1 == Err(LinuxDmabufMissing))
  {
  }

  /** Init rejects a probe that leaves width or height at or below 0. */
  lemma InitRejectsEmptyProbe(s: Session, name: Option<string>, c: Compositor, d: Driver)
    requires WellFormed(s) && c.display != 0
    requires Roundtrip(s.wl.bindings, c.globals).screencopy.Some? && Roundtrip(s.wl.bindings, c.globals).linuxDmabuf.Some?
    requires Pump(s.frame, c.probe, FormatKnown).outcome.Pass?
    requires Pump(s.frame, c.probe, FormatKnown).frame.width <= 0 || Pump(s.frame, c.probe, FormatKnown).frame.height <= 0
    ensures Init(s, name, c, d).1 == Err(InvalidProbeSize)
  {
  }

  /** The output-name argument influences nothing. */
  lemma InitIgnoresOutputName(s: Session, n1: Option<string>, n2: Option<string>, c: Compositor, d: Driver)
    requires WellFormed(s)
    ensures Init(s, n1, c, d) == Init(s, n2, c, d)
  {
  }

  // ---------------------------------------------------------------------------
  // wlr_dmabuf_next_frame
  // ---------------------------------------------------------------------------

  /** wlr_dmabuf_next_frame */
  function NextFrame(s: Session, batches: seq<seq<FrameEvent>>): (r: (Session, Result<CaptureFrame, Error>))
    ensures r.1.Err? <==> Pump(s.frame, batches, FrameDone).outcome.Fail?
    ensures r.1.Ok? ==> r.1.value == CaptureFrame(s.gl.tex, r.0.frame.width, r.0.frame.height)
    ensures r.1.Ok? ==> !r.0.frame.frameReady
    ensures r.0 == s.(frame := r.0.frame, calls := r.0.calls)
    ensures r.0.calls == s.calls + [CaptureOutput(s.wl.bindings.output), FrameCopy(s.plane.wlbuf)] +
                         (if r.1.Ok? then [FrameDestroy, BindTexture(s.gl.tex)] else [])
  {
    var p := Pump(s.frame, batches, FrameDone);
    var s1 := s.(calls := s.calls + [CaptureOutput(s.wl.bindings.output), FrameCopy(s.plane.wlbuf)]);
    if p.outcome.Fail? then (s1.(frame := p.frame), Err(p.outcome.error))
    else
      var s3 := s1.(frame := p.frame.(frameReady := false), calls := s1.calls + [FrameDestroy, BindTexture(s.gl.tex)]);
      (s3, Ok(CaptureFrame(s.gl.tex, p.frame.width, p.frame.height)))
  }

  /**
   * While the compositor keeps reporting the session's geometry, consecutive frames return
   * the same texture and that geometry, and neither frame creates a texture or an image.
   */
  lemma NextFrameIsStable(s: Session, b1: seq<seq<FrameEvent>>, b2: seq<seq<FrameEvent>>)
    requires forall j :: 0 <= j < |b1| ==> BatchKeeps(b1[j], s.frame.width, s.frame.height)
    requires forall j :: 0 <= j < |b2| ==> BatchKeeps(b2[j], s.frame.width, s.frame.height)
    requires NextFrame(s, b1).1.Ok? && NextFrame(NextFrame(s, b1).0, b2).1.Ok?
    ensures var f1 := NextFrame(s, b1); var f2 := NextFrame(f1.0, b2);
      && f1.1.value == f2.1.value
      && f1.1.value == CaptureFrame(s.gl.tex, s.frame.width, s.frame.height)
      && f2.0.gl == s.gl && f2.0.plane == s.plane
      && CreatesNothing(Appended(s, f2.0))
  {
    PumpKeepsGeometry(s.frame, b1, FrameDone);
    var f1 := NextFrame(s, b1);
    PumpKeepsGeometry(f1.0.frame, b2, FrameDone);
    var f2 := NextFrame(f1.0, b2);
    assert Appended(s, f2.0) ==
      [CaptureOutput(s.wl.bindings.output), FrameCopy(s.plane.wlbuf), FrameDestroy, BindTexture(s.gl.tex),
       CaptureOutput(s.wl.bindings.output), FrameCopy(s.plane.wlbuf), FrameDestroy, BindTexture(s.gl.tex)];
  }

  // ---------------------------------------------------------------------------
  // wlr_dmabuf_capture_shutdown
  // ---------------------------------------------------------------------------

  /** The close() calls of the shutdown loop over fds, slot by slot. */
  function FdCloses(fds: seq<int>): (r: seq<Call>)
    ensures forall c :: c in r ==> c.Close? && c.fd >= 0
  {
    if fds == [] then []
    else FdCloses(fds[..|fds| - 1]) + (if fds[|fds| - 1] >= 0 then [Close(fds[|fds| - 1])] else [])
  }

  /** Reference count: the fds slots holding a descriptor. */
  function HeldFds(fds: seq<int>): nat
  {
    if fds == [] then 0 else (if fds[0] >= 0 then 1 else 0) + HeldFds(fds[1..])
  }

  lemma {:induction false} HeldFdsSnoc(fds: seq<int>)
    requires fds != []
    ensures HeldFds(fds) == HeldFds(fds[..|fds| - 1]) + (if fds[|fds| - 1] >= 0 then 1 else 0)
  {
    if |fds| > 1 {
      assert fds[1..][..|fds[1..]| - 1] == fds[..|fds| - 1][1..];
      HeldFdsSnoc(fds[1..]);
    }
  }

  /** One close per slot holding a descriptor. */
  lemma {:induction false} FdClosesCount(fds: seq<int>)
    ensures |FdCloses(fds)| == HeldFds(fds)
  {
    if fds != [] {
      FdClosesCount(fds[..|fds| - 1]);
      HeldFdsSnoc(fds);
    }
  }

  /** The close calls of the loop are those of the slots that hold a descriptor. */
  lemma {:induction false} FdClosesHeld(fds: seq<int>, fd: int)
    ensures Close(fd) in FdCloses(fds) <==> fd in fds && fd >= 0
  {
    if fds != [] {
      FdClosesHeld(fds[..|fds| - 1], fd);
      assert fds == fds[..|fds| - 1] + [fds[|fds| - 1]];
    }
  }

  /** No slot holds a descriptor: nothing to close. */
  lemma {:induction false} FdClosesNone(fds: seq<int>)
    requires forall i :: 0 <= i < |fds| ==> fds[i] < 0
    ensures FdCloses(fds) == []
  {
    if fds != [] {
      FdClosesNone(fds[..|fds| - 1]);
    }
  }

  function Count(b: bool): nat { if b then 1 else 0 }

  /** The call `c` if the resource is held, no call otherwise. */
  function ReleaseIf(held: bool, c: Call): (r: seq<Call>)
    ensures |r| == Count(held)
    ensures r == [] || r == [c]
  {
    if held then [c] else []
  }

  /** The releases of the bound globals: wl_output, then linux-dmabuf, then screencopy. */
  function BindingReleases(b: Bindings): (r: seq<Call>)
    ensures |r| == Count(b.output.Some?) + Count(b.linuxDmabuf.Some?) + Count(b.screencopy.Some?)
    ensures forall c :: c in r ==> !c.Close?
  {
    (if b.output.Some? then [DestroyOutput(b.output.value)] else []) +
    (if b.linuxDmabuf.Some? then [DestroyLinuxDmabuf(b.linuxDmabuf.value)] else []) +
    (if b.screencopy.Some? then [DestroyScreencopy(b.screencopy.value)] else [])
  }

  /** The bindings are released by their own destroy calls, each exactly when it is bound. */
  lemma BindingReleasesHeld(b: Bindings)
    ensures forall c :: c in BindingReleases(b) ==> c.DestroyOutput? || c.DestroyLinuxDmabuf? || c.DestroyScreencopy?
    ensures forall x :: DestroyOutput(x) in BindingReleases(b) <==> b.output == Some(x)
    ensures forall x :: DestroyLinuxDmabuf(x) in BindingReleases(b) <==> b.linuxDmabuf == Some(x)
    ensures forall x :: DestroyScreencopy(x) in BindingReleases(b) <==> b.screencopy == Some(x)
  {
  }

  /** The releases of the image, the texture and the wl_buffer. */
  function GlReleases(gl: Gl, wlbuf: nat): (r: seq<Call>)
    ensures |r| == Count(gl.eglImg != 0) + Count(gl.tex != 0) + Count(wlbuf != 0)
    ensures forall c :: c in r ==> !c.Close?
  {
    ReleaseIf(gl.eglImg != 0, DestroyImage(gl.eglDpy, gl.eglImg)) +
    ReleaseIf(gl.tex != 0, DeleteTexture(gl.tex)) +
    ReleaseIf(wlbuf != 0, DestroyWlBuffer(wlbuf))
  }

  /** The image, the texture and the wl_buffer are released exactly when they are held. */
  lemma GlReleasesHeld(gl: Gl, wlbuf: nat)
    ensures forall c :: c in GlReleases(gl, wlbuf) ==> c.DestroyImage? || c.DeleteTexture? || c.DestroyWlBuffer?
    ensures DestroyImage(gl.eglDpy, gl.eglImg) in GlReleases(gl, wlbuf) <==> gl.eglImg != 0
    ensures DeleteTexture(gl.tex) in GlReleases(gl, wlbuf) <==> gl.tex != 0
    ensures DestroyWlBuffer(wlbuf) in GlReleases(gl, wlbuf) <==> wlbuf != 0
  {
  }

  /** The releases of the buffer object and the GBM device. */
  function GbmReleases(bo: nat, gbm: nat): (r: seq<Call>)
    ensures |r| == Count(bo != 0) + Count(gbm != 0)
    ensures forall c :: c in r ==> !c.Close?
  {
    ReleaseIf(bo != 0, DestroyBo(bo)) + ReleaseIf(gbm != 0, DestroyGbmDevice(gbm))
  }

  /** The buffer object and the GBM device are destroyed exactly when they are held. */
  lemma GbmReleasesHeld(bo: nat, gbm: nat)
    ensures forall c :: c in GbmReleases(bo, gbm) ==> c.DestroyBo? || c.DestroyGbmDevice?
    ensures DestroyBo(bo) in GbmReleases(bo, gbm) <==> bo != 0
    ensures DestroyGbmDevice(gbm) in GbmReleases(bo, gbm) <==> gbm != 0
  {
  }

  /** The releases of the three bindings, the registry, the connection and the render node. */
  function WaylandReleases(w: Wayland, drmFd: int): seq<Call>
  {
    BindingReleases(w.bindings) +
    ReleaseIf(w.registry != 0, DestroyRegistry(w.registry)) +
    ReleaseIf(w.display != 0, Disconnect(w.display)) +
    ReleaseIf(drmFd >= 0, Close(drmFd))
  }

  /** The Wayland releases hold no GL or GBM release. */
  lemma WaylandReleasesKinds(w: Wayland, drmFd: int)
    ensures forall c :: c in WaylandReleases(w, drmFd) ==>
      c.DestroyOutput? || c.DestroyLinuxDmabuf? || c.DestroyScreencopy? || c.DestroyRegistry? || c.Disconnect? || c.Close?
  {
    BindingReleasesHeld(w.bindings);
  }

  /** The Wayland releases destroy each bound global, the registry and the connection exactly when they are held. */
  lemma WaylandReleasesHeld(w: Wayland, drmFd: int)
    ensures forall x :: DestroyOutput(x) in WaylandReleases(w, drmFd) <==> w.bindings.output == Some(x)
    ensures forall x :: DestroyLinuxDmabuf(x) in WaylandReleases(w, drmFd) <==> w.bindings.linuxDmabuf == Some(x)
    ensures forall x :: DestroyScreencopy(x) in WaylandReleases(w, drmFd) <==> w.bindings.screencopy == Some(x)
    ensures DestroyRegistry(w.registry) in WaylandReleases(w, drmFd) <==> w.registry != 0
    ensures Disconnect(w.display) in WaylandReleases(w, drmFd) <==> w.display != 0
  {
    var wb := BindingReleases(w.bindings);
    var reg := ReleaseIf(w.registry != 0, DestroyRegistry(w.registry));
    var dis := ReleaseIf(w.display != 0, Disconnect(w.display));
    var drm := ReleaseIf(drmFd >= 0, Close(drmFd));
    assert WaylandReleases(w, drmFd) == wb + (reg + dis + drm);
    BindingReleasesHeld(w.bindings);
    forall x: Binding
      ensures DestroyOutput(x) !in reg + dis + drm
      ensures DestroyLinuxDmabuf(x) !in reg + dis + drm
      ensures DestroyScreencopy(x) !in reg + dis + drm
    {
    }
    assert DestroyRegistry(w.registry) !in wb && Disconnect(w.display) !in wb;
  }

  /** Appending the Wayland releases to a log is appending their parts one after the other. */
  lemma AppendWaylandReleases(log: seq<Call>, w: Wayland, drmFd: int)
    ensures log + WaylandReleases(w, drmFd) ==
      log + BindingReleases(w.bindings) + ReleaseIf(w.registry != 0, DestroyRegistry(w.registry)) +
      ReleaseIf(w.display != 0, Disconnect(w.display)) + ReleaseIf(drmFd >= 0, Close(drmFd))
  {
  }

  /** The only descriptor the Wayland releases close is the render node, and only when it is open. */
  lemma WaylandReleasesCloseRenderNode(w: Wayland, drmFd: int, fd: int)
    ensures Close(fd) in WaylandReleases(w, drmFd) <==> fd == drmFd >= 0
  {
    var r := WaylandReleases(w, drmFd);
    var head := BindingReleases(w.bindings) + ReleaseIf(w.registry != 0, DestroyRegistry(w.registry)) +
      ReleaseIf(w.display != 0, Disconnect(w.display));
    assert r == head + ReleaseIf(drmFd >= 0, Close(drmFd));
    assert Close(fd) !in head;
  }

  /** The release calls of wlr_dmabuf_capture_shutdown, in the order the source issues them. */
  function ReleasePlan(s: Session): seq<Call>
  {
    GlReleases(s.gl, s.plane.wlbuf) + FdCloses(s.plane.fds) + GbmReleases(s.plane.bo, s.dev.gbm) +
    WaylandReleases(s.wl, s.dev.drmFd)
  }

  /** Appending the release plan to a log is appending its four groups one after the other. */
  lemma AppendReleasePlan(log: seq<Call>, s: Session)
    ensures log + ReleasePlan(s) ==
      log + GlReleases(s.gl, s.plane.wlbuf) + FdCloses(s.plane.fds) + GbmReleases(s.plane.bo, s.dev.gbm) +
      WaylandReleases(s.wl, s.dev.drmFd)
  {
    var g, f, b, w := GlReleases(s.gl, s.plane.wlbuf), FdCloses(s.plane.fds), GbmReleases(s.plane.bo, s.dev.gbm),
      WaylandReleases(s.wl, s.dev.drmFd);
    AppendAssociates(log, g + f + b, w);
    AppendAssociates(log, g + f, b);
    AppendAssociates(log, g, f);
  }

  lemma AppendAssociates(a: seq<Call>, b: seq<Call>, c: seq<Call>)
    ensures a + (b + c) == a + b + c
  {
  }

  /** Every resource a session can hold. */
  function HeldCount(s: Session): nat
  {
    Count(s.gl.eglImg != 0) + Count(s.gl.tex != 0) + Count(s.plane.wlbuf != 0) +
    HeldFds(s.plane.fds) +
    Count(s.plane.bo != 0) + Count(s.dev.gbm != 0) +
    Count(s.wl.bindings.output.Some?) + Count(s.wl.bindings.linuxDmabuf.Some?) + Count(s.wl.bindings.screencopy.Some?) +
    Count(s.wl.registry != 0) + Count(s.wl.display != 0) + Count(s.dev.drmFd >= 0)
  }

  /** The fds slots after the shutdown loop: each held descriptor becomes -1, the others keep their value. */
  function ClearFds(fds: seq<int>): (r: seq<int>)
    ensures |r| == |fds|
    ensures forall i :: 0 <= i < |r| ==> r[i] < 0
    ensures forall i :: 0 <= i < |r| ==> fds[i] >= 0 ==> r[i] == -1
    ensures forall i :: 0 <= i < |r| ==> fds[i] < 0 ==> r[i] == fds[i]
  {
    seq(|fds|, i requires 0 <= i < |fds| => if fds[i] >= 0 then -1 else fds[i])
  }

  /** wlr_dmabuf_capture_shutdown */
  function Shutdown(s: Session): (r: Session)
    ensures r.calls == s.calls + ReleasePlan(s)
    ensures r.gl == s.gl.(eglImg := 0, tex := 0)
    ensures r.plane == s.plane.(wlbuf := 0, fds := ClearFds(s.plane.fds), bo := 0)
    ensures r.dev == Device(if s.dev.drmFd >= 0 then -1 else s.dev.drmFd, 0)
    ensures r.wl == Wayland(0, 0, Bindings(None, None, None))
    ensures r.frame == s.frame
  {
    Session(
      Wayland(0, 0, Bindings(None, None, None)),
      Device(if s.dev.drmFd >= 0 then -1 else s.dev.drmFd, 0),
      s.frame,
      s.plane.(wlbuf := 0, fds := ClearFds(s.plane.fds), bo := 0),
      s.gl.(eglImg := 0, tex := 0),
      s.calls + ReleasePlan(s))
  }

  /** Shutdown issues as many release calls as there are held resources. */
  lemma ShutdownReleaseCountIsHeldCount(s: Session)
    ensures |ReleasePlan(s)| == HeldCount(s)
  {
    FdClosesCount(s.plane.fds);
  }

  /** The descriptors shutdown closes are exactly those held: the plane descriptors and the render node. */
  lemma ShutdownClosesHeldDescriptors(s: Session, fd: int)
    ensures Close(fd) in ReleasePlan(s) <==> (fd in s.plane.fds && fd >= 0) || fd == s.dev.drmFd >= 0
  {
    FdClosesHeld(s.plane.fds, fd);
    assert Close(fd) !in GlReleases(s.gl, s.plane.wlbuf);
    assert Close(fd) !in GbmReleases(s.plane.bo, s.dev.gbm);
    WaylandReleasesCloseRenderNode(s.wl, s.dev.drmFd, fd);
  }

  /**
   * Shutdown releases the image, the texture and the wl_buffer exactly when the session holds
   * them; with ShutdownReleaseCountIsHeldCount, each exactly once.
   */
  lemma ShutdownReleasesHeldGl(s: Session)
    ensures DestroyImage(s.gl.eglDpy, s.gl.eglImg) in ReleasePlan(s) <==> s.gl.eglImg != 0
    ensures DeleteTexture(s.gl.tex) in ReleasePlan(s) <==> s.gl.tex != 0
    ensures DestroyWlBuffer(s.plane.wlbuf) in ReleasePlan(s) <==> s.plane.wlbuf != 0
  {
    GlReleasesHeld(s.gl, s.plane.wlbuf);
    NotReleasedAfterGl(s, DestroyImage(s.gl.eglDpy, s.gl.eglImg));
    NotReleasedAfterGl(s, DeleteTexture(s.gl.tex));
    NotReleasedAfterGl(s, DestroyWlBuffer(s.plane.wlbuf));
  }

  /** A GL release is in none of the groups shutdown issues after the GL releases. */
  lemma NotReleasedAfterGl(s: Session, c: Call)
    requires c.DestroyImage? || c.DeleteTexture? || c.DestroyWlBuffer?
    ensures c !in FdCloses(s.plane.fds)
    ensures c !in GbmReleases(s.plane.bo, s.dev.gbm)
    ensures c !in WaylandReleases(s.wl, s.dev.drmFd)
  {
    GbmReleasesHeld(s.plane.bo, s.dev.gbm);
    WaylandReleasesKinds(s.wl, s.dev.drmFd);
  }

  /** Shutdown destroys the buffer object and the GBM device exactly when the session holds them. */
  lemma ShutdownReleasesHeldGbm(s: Session)
    ensures DestroyBo(s.plane.bo) in ReleasePlan(s) <==> s.plane.bo != 0
    ensures DestroyGbmDevice(s.dev.gbm) in ReleasePlan(s) <==> s.dev.gbm != 0
  {
    GbmReleasesHeld(s.plane.bo, s.dev.gbm);
    NotReleasedBesideGbm(s, DestroyBo(s.plane.bo));
    NotReleasedBesideGbm(s, DestroyGbmDevice(s.dev.gbm));
  }

  /** A GBM release is in none of the other groups shutdown issues. */
  lemma NotReleasedBesideGbm(s: Session, c: Call)
    requires c.DestroyBo? || c.DestroyGbmDevice?
    ensures c !in GlReleases(s.gl, s.plane.wlbuf)
    ensures c !in FdCloses(s.plane.fds)
    ensures c !in WaylandReleases(s.wl, s.dev.drmFd)
  {
    GlReleasesHeld(s.gl, s.plane.wlbuf);
    WaylandReleasesKinds(s.wl, s.dev.drmFd);
  }

  /** A Wayland release is in none of the groups shutdown issues before the Wayland releases. */
  lemma NotReleasedBeforeWayland(s: Session, c: Call)
    requires c.DestroyOutput? || c.DestroyLinuxDmabuf? || c.DestroyScreencopy? || c.DestroyRegistry? || c.Disconnect?
    ensures c !in GlReleases(s.gl, s.plane.wlbuf)
    ensures c !in FdCloses(s.plane.fds)
    ensures c !in GbmReleases(s.plane.bo, s.dev.gbm)
  {
    GlReleasesHeld(s.gl, s.plane.wlbuf);
    GbmReleasesHeld(s.plane.bo, s.dev.gbm);
  }

  /** Shutdown destroys each bound global, the registry and the connection exactly when the session holds them. */
  lemma ShutdownReleasesHeldWayland(s: Session)
    ensures forall x :: DestroyOutput(x) in ReleasePlan(s) <==> s.wl.bindings.output == Some(x)
    ensures forall x :: DestroyLinuxDmabuf(x) in ReleasePlan(s) <==> s.wl.bindings.linuxDmabuf == Some(x)
    ensures forall x :: DestroyScreencopy(x) in ReleasePlan(s) <==> s.wl.bindings.screencopy == Some(x)
    ensures DestroyRegistry(s.wl.registry) in ReleasePlan(s) <==> s.wl.registry != 0
    ensures Disconnect(s.wl.display) in ReleasePlan(s) <==> s.wl.display != 0
  {
    WaylandReleasesHeld(s.wl, s.dev.drmFd);
    forall x: Binding
      ensures DestroyOutput(x) in ReleasePlan(s) <==> s.wl.bindings.output == Some(x)
      ensures DestroyLinuxDmabuf(x) in ReleasePlan(s) <==> s.wl.bindings.linuxDmabuf == Some(x)
      ensures DestroyScreencopy(x) in ReleasePlan(s) <==> s.wl.bindings.screencopy == Some(x)
    {
      NotReleasedBeforeWayland(s, DestroyOutput(x));
      NotReleasedBeforeWayland(s, DestroyLinuxDmabuf(x));
      NotReleasedBeforeWayland(s, DestroyScreencopy(x));
    }
    NotReleasedBeforeWayland(s, DestroyRegistry(s.wl.registry));
    NotReleasedBeforeWayland(s, Disconnect(s.wl.display));
  }

  /** After a shutdown nothing is held, so a second shutdown releases nothing and changes nothing. */
  lemma ShutdownIsIdempotent(s: Session)
    ensures HeldCount(Shutdown(s)) == 0
    ensures ReleasePlan(Shutdown(s)) == []
    ensures Shutdown(Shutdown(s)) == Shutdown(s)
  {
    var r := Shutdown(s);
    FdClosesNone(r.plane.fds);
    FdClosesCount(r.plane.fds);
    assert ClearFds(r.plane.fds) == r.plane.fds;
  }
}
