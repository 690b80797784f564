/**
 * The global `G` of src/capture_wlr_dmabuf.cpp as an object whose methods update its fields
 * in place, one C++ statement at a time. The fields are grouped as the source's own comments
 * group them (Wayland and protocols, DRM/GBM, geometry and state, the plane, EGL/GL), each group
 * a record of DmabufState; the three plane arrays stay arrays. Every method is proved to leave
 * the object in the state the corresponding function of DmabufState computes from the old
 * state, so the properties proved there hold of the object.
 */
module DmabufSession {
  import opened Wrappers
  import opened DmabufCapture
  import DmabufState

  class CaptureSession {
    /** display, registry and the three bound globals. */
    var wl: DmabufState.Wayland
    /** drm_fd and gbm. */
    var dev: DmabufState.Device
    /** The fields the frame callbacks write: width, height, fourcc and the two flags. */
    var frame: FrameState
    var modifier: uint64
    var bo: nat
    var nplanes: int
    const fds: array<int>
    const strides: array<uint32>
    const offsets: array<uint32>
    var wlbuf: nat
    /** egl_dpy, egl_img, tex and whether the static glEGLImageTargetTexture2DOES_ pointer is resolved. */
    var gl: DmabufState.Gl
    /** The foreign calls issued so far. */
    var calls: seq<Call>

    predicate Valid()
      reads this
    {
      fds.Length == 4 && strides.Length == 4 && offsets.Length == 4 && strides != offsets
    }

    /** The object's fields as a value. */
    ghost function State(): DmabufState.Session
      reads this, fds, strides, offsets
    {
      DmabufState.Session(wl, dev, frame,
        DmabufState.Plane(modifier, bo, nplanes, fds[..], strides[..], offsets[..], wlbuf), gl, calls)
    }

    /** The static initialiser of G. */
    constructor ()
      ensures Valid() && State() == DmabufState.Fresh
    {
      wl := DmabufState.Wayland(0, 0, Bindings(None, None, None));
      dev := DmabufState.Device(-1, 0);
      frame := FrameState(0, 0, DRM_FORMAT_XRGB8888, false, false);
      modifier := DRM_FORMAT_MOD_INVALID;
      bo, nplanes := 0, 1;
      fds := new int[4] [-1, -1, -1, -1];
      strides := new uint32[4] [0, 0, 0, 0];
      offsets := new uint32[4] [0, 0, 0, 0];
      wlbuf := 0;
      gl := DmabufState.Gl(0, 0, 0, false);
      calls := [];
    }

    /** open_render_node: the candidates in order, the first that opens wins. */
    static method OpenRenderNode(open: string -> int) returns (r: Result<int, Error>)
      ensures r == RenderNode(open)
    {
      var i := 0;
      while i < |RenderNodes|
        invariant 0 <= i <= |RenderNodes|
        invariant FirstOpening(RenderNodes, open) == i + FirstOpening(RenderNodes[i..], open)
      {
        assert RenderNodes[i..][1..] == RenderNodes[i + 1..];
        var fd := open(RenderNodes[i]);
        if fd >= 0 {
          return Ok(fd);
        }
        i := i + 1;
      }
      return Err(NoRenderNode);
    }

    /** reg_global */
    method RegGlobal(g: Global)
      requires Valid()
      modifies this
      ensures Valid()
      ensures State() == old(State()).(wl := old(State()).wl.(bindings := DmabufCapture.RegGlobal(old(State()).wl.bindings, g)))
    {
      if g.iface == WlOutputInterface {
        if wl.bindings.output.None? {
          wl := wl.(bindings := wl.bindings.(output := Some(Binding(g.name, WlOutputVersion))));
        }
      } else if g.iface == ScreencopyInterface {
        wl := wl.(bindings := wl.bindings.(screencopy := Some(Binding(g.name, ScreencopyVersion))));
      } else if g.iface == LinuxDmabufInterface {
        wl := wl.(bindings := wl.bindings.(linuxDmabuf := Some(Binding(g.name, LinuxDmabufVersion))));
      }
    }

    /** wl_display_roundtrip: the registry listener runs once per announcement, in order. */
    method Roundtrip(gs: seq<Global>)
      requires Valid()
      modifies this
      ensures Valid()
      ensures State() == old(State()).(wl := old(State()).wl.(bindings := DmabufCapture.Roundtrip(old(State()).wl.bindings, gs)))
    {
      for i := 0 to |gs|
        invariant Valid()
        invariant State() == old(State()).(wl := old(State()).wl.(bindings := DmabufCapture.Roundtrip(old(State()).wl.bindings, gs[..i])))
      {
        assert gs[..i + 1][..i] == gs[..i];
        RegGlobal(gs[i]);
      }
      assert gs[..|gs|] == gs;
    }

    /** The frame listener: frame_buffer, frame_flags, frame_ready, frame_failed, frame_damage, frame_linux_dmabuf. */
    method OnFrameEvent(e: FrameEvent) returns (o: Outcome<Error>)
      requires Valid()
      modifies this
      ensures Valid()
      ensures frame == DmabufCapture.OnFrameEvent(old(frame), e).0
      ensures State() == old(State()).(frame := frame)
      ensures o == DmabufCapture.OnFrameEvent(old(frame), e).1
    {
      match e
      case Buffer(_, w, h, _) =>
        frame := frame.(width := AsInt32(w), height := AsInt32(h));
        o := Pass;
      case Flags(_) =>
        o := Pass;
      case Ready(_, _, _) =>
        frame := frame.(frameReady := true);
        o := Pass;
      case Failed =>
        o := Fail(ScreencopyFailed);
      case Damage(_, _, _, _) =>
        o := Pass;
      case LinuxDmabuf(f, w, h) =>
        frame := frame.(fourcc := if f != 0 then f else DRM_FORMAT_XRGB8888);
        frame := frame.(width := AsInt32(w));
        frame := frame.(height := AsInt32(h));
        frame := frame.(gotLinuxDmabuf := true);
        o := Pass;
    }

    /** One wl_display_dispatch: the events of the batch in order, until one throws. */
    method Dispatch(batch: seq<FrameEvent>) returns (o: Outcome<Error>)
      requires Valid()
      modifies this
      ensures Valid()
      ensures frame == DispatchBatch(old(frame), batch).0
      ensures State() == old(State()).(frame := frame)
      ensures o == DispatchBatch(old(frame), batch).1
    {
      var i := 0;
      while i < |batch|
        invariant 0 <= i <= |batch|
        invariant Valid()
        invariant State() == old(State()).(frame := frame)
        invariant DispatchBatch(old(frame), batch) == DispatchBatch(frame, batch[i..])
      {
        assert batch[i..][1..] == batch[i + 1..];
        o := OnFrameEvent(batch[i]);
        if o.Fail? {
          return;
        }
        i := i + 1;
      }
      o := Pass;
    }

    /**
     * The wait loop: dispatch until the awaited flag is set, one batch of events per
     * dispatch; running out of batches ends the loop as a dispatch returning -1 would.
     */
    method AwaitFlag(batches: seq<seq<FrameEvent>>, until: Await) returns (o: Outcome<Error>)
      requires Valid()
      modifies this
      ensures Valid()
      ensures frame == Pump(old(frame), batches, until).frame
      ensures State() == old(State()).(frame := frame)
      ensures o == Pump(old(frame), batches, until).outcome
    {
      var i := 0;
      while i < |batches|
        invariant 0 <= i <= |batches|
        invariant Valid()
        invariant State() == old(State()).(frame := frame)
        invariant Pump(frame, batches[i..], until).frame == Pump(old(frame), batches, until).frame
        invariant Pump(frame, batches[i..], until).outcome == Pump(old(frame), batches, until).outcome
      {
        assert batches[i..][1..] == batches[i + 1..];
        o := Dispatch(batches[i]);
        var flag := match until case FormatKnown => frame.gotLinuxDmabuf case FrameDone => frame.frameReady;
        if o.Fail? || flag {
          return;
        }
        i := i + 1;
      }
      o := Pass;
    }

    /** try_make_gbm_bo_with */
    method TryMakeBoWith(fmt: uint32, use: uint32, d: Driver)
      requires Valid()
      modifies this
      ensures Valid()
      ensures State() == DmabufState.TryMakeBoWith(old(State()), fmt, use, d)
    {
      bo := d.boCreate(dev.gbm, frame.width, frame.height, fmt, use);
      calls := calls + [BoCreate(frame.width, frame.height, fmt, use)];
      if bo != 0 {
        return;
      }
      calls := calls + [AllocFailureLogged(frame.width, frame.height, fmt, use)];
    }

    /** The size check and the lazy opening of the render node and the GBM device. */
    method OpenDevice(d: Driver) returns (o: Outcome<Error>)
      requires Valid()
      modifies this
      ensures Valid()
      ensures State() == DmabufState.OpenDevice(old(State()), d).0
      ensures o == DmabufState.OpenDevice(old(State()), d).1
    {
      if frame.width <= 0 || frame.height <= 0 {
        return Fail(InvalidAllocationSize);
      }
      if dev.drmFd < 0 {
        var node := OpenRenderNode(d.open);
        if node.Err? {
          return Fail(node.error);
        }
        dev := dev.(drmFd := node.value);
      }
      if dev.gbm == 0 {
        dev := dev.(gbm := d.gbmCreateDevice(dev.drmFd));
        calls := calls + [CreateGbmDevice(dev.drmFd)];
        if dev.gbm == 0 {
          return Fail(GbmDeviceFailed);
        }
      }
      o := Pass;
    }

    /** The allocation ladder: RENDERING, then no flags, then LINEAR, each only if the previous failed. */
    method AllocateBo(fmt: uint32, d: Driver)
      requires Valid()
      modifies this
      ensures Valid()
      ensures State() == DmabufState.AllocateBo(old(State()), fmt, d)
    {
      TryMakeBoWith(fmt, GBM_BO_USE_RENDERING, d);
      if bo == 0 {
        TryMakeBoWith(fmt, 0, d);
      }
      if bo == 0 {
        TryMakeBoWith(fmt, GBM_BO_USE_LINEAR, d);
      }
    }

    /** Plane 0 of the buffer object: its descriptor, then its stride and offset 0. */
    method ExportPlane(d: Driver) returns (o: Outcome<Error>)
      requires Valid()
      modifies this, fds, strides, offsets
      ensures Valid()
      ensures State() == old(State()).(plane := DmabufState.ExportPlane(old(State()).plane, d).0)
      ensures o == DmabufState.ExportPlane(old(State()).plane, d).1
    {
      nplanes := 1;
      fds[0] := d.boFd(bo);
      if fds[0] < 0 {
        return Fail(BoExportFailed);
      }
      strides[0] := d.boStride(bo);
      offsets[0] := 0;
      o := Pass;
    }

    /** The zwp_linux_dmabuf_params_v1 exchange that wraps the exported plane in a wl_buffer. */
    method ShareBuffer(fmt: uint32, d: Driver) returns (o: Outcome<Error>)
      requires Valid()
      modifies this
      ensures Valid()
      ensures State() == DmabufState.ShareBuffer(old(State()), fmt, d).0
      ensures o == DmabufState.ShareBuffer(old(State()), fmt, d).1
    {
      if wl.bindings.linuxDmabuf.None? {
        return Fail(LinuxDmabufMissing);
      }
      calls := calls + [CreateParams];
      if d.createParams == 0 {
        return Fail(CreateParamsFailed);
      }
      var plane := DescribePlane(fds[0], offsets[0], strides[0], modifier);
      calls := calls + [ParamsAdd(plane)];
      wlbuf := d.createImmed(frame.width, frame.height, fmt);
      calls := calls + [CreateImmed(frame.width, frame.height, fmt), ParamsDestroy];
      if wlbuf == 0 {
        return Fail(CreateImmedFailed);
      }
      o := Pass;
    }

    /** create_gbm_wlbuffer */
    method CreateGbmWlBuffer(d: Driver) returns (o: Outcome<Error>)
      requires Valid()
      modifies this, fds, strides, offsets
      ensures Valid()
      ensures State() == DmabufState.CreateGbmWlBuffer(old(State()), d).0
      ensures o == DmabufState.CreateGbmWlBuffer(old(State()), d).1
    {
      o := OpenDevice(d);
      if o.Fail? {
        return;
      }
      var fmt: uint32 := if frame.fourcc != 0 then frame.fourcc else DRM_FORMAT_XRGB8888;
      AllocateBo(fmt, d);
      if bo == 0 {
        return Fail(AllocationExhausted);
      }
      o := ExportPlane(d);
      if o.Fail? {
        return;
      }
      o := ShareBuffer(fmt, d);
    }

    /** ensure_egl_image_and_texture, with ensure_gl_egl_image_fn inlined. */
    method EnsureImageAndTexture(d: Driver) returns (o: Outcome<Error>)
      requires Valid()
      modifies this
      ensures Valid()
      ensures State() == DmabufState.EnsureImageAndTexture(old(State()), d).0
      ensures o == DmabufState.EnsureImageAndTexture(old(State()), d).1
    {
      if gl.tex == 0 {
        gl := gl.(tex := d.genTexture);
        calls := calls + [GenTexture];
      }
      if gl.eglImg == 0 {
        gl := gl.(eglDpy := d.currentDisplay);
        if gl.eglDpy == 0 {
          return Fail(NoEglDisplay);
        }
        if !gl.imageTargetFn {
          gl := gl.(imageTargetFn := d.imageTargetProc);
          if !gl.imageTargetFn {
            return Fail(ImageTargetMissing);
          }
        }
        var desc := ImageDesc(frame.width, frame.height, frame.fourcc, fds[0], offsets[0], strides[0]);
        gl := gl.(eglImg := d.createImage(desc));
        calls := calls + [CreateImage(desc)];
        if gl.eglImg == 0 {
          return Fail(ImageImportFailed);
        }
      }
      calls := calls + [BindTexture(gl.tex), ImageTargetTexture(gl.tex, gl.eglImg)];
      o := Pass;
    }

    /** Connection, registry roundtrip and the check that both managers were announced. */
    method Discover(c: Compositor) returns (o: Outcome<Error>)
      requires Valid()
      modifies this
      ensures Valid()
      ensures State() == old(State()).(wl := DmabufState.Discover(old(State()).wl, c).0)
      ensures o == DmabufState.Discover(old(State()).wl, c).1
    {
      wl := wl.(display := c.display);
      if wl.display == 0 {
        return Fail(DisplayConnectFailed);
      }
      wl := wl.(registry := c.registry);
      Roundtrip(c.globals);
      if wl.bindings.screencopy.None? {
        return Fail(ScreencopyManagerMissing);
      }
      if wl.bindings.linuxDmabuf.None? {
        return Fail(LinuxDmabufMissing);
      }
      o := Pass;
    }

    /** wlr_dmabuf_capture_init; `outputName` is accepted and ignored. */
    method Init(outputName: Option<string>, c: Compositor, d: Driver) returns (r: Result<(int, int), Error>)
      requires Valid()
      modifies this, fds, strides, offsets
      ensures Valid()
      ensures State() == DmabufState.Init(old(State()), outputName, c, d).0
      ensures r == DmabufState.Init(old(State()), outputName, c, d).1
    {
      var o := Discover(c);
      if o.Fail? {
        return Err(o.error);
      }
      ghost var s2 := State();
      calls := calls + [CaptureOutput(wl.bindings.output)];
      o := AwaitFlag(c.probe, FormatKnown);
      if o.Fail? {
        return Err(o.error);
      }
      if frame.width <= 0 || frame.height <= 0 {
        return Err(InvalidProbeSize);
      }
      assert (State(), Pass) == DmabufState.Probe(s2, c);
      o := CreateGbmWlBuffer(d);
      if o.Fail? {
        return Err(o.error);
      }
      ghost var s5 := State();
      calls := calls + [FrameCopy(wlbuf)];
      o := AwaitFlag(c.copy, FrameDone);
      if o.Fail? {
        return Err(o.error);
      }
      calls := calls + [FrameDestroy];
      frame := frame.(frameReady := false);
      assert (State(), Pass) == DmabufState.CopyFirstFrame(s5, c);
      o := EnsureImageAndTexture(d);
      if o.Fail? {
        return Err(o.error);
      }
      r := Ok((frame.width, frame.height));
    }

    /** wlr_dmabuf_next_frame */
    method NextFrame(batches: seq<seq<FrameEvent>>) returns (r: Result<CaptureFrame, Error>)
      requires Valid()
      modifies this
      ensures Valid()
      ensures State() == DmabufState.NextFrame(old(State()), batches).0
      ensures r == DmabufState.NextFrame(old(State()), batches).1
    {
      calls := calls + [CaptureOutput(wl.bindings.output), FrameCopy(wlbuf)];
      var o := AwaitFlag(batches, FrameDone);
      if o.Fail? {
        return Err(o.error);
      }
      frame := frame.(frameReady := false);
      calls := calls + [FrameDestroy, BindTexture(gl.tex)];
      r := Ok(CaptureFrame(gl.tex, frame.width, frame.height));
    }

    /** The first releases of shutdown: the EGL image, the texture and the wl_buffer. */
    method ReleaseGl()
      modifies this
      ensures wl == old(wl) && dev == old(dev) && frame == old(frame)
      ensures modifier == old(modifier) && bo == old(bo) && nplanes == old(nplanes)
      ensures calls == old(calls) + DmabufState.GlReleases(old(gl), old(wlbuf))
      ensures gl == old(gl).(eglImg := 0, tex := 0) && wlbuf == 0
    {
      if gl.eglImg != 0 {
        calls := calls + [DestroyImage(gl.eglDpy, gl.eglImg)];
        gl := gl.(eglImg := 0);
      }
      if gl.tex != 0 {
        calls := calls + [DeleteTexture(gl.tex)];
        gl := gl.(tex := 0);
      }
      if wlbuf != 0 {
        calls := calls + [DestroyWlBuffer(wlbuf)];
        wlbuf := 0;
      }
    }

    /** The loop over the four fds slots: each held descriptor is closed and its slot set to -1. */
    method CloseFds()
      requires Valid()
      modifies this`calls, fds
      ensures calls == old(calls) + DmabufState.FdCloses(old(fds[..]))
      ensures fds[..] == DmabufState.ClearFds(old(fds[..]))
    {
      ghost var before := fds[..];
      for i := 0 to 4
        invariant fds.Length == 4
        invariant forall k :: i <= k < 4 ==> fds[k] == before[k]
        invariant forall k :: 0 <= k < i ==> fds[k] == if before[k] >= 0 then -1 else before[k]
        invariant calls == old(calls) + DmabufState.FdCloses(before[..i])
      {
        assert before[..i + 1][..i] == before[..i];
        if fds[i] >= 0 {
          calls := calls + [Close(fds[i])];
          fds[i] := -1;
        }
      }
      assert before[..4] == before;
    }

    /** The buffer object, then the GBM device. */
    method ReleaseGbm()
      modifies this
      ensures wl == old(wl) && frame == old(frame) && gl == old(gl)
      ensures modifier == old(modifier) && nplanes == old(nplanes) && wlbuf == old(wlbuf)
      ensures calls == old(calls) + DmabufState.GbmReleases(old(bo), old(dev).gbm)
      ensures bo == 0 && dev == old(dev).(gbm := 0)
    {
      if bo != 0 {
        calls := calls + [DestroyBo(bo)];
        bo := 0;
      }
      if dev.gbm != 0 {
        calls := calls + [DestroyGbmDevice(dev.gbm)];
        dev := dev.(gbm := 0);
      }
    }

    /** The three bound globals. */
    method ReleaseBindings()
      modifies this
      ensures dev == old(dev) && frame == old(frame) && gl == old(gl)
      ensures modifier == old(modifier) && bo == old(bo) && nplanes == old(nplanes) && wlbuf == old(wlbuf)
      ensures calls == old(calls) + DmabufState.BindingReleases(old(wl).bindings)
      ensures wl == old(wl).(bindings := Bindings(None, None, None))
    {
      if wl.bindings.output.Some? {
        calls := calls + [DestroyOutput(wl.bindings.output.value)];
        wl := wl.(bindings := wl.bindings.(output := None));
      }
      if wl.bindings.linuxDmabuf.Some? {
        calls := calls + [DestroyLinuxDmabuf(wl.bindings.linuxDmabuf.value)];
        wl := wl.(bindings := wl.bindings.(linuxDmabuf := None));
      }
      if wl.bindings.screencopy.Some? {
        calls := calls + [DestroyScreencopy(wl.bindings.screencopy.value)];
        wl := wl.(bindings := wl.bindings.(screencopy := None));
      }
    }

    /** The bindings, the registry, the connection, then the render node. */
    method ReleaseWayland()
      modifies this
      ensures frame == old(frame) && gl == old(gl)
      ensures modifier == old(modifier) && bo == old(bo) && nplanes == old(nplanes) && wlbuf == old(wlbuf)
      ensures calls == old(calls) + DmabufState.WaylandReleases(old(wl), old(dev).drmFd)
      ensures wl == DmabufState.Wayland(0, 0, Bindings(None, None, None))
      ensures dev == old(dev).(drmFd := if old(dev).drmFd >= 0 then -1 else old(dev).drmFd)
    {
      ReleaseBindings();
      if wl.registry != 0 {
        calls := calls + [DestroyRegistry(wl.registry)];
        wl := wl.(registry := 0);
      }
      if wl.display != 0 {
        calls := calls + [Disconnect(wl.display)];
        wl := wl.(display := 0);
      }
      if dev.drmFd >= 0 {
        calls := calls + [Close(dev.drmFd)];
        dev := dev.(drmFd := -1);
      }
      DmabufState.AppendWaylandReleases(old(calls), old(wl), old(dev).drmFd);
    }

    /** wlr_dmabuf_capture_shutdown */
    method Shutdown()
      requires Valid()
      modifies this, fds
      ensures Valid()
      ensures State() == DmabufState.Shutdown(old(State()))
    {
      ghost var s := State();
      ReleaseGl();
      CloseFds();
      ReleaseGbm();
      ReleaseWayland();
      DmabufState.AppendReleasePlan(s.calls, s);
      ghost var r := DmabufState.Shutdown(s);
      assert calls == r.calls;
      assert DmabufState.Plane(modifier, bo, nplanes, fds[..], strides[..], offsets[..], wlbuf) == r.plane;
      assert wl == r.wl && dev == r.dev && gl == r.gl && frame == r.frame;
    }
  }
}
