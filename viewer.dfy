/**
 * The viewer state of src/main.cpp: the monitor layout, the focus list `focusedmonitors`
 * (shifted by the push/pop commands and truncated before each frame), the gaze-dwell
 * counters that move a monitor to the front, and the rules that decide which quads a frame
 * draws. Geometry is floating point in the source; the hit test `isLookingAt` is an oracle
 * from thumbnail position to "the gaze ray hits it", and a drawn quad is recorded by the
 * output whose texture it samples.
 */
module Viewer {
  import opened Wrappers

  /** MyMonitor: a rectangle of the side-by-side layout and the index of the output feeding it. */
  datatype Monitor = Monitor(x: int, y: int, width: int, height: int, index: int)

  /** The fields of CapturedOutput the layout reads. */
  datatype Output = Output(width: int, height: int)

  /** An entry of focusedmonitors: nullptr, or the pointer `&monitors[k]` as `Some(k)`. */
  type Entry = Option<nat>

  /** FOCUS_HOLD_FRAMES */
  const FocusHoldFrames: int := 20

  /** The length render cuts the focus list to. */
  const MaxFocused: nat := 7

  /** A textured quad (by the output whose texture it binds) or the centre dot. */
  datatype Draw =
    | Ring(slot: int, output: int)
    | Foreground(output: int)
    | Thumbnail(slot: int, output: int)
    | CenterDot

  // ---- The focus list ----

  /** on_push: a null entry in front of the list; an empty list stays empty. */
  function Pushed(f: seq<Entry>): (r: seq<Entry>)
    ensures f == [] ==> r == []
    ensures f != [] ==> |r| == |f| + 1 && r[0] == None && forall k :: 0 <= k < |f| ==> r[k + 1] == f[k]
  {
    if f == [] then [] else [None] + f
  }

  /** on_pop: the list without its first entry; an empty list stays empty. */
  function Popped(f: seq<Entry>): (r: seq<Entry>)
    ensures |r| == if f == [] then 0 else |f| - 1
    ensures forall k :: 0 <= k < |r| ==> r[k] == f[k + 1]
  {
    if f == [] then [] else f[1..]
  }

  /** The truncation loop of render: at most the first seven entries survive. */
  function Truncated(f: seq<Entry>): (r: seq<Entry>)
    ensures |r| <= MaxFocused
    ensures r <= f
    ensures |f| <= MaxFocused ==> r == f
    ensures |f| > MaxFocused ==> |r| == MaxFocused
  {
    if |f| <= MaxFocused then f else f[..MaxFocused]
  }

  /** Popping after pushing gives back the list, whatever it was. */
  lemma PopUndoesPush(f: seq<Entry>)
    ensures Popped(Pushed(f)) == f
  {
    if f != [] {
      assert ([None] + f)[1..] == f;
    }
  }

  /** Truncating twice is truncating once. */
  lemma TruncationIsIdempotent(f: seq<Entry>)
    ensures Truncated(Truncated(f)) == Truncated(f)
  {
  }

  /** Every non-null entry points into `mons`. */
  predicate Points(f: seq<Entry>, mons: seq<Monitor>)
  {
    forall k :: 0 <= k < |f| && f[k].Some? ==> f[k].value < |mons|
  }

  /** Push, pop and truncation add only null entries, so they keep the entries pointing into the layout. */
  lemma ShiftsKeepPointers(f: seq<Entry>, mons: seq<Monitor>)
    requires Points(f, mons)
    ensures Points(Pushed(f), mons) && Points(Popped(f), mons) && Points(Truncated(f), mons)
  {
    var p := Pushed(f);
    forall k | 0 <= k < |p| && p[k].Some?
      ensures p[k].value < |mons|
    {
      assert k > 0 && p[k] == f[k - 1];
    }
    var q := Popped(f);
    forall k | 0 <= k < |q| && q[k].Some?
      ensures q[k].value < |mons|
    {
      assert q[k] == f[k + 1];
    }
  }

  // ---- The layout ----

  /** The sum of the widths of the outputs. */
  function WidthSum(outs: seq<Output>): int
  {
    if outs == [] then 0 else WidthSum(outs[..|outs| - 1]) + outs[|outs| - 1].width
  }

  /** The layout main builds: one monitor per output, placed left of it by the widths of those before. */
  function LayoutOf(outs: seq<Output>): (r: seq<Monitor>)
    ensures |r| == |outs|
  {
    seq(|outs|, i requires 0 <= i < |outs| => Monitor(WidthSum(outs[..i]), 0, outs[i].width, outs[i].height, i))
  }

  /** The first monitor is at x 0 and each next one starts where the previous one ends, all on row 0. */
  lemma LayoutIsSideBySide(outs: seq<Output>)
    ensures outs != [] ==> LayoutOf(outs)[0].x == 0
    ensures forall i :: 0 <= i < |outs| ==>
      LayoutOf(outs)[i].index == i && LayoutOf(outs)[i].y == 0 &&
      LayoutOf(outs)[i].width == outs[i].width && LayoutOf(outs)[i].height == outs[i].height
    ensures forall i :: 0 <= i < |outs| - 1 ==> LayoutOf(outs)[i + 1].x == LayoutOf(outs)[i].x + LayoutOf(outs)[i].width
  {
    var r := LayoutOf(outs);
    forall i | 0 <= i < |outs| - 1
      ensures r[i + 1].x == r[i].x + r[i].width
    {
      assert outs[..i + 1][..i] == outs[..i];
    }
  }

  /** The initial focus: the first monitor if there is one. */
  function InitialFocus(mons: seq<Monitor>): (r: seq<Entry>)
    ensures Points(r, mons)
    ensures |r| == if mons == [] then 0 else 1
    ensures mons != [] ==> r[0] == Some(0)
  {
    if mons == [] then [] else [Some(0)]
  }

  // ---- Gaze dwell ----

  /** focusIndex, focusCandidate and focusFrames. */
  datatype Dwell = Dwell(index: int, candidate: int, frames: int)

  /** No candidate and no frames counted, or a candidate held for fewer than FOCUS_HOLD_FRAMES frames. */
  predicate DwellValid(d: Dwell)
  {
    (d.candidate == -1 && d.frames == 0) || (d.candidate >= 0 && 0 < d.frames < FocusHoldFrames)
  }

  /** The gaze-selection block for thumbnail `i` when the gaze ray hits it. */
  function Look(d: Dwell, f: seq<Entry>, i: nat): (r: (Dwell, seq<Entry>))
    ensures r.0.candidate == -1 || r.0.candidate == i
    ensures r.0.candidate == i ==> r.1 == f && r.0.index == d.index
    ensures r.0.candidate == -1 ==> r.0 == Dwell(i, -1, 0) && r.1 != [] && r.1[0] == Some(i)
    ensures |r.1| == if f == [] && r.0.candidate == -1 then 1 else |f|
  {
    if d.candidate == i then
      if d.frames + 1 >= FocusHoldFrames then
        (Dwell(i, -1, 0), if |f| == 0 then [Some(i)] else f[0 := Some(i)])
      else
        (d.(frames := d.frames + 1), f)
    else
      (d.(candidate := i, frames := 1), f)
  }

  /**
   * A look commits exactly when it is the FOCUS_HOLD_FRAMES-th consecutive look at the candidate:
   * the thumbnail becomes the focus index and the front of the list, and the counters are reset.
   * Otherwise the list and the focus index are untouched.
   */
  lemma LookCommitsOnHold(d: Dwell, f: seq<Entry>, i: nat)
    requires DwellValid(d)
    ensures DwellValid(Look(d, f, i).0)
    ensures Look(d, f, i).0.candidate == -1 <==> d.candidate == i && d.frames == FocusHoldFrames - 1
    ensures Look(d, f, i).0.candidate == -1 ==>
      Look(d, f, i).0 == Dwell(i, -1, 0) &&
      |Look(d, f, i).1| == (if f == [] then 1 else |f|) &&
      Look(d, f, i).1[0] == Some(i) && Look(d, f, i).1[1..] == Popped(f)
    ensures Look(d, f, i).0.candidate != -1 ==>
      Look(d, f, i).1 == f && Look(d, f, i).0.index == d.index && Look(d, f, i).0.candidate == i &&
      Look(d, f, i).0.frames == (if d.candidate == i then d.frames + 1 else 1)
  {
  }

  /** `k` consecutive looks at thumbnail `i`. */
  function LookRepeatedly(d: Dwell, f: seq<Entry>, i: nat, k: nat): (Dwell, seq<Entry>)
  {
    if k == 0 then (d, f) else
      var r := LookRepeatedly(d, f, i, k - 1);
      Look(r.0, r.1, i)
  }

  /**
   * Starting from a state whose candidate is another thumbnail (or none), fewer than
   * FOCUS_HOLD_FRAMES looks at `i` only count, and the FOCUS_HOLD_FRAMES-th commits `i`.
   */
  lemma {:induction false} HoldingGazeCommits(d: Dwell, f: seq<Entry>, i: nat, k: nat)
    requires DwellValid(d) && d.candidate != i
    requires 0 < k <= FocusHoldFrames
    ensures k < FocusHoldFrames ==> LookRepeatedly(d, f, i, k) == (Dwell(d.index, i, k), f)
    ensures k == FocusHoldFrames ==> LookRepeatedly(d, f, i, k).0 == Dwell(i, -1, 0)
    ensures k == FocusHoldFrames ==> LookRepeatedly(d, f, i, k).1[0] == Some(i)
  {
    if k > 1 {
      HoldingGazeCommits(d, f, i, k - 1);
    }
  }

  // ---- What a frame draws ----

  predicate InRange(idx: int, outs: nat)
  {
    0 <= idx < outs
  }

  /** The ring loop: position i draws entry i + 1 unless it is null or its output index is out of range. */
  function RingDraws(f: seq<Entry>, mons: seq<Monitor>, outs: nat, k: nat): (r: seq<Draw>)
    requires Points(f, mons) && k < |f|
    ensures |r| <= k
    ensures forall x :: x in r ==> x.Ring? && 0 <= x.slot < k && InRange(x.output, outs)
    ensures forall x :: x in r ==> f[x.slot + 1].Some? && mons[f[x.slot + 1].value].index == x.output
    ensures forall j :: 1 <= j <= k && f[j].Some? && InRange(mons[f[j].value].index, outs) ==>
      Ring(j - 1, mons[f[j].value].index) in r
  {
    if k == 0 then []
    else
      RingDraws(f, mons, outs, k - 1) +
      (if f[k].Some? && InRange(mons[f[k].value].index, outs) then [Ring(k - 1, mons[f[k].value].index)] else [])
  }

  /** The foreground monitor: entry 0 unless the list is empty, it is null or its output index is out of range. */
  function ForegroundDraws(f: seq<Entry>, mons: seq<Monitor>, outs: nat): (r: seq<Draw>)
    requires Points(f, mons)
    ensures |r| <= 1
    ensures forall x :: x in r ==>
      x.Foreground? && InRange(x.output, outs) && f != [] && f[0].Some? && mons[f[0].value].index == x.output
    ensures f != [] && f[0].Some? && InRange(mons[f[0].value].index, outs) ==> r == [Foreground(mons[f[0].value].index)]
    ensures r == [] <==> !(f != [] && f[0].Some? && InRange(mons[f[0].value].index, outs))
  {
    if f != [] && f[0].Some? && InRange(mons[f[0].value].index, outs) then [Foreground(mons[f[0].value].index)] else []
  }

  /** One step of the thumbnails row: thumbnail `i` after the state reached by those before it. */
  function Next(mons: seq<Monitor>, outs: nat, looking: nat -> bool, prev: (Dwell, seq<Entry>, seq<Draw>), i: nat)
    : (Dwell, seq<Entry>, seq<Draw>)
    requires i < |mons|
  {
    if !InRange(mons[i].index, outs) then prev
    else
      var draws := prev.2 + [Thumbnail(i, mons[i].index)];
      if looking(i) then
        var l := Look(prev.0, prev.1, i);
        (l.0, l.1, draws)
      else
        (prev.0, prev.1, draws)
  }

  /**
   * The thumbnails row over the first `k` monitors: each one with an output index in range is
   * drawn, and then, if the gaze hits it, runs the gaze-selection block.
   */
  function Thumbnails(mons: seq<Monitor>, outs: nat, looking: nat -> bool, d: Dwell, f: seq<Entry>, k: nat)
    : (r: (Dwell, seq<Entry>, seq<Draw>))
    requires k <= |mons|
    ensures forall x :: x in r.2 ==> x.Thumbnail? && 0 <= x.slot < k && InRange(x.output, outs) && mons[x.slot].index == x.output
    ensures forall i :: 0 <= i < k && InRange(mons[i].index, outs) ==> Thumbnail(i, mons[i].index) in r.2
    ensures |r.2| <= k
    ensures |r.1| == |f| || (f == [] && |r.1| == 1)
    ensures DwellValid(d) ==> DwellValid(r.0)
    ensures Points(f, mons) ==> Points(r.1, mons)
  {
    if k == 0 then (d, f, []) else Next(mons, outs, looking, Thumbnails(mons, outs, looking, d, f, k - 1), k - 1)
  }

  /** The ring of the whole list. */
  function RingOf(f: seq<Entry>, mons: seq<Monitor>, outs: nat): seq<Draw>
    requires Points(f, mons)
  {
    if f == [] then [] else RingDraws(f, mons, outs, |f| - 1)
  }

  /**
   * One call of render: the dwell counters, the focus list and the quads drawn, from the layout,
   * the list, the counters and the centre-dot flag before it.
   */
  function RenderFrame(mons: seq<Monitor>, f0: seq<Entry>, d: Dwell, dot: bool, outs: nat, looking: nat -> bool)
    : (r: (Dwell, seq<Entry>, seq<Draw>))
    requires Points(f0, mons)
    ensures CenterDot in r.2 <==> dot
    ensures dot ==> r.2[|r.2| - 1] == CenterDot
    ensures |r.1| <= MaxFocused
    ensures Points(r.1, mons)
  {
    ShiftsKeepPointers(f0, mons);
    var f := Truncated(f0);
    var t := Thumbnails(mons, outs, looking, d, f, |mons|);
    (t.0, t.1, RingOf(f, mons, outs) + ForegroundDraws(f, mons, outs) + t.2 + (if dot then [CenterDot] else []))
  }

  /** The ring loop runs over positions 0 .. |f| - 2. */
  function RingCount(f: seq<Entry>): nat
  {
    if f == [] then 0 else |f| - 1
  }

  // ---- The viewer's globals ----

  /** The statics of src/main.cpp that the model keeps: the layout, the focus list, the dot flag and the dwell counters. */
  class ViewerState {
    var monitors: seq<Monitor>
    var focused: seq<Entry>
    var centerDot: bool
    var focusIndex: int
    var focusCandidate: int
    var focusFrames: int

    /** Every pointer in the focus list points into the layout, and the dwell counters are consistent. */
    predicate Valid()
      reads this
    {
      Points(focused, monitors) && DwellValid(Dwell(focusIndex, focusCandidate, focusFrames))
    }

    /** The static initialisers. */
    constructor ()
      ensures Valid()
      ensures monitors == [] && focused == [] && centerDot
      ensures focusIndex == 0 && focusCandidate == -1 && focusFrames == 0
    {
      monitors, focused, centerDot := [], [], true;
      focusIndex, focusCandidate, focusFrames := 0, -1, 0;
    }

    /** on_push: walk from the back, appending the last entry and moving every other one up; then null the front. */
    method OnPush()
      requires Valid()
      modifies this
      ensures Valid()
      ensures focused == Pushed(old(focused))
      ensures monitors == old(monitors) && centerDot == old(centerDot)
      ensures focusIndex == old(focusIndex) && focusCandidate == old(focusCandidate) && focusFrames == old(focusFrames)
    {
      ghost var f := focused;
      var n := |focused|;
      var i := n - 1;
      while i >= 0
        invariant -1 <= i < n
        invariant |focused| == if i == n - 1 then n else n + 1
        invariant forall k :: 0 <= k <= i + 1 && k < n ==> focused[k] == f[k]
        invariant forall k :: i + 1 < k < |focused| ==> focused[k] == f[k - 1]
        invariant monitors == old(monitors) && centerDot == old(centerDot)
        invariant focusIndex == old(focusIndex) && focusCandidate == old(focusCandidate) && focusFrames == old(focusFrames)
      {
        if i == |focused| - 1 {
          focused := focused + [focused[i]];
        } else {
          focused := focused[i + 1 := focused[i]];
        }
        i := i - 1;
      }
      if focused != [] {
        focused := focused[0 := None];
      }
      assert focused == Pushed(f) by {
        if f != [] {
          assert forall k :: 0 <= k < |focused| ==> focused[k] == Pushed(f)[k];
        }
      }
      ShiftsKeepPointers(f, monitors);
    }

    /** on_pop: every entry takes its successor's value (the last becomes null), then the last is dropped. */
    method OnPop()
      requires Valid()
      modifies this
      ensures Valid()
      ensures focused == Popped(old(focused))
      ensures monitors == old(monitors) && centerDot == old(centerDot)
      ensures focusIndex == old(focusIndex) && focusCandidate == old(focusCandidate) && focusFrames == old(focusFrames)
    {
      ghost var f := focused;
      var i := 0;
      while i < |focused|
        invariant 0 <= i <= |focused| == |f|
        invariant forall k :: 0 <= k < i ==> focused[k] == if k + 1 < |f| then f[k + 1] else None
        invariant forall k :: i <= k < |f| ==> focused[k] == f[k]
        invariant monitors == old(monitors) && centerDot == old(centerDot)
        invariant focusIndex == old(focusIndex) && focusCandidate == old(focusCandidate) && focusFrames == old(focusFrames)
      {
        focused := focused[i := if i + 1 < |focused| then focused[i + 1] else None];
        i := i + 1;
      }
      if focused != [] {
        focused := focused[..|focused| - 1];
      }
      assert focused == Popped(f);
      ShiftsKeepPointers(f, monitors);
    }

    /** on_toggle_center_dot */
    method ToggleCenterDot()
      requires Valid()
      modifies this
      ensures Valid()
      ensures centerDot == !old(centerDot)
      ensures monitors == old(monitors) && focused == old(focused)
      ensures focusIndex == old(focusIndex) && focusCandidate == old(focusCandidate) && focusFrames == old(focusFrames)
    {
      centerDot := !centerDot;
    }

    /** The layout loop of main: `monitors` rebuilt from the outputs with a running x. */
    method LayOut(outs: seq<Output>)
      modifies this
      ensures monitors == LayoutOf(outs)
      ensures focused == old(focused) && centerDot == old(centerDot)
      ensures focusIndex == old(focusIndex) && focusCandidate == old(focusCandidate) && focusFrames == old(focusFrames)
    {
      monitors := [];
      var curX := 0;
      for i := 0 to |outs|
        invariant monitors == LayoutOf(outs[..i])
        invariant curX == WidthSum(outs[..i])
        invariant focused == old(focused) && centerDot == old(centerDot)
        invariant focusIndex == old(focusIndex) && focusCandidate == old(focusCandidate) && focusFrames == old(focusFrames)
      {
        assert outs[..i + 1][..i] == outs[..i];
        var m := Monitor(curX, 0, outs[i].width, outs[i].height, i);
        monitors := monitors + [m];
        curX := curX + m.width;
        assert forall k :: 0 <= k < i ==> outs[..i + 1][..k] == outs[..i][..k];
      }
      assert outs[..|outs|] == outs;
    }

    /** The layout, then the initial focus. */
    method Arrange(outs: seq<Output>)
      requires Valid()
      modifies this
      ensures Valid()
      ensures monitors == LayoutOf(outs) && focused == InitialFocus(LayoutOf(outs))
      ensures centerDot == old(centerDot)
      ensures focusIndex == old(focusIndex) && focusCandidate == old(focusCandidate) && focusFrames == old(focusFrames)
    {
      LayOut(outs);
      focused := [];
      if monitors != [] {
        focused := focused + [Some(0)];
      }
    }

    /** The truncation loop at the top of render. */
    method Truncate()
      requires Valid()
      modifies this
      ensures Valid()
      ensures focused == Truncated(old(focused))
      ensures monitors == old(monitors) && centerDot == old(centerDot)
      ensures focusIndex == old(focusIndex) && focusCandidate == old(focusCandidate) && focusFrames == old(focusFrames)
    {
      ghost var f := focused;
      while |focused| > MaxFocused
        invariant focused <= f
        invariant |f| > MaxFocused ==> |focused| >= MaxFocused
        invariant |f| <= MaxFocused ==> focused == f
        invariant monitors == old(monitors) && centerDot == old(centerDot)
        invariant focusIndex == old(focusIndex) && focusCandidate == old(focusCandidate) && focusFrames == old(focusFrames)
        decreases |focused|
      {
        focused := focused[..|focused| - 1];
      }
      ShiftsKeepPointers(f, monitors);
    }

    /** The ring loop: the background monitors, in list order after the front. */
    method DrawRing(outs: nat) returns (r: seq<Draw>)
      requires Valid()
      ensures r == RingOf(focused, monitors, outs)
    {
      r := [];
      var i := 0;
      while i < |focused| - 1
        invariant 0 <= i <= RingCount(focused)
        invariant focused != [] ==> r == RingDraws(focused, monitors, outs, i)
        invariant focused == [] ==> r == []
      {
        var m := focused[i + 1];
        i := i + 1;
        if m.None? {
          continue;
        }
        var idx := monitors[m.value].index;
        if idx < 0 || idx >= outs {
          continue;
        }
        r := r + [Ring(i - 1, idx)];
      }
    }

    /** The gaze-selection block for thumbnail `i`, run when the gaze ray hits it. */
    method Gaze(i: nat)
      modifies this
      ensures (Dwell(focusIndex, focusCandidate, focusFrames), focused) ==
        Look(Dwell(old(focusIndex), old(focusCandidate), old(focusFrames)), old(focused), i)
      ensures monitors == old(monitors) && centerDot == old(centerDot)
    {
      if focusCandidate == i {
        focusFrames := focusFrames + 1;
        if focusFrames >= FocusHoldFrames {
          focusIndex := i;
          focusCandidate := -1;
          focusFrames := 0;
          if |focused| == 0 {
            focused := focused + [Some(i)];
            assert focused == [Some(i)];
          } else {
            focused := focused[0 := Some(i)];
          }
        }
      } else {
        focusCandidate := i;
        focusFrames := 1;
      }
    }

    /** The thumbnails row with the gaze selection; `looking(i)` is the hit test of thumbnail i. */
    method DrawThumbnails(outs: nat, looking: nat -> bool) returns (r: seq<Draw>)
      requires Valid()
      modifies this
      ensures Valid()
      ensures
        var t := Thumbnails(old(monitors), outs, looking, Dwell(old(focusIndex), old(focusCandidate), old(focusFrames)),
          old(focused), |old(monitors)|);
        Dwell(focusIndex, focusCandidate, focusFrames) == t.0 && focused == t.1 && r == t.2
      ensures monitors == old(monitors) && centerDot == old(centerDot)
    {
      ghost var d0, f0 := Dwell(focusIndex, focusCandidate, focusFrames), focused;
      r := [];
      for i := 0 to |monitors|
        invariant monitors == old(monitors) && centerDot == old(centerDot)
        invariant (Dwell(focusIndex, focusCandidate, focusFrames), focused, r) == Thumbnails(monitors, outs, looking, d0, f0, i)
      {
        var idx := monitors[i].index;
        if idx < 0 || idx >= outs {
          continue;
        }
        r := r + [Thumbnail(i, idx)];
        if looking(i) {
          Gaze(i);
        }
      }
    }

    /**
     * render, less its floating-point geometry: truncate the list, draw the ring, the foreground
     * monitor and the thumbnails (running the gaze selection), then the centre dot if enabled.
     */
    method Render(outs: nat, looking: nat -> bool) returns (r: seq<Draw>)
      requires Valid()
      modifies this
      ensures Valid()
      ensures (Dwell(focusIndex, focusCandidate, focusFrames), focused, r) ==
        RenderFrame(old(monitors), old(focused), Dwell(old(focusIndex), old(focusCandidate), old(focusFrames)), old(centerDot),
          outs, looking)
      ensures monitors == old(monitors) && centerDot == old(centerDot)
    {
      ghost var mons, d := monitors, Dwell(focusIndex, focusCandidate, focusFrames);
      Truncate();
      ghost var f := focused;
      var ring := DrawRing(outs);
      var front := [];
      if focused != [] && focused[0].Some? {
        var idx := monitors[focused[0].value].index;
        if idx >= 0 && idx < outs {
          front := [Foreground(idx)];
        }
      }
      assert front == ForegroundDraws(f, mons, outs);
      var thumbs := DrawThumbnails(outs, looking);
      ghost var t := Thumbnails(mons, outs, looking, d, f, |mons|);
      assert (Dwell(focusIndex, focusCandidate, focusFrames), focused, thumbs) == t;
      r := ring + front + thumbs;
      if centerDot {
        r := r + [CenterDot];
      }
      assert f == Truncated(old(focused));
      assert ring == RingOf(f, mons, outs);
      assert r == RingOf(f, mons, outs) + ForegroundDraws(f, mons, outs) + t.2 + (if old(centerDot) then [CenterDot] else []);
    }
  }

  /**
   * Every quad of a frame samples an existing output; the ring and foreground quads come from
   * non-null entries of the truncated focus list, the thumbnails from monitors of the layout,
   * and the centre dot is drawn only when enabled.
   */
  lemma FrameDrawsAreSafe(mons: seq<Monitor>, f0: seq<Entry>, d: Dwell, dot: bool, outs: nat, looking: nat -> bool, x: Draw)
    requires Points(f0, mons)
    requires x in RenderFrame(mons, f0, d, dot, outs, looking).2
    ensures x.CenterDot? ==> dot
    ensures !x.CenterDot? ==> InRange(x.output, outs)
    ensures x.Ring? ==> 0 <= x.slot && x.slot + 1 < |Truncated(f0)| && Truncated(f0)[x.slot + 1].Some?
    ensures x.Foreground? ==> Truncated(f0) != [] && Truncated(f0)[0].Some?
    ensures x.Thumbnail? ==> 0 <= x.slot < |mons| && mons[x.slot].index == x.output
  {
    ShiftsKeepPointers(f0, mons);
  }

  /** A frame keeps the focus list pointing into the layout and the dwell counters consistent. */
  lemma RenderFrameIsValid(mons: seq<Monitor>, f0: seq<Entry>, d: Dwell, dot: bool, outs: nat, looking: nat -> bool)
    requires Points(f0, mons) && DwellValid(d)
    ensures Points(RenderFrame(mons, f0, d, dot, outs, looking).1, mons)
    ensures DwellValid(RenderFrame(mons, f0, d, dot, outs, looking).0)
    ensures |RenderFrame(mons, f0, d, dot, outs, looking).1| <= MaxFocused
  {
    ShiftsKeepPointers(f0, mons);
  }
}
