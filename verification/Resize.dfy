/** Interactive resizing of a toplevel (grabs.rs and xdg_shell.rs). */
module Resize {
  import opened Common

  // Edges

  type ResizeEdge = bv4

  const NONE: ResizeEdge := 0
  const TOP: ResizeEdge := 1
  const BOTTOM: ResizeEdge := 2
  const LEFT: ResizeEdge := 4
  const TOP_LEFT: ResizeEdge := 5
  const BOTTOM_LEFT: ResizeEdge := 6
  const RIGHT: ResizeEdge := 8
  const TOP_RIGHT: ResizeEdge := 9
  const BOTTOM_RIGHT: ResizeEdge := 10

  /** The edges of the xdg-shell protocol. */
  datatype XdgEdge =
    XdgNone | XdgTop | XdgBottom | XdgLeft | XdgTopLeft | XdgBottomLeft | XdgRight | XdgTopRight | XdgBottomRight

  predicate Intersects(a: ResizeEdge, b: ResizeEdge) { a & b != 0 }

  function FromXdg(e: XdgEdge): ResizeEdge {
    match e
    case XdgNone => NONE
    case XdgTop => TOP
    case XdgBottom => BOTTOM
    case XdgLeft => LEFT
    case XdgTopLeft => TOP_LEFT
    case XdgBottomLeft => BOTTOM_LEFT
    case XdgRight => RIGHT
    case XdgTopRight => TOP_RIGHT
    case XdgBottomRight => BOTTOM_RIGHT
  }

  function ToXdg(e: ResizeEdge): XdgEdge {
    if e == TOP then XdgTop
    else if e == BOTTOM then XdgBottom
    else if e == LEFT then XdgLeft
    else if e == TOP_LEFT then XdgTopLeft
    else if e == BOTTOM_LEFT then XdgBottomLeft
    else if e == RIGHT then XdgRight
    else if e == TOP_RIGHT then XdgTopRight
    else if e == BOTTOM_RIGHT then XdgBottomRight
    else XdgNone
  }

  /** Edges survive the round trip unless they combine opposite sides; what the protocol can name has at
      most one side per axis. */
  lemma EdgesRoundTrip(x: XdgEdge, e: ResizeEdge)
    ensures ToXdg(FromXdg(x)) == x
    ensures FromXdg(ToXdg(e)) == e <==> e & (LEFT | RIGHT) != LEFT | RIGHT && e & (TOP | BOTTOM) != TOP | BOTTOM
  {
    assert FromXdg(ToXdg(e)) == e <==> e != 3 && e != 7 && e < 11;
  }

  /** Each protocol edge has the sides in its name, and no other. */
  lemma EdgesHaveTheirSides(x: XdgEdge)
    ensures Intersects(FromXdg(x), LEFT) <==> x in {XdgLeft, XdgTopLeft, XdgBottomLeft}
    ensures Intersects(FromXdg(x), RIGHT) <==> x in {XdgRight, XdgTopRight, XdgBottomRight}
    ensures Intersects(FromXdg(x), TOP) <==> x in {XdgTop, XdgTopLeft, XdgTopRight}
    ensures Intersects(FromXdg(x), BOTTOM) <==> x in {XdgBottom, XdgBottomLeft, XdgBottomRight}
  {
  }

  // Sizes requested while dragging

  const I32_MAX := 0x7fff_ffff

  datatype ResizeData = ResizeData(edges: ResizeEdge, location: Point<int>, size: Size)

  function Dragged(initial: int, delta: real, low: bool, high: bool): int {
    if low then Truncate(initial as real - delta) else if high then Truncate(initial as real + delta) else initial
  }

  function Lower(min: int): int { Max(min, 1) }

  function Upper(max: int): int { if max == 0 then I32_MAX else max }

  /** Clamping between bounds in the wrong order is an error. */
  function ClampInt(v: int, low: int, high: int): Option<int> {
    if low > high then None else Some(if v < low then low else if v > high then high else v)
  }

  function RequestedSize(data: ResizeData, delta: Point<real>, min: Size, max: Size): Option<Size> {
    var w := ClampInt(Dragged(data.size.w, delta.x, Intersects(data.edges, LEFT), Intersects(data.edges, RIGHT)),
                      Lower(min.w), Upper(max.w));
    var h := ClampInt(Dragged(data.size.h, delta.y, Intersects(data.edges, TOP), Intersects(data.edges, BOTTOM)),
                      Lower(min.h), Upper(max.h));
    if w.Some? && h.Some? then Some(Size(w.value, h.value)) else None
  }

  /** Every requested size is at least one pixel and within the client's limits, and a request fails only
      when these are the wrong way round. */
  lemma RequestsAreWithinLimits(data: ResizeData, delta: Point<real>, min: Size, max: Size)
    ensures var r := RequestedSize(data, delta, min, max);
            && (r.None? <==> Lower(min.w) > Upper(max.w) || Lower(min.h) > Upper(max.h))
            && (r.Some? ==>
                  && 1 <= r.value.w && min.w <= r.value.w <= Upper(max.w)
                  && 1 <= r.value.h && min.h <= r.value.h <= Upper(max.h))
  {
  }

  predicate Within(v: int, low: int, high: int) { Lower(low) <= v <= Upper(high) }

  /** A length is within the limits if it is at least one pixel, at least the minimum, and at most the maximum,
      or at most the largest integer if the maximum is zero. */
  lemma LimitsMean(v: int, min: int, max: int)
    ensures Within(v, min, max) <==> 1 <= v && min <= v && (if max == 0 then v < 0x8000_0000 else v <= max)
  {
  }

  /** Of all lengths within the limits the one asked for is nearest to the dragged one. */
  lemma RequestsAreNearest(data: ResizeData, delta: Point<real>, min: Size, max: Size, other: Size)
    requires RequestedSize(data, delta, min, max).Some?
    ensures var r := RequestedSize(data, delta, min, max).value;
            var w := Dragged(data.size.w, delta.x, Intersects(data.edges, LEFT), Intersects(data.edges, RIGHT));
            var h := Dragged(data.size.h, delta.y, Intersects(data.edges, TOP), Intersects(data.edges, BOTTOM));
            && Within(r.w, min.w, max.w) && Within(r.h, min.h, max.h)
            && (Within(other.w, min.w, max.w) ==> Abs(r.w - w) <= Abs(other.w - w))
            && (Within(other.h, min.h, max.h) ==> Abs(r.h - h) <= Abs(other.h - h))
  {
  }

  /** `v` is `r` without its fraction, or with it rounded away: less than a pixel off, and exact for whole
      pixels. */
  predicate Follows(v: int, r: real) {
    -1.0 < v as real - r < 1.0 && (r.Floor as real == r ==> v as real == r)
  }

  /** Where the left and right edges, or the upper and lower ones, should be after a drag by `d`. */
  predicate EdgesFollow(at: int, length: int, initialAt: int, initialLength: int, d: real, low: bool, high: bool) {
    if low then at + length == initialAt + initialLength && Follows(at, initialAt as real + d)
    else if high then at == initialAt && Follows(at + length, (initialAt + initialLength) as real + d)
    else at == initialAt && length == initialLength
  }

  /** Within the limits the dragged edges follow the pointer and the others stay: once the client takes the
      size asked for in a drag, each edge of the anchored window is where it was, or within a pixel of where the
      pointer has dragged it. (The left and upper edges take precedence over their opposites.) */
  lemma DraggedEdgesFollowPointer(data: ResizeData, delta: Point<real>, min: Size, max: Size)
    requires Lower(min.w) <= Upper(max.w) && Lower(min.h) <= Upper(max.h)
    ensures var r := RequestedSize(data, delta, min, max);
            && r.Some?
            && var at := AnchoredLocation(data, data.location, r.value);
               var left, right := Intersects(data.edges, LEFT), Intersects(data.edges, RIGHT);
               var top, bottom := Intersects(data.edges, TOP), Intersects(data.edges, BOTTOM);
               && (Within(Dragged(data.size.w, delta.x, left, right), min.w, max.w) ==>
                     EdgesFollow(at.x, r.value.w, data.location.x, data.size.w, delta.x, left, right))
               && (Within(Dragged(data.size.h, delta.y, top, bottom), min.h, max.h) ==>
                     EdgesFollow(at.y, r.value.h, data.location.y, data.size.h, delta.y, top, bottom))
  {
    TruncateFollows(data.size.w, delta.x, data.location.x);
    TruncateFollows(data.size.h, delta.y, data.location.y);
  }

  lemma TruncateFollows(length: int, d: real, at: int)
    ensures Follows(at + (length - Truncate(length as real - d)), at as real + d)
    ensures Follows(at + Truncate(length as real + d), (at + length) as real + d)
  {
    TruncateIsNear(length as real - d);
    TruncateIsNear(length as real + d);
    WholeSum(at, d, at as real + d);
    WholeSum(length, -d, length as real - d);
    WholeSum(at + length, d, (at + length) as real + d);
    WholeSum(length, d, length as real + d);
    if d.Floor as real == d { assert (-d).Floor == -d.Floor; }
  }

  lemma WholeSum(a: int, d: real, sum: real)
    requires sum == a as real + d
    ensures sum.Floor as real == sum <==> d.Floor as real == d
  {
    assert sum.Floor == a + d.Floor;
  }

  lemma TruncateIsNear(r: real)
    ensures -1.0 < Truncate(r) as real - r < 1.0
    ensures r.Floor as real == r ==> Truncate(r) as real == r
  {
  }

  // The resize state of the surface

  datatype ResizeState =
    | NotResizing
    | Resizing(data: ResizeData)
    | WaitingForFinalAck(data: ResizeData, serial: nat)
    | WaitingForCommit(data: ResizeData)

  /** `grab` is what the pointer grab remembers while a button is down. */
  datatype Window = Window(
    location: Point<int>, size: Size, state: ResizeState, grab: Option<ResizeData>, requested: seq<Size>)

  /** Where a window of the given size belongs so that the edges opposite to the dragged ones stay. */
  function AnchoredLocation(data: ResizeData, location: Point<int>, size: Size): Point<int> {
    Point(if Intersects(data.edges, LEFT) then data.location.x + (data.size.w - size.w) else location.x,
          if Intersects(data.edges, TOP) then data.location.y + (data.size.h - size.h) else location.y)
  }

  datatype Event =
    | ResizeRequest(edges: ResizeEdge)
    | Motion(delta: Point<real>, min: Size, max: Size)
    | Release
    | Commit(size: Size)
    | AckConfigure(serial: nat, wasResizing: bool)
    | Moved(location: Point<int>)

  function Next(w: Window, e: Event): Window {
    match e
    case ResizeRequest(edges) =>
      var data := ResizeData(edges, w.location, w.size);
      w.(state := Resizing(data), grab := Some(data))
    case Motion(delta, min, max) =>
      w.(requested := Append(w.requested, if w.grab.Some? then RequestedSize(w.grab.value, delta, min, max) else None))
    case Release => w.(grab := None)
    case Commit(size) =>
      var w' := w.(size := size);
      if w.state.Resizing? then w'.(location := AnchoredLocation(w.state.data, w.location, size))
      else if w.state.WaitingForCommit? then w'.(state := NotResizing)
      else w'
    case AckConfigure(serial, wasResizing) =>
      if w.state.WaitingForFinalAck? && serial >= w.state.serial && wasResizing then
        w.(state := WaitingForCommit(w.state.data))
      else
        w
    case Moved(location) => w.(location := location)
  }

  function Run(w: Window, run: seq<Event>): Window
    decreases |run|
  {
    if run == [] then w else Run(Next(w, run[0]), run[1..])
  }

  class ToplevelResize {
    var location: Point<int>
    var size: Size
    var resizeState: ResizeState
    var grab: Option<ResizeData>
    var requested: seq<Size>

    ghost function View(): Window
      reads this
    {
      Window(location, size, resizeState, grab, requested)
    }

    constructor (at: Point<int>, s: Size)
      ensures View() == Window(at, s, NotResizing, None, [])
    {
      location, size, resizeState, grab, requested := at, s, NotResizing, None, [];
    }

    method OnResizeRequest(edges: ResizeEdge)
      modifies this
      ensures View() == Next(old(View()), ResizeRequest(edges))
    {
      resizeState := Resizing(ResizeData(edges, location, size));
      grab := Some(ResizeData(edges, location, size));
    }

    /** A motion with limits the wrong way round is an error of the client. */
    method OnMotion(delta: Point<real>, min: Size, max: Size) returns (ok: bool)
      modifies this
      ensures View() == Next(old(View()), Motion(delta, min, max))
      ensures ok <==> old(grab).None? || (Lower(min.w) <= Upper(max.w) && Lower(min.h) <= Upper(max.h))
    {
      if grab.None? { return true; }
      var dx, dy := delta.x, delta.y;
      var newWidth, newHeight := grab.value.size.w, grab.value.size.h;
      if Intersects(grab.value.edges, LEFT) || Intersects(grab.value.edges, RIGHT) {
        if Intersects(grab.value.edges, LEFT) { dx := -dx; }
        newWidth := Truncate(newWidth as real + dx);
      }
      if Intersects(grab.value.edges, TOP) || Intersects(grab.value.edges, BOTTOM) {
        if Intersects(grab.value.edges, TOP) { dy := -dy; }
        newHeight := Truncate(newHeight as real + dy);
      }
      assert newWidth == Dragged(grab.value.size.w, delta.x, Intersects(grab.value.edges, LEFT),
                                 Intersects(grab.value.edges, RIGHT));
      assert newHeight == Dragged(grab.value.size.h, delta.y, Intersects(grab.value.edges, TOP),
                                  Intersects(grab.value.edges, BOTTOM));
      var minWidth, minHeight := Max(min.w, 1), Max(min.h, 1);
      var maxWidth := if max.w == 0 then I32_MAX else max.w;
      var maxHeight := if max.h == 0 then I32_MAX else max.h;
      var w, h := ClampInt(newWidth, minWidth, maxWidth), ClampInt(newHeight, minHeight, maxHeight);
      if w.None? || h.None? { return false; }
      requested := requested + [Size(w.value, h.value)];
      return true;
    }

    method OnRelease()
      modifies this
      ensures View() == Next(old(View()), Release)
    {
      grab := None;
    }

    method OnCommit(newSize: Size)
      modifies this
      ensures View() == Next(old(View()), Commit(newSize))
    {
      size := newSize;
      if resizeState.WaitingForCommit? { resizeState := NotResizing; }
      if resizeState.Resizing? {
        var data := resizeState.data;
        var newX, newY := None, None;
        if Intersects(data.edges, LEFT) { newX := Some(data.location.x + (data.size.w - size.w)); }
        if Intersects(data.edges, TOP) { newY := Some(data.location.y + (data.size.h - size.h)); }
        if newX.Some? { location := location.(x := newX.value); }
        if newY.Some? { location := location.(y := newY.value); }
      }
    }

    method OnAckConfigure(serial: nat, wasResizing: bool)
      modifies this
      ensures View() == Next(old(View()), AckConfigure(serial, wasResizing))
    {
      if resizeState.WaitingForFinalAck? {
        if serial >= resizeState.serial && wasResizing {
          resizeState := WaitingForCommit(resizeState.data);
        }
      }
    }
  }

  // Properties of runs

  /** The sides opposite to the dragged edges are where they were when the resize began, and axes that are
      not dragged from above or the left keep their coordinate. */
  predicate Anchored(w: Window, data: ResizeData) {
    && (if Intersects(data.edges, LEFT) then w.location.x + w.size.w == data.location.x + data.size.w
        else w.location.x == data.location.x)
    && (if Intersects(data.edges, TOP) then w.location.y + w.size.h == data.location.y + data.size.h
        else w.location.y == data.location.y)
  }

  /** From a resize request on, whatever sizes the client commits, the window stays anchored, as long as
      nothing else moves it and no new resize begins. The resize state is never left, also not when the
      button is released. */
  lemma {:induction false} ResizeKeepsAnchor(w: Window, data: ResizeData, run: seq<Event>)
    requires w.state == Resizing(data) && Anchored(w, data)
    requires forall e :: e in run ==> !e.ResizeRequest? && !e.Moved?
    ensures Run(w, run).state == Resizing(data) && Anchored(Run(w, run), data)
    decreases |run|
  {
    if run != [] {
      assert run[0] in run;
      ResizeKeepsAnchor(Next(w, run[0]), data, run[1..]);
    }
  }

  lemma ResizeBeginsAnchored(w: Window, edges: ResizeEdge, run: seq<Event>)
    requires forall e :: e in run ==> !e.ResizeRequest? && !e.Moved?
    ensures Anchored(Run(Next(w, ResizeRequest(edges)), run), ResizeData(edges, w.location, w.size))
  {
    ResizeKeepsAnchor(Next(w, ResizeRequest(edges)), ResizeData(edges, w.location, w.size), run);
  }

  predicate NeverAwaitsAck(w: Window) { w.state.NotResizing? || w.state.Resizing? }

  lemma {:induction false} RunSplits(w: Window, run: seq<Event>, k: nat)
    requires k <= |run|
    ensures Run(w, run) == Run(Run(w, run[..k]), run[k..])
    decreases k
  {
    if k == 0 {
      assert run[..0] == [] && run[0..] == run;
    } else {
      RunSplits(Next(w, run[0]), run[1..], k - 1);
      assert run[1..][..k - 1] == run[..k][1..] && run[1..][k - 1..] == run[k..];
    }
  }

  lemma {:induction false} StateStaysWithoutRequest(w: Window, run: seq<Event>)
    requires NeverAwaitsAck(w) && forall e :: e in run ==> !e.ResizeRequest?
    ensures Run(w, run).state == w.state
    decreases |run|
  {
    if run != [] {
      assert run[0] in run;
      StateStaysWithoutRequest(Next(w, run[0]), run[1..]);
    }
  }

  predicate IsLastRequest(run: seq<Event>, k: nat) {
    k < |run| && run[k].ResizeRequest? && forall e :: e in run[k + 1..] ==> !e.ResizeRequest?
  }

  /** The last two resize states are unreachable: nothing ever begins to wait for the final ack. */
  lemma {:induction false} NothingAwaitsAck(w: Window, run: seq<Event>)
    requires NeverAwaitsAck(w)
    ensures NeverAwaitsAck(Run(w, run))
    decreases |run|
  {
    if run != [] { NothingAwaitsAck(Next(w, run[0]), run[1..]); }
  }

  /** A resize never ends: over every run from a window that does not await an ack, the resize state is that of
      the last request, with the location and size the window had then. Releases, acks, commits and moves never
      leave it. */
  lemma ResizeNeverEnds(w: Window, run: seq<Event>, k: nat)
    requires NeverAwaitsAck(w) && IsLastRequest(run, k)
    ensures var before := Run(w, run[..k]);
            Run(w, run).state == Resizing(ResizeData(run[k].edges, before.location, before.size))
  {
    NothingAwaitsAck(w, run[..k]);
    RunSplits(w, run, k);
    assert run[k..][0] == run[k] && run[k..][1..] == run[k + 1..];
    StateStaysWithoutRequest(Next(Run(w, run[..k]), run[k]), run[k + 1..]);
  }

  /** The `k`-th event begins or ends a grab, and none does later. */
  predicate IsLastGrab(run: seq<Event>, k: nat) {
    && k < |run| && (run[k].ResizeRequest? || run[k].Release?)
    && forall e :: e in run[k + 1..] ==> !e.ResizeRequest? && !e.Release?
  }

  lemma {:induction false} GrabStays(w: Window, run: seq<Event>)
    requires forall e :: e in run ==> !e.ResizeRequest? && !e.Release?
    ensures Run(w, run).grab == w.grab
    decreases |run|
  {
    if run != [] {
      assert run[0] in run;
      GrabStays(Next(w, run[0]), run[1..]);
    }
  }

  /** Over every run a motion asks for a size if and only if the last thing that happened to the grab was a
      request and the limits are the right way round; and the size is that of the drag from the window as it was
      at that request, whatever it has become since. */
  lemma MotionDragsFromRequest(w: Window, run: seq<Event>, k: nat, delta: Point<real>, min: Size, max: Size)
    requires IsLastGrab(run, k)
    ensures var before, s := Run(w, run[..k]), Run(w, run);
            var asked := Next(s, Motion(delta, min, max)).requested;
            if run[k].Release? then asked == s.requested
            else asked == Append(s.requested,
                                 RequestedSize(ResizeData(run[k].edges, before.location, before.size), delta, min, max))
  {
    RunSplits(w, run, k);
    assert run[k..][0] == run[k] && run[k..][1..] == run[k + 1..];
    GrabStays(Next(Run(w, run[..k]), run[k]), run[k + 1..]);
  }

  /** If a final ack were awaited, an ack and a commit would end the resize if and only if the ack is of the
      awaited configure or a later one and the client was resizing until then. */
  lemma AwaitedAckEndsResize(w: Window, serial: nat, wasResizing: bool, size: Size)
    requires w.state.WaitingForFinalAck?
    ensures var w' := Next(Next(w, AckConfigure(serial, wasResizing)), Commit(size));
            && (w'.state == NotResizing <==> serial >= w.state.serial && wasResizing)
            && (w'.state != NotResizing ==> w'.state == w.state)
            && w'.location == w.location && w'.size == size
  {
  }

  /** So every commit after a request pulls the window back to where it was anchored then, on the axes dragged
      from the left or above, also when the button is long released and the window was moved since. */
  lemma EveryLaterCommitAnchors(w: Window, edges: ResizeEdge, run: seq<Event>, size: Size)
    requires forall e :: e in run ==> !e.ResizeRequest?
    ensures var s := Run(Next(w, ResizeRequest(edges)), run);
            var s' := Next(s, Commit(size));
            && s'.size == size
            && (if Intersects(edges, LEFT) then s'.location.x + size.w == w.location.x + w.size.w
                else s'.location.x == s.location.x)
            && (if Intersects(edges, TOP) then s'.location.y + size.h == w.location.y + w.size.h
                else s'.location.y == s.location.y)
  {
    StateStaysWithoutRequest(Next(w, ResizeRequest(edges)), run);
  }

  /** A window that is moved after its resize stays there at the next commit if and only if the resize was not
      from the left or above, or the new place happens to agree with the old anchor. */
  lemma EndedResizeSnapsBack(w: Window, edges: ResizeEdge, run: seq<Event>, to: Point<int>, size: Size)
    requires forall e :: e in run ==> !e.ResizeRequest?
    ensures Next(Next(Run(Next(w, ResizeRequest(edges)), run), Moved(to)), Commit(size)).location == to
            <==> && (Intersects(edges, LEFT) ==> to.x + size.w == w.location.x + w.size.w)
                 && (Intersects(edges, TOP) ==> to.y + size.h == w.location.y + w.size.h)
  {
    StateStaysWithoutRequest(Next(w, ResizeRequest(edges)), run);
  }

  /** Over every run each size asked for is within the limits given with its motion. */
  ghost predicate WithinLimits(size: Size, e: Event) {
    && e.Motion?
    && 1 <= size.w && e.min.w <= size.w <= Upper(e.max.w)
    && 1 <= size.h && e.min.h <= size.h <= Upper(e.max.h)
  }

  lemma {:induction false} EveryRequestedSizeIsWithinLimits(w: Window, run: seq<Event>, size: Size)
    requires size in Run(w, run).requested && size !in w.requested
    ensures exists e :: e in run && WithinLimits(size, e)
    decreases |run|
  {
    if run != [] {
      var e, w' := run[0], Next(w, run[0]);
      if size in w'.requested {
        RequestsAreWithinLimits(w.grab.value, e.delta, e.min, e.max);
        assert e in run && WithinLimits(size, e);
      } else {
        EveryRequestedSizeIsWithinLimits(w', run[1..], size);
        var e' :| e' in run[1..] && WithinLimits(size, e');
        assert e' in run;
      }
    }
  }
}
