/** The animated pointer image and its caches (cursor.rs). */
module Cursor {
  import opened Common

  type Icon = nat
  type Buffer = nat

  datatype Image = Image(size: int, width: int, height: int, delay: nat, pixels: int)

  // Choosing images of the right size

  function Distance(size: int, image: Image): int { Abs(size - image.size) }

  /** The first of the images nearest in nominal size. */
  function Nearest(size: int, images: seq<Image>): (r: Image)
    requires images != []
    ensures r in images && forall image :: image in images ==> Distance(size, r) <= Distance(size, image)
  {
    if |images| == 1 then images[0]
    else
      var first := Nearest(size, images[..|images| - 1]);
      var last := images[|images| - 1];
      assert images == images[..|images| - 1] + [last];
      if Distance(size, last) < Distance(size, first) then last else first
  }

  function SameDimensions(images: seq<Image>, like: Image): seq<Image> {
    if images == [] then []
    else SameDimensions(images[..|images| - 1], like) +
         (var last := images[|images| - 1];
          if last.width == like.width && last.height == like.height then [last] else [])
  }

  function NearestImages(size: int, images: seq<Image>): seq<Image>
    requires images != []
  {
    SameDimensions(images, Nearest(size, images))
  }

  lemma {:induction false} SameDimensionsSelects(images: seq<Image>, like: Image)
    ensures forall image :: image in SameDimensions(images, like) <==>
                            image in images && image.width == like.width && image.height == like.height
  {
    if images != [] {
      SameDimensionsSelects(images[..|images| - 1], like);
      assert images == images[..|images| - 1] + [images[|images| - 1]];
    }
  }

  /** The choice is never empty: it has a nearest image and all images of its dimensions, nothing else. */
  lemma NearestImagesAreNearest(size: int, images: seq<Image>)
    requires images != []
    ensures var chosen := NearestImages(size, images);
            && chosen != []
            && exists best ::
                 && best in chosen
                 && (forall image :: image in images ==> Distance(size, best) <= Distance(size, image))
                 && forall image :: image in chosen <==>
                                    image in images && image.width == best.width && image.height == best.height
  {
    var best := Nearest(size, images);
    SameDimensionsSelects(images, best);
    assert best in NearestImages(size, images);
  }

  /** Of the nearest images the first one counts. */
  lemma {:induction false} NearestIsFirst(size: int, images: seq<Image>) returns (i: nat)
    requires images != []
    ensures i < |images| && Nearest(size, images) == images[i]
    ensures forall j :: 0 <= j < i ==> Abs(size - images[j].size) > Abs(size - images[i].size)
    ensures forall j :: 0 <= j < |images| ==> Abs(size - images[j].size) >= Abs(size - images[i].size)
  {
    var n := |images| - 1;
    if n == 0 {
      i := 0;
    } else {
      var first := images[..n];
      i := NearestIsFirst(size, first);
      assert forall j :: 0 <= j < n ==> first[j] == images[j];
      NearestNext(size, images);
      if Distance(size, images[n]) < Distance(size, images[i]) { i := n; }
    }
  }

  lemma NearestNext(size: int, images: seq<Image>)
    requires |images| > 1
    ensures var n := |images| - 1;
            var first := Nearest(size, images[..n]);
            Nearest(size, images) == if Distance(size, images[n]) < Distance(size, first) then images[n] else first
  {
  }

  lemma SameDimensionsOfOne(image: Image, like: Image)
    ensures SameDimensions([image], like)
            == if image.width == like.width && image.height == like.height then [image] else []
  {
    assert [image][..0] == [];
  }

  /** The images chosen keep their order: choosing works piece by piece. */
  lemma {:induction false} SameDimensionsKeepsOrder(a: seq<Image>, b: seq<Image>, like: Image)
    ensures SameDimensions(a + b, like) == SameDimensions(a, like) + SameDimensions(b, like)
  {
    if b == [] {
      assert a + b == a;
    } else {
      var n := |b| - 1;
      var all, last := a + b, if b[n].width == like.width && b[n].height == like.height then [b[n]] else [];
      SameDimensionsKeepsOrder(a, b[..n], like);
      assert all[..|all| - 1] == a + b[..n] && all[|all| - 1] == b[n];
      assert SameDimensions(all, like) == SameDimensions(a + b[..n], like) + last;
      assert SameDimensions(b, like) == SameDimensions(b[..n], like) + last;
    }
  }

  // Choosing the frame of an animation

  function TotalDelay(images: seq<Image>): nat {
    if images == [] then 0 else TotalDelay(images[..|images| - 1]) + images[|images| - 1].delay
  }

  /** The index of the frame shown at a time within one cycle. */
  function FrameAt(images: seq<Image>, millis: nat): (k: nat)
    requires millis < TotalDelay(images)
    ensures k < |images|
  {
    var n := |images| - 1;
    if millis < TotalDelay(images[..n]) then FrameAt(images[..n], millis) else n
  }

  /** Frame `k` is shown exactly from the end of the frames before it until its own end. */
  lemma {:induction false} FrameAtIsInterval(images: seq<Image>, millis: nat, k: nat)
    requires millis < TotalDelay(images) && k < |images|
    ensures FrameAt(images, millis) == k <==> TotalDelay(images[..k]) <= millis < TotalDelay(images[..k + 1])
  {
    var n := |images| - 1;
    assert images[..n + 1] == images;
    if k < n {
      TotalDelayGrows(images, k + 1, n);
      if millis < TotalDelay(images[..n]) {
        FrameAtIsInterval(images[..n], millis, k);
        assert images[..n][..k] == images[..k] && images[..n][..k + 1] == images[..k + 1];
      }
    }
  }

  /** Frame `k` is shown for exactly its delay. */
  lemma FrameLastsItsDelay(images: seq<Image>, k: nat)
    requires k < |images|
    ensures TotalDelay(images[..k + 1]) == TotalDelay(images[..k]) + images[k].delay
    ensures TotalDelay(images[..0]) == 0
  {
    assert images[..k + 1][..k] == images[..k];
  }

  lemma {:induction false} TotalDelayGrows(images: seq<Image>, i: nat, j: nat)
    requires i <= j <= |images|
    ensures TotalDelay(images[..i]) <= TotalDelay(images[..j])
    decreases j
  {
    if i < j {
      TotalDelayGrows(images, i, j - 1);
      assert images[..j][..j - 1] == images[..j - 1];
    }
  }

  lemma AddingWhole(a: nat, n: nat)
    requires n > 0
    ensures (a + n) % n == a % n
  {
    var q, q' := a / n, (a + n) / n;
    assert a == n * q + a % n && a + n == n * q' + (a + n) % n;
    assert n * (q' - q - 1) == a % n - (a + n) % n by { assert n * (q' - q - 1) == n * q' - n * q - n; }
    SmallMultipleIsZero(q' - q - 1, n);
  }

  lemma SmallMultipleIsZero(d: int, n: nat)
    requires -1 * n < n * d < n
    ensures d == 0
  {
    if d > 0 { MultipleIsLarge(d, n); }
    if d < 0 { MultipleIsLarge(-d, n); }
  }

  lemma MultipleIsLarge(d: int, n: nat)
    requires d > 0
    ensures n * d >= n
  {
  }

  /** The walk through the images with the remaining milliseconds. */
  method Frame(given: nat, images: seq<Image>) returns (frame: Image)
    requires given < TotalDelay(images)
    ensures frame == images[FrameAt(images, given)]
  {
    var millis: nat := given;
    assert images[..|images|] == images;
    for i := 0 to |images|
      invariant millis + TotalDelay(images[..i]) == given
    {
      assert images[..i + 1][..i] == images[..i];
      if millis < images[i].delay {
        FrameAtIsInterval(images, given, i);
        return images[i];
      }
      millis := millis - images[i].delay;
    }
    assert false;
  }

  method SumDelays(images: seq<Image>) returns (total: nat)
    ensures total == TotalDelay(images)
  {
    total := 0;
    for i := 0 to |images|
      invariant total == TotalDelay(images[..i])
    {
      assert images[..i + 1][..i] == images[..i];
      total := total + images[i].delay;
    }
    assert images[..|images|] == images;
  }

  // The cursor state

  datatype Status = Hidden | Surface | Icon(icon: Icon)

  type Theme = Icon -> seq<Image>

  datatype Cursor = Cursor(
    status: Status,
    images: map<Icon, seq<Image>>,
    size: nat,
    scale: real,
    pointerImages: seq<(Image, Buffer)>,
    buffer: Option<Buffer>,
    buffersMade: nat,
    loaded: bool,
    nearest: seq<Image>,
    totalDelay: nat)

  const DEFAULT_ICON: Icon := 0

  function New(theme: Theme, size: nat): Cursor {
    Cursor(Icon(DEFAULT_ICON), map[DEFAULT_ICON := theme(DEFAULT_ICON)], size, 1.0, [], None, 0, false, [], 0)
  }

  function LoadIcon(s: Cursor, theme: Theme, icon: Icon): Cursor {
    if icon in s.images then s else s.(images := s.images[icon := theme(icon)])
  }

  function UpdateStatus(s: Cursor, theme: Theme, status: Status): Cursor {
    if status.Icon? then LoadIcon(s, theme, status.icon).(status := status, loaded := false)
    else s.(status := status, loaded := true)
  }

  function Pixels(size: nat, scale: real): int { Truncate(size as real * scale) }

  function PixelSize(s: Cursor): int { Pixels(s.size, s.scale) }

  /** The images an icon is shown with, whose sequence of frames must not be empty. */
  predicate IconsOk(s: Cursor) {
    && (s.status.Icon? ==> s.status.icon in s.images)
    && forall icon :: icon in s.images ==> s.images[icon] != []
  }

  function SetScale(s: Cursor, scale: real): Cursor
    requires IconsOk(s)
  {
    var s' := s.(scale := scale);
    if s.scale == scale && s.loaded then s
    else if s.status.Icon? then
      var nearest := NearestImages(PixelSize(s'), s.images[s.status.icon]);
      s'.(nearest := nearest, totalDelay := TotalDelay(nearest), loaded := true)
    else s'.(loaded := true)
  }

  function FindBuffer(entries: seq<(Image, Buffer)>, image: Image): (r: Option<Buffer>)
    ensures r.Some? ==> (image, r.value) in entries
    ensures r.None? ==> forall b :: (image, b) !in entries
  {
    if entries == [] then None
    else if entries[0].0 == image then Some(entries[0].1)
    else FindBuffer(entries[1..], image)
  }

  function Show(s: Cursor, image: Image): Cursor {
    var found := FindBuffer(s.pointerImages, image);
    if found.Some? then s.(buffer := found)
    else s.(buffer := Some(s.buffersMade), buffersMade := s.buffersMade + 1,
            pointerImages := s.pointerImages + [(image, s.buffersMade)])
  }

  /** Fails when there is an icon but its cycle has no length: the time is taken modulo zero. */
  function SetTime(s: Cursor, time: nat): Option<Cursor>
    requires s.totalDelay == TotalDelay(s.nearest)
  {
    if !s.status.Icon? then Some(s)
    else if s.totalDelay == 0 then None
    else Some(Show(s, s.nearest[FrameAt(s.nearest, time % s.totalDelay)]))
  }

  /** The animation repeats: after any number of whole cycles setting the time fails, or shows the same buffer
      and caches the same images, as before them. */
  lemma {:induction false} AnimationRepeats(s: Cursor, time: nat, cycles: nat)
    requires s.totalDelay == TotalDelay(s.nearest)
    ensures SetTime(s, time + cycles * s.totalDelay) == SetTime(s, time)
  {
    if cycles > 0 && s.totalDelay > 0 {
      var earlier := time + (cycles - 1) * s.totalDelay;
      AnimationRepeats(s, time, cycles - 1);
      assert time + cycles * s.totalDelay == earlier + s.totalDelay;
      AddingWhole(earlier, s.totalDelay);
    }
  }

  class CursorState {
    const theme: Theme
    var status: Status
    var images: map<Icon, seq<Image>>
    var size: nat
    var scale: real
    var pointerImages: seq<(Image, Buffer)>
    var buffer: Option<Buffer>
    var buffersMade: nat
    var nearestImagesLoaded: bool
    var nearestImages: seq<Image>
    var totalDelay: nat

    ghost function View(): Cursor
      reads this
    {
      Cursor(status, images, size, scale, pointerImages, buffer, buffersMade,
             nearestImagesLoaded, nearestImages, totalDelay)
    }

    constructor (t: Theme, s: nat)
      ensures theme == t && View() == New(t, s)
    {
      theme := t;
      status := Icon(DEFAULT_ICON);
      images := map[DEFAULT_ICON := t(DEFAULT_ICON)];
      size := s;
      scale := 1.0;
      pointerImages := [];
      buffer := None;
      buffersMade := 0;
      nearestImagesLoaded := false;
      nearestImages := [];
      totalDelay := 0;
    }

    method Update(newStatus: Status)
      modifies this
      ensures View() == UpdateStatus(old(View()), theme, newStatus)
    {
      status := newStatus;
      if status.Icon? {
        if status.icon !in images { images := images[status.icon := theme(status.icon)]; }
        nearestImagesLoaded := false;
      } else {
        nearestImagesLoaded := true;
      }
    }

    method ChangeScale(newScale: real)
      requires IconsOk(View())
      modifies this
      ensures View() == SetScale(old(View()), newScale)
    {
      if scale != newScale {
        scale := newScale;
        nearestImagesLoaded := false;
      }
      if !nearestImagesLoaded {
        if status.Icon? {
          nearestImages := NearestImages(Pixels(size, scale), images[status.icon]);
          totalDelay := SumDelays(nearestImages);
        }
        nearestImagesLoaded := true;
      }
    }

    method ChangeTime(time: nat) returns (ok: bool)
      requires totalDelay == TotalDelay(nearestImages)
      modifies this
      ensures ok <==> SetTime(old(View()), time).Some?
      ensures View() == if ok then SetTime(old(View()), time).value else old(View())
    {
      if !status.Icon? { return true; }
      if totalDelay == 0 { return false; }
      var frame := Frame(time % totalDelay, nearestImages);
      var found := FindBuffer(pointerImages, frame);
      if found.None? {
        var made := buffersMade;
        buffersMade := buffersMade + 1;
        pointerImages := pointerImages + [(frame, made)];
        found := Some(made);
      }
      buffer := found;
      return true;
    }
  }

  // Properties of runs

  /** The cached choice belongs to the current icon, size and scale; the cache of buffers has each image and
      each buffer once. */
  ghost predicate Coherent(s: Cursor) {
    && IconsOk(s)
    && s.totalDelay == TotalDelay(s.nearest)
    && (s.loaded && s.status.Icon? ==> s.nearest == NearestImages(PixelSize(s), s.images[s.status.icon]))
    && CachedOnce(s)
  }

  datatype Call = Updated(status: Status) | Scaled(scale: real) | Timed(time: nat)

  function Next(s: Cursor, theme: Theme, call: Call): Cursor
    requires Coherent(s)
  {
    match call
    case Updated(status) => UpdateStatus(s, theme, status)
    case Scaled(scale) => SetScale(s, scale)
    case Timed(time) => if SetTime(s, time).Some? then SetTime(s, time).value else s
  }

  predicate ThemeOk(theme: Theme, calls: seq<Call>) {
    forall i :: 0 <= i < |calls| && calls[i].Updated? && calls[i].status.Icon? ==> theme(calls[i].status.icon) != []
  }

  /** Each image and each buffer is cached once. */
  ghost predicate CachedOnce(s: Cursor) {
    && (forall i :: 0 <= i < |s.pointerImages| ==> s.pointerImages[i].1 < s.buffersMade)
    && (forall i, j :: 0 <= i < j < |s.pointerImages| ==>
                         s.pointerImages[i].0 != s.pointerImages[j].0 && s.pointerImages[i].1 != s.pointerImages[j].1)
  }

  lemma ShowCachesOnce(s: Cursor, image: Image)
    requires CachedOnce(s)
    ensures CachedOnce(Show(s, image)) && s.pointerImages <= Show(s, image).pointerImages
  {
    assert forall i :: 0 <= i < |s.pointerImages| ==> (s.pointerImages[i].0, s.pointerImages[i].1) in s.pointerImages;
  }

  lemma CallKeepsCoherence(s: Cursor, theme: Theme, call: Call)
    requires Coherent(s) && ThemeOk(theme, [call])
    ensures Coherent(Next(s, theme, call))
    ensures s.pointerImages <= Next(s, theme, call).pointerImages
  {
    assert [call][0] == call;
    if call.Timed? && s.status.Icon? && s.totalDelay > 0 {
      ShowCachesOnce(s, s.nearest[FrameAt(s.nearest, call.time % s.totalDelay)]);
    }
  }

  ghost function Run(s: Cursor, theme: Theme, calls: seq<Call>): (s': Cursor)
    requires Coherent(s) && ThemeOk(theme, calls)
    ensures Coherent(s')
    decreases |calls|
  {
    if calls == [] then s
    else
      assert ThemeOk(theme, [calls[0]]) && ThemeOk(theme, calls[1..]);
      CallKeepsCoherence(s, theme, calls[0]);
      Run(Next(s, theme, calls[0]), theme, calls[1..])
  }

  lemma NewIsCoherent(theme: Theme, size: nat)
    requires theme(DEFAULT_ICON) != []
    ensures Coherent(New(theme, size))
  {
  }

  /** A frame once shown keeps its buffer: after any further calls, showing it again uses the first one. */
  lemma {:induction false} RepeatedFramesReuseBuffers(
    s: Cursor, theme: Theme, calls: seq<Call>, image: Image, buffer: Buffer)
    requires Coherent(s) && ThemeOk(theme, calls) && (image, buffer) in s.pointerImages
    ensures (image, buffer) in Run(s, theme, calls).pointerImages
    ensures Show(Run(s, theme, calls), image) == Run(s, theme, calls).(buffer := Some(buffer))
    decreases |calls|
  {
    if calls == [] {
      var found := FindBuffer(s.pointerImages, image);
      assert (image, found.value) in s.pointerImages;
    } else {
      assert ThemeOk(theme, [calls[0]]) && ThemeOk(theme, calls[1..]);
      CallKeepsCoherence(s, theme, calls[0]);
      RepeatedFramesReuseBuffers(Next(s, theme, calls[0]), theme, calls[1..], image, buffer);
    }
  }

  /** Drawing sets the scale and then the time. It fails if and only if all the images chosen for the current
      icon have no delay; otherwise the buffer shown is that of the icon's frame for the time. */
  lemma DrawingShowsTheFrame(s: Cursor, scale: real, time: nat)
    requires Coherent(s) && s.status.Icon?
    ensures var s' := SetScale(s, scale);
            var chosen := NearestImages(Pixels(s.size, scale), s.images[s.status.icon]);
            var drawn := SetTime(s', time);
            && Coherent(s')
            && (drawn.None? <==> forall image :: image in chosen ==> image.delay == 0)
            && (drawn.Some? ==>
                  && TotalDelay(chosen) > 0 && drawn.value.buffer.Some?
                  && var frame := chosen[FrameAt(chosen, time % TotalDelay(chosen))];
                     (frame, drawn.value.buffer.value) in drawn.value.pointerImages)
  {
    var s' := SetScale(s, scale);
    var chosen := NearestImages(Pixels(s.size, scale), s.images[s.status.icon]);
    assert s'.nearest == chosen;
    ZeroTotalIffNoDelay(chosen);
    if TotalDelay(chosen) > 0 { ShowingKeepsBuffer(s', chosen[FrameAt(chosen, time % TotalDelay(chosen))]); }
  }

  lemma ShowingKeepsBuffer(s: Cursor, image: Image)
    ensures Show(s, image).buffer.Some? && (image, Show(s, image).buffer.value) in Show(s, image).pointerImages
  {
  }

  lemma {:induction false} ZeroTotalIffNoDelay(images: seq<Image>)
    ensures TotalDelay(images) == 0 <==> forall image :: image in images ==> image.delay == 0
  {
    if images != [] {
      ZeroTotalIffNoDelay(images[..|images| - 1]);
      assert images == images[..|images| - 1] + [images[|images| - 1]];
    }
  }

  // From the calls to the image

  /** The size in pixels is the nominal size times the scale, without the fraction. */
  lemma PixelsAreScaled(size: nat, scale: real)
    requires scale >= 0.0
    ensures Pixels(size, scale) as real <= size as real * scale < Pixels(size, scale) as real + 1.0
  {
    var product := size as real * scale;
    assert product >= 0.0 by { ProductIsNotNegative(size as real, scale); }
  }

  lemma ProductIsNotNegative(a: real, b: real)
    requires a >= 0.0 && b >= 0.0
    ensures a * b >= 0.0
  {
  }

  function LastStatus(before: Status, calls: seq<Call>): Status
    decreases |calls|
  {
    if calls == [] then before else LastStatus(if calls[0].Updated? then calls[0].status else before, calls[1..])
  }

  function LastScale(before: real, calls: seq<Call>): real
    decreases |calls|
  {
    if calls == [] then before else LastScale(if calls[0].Scaled? then calls[0].scale else before, calls[1..])
  }

  /** The images of every loaded icon are those of the theme. */
  ghost predicate FromTheme(s: Cursor, theme: Theme) {
    forall icon :: icon in s.images ==> s.images[icon] == theme(icon)
  }

  lemma CallFollows(s: Cursor, theme: Theme, call: Call)
    requires Coherent(s) && FromTheme(s, theme)
    ensures var s' := Next(s, theme, call);
            && s'.status == (if call.Updated? then call.status else s.status)
            && s'.scale == (if call.Scaled? then call.scale else s.scale)
            && s'.size == s.size && FromTheme(s', theme)
  {
  }

  lemma {:induction false} RunFollowsCalls(s: Cursor, theme: Theme, calls: seq<Call>)
    requires Coherent(s) && ThemeOk(theme, calls) && FromTheme(s, theme)
    ensures var s' := Run(s, theme, calls);
            && s'.status == LastStatus(s.status, calls) && s'.scale == LastScale(s.scale, calls)
            && s'.size == s.size && FromTheme(s', theme)
    decreases |calls|
  {
    if calls != [] {
      assert ThemeOk(theme, [calls[0]]) && ThemeOk(theme, calls[1..]);
      CallKeepsCoherence(s, theme, calls[0]);
      CallFollows(s, theme, calls[0]);
      RunFollowsCalls(Next(s, theme, calls[0]), theme, calls[1..]);
    }
  }

  /** After any calls on a new cursor, drawing at a scale and a time shows the icon that was set last: the frame
      for that time among the theme's images nearest to the nominal size times the scale. It fails if and only
      if none of these has a delay. */
  lemma DrawingShowsTheLastIcon(theme: Theme, size: nat, calls: seq<Call>, scale: real, time: nat, icon: Icon)
    requires theme(DEFAULT_ICON) != [] && ThemeOk(theme, calls) && scale >= 0.0
    requires LastStatus(Icon(DEFAULT_ICON), calls) == Icon(icon)
    ensures var s := Run(New(theme, size), theme, calls);
            && Coherent(s) && theme(icon) != []
            && exists pixels: int ::
                 && pixels as real <= size as real * scale < pixels as real + 1.0
                 && var chosen := NearestImages(pixels, theme(icon));
                    var drawn := SetTime(SetScale(s, scale), time);
                    && (drawn.None? <==> forall image :: image in chosen ==> image.delay == 0)
                    && (drawn.Some? ==>
                          && TotalDelay(chosen) > 0 && drawn.value.buffer.Some?
                          && var frame := chosen[FrameAt(chosen, time % TotalDelay(chosen))];
                             (frame, drawn.value.buffer.value) in drawn.value.pointerImages)
  {
    NewIsCoherent(theme, size);
    RunFollowsCalls(New(theme, size), theme, calls);
    var s := Run(New(theme, size), theme, calls);
    PixelsAreScaled(size, scale);
    DrawingShowsTheFrame(s, scale, time);
    assert Pixels(s.size, scale) == Pixels(size, scale) && s.images[icon] == theme(icon);
  }

  /** While the last status is no icon, drawing changes neither buffers nor the choice of images, and never
      fails. */
  lemma OtherStatusesDrawNothing(theme: Theme, size: nat, calls: seq<Call>, scale: real, time: nat)
    requires theme(DEFAULT_ICON) != [] && ThemeOk(theme, calls)
    requires !LastStatus(Icon(DEFAULT_ICON), calls).Icon?
    ensures Coherent(New(theme, size))
    ensures var s := Run(New(theme, size), theme, calls);
            var drawn := SetTime(SetScale(s, scale), time);
            drawn.Some? && drawn.value == s.(scale := scale, loaded := drawn.value.loaded)
  {
    NewIsCoherent(theme, size);
    RunFollowsCalls(New(theme, size), theme, calls);
  }
}
