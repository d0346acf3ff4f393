/** A recorder of the screen: a frame for each sample that changed it, of the rectangle that did. */
module Recorder {
  import opened Arithmetic
  import opened Netlist
  import opened BitStream
  import opened Lzw
  import opened Screens

  datatype Rect = Rect(left: nat, top: nat, width: nat, height: nat) {
    predicate Holds(x: nat, y: nat) { left <= x < left + width && top <= y < top + height }
  }

  // ---- Where two canvases differ ----

  ghost predicate Differs(a: Canvas, b: Canvas, width: nat, x: nat, y: nat) {
    x < width && y * width + x < |a| && y * width + x < |b| && a[y * width + x] != b[y * width + x]
  }

  ghost predicate DiffersInColumn(a: Canvas, b: Canvas, width: nat, height: nat, x: nat) {
    exists y :: 0 <= y < height && Differs(a, b, width, x, y)
  }

  ghost predicate DiffersInRow(a: Canvas, b: Canvas, width: nat, y: nat) { exists x: nat :: Differs(a, b, width, x, y) }

  /** A rectangle on the canvas that holds every difference, with a difference in each of its sides,
      so that none is smaller. */
  ghost predicate Least(a: Canvas, b: Canvas, width: nat, height: nat, r: Rect) {
    && 0 < r.width && 0 < r.height && r.left + r.width <= width && r.top + r.height <= height
    && (forall x: nat, y: nat :: y < height && Differs(a, b, width, x, y) ==> r.Holds(x, y))
    && DiffersInColumn(a, b, width, height, r.left) && DiffersInColumn(a, b, width, height, r.left + r.width - 1)
    && DiffersInRow(a, b, width, r.top) && DiffersInRow(a, b, width, r.top + r.height - 1)
  }

  /** Two least rectangles are one. */
  lemma LeastIsOne(a: Canvas, b: Canvas, width: nat, height: nat, r: Rect, s: Rect)
    requires Least(a, b, width, height, r) && Least(a, b, width, height, s)
    ensures r == s
  {
    LeastWithin(a, b, width, height, r, s);
    LeastWithin(a, b, width, height, s, r);
  }

  lemma LeastWithin(a: Canvas, b: Canvas, width: nat, height: nat, r: Rect, s: Rect)
    requires Least(a, b, width, height, r) && s.width > 0 && s.height > 0 && s.top + s.height <= height
    requires forall x: nat, y: nat :: y < height && Differs(a, b, width, x, y) ==> s.Holds(x, y)
    ensures s.left <= r.left && r.left + r.width <= s.left + s.width && s.top <= r.top && r.top + r.height <= s.top + s.height
  {
    hide Differs;
  }

  lemma OnCanvas(x: nat, y: nat, width: nat, height: nat)
    requires x < width && y < height
    ensures y * width + x < width * height && y * width + width <= width * height
    ensures (y * width + x) / width == y && (y * width + x) % width == x
  {
    MulAtMost(y + 1, height, width);
    assert (y + 1) * width == y * width + width;
    DivUnique(y, width, x);
  }

  /** The first place two rows differ, and the last. */
  method Ends(a: Canvas, b: Canvas) returns (first: nat, last: nat)
    requires |a| == |b| && a != b
    ensures first <= last < |a| && a[first] != b[first] && a[last] != b[last]
    ensures forall x :: 0 <= x < |a| && a[x] != b[x] ==> first <= x <= last
  {
    first := 0;
    while first < |a| && a[first] == b[first]
      invariant first <= |a| && forall x :: 0 <= x < first ==> a[x] == b[x]
    {
      first := first + 1;
    }
    last := |a|;
    while last > 0 && a[last - 1] == b[last - 1]
      invariant first < last <= |a| && forall x :: last <= x < |a| ==> a[x] == b[x]
    {
      last := last - 1;
    }
    last := last - 1;
  }

  /** A row's part of a canvas. */
  lemma RowDiffers(a: Canvas, b: Canvas, width: nat, height: nat, y: nat, x: nat)
    requires |a| == |b| == width * height && y < height && x < width
    ensures y * width + width <= |a|
    ensures Differs(a, b, width, x, y) <==> a[y * width..y * width + width][x] != b[y * width..y * width + width][x]
  {
    OnCanvas(x, y, width, height);
  }

  ghost predicate RowsWithin(a: Canvas, b: Canvas, width: nat, rows: nat, x0: nat, y0: nat, x1: nat, y1: nat) {
    forall x: nat, y: nat :: y < rows && Differs(a, b, width, x, y) ==> x0 <= x < x1 && y0 <= y < y1
  }

  /** What of a canvas has changed, as a rectangle, if anything has. */
  method ChangedRect(prev: Canvas, cur: Canvas, width: nat, height: nat) returns (r: Option<Rect>)
    requires |prev| == |cur| == width * height && width > 0
    ensures r == None <==> prev == cur
    ensures r.Some? ==> Least(prev, cur, width, height, r.value)
  {
    hide Differs, DiffersInColumn, DiffersInRow, RowsWithin;
    EmptyRows(prev, cur, width);
    var x0: nat, y0: nat, x1: nat, y1: nat := width, height, 0, 0;
    for y := 0 to height
      invariant RowsWithin(prev, cur, width, y, x0, y0, x1, y1)
      invariant x0 < x1 ==>
                  && x1 <= width && y0 < y1 <= y
                  && DiffersInColumn(prev, cur, width, height, x0) && DiffersInColumn(prev, cur, width, height, x1 - 1)
                  && DiffersInRow(prev, cur, width, y0) && DiffersInRow(prev, cur, width, y1 - 1)
      invariant x0 >= x1 ==> x0 == width && x1 == 0 && y0 == height && y1 == 0
    {
      RowDiffers(prev, cur, width, height, y, 0);
      var a, b := prev[y * width..y * width + width], cur[y * width..y * width + width];
      forall x: nat | x < width
        ensures Differs(prev, cur, width, x, y) <==> a[x] != b[x]
      {
        RowDiffers(prev, cur, width, height, y, x);
      }
      OutOfRow(prev, cur, width, y);
      if a == b {
        RowSkipped(prev, cur, width, y, x0, y0, x1, y1);
        continue;
      }
      var first, last := Ends(a, b);
      RowAdded(prev, cur, width, height, y, first, last, x0, y0, x1, y1);
      x0, x1 := Min(x0, first), Max(x1, last + 1);
      y0, y1 := Min(y0, y), Max(y1, y + 1);
    }
    Within(prev, cur, width, height, x0, y0, x1, y1);
    if x0 < x1 {
      r := Some(Rect(x0, y0, x1 - x0, y1 - y0));
      NotSame(prev, cur, width, y0);
    } else {
      r := None;
      NoDifference(prev, cur, width, height);
    }
  }

  lemma EmptyRows(a: Canvas, b: Canvas, width: nat)
    ensures forall x0: nat, y0: nat, x1: nat, y1: nat :: RowsWithin(a, b, width, 0, x0, y0, x1, y1)
  {
  }

  /** A row with a difference at each end of a span and none out of it. */
  lemma RowAdded(a: Canvas, b: Canvas, width: nat, height: nat, y: nat, first: nat, last: nat, x0: nat, y0: nat, x1: nat, y1: nat)
    requires y < height && first <= last && Differs(a, b, width, first, y) && Differs(a, b, width, last, y)
    requires forall x: nat :: Differs(a, b, width, x, y) ==> first <= x <= last
    requires RowsWithin(a, b, width, y, x0, y0, x1, y1)
    ensures DiffersInColumn(a, b, width, height, first) && DiffersInColumn(a, b, width, height, last) && DiffersInRow(a, b, width, y)
    ensures RowsWithin(a, b, width, y + 1, Min(x0, first), Min(y0, y), Max(x1, last + 1), Max(y1, y + 1))
  {
    hide Differs;
  }

  lemma RowSkipped(a: Canvas, b: Canvas, width: nat, y: nat, x0: nat, y0: nat, x1: nat, y1: nat)
    requires RowsWithin(a, b, width, y, x0, y0, x1, y1) && forall x: nat :: !Differs(a, b, width, x, y)
    ensures RowsWithin(a, b, width, y + 1, x0, y0, x1, y1)
  {
    hide Differs;
  }

  lemma Within(a: Canvas, b: Canvas, width: nat, rows: nat, x0: nat, y0: nat, x1: nat, y1: nat)
    requires RowsWithin(a, b, width, rows, x0, y0, x1, y1)
    ensures forall x: nat, y: nat :: y < rows && Differs(a, b, width, x, y) ==> x0 <= x < x1 && y0 <= y < y1
  {
    hide Differs;
  }

  lemma OutOfRow(a: Canvas, b: Canvas, width: nat, y: nat)
    ensures forall x: nat :: Differs(a, b, width, x, y) ==> x < width
  {
  }

  lemma NotSame(a: Canvas, b: Canvas, width: nat, y: nat)
    requires DiffersInRow(a, b, width, y)
    ensures a != b
  {
  }

  lemma NoDifference(a: Canvas, b: Canvas, width: nat, height: nat)
    requires |a| == |b| == width * height && width > 0
    requires forall x: nat, y: nat :: y < height ==> !Differs(a, b, width, x, y)
    ensures a == b
  {
    forall k: nat | k < |a|
      ensures a[k] == b[k]
    {
      var x, y := k % width, k / width;
      assert k == y * width + x;
      QuotientBelow(k, width, height);
      assert !Differs(a, b, width, x, y);
    }
  }

  // ---- Frames ----

  /** A rectangle's pixels, row by row. */
  function PixelsOf(c: Canvas, width: nat, r: Rect): (p: seq<nat>)
    ensures |p| == r.width * r.height
  {
    seq(r.width * r.height, k requires 0 <= k < r.width * r.height => PixelAt(c, width, r, k))
  }

  function PixelAt(c: Canvas, width: nat, r: Rect, k: nat): nat {
    if r.width == 0 then 0
    else
      var at := (r.top + k / r.width) * width + r.left + k % r.width;
      if at < |c| then c[at] else 0
  }

  /** A frame laid over a canvas. */
  function LaidAt(c: Canvas, width: nat, r: Rect, p: seq<nat>, k: nat): nat
    requires k < |c| && width > 0
  {
    PixelLaid(c[k], r, p, k % width, k / width)
  }

  /** A pixel that was `under`, a frame laid over it. */
  function PixelLaid(under: nat, r: Rect, p: seq<nat>, x: nat, y: nat): nat {
    if r.Holds(x, y) then
      var i := (y - r.top) * r.width + (x - r.left);
      if 0 <= i < |p| then p[i] else 0
    else under
  }

  function Laid(c: Canvas, width: nat, r: Rect, p: seq<nat>): (d: Canvas)
    requires width > 0
    ensures |d| == |c|
  {
    seq(|c|, k requires 0 <= k < |c| => LaidAt(c, width, r, p, k))
  }

  /** A rectangle that holds every difference, taken from one canvas and laid over the other, makes
      it the one. */
  lemma LaidIs(prev: Canvas, cur: Canvas, width: nat, height: nat, r: Rect)
    requires |prev| == |cur| == width * height && width > 0
    requires r.left + r.width <= width && r.top + r.height <= height
    requires forall x: nat, y: nat :: y < height && Differs(prev, cur, width, x, y) ==> r.Holds(x, y)
    ensures Laid(prev, width, r, PixelsOf(cur, width, r)) == cur
  {
    hide LaidAt, Differs, PixelsOf;
    var p := PixelsOf(cur, width, r);
    forall k: nat | k < |prev|
      ensures LaidAt(prev, width, r, p, k) == cur[k]
    {
      LaidEach(prev, cur, width, height, r, k);
    }
    var l := Laid(prev, width, r, p);
    assert forall k :: 0 <= k < |l| ==> l[k] == LaidAt(prev, width, r, p, k);
    assert l == cur;
  }

  lemma LaidEach(prev: Canvas, cur: Canvas, width: nat, height: nat, r: Rect, k: nat)
    requires |prev| == |cur| == width * height && width > 0 && k < |prev|
    requires r.left + r.width <= width && r.top + r.height <= height
    requires forall x: nat, y: nat :: y < height && Differs(prev, cur, width, x, y) ==> r.Holds(x, y)
    ensures LaidAt(prev, width, r, PixelsOf(cur, width, r), k) == cur[k]
  {
    hide Differs, PixelsOf, PixelLaid;
    QuotientBelow(k, width, height);
    var x, y := k % width, k / width;
    assert k == y * width + x;
    assert Differs(prev, cur, width, x, y) ==> r.Holds(x, y);
    LaidOne(prev, cur, width, r, x, y);
  }

  lemma LaidOne(prev: Canvas, cur: Canvas, width: nat, r: Rect, x: nat, y: nat)
    requires |prev| == |cur| && x < width && y * width + x < |prev| && (Differs(prev, cur, width, x, y) ==> r.Holds(x, y))
    ensures PixelLaid(prev[y * width + x], r, PixelsOf(cur, width, r), x, y) == cur[y * width + x]
  {
    hide PixelAt, PixelsOf;
    if r.Holds(x, y) {
      hide Differs;
      OnCanvas(x - r.left, y - r.top, r.width, r.height);
      PixelFrom(cur, width, r, x, y);
      PixelIs(cur, width, r, (y - r.top) * r.width + (x - r.left));
    } else {
      SameThere(prev, cur, width, x, y);
    }
  }

  lemma PixelIs(c: Canvas, width: nat, r: Rect, k: nat)
    ensures r.height * r.width == r.width * r.height
    ensures k < r.width * r.height ==> k < |PixelsOf(c, width, r)| && PixelsOf(c, width, r)[k] == PixelAt(c, width, r, k)
  {
    hide PixelAt;
  }

  lemma SameThere(a: Canvas, b: Canvas, width: nat, x: nat, y: nat)
    requires x < width && y * width + x < |a| == |b| && !Differs(a, b, width, x, y)
    ensures a[y * width + x] == b[y * width + x]
  {
  }

  lemma PixelFrom(c: Canvas, width: nat, r: Rect, x: nat, y: nat)
    requires r.Holds(x, y) && y * width + x < |c|
    ensures PixelAt(c, width, r, (y - r.top) * r.width + (x - r.left)) == c[y * width + x]
  {
    DivUnique(y - r.top, r.width, x - r.left);
  }

  datatype Frame = Frame(delay: nat, rect: Rect, data: seq<Byte>)

  /** The canvas the frames leave, laid one over the other; `pixels` is what each decodes to. */
  function Replay(c: Canvas, width: nat, frames: seq<Frame>, pixels: seq<seq<nat>>): (d: Canvas)
    requires width > 0 && |frames| == |pixels|
    ensures |d| == |c|
  {
    if frames == [] then c
    else
      var n := |frames| - 1;
      Laid(Replay(c, width, frames[..n], pixels[..n]), width, frames[n].rect, pixels[n])
  }

  function Delays(frames: seq<Frame>): nat {
    if frames == [] then 0 else Delays(frames[..|frames| - 1]) + frames[|frames| - 1].delay
  }

  // ---- The recorder ----

  const SECOND: nat := 1_000_000_000
  const MIN_BITS: nat := 2

  /** The seconds of the two clocks the line shows, if it is shown. */
  function Shown(showTime: bool, ns: nat, wall: nat): Option<(nat, nat)> {
    if showTime then Some((ns / SECOND, wall / SECOND)) else None
  }

  /** A rectangle's pixels, a row at a time. */
  method TakePixels(c: Canvas, width: nat, height: nat, r: Rect) returns (p: seq<nat>)
    requires |c| == width * height && r.left + r.width <= width && r.top + r.height <= height && r.width > 0
    ensures p == PixelsOf(c, width, r)
  {
    hide PixelAt;
    p := [];
    for j := 0 to r.height
      invariant |p| == j * r.width
      invariant forall k :: 0 <= k < |p| ==> p[k] == PixelAt(c, width, r, k)
    {
      RowRoom(c, width, height, r, j);
      var at := (r.top + j) * width + r.left;
      var row := c[at..at + r.width];
      ghost var n := |p|;
      forall k: nat | n <= k < n + r.width
        ensures row[k - n] == PixelAt(c, width, r, k)
      {
        RowAt(c, width, height, r, j, k - n);
      }
      p := p + row;
    }
    assert r.height * r.width == r.width * r.height;
  }

  lemma RowRoom(c: Canvas, width: nat, height: nat, r: Rect, j: nat)
    requires |c| == width * height && r.left + r.width <= width && j < r.height && r.top + r.height <= height && r.width > 0
    ensures (r.top + j) * width + r.left + r.width <= |c| && (j + 1) * r.width == j * r.width + r.width
  {
    OnCanvas(0, r.top + j, width, height);
  }

  lemma RowAt(c: Canvas, width: nat, height: nat, r: Rect, j: nat, x: nat)
    requires |c| == width * height && r.left + r.width <= width && j < r.height && r.top + r.height <= height && x < r.width
    ensures (r.top + j) * width + r.left + x < |c| && PixelAt(c, width, r, j * r.width + x) == c[(r.top + j) * width + r.left + x]
  {
    OnCanvas(r.left + x, r.top + j, width, height);
    DivUnique(j, r.width, x);
  }

  function Blank(n: nat): Canvas { seq(n, _ => 0) }

  function WithDelay(frames: seq<Frame>, delay: nat): (f: seq<Frame>)
    ensures |f| == |frames|
  {
    if frames == [] then [] else frames[|frames| - 1 := frames[|frames| - 1].(delay := delay)]
  }

  lemma PixelsSmall(c: Canvas, width: nat, r: Rect)
    requires forall k :: 0 <= k < |c| ==> c[k] < 2
    ensures forall k :: 0 <= k < |PixelsOf(c, width, r)| ==> PixelsOf(c, width, r)[k] < 2
  {
  }

  lemma ReplayNext(c: Canvas, width: nat, frames: seq<Frame>, pixels: seq<seq<nat>>, f: Frame, p: seq<nat>)
    requires width > 0 && |frames| == |pixels|
    ensures Replay(c, width, frames + [f], pixels + [p]) == Laid(Replay(c, width, frames, pixels), width, f.rect, p)
    ensures Delays(frames + [f]) == Delays(frames) + f.delay
  {
    hide Laid;
    assert (frames + [f])[..|frames|] == frames && (pixels + [p])[..|frames|] == pixels;
  }

  /** How long a frame stays is no part of what it shows. */
  lemma DelayOnly(c: Canvas, width: nat, frames: seq<Frame>, pixels: seq<seq<nat>>, delay: nat)
    requires width > 0 && |frames| == |pixels| && frames != []
    ensures Replay(c, width, WithDelay(frames, delay), pixels) == Replay(c, width, frames, pixels)
    ensures Delays(WithDelay(frames, delay)) == Delays(frames) - frames[|frames| - 1].delay + delay
  {
    hide Laid;
    assert WithDelay(frames, delay)[..|frames| - 1] == frames[..|frames| - 1];
  }

  /** Frames whose data decodes to `pixels`, that replay to the last canvas and last to when the last
      was taken. */
  ghost predicate Recorded(frames: seq<Frame>, pixels: seq<seq<nat>>, width: nat, size: nat, last: Option<Canvas>, firstAt: nat, lastAt: nat)
    requires width > 0
  {
    && |frames| == |pixels| && (forall i :: 0 <= i < |frames| ==> ReadsBack(MIN_BITS, frames[i].data, pixels[i]))
    && (frames == [] <==> last == None)
    && (last.Some? ==>
          && |last.value| == size && Replay(Blank(size), width, frames, pixels) == last.value
          && firstAt <= lastAt && Delays(frames) == lastAt - firstAt && frames[|frames| - 1].delay == 0)
  }

  /** The rectangle every difference is in, or all of the canvas the first time. */
  ghost predicate Covers(prev: Option<Canvas>, cur: Canvas, width: nat, height: nat, r: Rect) {
    && r.left + r.width <= width && r.top + r.height <= height
    && forall x: nat, y: nat :: y < height && Differs(if prev.Some? then prev.value else Blank(width * height), cur, width, x, y) ==> r.Holds(x, y)
  }

  lemma RecordedNext(frames: seq<Frame>, pixels: seq<seq<nat>>, width: nat, height: nat, prev: Option<Canvas>, firstAt: nat, lastAt: nat,
                     cur: Canvas, f: Frame, ns: nat)
    requires width > 0 && |cur| == width * height && Recorded(frames, pixels, width, width * height, prev, firstAt, lastAt)
    requires Covers(prev, cur, width, height, f.rect) && f.delay == 0 && ReadsBack(MIN_BITS, f.data, PixelsOf(cur, width, f.rect))
    requires prev.Some? ==> lastAt <= ns
    ensures Recorded(WithDelay(frames, if prev.Some? then ns - lastAt else 0) + [f], pixels + [PixelsOf(cur, width, f.rect)], width, width * height,
                     Some(cur), if prev.Some? then firstAt else ns, ns)
  {
    hide Laid, PixelsOf, ReadsBack, Differs;
    var size := width * height;
    var was := if prev.Some? then prev.value else Blank(size);
    var p := PixelsOf(cur, width, f.rect);
    var timed := WithDelay(frames, if prev.Some? then ns - lastAt else 0);
    if prev.Some? {
      DelayOnly(Blank(size), width, frames, pixels, ns - lastAt);
    }
    assert Replay(Blank(size), width, timed, pixels) == was;
    ReplayNext(Blank(size), width, timed, pixels, f, p);
    LaidIs(was, cur, width, height, f.rect);
    hide Replay, Delays;
    forall i | 0 <= i < |timed|
      ensures ReadsBack(MIN_BITS, timed[i].data, pixels[i])
    {
      assert timed[i].data == frames[i].data;
    }
  }

  class Recorder {
    const showTime: bool
    var width: nat
    var height: nat
    var prev: Option<Canvas>
    var lastAt: nat
    var sampledAt: nat
    var shown: Option<(nat, nat)>
    var frames: seq<Frame>
    var samples: nat
    var seen: seq<Look>
    /** What each frame's data decodes to, when the first was taken, and the screens last drawn. */
    ghost var pixels: seq<seq<nat>>
    ghost var firstAt: nat
    ghost var drawn: seq<Tv>

    ghost predicate Valid()
      reads this
    {
      && width > 0 && height > 0
      && Recorded(frames, pixels, width, width * height, prev, firstAt, lastAt)
      && (samples == 0 <==> prev == None)
      && (prev.Some? ==> Drawn() && lastAt <= sampledAt)
    }

    /** The last canvas is what the screens last seen and the seconds last shown make. */
    ghost predicate Drawn()
      reads this
    {
      && Alike(drawn, showTime) && shown.Some? == showTime && width == WidthOf(drawn) && height == HeightOf(drawn, showTime)
      && seen == SeenAll(drawn) && prev == Some(CanvasOf(drawn, shown))
    }

    constructor (showTime: bool, width: nat, height: nat)
      requires width > 0 && height > 0
      ensures Valid() && prev == None && frames == [] && this.showTime == showTime
    {
      this.showTime, this.width, this.height := showTime, width, height;
      prev, lastAt, sampledAt, shown, frames, samples, seen := None, 0, 0, None, [], 0, [];
      pixels, firstAt, drawn := [], 0, [];
    }

    /** Whether the screens look as they were last kept. */
    method LooksSame(screens: seq<Tv>) returns (same: bool)
      requires forall k :: 0 <= k < |screens| ==> Fitted(screens[k])
      ensures same <==> SeenAll(screens) == seen
    {
      if |seen| != |screens| {
        return false;
      }
      for k := 0 to |screens|
        invariant forall j :: 0 <= j < k ==> Seen(screens[j]) == seen[j]
      {
        if screens[k].width != seen[k].width || screens[k].height != seen[k].height || screens[k].stride != seen[k].stride
          || screens[k].blackOnWhite != seen[k].blackOnWhite || screens[k].buffer[..screens[k].height * screens[k].stride] != seen[k].words
        {
          assert SeenAll(screens)[k] != seen[k];
          return false;
        }
      }
      assert SeenAll(screens) == seen;
      return true;
    }

    /** The screens at `ns`: the recording, replayed, is the canvas they make; and a frame is made exactly
        when that is not what it last was, of the least rectangle that changed. The first sample sizes the
        canvas, and the screens stay of that size. */
    method Sample(screens: seq<Tv>, ns: nat, wall: nat)
      requires Valid() && (prev.Some? ==> sampledAt <= ns) && Alike(screens, showTime)
      requires prev.Some? ==> width == WidthOf(screens) && height == HeightOf(screens, showTime)
      modifies this
      ensures Valid() && prev == Some(CanvasOf(screens, Shown(showTime, ns, wall))) && sampledAt == ns
      ensures prev == old(prev) ==> frames == old(frames) && lastAt == old(lastAt) && firstAt == old(firstAt)
      ensures prev != old(prev) ==> lastAt == ns && |frames| == |old(frames)| + 1
      ensures prev != old(prev) && old(prev).Some? ==>
                && Least(old(prev).value, prev.value, width, height, frames[|frames| - 1].rect)
                && frames[..|frames| - 1] == WithDelay(old(frames), ns - old(lastAt)) && firstAt == old(firstAt)
    {
      hide Least, Recorded, WithDelay, CanvasOf, Alike, SeenAll, WidthOf, HeightOf;
      var line := Shown(showTime, ns, wall);
      AlikeFits(screens, showTime);
      var same := LooksSame(screens);
      if samples > 0 && shown == line && same {
        UnchangedLooks(drawn, screens, line);
        samples := samples + 1;
        sampledAt := ns;
        return;
      }
      SampleAnew(screens, line, ns);
    }

    /** A sample that builds a canvas. */
    method SampleAnew(screens: seq<Tv>, line: Option<(nat, nat)>, ns: nat)
      requires Valid() && (prev.Some? ==> sampledAt <= ns) && Alike(screens, showTime) && line.Some? == showTime
      requires prev.Some? ==> width == WidthOf(screens) && height == HeightOf(screens, showTime)
      modifies this
      ensures Valid() && prev == Some(CanvasOf(screens, line)) && sampledAt == ns
      ensures prev == old(prev) ==> frames == old(frames) && lastAt == old(lastAt) && firstAt == old(firstAt)
      ensures prev != old(prev) ==> lastAt == ns && |frames| == |old(frames)| + 1
      ensures prev != old(prev) && old(prev).Some? ==>
                && Least(old(prev).value, prev.value, width, height, frames[|frames| - 1].rect)
                && frames[..|frames| - 1] == WithDelay(old(frames), ns - old(lastAt)) && firstAt == old(firstAt)
    {
      hide Least, Recorded, WithDelay, CanvasOf, Alike, SeenAll, WidthOf, HeightOf;
      AlikeFits(screens, showTime);
      CanvasIsSmall(screens, line);
      var cur := CanvasOf(screens, line);
      if samples == 0 {
        Unrecorded(frames, pixels, width, height, WidthOf(screens), HeightOf(screens, showTime), firstAt, lastAt);
        width, height := WidthOf(screens), HeightOf(screens, showTime);
      }
      seen, shown, samples, sampledAt, drawn := SeenAll(screens), line, samples + 1, ns, screens;
      Keep(cur, ns);
    }

    /** The canvas of a sample: a frame of what changed, if anything did. */
    method Keep(cur: Canvas, ns: nat)
      requires width > 0 && |cur| == width * height && (forall k :: 0 <= k < |cur| ==> cur[k] < 2)
      requires Recorded(frames, pixels, width, width * height, prev, firstAt, lastAt) && (prev.Some? ==> lastAt <= ns)
      modifies this`prev, this`lastAt, this`frames, this`pixels, this`firstAt
      ensures Recorded(frames, pixels, width, width * height, prev, firstAt, lastAt) && prev == Some(cur) && lastAt <= ns
      ensures prev == old(prev) ==> frames == old(frames) && lastAt == old(lastAt) && firstAt == old(firstAt)
      ensures prev != old(prev) ==> lastAt == ns && |frames| == |old(frames)| + 1
      ensures prev != old(prev) && old(prev).Some? ==>
                && Least(old(prev).value, prev.value, width, height, frames[|frames| - 1].rect)
                && frames[..|frames| - 1] == WithDelay(old(frames), ns - old(lastAt)) && firstAt == old(firstAt)
    {
      hide Least, Recorded, WithDelay;
      if prev == None {
        AllCovered(cur, width, height);
        AddFrame(cur, Rect(0, 0, width, height), ns);
      } else {
        RecordedSize(frames, pixels, width, width * height, prev, firstAt, lastAt);
        var rect := ChangedRect(prev.value, cur, width, height);
        if rect.Some? {
          LeastCovers(prev.value, cur, width, height, rect.value);
          AddFrame(cur, rect.value, ns);
        }
      }
    }

    /** A frame of a rectangle of the canvas, the one before it timed by it. */
    method AddFrame(cur: Canvas, r: Rect, ns: nat)
      requires width > 0 && Recorded(frames, pixels, width, width * height, prev, firstAt, lastAt)
      requires |cur| == width * height && (forall k :: 0 <= k < |cur| ==> cur[k] < 2)
      requires Covers(prev, cur, width, height, r) && r.width > 0 && (prev.Some? ==> lastAt <= ns)
      modifies this`prev, this`lastAt, this`frames, this`pixels, this`firstAt
      ensures Recorded(frames, pixels, width, width * height, prev, firstAt, lastAt)
      ensures prev == Some(cur) && lastAt == ns && |frames| == |old(frames)| + 1 && frames[|frames| - 1].rect == r
      ensures frames[..|frames| - 1] == WithDelay(old(frames), if old(prev).Some? then ns - old(lastAt) else 0)
      ensures old(prev).Some? ==> firstAt == old(firstAt)
    {
      hide Recorded, Covers, ReadsBack;
      assert r.left + r.width <= width && r.top + r.height <= height by { CoversFits(prev, cur, width, height, r); }
      var delay := if prev.Some? then ns - lastAt else 0;
      var p := TakePixels(cur, width, height, r);
      PixelsSmall(cur, width, r);
      SmallPowers();
      var data := Encode(2, p, MIN_BITS);
      RecordedNext(frames, pixels, width, height, prev, firstAt, lastAt, cur, Frame(0, r, data), ns);
      frames := WithDelay(frames, delay) + [Frame(0, r, data)];
      pixels, firstAt := pixels + [p], if prev.Some? then firstAt else ns;
      lastAt, prev := ns, Some(cur);
    }

    /** How long frame `k` stays up: the last until the end of the recording, with a second to spare. */
    function DelayOf(k: nat): nat
      reads this
      requires Valid() && k < |frames|
    {
      if k + 1 == |frames| then (if lastAt <= sampledAt then sampledAt - lastAt else 0) + SECOND else frames[k].delay
    }

    /** The frames stay up, all together, from the first sample to the last and a second more. */
    lemma ShowsWhole()
      requires Valid() && prev.Some?
      ensures frames != [] && Delays(frames[..|frames| - 1]) + DelayOf(|frames| - 1) == sampledAt - firstAt + SECOND
    {
    }
  }

  lemma AlikeFits(screens: seq<Tv>, line: bool)
    requires Alike(screens, line)
    ensures screens != [] && (forall k :: 0 <= k < |screens| ==> Fitted(screens[k])) && WidthOf(screens) > 0 && HeightOf(screens, line) > 0
  {
    assert Fitted(screens[0]);
  }

  /** With nothing recorded the canvas may be of any size. */
  lemma Unrecorded(frames: seq<Frame>, pixels: seq<seq<nat>>, width: nat, height: nat, w: nat, h: nat, firstAt: nat, lastAt: nat)
    requires width > 0 && w > 0 && Recorded(frames, pixels, width, width * height, None, firstAt, lastAt)
    ensures Recorded(frames, pixels, w, w * h, None, firstAt, lastAt)
  {
    hide ReadsBack, Replay;
  }

  lemma AllCovered(cur: Canvas, width: nat, height: nat)
    ensures Covers(None, cur, width, height, Rect(0, 0, width, height))
  {
  }

  lemma LeastCovers(a: Canvas, b: Canvas, width: nat, height: nat, r: Rect)
    requires Least(a, b, width, height, r)
    ensures Covers(Some(a), b, width, height, r) && r.width > 0
  {
    hide Differs;
  }

  lemma CoversFits(prev: Option<Canvas>, cur: Canvas, width: nat, height: nat, r: Rect)
    requires Covers(prev, cur, width, height, r)
    ensures r.left + r.width <= width && r.top + r.height <= height
  {
    hide Differs;
  }

  lemma RecordedSize(frames: seq<Frame>, pixels: seq<seq<nat>>, width: nat, size: nat, last: Option<Canvas>, firstAt: nat, lastAt: nat)
    requires width > 0 && Recorded(frames, pixels, width, size, last, firstAt, lastAt) && last.Some?
    ensures |last.value| == size
  {
  }
}
