/** The canvas of a recording: the machines' screens side by side, and the clock line below them. */
module Screens {
  import opened Arithmetic
  import opened Netlist
  import opened BitStream

  /** A canvas, row by row. */
  type Canvas = seq<nat>

  /** A board's screen: its buffer, the size of what it shows and the words a line of it takes, and
      whether ones are black. */
  datatype Tv = Tv(buffer: seq<nat>, width: nat, height: nat, stride: nat, blackOnWhite: bool)

  /** What of a screen is kept to tell whether it has changed. */
  datatype Look = Look(words: seq<nat>, width: nat, height: nat, stride: nat, blackOnWhite: bool)

  /** A screen a board can show: a line is no wider than its words, and the buffer holds every line. */
  ghost predicate Fitted(t: Tv) { 0 < t.width <= t.stride * 32 && 0 < t.height && t.height * t.stride <= |t.buffer| }

  function Seen(t: Tv): Look
    requires Fitted(t)
  {
    Look(t.buffer[..t.height * t.stride], t.width, t.height, t.stride, t.blackOnWhite)
  }

  // ---- A screen ----

  predicate Bit(word: nat, k: nat) { word / Pow2(k) % 2 == 1 }

  /** The bit of a pixel, the lines of the buffer one after another. */
  function BitOf(t: Tv, x: nat, y: nat): nat { y * t.stride * 32 + x }

  predicate ShowsWhite(t: Tv, x: nat, y: nat) {
    var bit := BitOf(t, x, y);
    bit / 32 < |t.buffer| && Bit(t.buffer[bit / 32], bit % 32) != t.blackOnWhite
  }

  /** A pixel shown is of a word of its own line, and so of a word a sample looks at. */
  lemma OwnLine(t: Tv, x: nat, y: nat)
    requires Fitted(t) && x < t.width && y < t.height
    ensures BitOf(t, x, y) / 32 == y * t.stride + x / 32 < t.height * t.stride
  {
    var q, r := x / 32, x % 32;
    assert BitOf(t, x, y) == (y * t.stride + q) * 32 + r;
    DivUnique(y * t.stride + q, 32, r);
    MulAtMost(y + 1, t.height, t.stride);
    assert (y + 1) * t.stride == y * t.stride + t.stride;
  }

  /** Screens that look alike show alike. */
  lemma LooksDecide(t: Tv, u: Tv, x: nat, y: nat)
    requires Fitted(t) && Fitted(u) && Seen(t) == Seen(u) && x < t.width && y < t.height
    ensures ShowsWhite(t, x, y) == ShowsWhite(u, x, y)
  {
    OwnLine(t, x, y);
    OwnLine(u, x, y);
    var k := BitOf(t, x, y) / 32;
    assert t.buffer[k] == Seen(t).words[k] == Seen(u).words[k] == u.buffer[k];
  }

  // ---- The clock line ----

  const GLYPH_W: nat := 5
  const GLYPH_H: nat := 7
  const SCALE: nat := 2
  const TIME_H: nat := 2 * GLYPH_H + 8
  const TIME_W: nat := 8 * (GLYPH_W + 1) * SCALE - SCALE
  const TIME_MARGIN: nat := 6

  /** Ten digits and a colon, seven rows each, a row's pixels from its high bit down. */
  const GLYPHS: seq<seq<nat>> :=
    [[14, 17, 19, 21, 25, 17, 14], [4, 12, 4, 4, 4, 4, 14], [14, 17, 1, 2, 4, 8, 31], [31, 2, 4, 2, 1, 17, 14],
     [2, 6, 10, 18, 31, 2, 2], [31, 16, 30, 1, 1, 17, 14], [6, 8, 16, 30, 17, 17, 14], [31, 1, 2, 4, 8, 8, 8],
     [14, 17, 17, 14, 17, 17, 14], [14, 17, 17, 15, 1, 2, 12], [0, 4, 4, 0, 4, 4, 0]]

  /** The hours, minutes and seconds of a number of seconds, by glyph; hours past ninety-nine wrap. */
  function ClockText(s: nat): (t: seq<nat>)
    ensures |t| == 8 && forall k :: 0 <= k < 8 ==> t[k] < 11
  {
    var hh, mm, ss := s / 3600, s / 60 % 60, s % 60;
    [hh / 10 % 10, hh % 10, 10, mm / 10, mm % 10, 10, ss / 10, ss % 10]
  }

  /** Whether the clock of `s` drawn from column `x0` inks a pixel of the line. */
  predicate Inks(s: nat, x0: nat, x: nat, down: nat) {
    && x0 <= x && 4 <= down
    && var cell, col, row := (x - x0) / ((GLYPH_W + 1) * SCALE), (x - x0) % ((GLYPH_W + 1) * SCALE) / SCALE, (down - 4) / SCALE;
       cell < 8 && col < GLYPH_W && row < GLYPH_H && GlyphInks(ClockText(s)[cell], row, col)
  }

  predicate GlyphInks(g: nat, row: nat, col: nat) {
    g < |GLYPHS| && row < |GLYPHS[g]| && col < GLYPH_W && Bit(GLYPHS[g][row], GLYPH_W - 1 - col)
  }

  /** A clock keeps to its own columns of the line and off its two edges. */
  lemma InksWithin(s: nat, x0: nat, x: nat, down: nat)
    requires Inks(s, x0, x, down)
    ensures x0 <= x < x0 + TIME_W && 4 <= down < TIME_H - 4
  {
  }

  // ---- The canvas ----

  const PAIR_RULE: nat := 2

  predicate OfOneSize(t: Tv, u: Tv) { u.width == t.width && u.height == t.height && u.stride == t.stride }

  /** Screens of one size, wide enough for the clocks if they are shown. */
  ghost predicate Alike(screens: seq<Tv>, line: bool) {
    && screens != [] && (forall k :: 0 <= k < |screens| ==> Fitted(screens[k]) && OfOneSize(screens[0], screens[k]))
    && (line ==> TIME_MARGIN + TIME_W <= WidthOf(screens))
  }

  function WidthOf(screens: seq<Tv>): nat
    requires screens != []
  {
    |screens| * screens[0].width + (|screens| - 1) * PAIR_RULE
  }

  function HeightOf(screens: seq<Tv>, line: bool): nat
    requires screens != []
  {
    screens[0].height + if line then TIME_H else 0
  }

  /** A pixel of the canvas: of a screen, of the rule between two of them, or of the clock line below. */
  function CanvasAt(screens: seq<Tv>, line: Option<(nat, nat)>, width: nat, x: nat, y: nat): nat
    requires screens != []
  {
    var sw, sh := screens[0].width, screens[0].height;
    if y < sh then
      var k, i := x / (sw + PAIR_RULE), x % (sw + PAIR_RULE);
      if i >= sw then 1 else if k < |screens| && ShowsWhite(screens[k], i, y) then 1 else 0
    else
      match line
      case None => 0
      case Some((machine, wall)) =>
        if Inks(machine, TIME_MARGIN, x, y - sh) || (TIME_MARGIN + TIME_W <= width && Inks(wall, width - TIME_MARGIN - TIME_W, x, y - sh)) then 1 else 0
  }

  function CanvasOf(screens: seq<Tv>, line: Option<(nat, nat)>): (c: Canvas)
    requires screens != []
  {
    var width := WidthOf(screens);
    seq(width * HeightOf(screens, line.Some?), k requires 0 <= k < width * HeightOf(screens, line.Some?) =>
      if width == 0 then 0 else CanvasAt(screens, line, width, k % width, k / width))
  }

  lemma CanvasIsSmall(screens: seq<Tv>, line: Option<(nat, nat)>)
    requires screens != []
    ensures |CanvasOf(screens, line)| == WidthOf(screens) * HeightOf(screens, line.Some?)
    ensures forall k :: 0 <= k < |CanvasOf(screens, line)| ==> CanvasOf(screens, line)[k] < 2
  {
    hide CanvasAt, WidthOf, HeightOf;
    forall x: nat, y: nat
      ensures CanvasAt(screens, line, WidthOf(screens), x, y) < 2
    {
      PixelIsSmall(screens, line, WidthOf(screens), x, y);
    }
  }

  lemma PixelIsSmall(screens: seq<Tv>, line: Option<(nat, nat)>, width: nat, x: nat, y: nat)
    requires screens != []
    ensures CanvasAt(screens, line, width, x, y) < 2
  {
    hide Inks, ShowsWhite;
  }

  function SeenAll(screens: seq<Tv>): (l: seq<Look>)
    requires forall k :: 0 <= k < |screens| ==> Fitted(screens[k])
    ensures |l| == |screens|
  {
    seq(|screens|, k requires 0 <= k < |screens| => Seen(screens[k]))
  }

  /** Screens that look as others did, within the same seconds, make the canvas those made. */
  lemma UnchangedLooks(a: seq<Tv>, b: seq<Tv>, line: Option<(nat, nat)>)
    requires Alike(a, line.Some?) && Alike(b, line.Some?) && SeenAll(a) == SeenAll(b)
    ensures CanvasOf(a, line) == CanvasOf(b, line)
  {
    forall k | 0 <= k < |a|
      ensures Seen(a[k]) == Seen(b[k])
    {
      assert SeenAll(a)[k] == SeenAll(b)[k];
    }
    assert Seen(a[0]) == Seen(b[0]);
    forall x: nat, y: nat
      ensures CanvasAt(a, line, WidthOf(a), x, y) == CanvasAt(b, line, WidthOf(a), x, y)
    {
      SamePixel(a, b, line, x, y);
    }
    SameEverywhere(a, b, line);
  }

  lemma SameEverywhere(a: seq<Tv>, b: seq<Tv>, line: Option<(nat, nat)>)
    requires a != [] && b != [] && WidthOf(a) == WidthOf(b) && HeightOf(a, line.Some?) == HeightOf(b, line.Some?)
    requires forall x: nat, y: nat :: CanvasAt(a, line, WidthOf(a), x, y) == CanvasAt(b, line, WidthOf(a), x, y)
    ensures CanvasOf(a, line) == CanvasOf(b, line)
  {
    hide CanvasAt, WidthOf, HeightOf;
    var width := WidthOf(a);
    var c, d := CanvasOf(a, line), CanvasOf(b, line);
    forall k: nat | k < |c|
      ensures c[k] == d[k]
    {
      assert width > 0 ==> CanvasAt(a, line, width, k % width, k / width) == CanvasAt(b, line, width, k % width, k / width);
    }
    assert |c| == |d|;
  }

  lemma SamePixel(a: seq<Tv>, b: seq<Tv>, line: Option<(nat, nat)>, x: nat, y: nat)
    requires Alike(a, line.Some?) && Alike(b, line.Some?) && |a| == |b|
    requires forall k :: 0 <= k < |a| ==> Seen(a[k]) == Seen(b[k])
    ensures CanvasAt(a, line, WidthOf(a), x, y) == CanvasAt(b, line, WidthOf(b), x, y)
  {
    hide Inks, ShowsWhite;
    assert Seen(a[0]) == Seen(b[0]);
    var sw := a[0].width;
    var k, i := x / (sw + PAIR_RULE), x % (sw + PAIR_RULE);
    if y < a[0].height && k < |a| && i < sw {
      assert Seen(a[k]) == Seen(b[k]);
      LooksDecide(a[k], b[k], i, y);
    }
  }
}
