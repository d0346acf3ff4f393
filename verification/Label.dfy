/** A pack's label: its shape and its partitions, written to a block and read back. */
module PackLabel {
  import opened Arithmetic
  import opened Netlist
  import opened BitStream
  import opened Bytes

  const BLOCK_WORDS: nat := 256
  const LABL: nat := 0x4C42_414C
  const COUNT_AT: nat := 128
  const WIDTH_AT: nat := 129
  const TABLE_AT: nat := 130
  const U32_MAX: nat := 0xFFFF_FFFF

  /** Text, a character a byte. */
  type Text = seq<Byte>

  datatype Partition = Partition(name: Text, start: nat, blocks: nat, comment: Text)

  datatype Label = Label(version: nat, cylinders: nat, heads: nat, blocksPerTrack: nat, blocksPerCylinder: nat,
                         microload: Text, band: Text, drive: Text, packName: Text, comment: Text,
                         width: nat, partitions: seq<Partition>)

  // ---- Text in words, four characters to one, the first low ----

  predicate Ascii(s: Text) { forall i :: 0 <= i < |s| ==> s[i] < 128 }

  function Padded(s: Text, n: nat): (p: Text)
    ensures |p| == if |s| < n then n else |s|
  {
    if |s| < n then s + Zeros(n - |s|) else s
  }

  /** Bytes as words. */
  function Packed(s: Text): (w: seq<nat>)
    decreases |s|
  {
    if |s| < 4 then [] else [WordOf(s[..4])] + Packed(s[4..])
  }

  function TextOf(w: seq<nat>): (s: Text)
    ensures |s| == 4 * |w|
  {
    if w == [] then [] else LowBytes(w[0], 4) + TextOf(w[1..])
  }

  lemma {:induction false} PackedReads(s: Text)
    requires |s| % 4 == 0
    ensures |Packed(s)| == |s| / 4 && TextOf(Packed(s)) == s
    decreases |s|
  {
    if s != [] {
      PackedReads(s[4..]);
      WordIsLow(s[..4]);
      assert s == s[..4] + s[4..];
      assert Packed(s)[1..] == Packed(s[4..]);
    }
  }

  predicate Blank(c: Byte) { 9 <= c <= 13 || c == 32 || c == 0x85 || c == 0xA0 }

  function WithoutNuls(s: Text): (r: Text) { if s == [] then [] else (if s[0] == 0 then [] else [s[0]]) + WithoutNuls(s[1..]) }

  function TrimNuls(s: Text): (r: Text)
    ensures r <= s
  {
    if s != [] && s[|s| - 1] == 0 then TrimNuls(s[..|s| - 1]) else s
  }

  function TrimBlanks(s: Text): (r: Text)
    ensures r <= s
  {
    if s != [] && Blank(s[|s| - 1]) then TrimBlanks(s[..|s| - 1]) else s
  }

  function Trimmed(s: Text): Text { TrimBlanks(TrimNuls(s)) }

  lemma {:induction false} TrimPadding(s: Text, n: nat)
    ensures TrimNuls(s + Zeros(n)) == TrimNuls(s)
    decreases n
  {
    var p := s + Zeros(n);
    if n == 0 {
      assert p == s;
    } else {
      assert p[..|p| - 1] == s + Zeros(n - 1);
      TrimPadding(s, n - 1);
    }
  }

  lemma {:induction false} NulsPadding(s: Text, n: nat)
    ensures WithoutNuls(s + Zeros(n)) == WithoutNuls(s)
    decreases |s|, n
  {
    if s == [] {
      assert s + Zeros(n) == Zeros(n);
      NoNuls(n);
    } else {
      assert (s + Zeros(n))[1..] == s[1..] + Zeros(n);
      NulsPadding(s[1..], n);
    }
  }

  lemma {:induction false} NoNuls(n: nat)
    ensures WithoutNuls(Zeros(n)) == []
  {
    if n > 0 {
      assert Zeros(n)[1..] == Zeros(n - 1);
      NoNuls(n - 1);
    }
  }

  // ---- A word's name, and a field's text ----

  /** Four characters or fewer, as a word. */
  function NameWord(s: Text): nat { WordOf(Padded(s, 4)) }

  predicate NameFits(s: Text) { |s| <= 4 && Ascii(s) }

  function NameOf(w: nat): Text { WithoutNuls(LowBytes(w, 4)) }

  function FieldWords(s: Text, words: nat): seq<nat> { Packed(Padded(s, 4 * words)) }

  predicate FieldFits(s: Text, words: nat) { |s| <= 4 * words && Ascii(s) }

  function FieldOf(w: seq<nat>): Text { Trimmed(TextOf(w)) }

  lemma NameReads(s: Text)
    requires NameFits(s)
    ensures NameOf(NameWord(s)) == WithoutNuls(s)
  {
    var p := Padded(s, 4);
    WordIsLow(p);
    NulsPadding(s, 4 - |s|);
    assert p == s + Zeros(4 - |s|);
  }

  lemma FieldReads(s: Text, words: nat)
    requires FieldFits(s, words)
    ensures |FieldWords(s, words)| == words && FieldOf(FieldWords(s, words)) == Trimmed(s)
  {
    hide Packed, TextOf, TrimNuls, TrimBlanks;
    var p := Padded(s, 4 * words);
    assert p == s + Zeros(4 * words - |s|);
    PackedReads(p);
    TrimPadding(s, 4 * words - |s|);
  }

  // ---- A label's words ----

  function EntryWords(p: Partition, width: nat): (w: seq<nat>)
    requires width >= 3
  {
    [NameWord(p.name), p.start, p.blocks] + FieldWords(p.comment, width - 3)
  }

  predicate EntryFits(p: Partition, width: nat) { width >= 3 && NameFits(p.name) && FieldFits(p.comment, width - 3) }

  function EntryOf(d: seq<nat>): Partition
    requires |d| >= 3
  {
    Partition(NameOf(d[0]), d[1], d[2], FieldOf(d[3..]))
  }

  function Table(ps: seq<Partition>, width: nat): seq<nat>
    requires width >= 3
  {
    if ps == [] then [] else Table(ps[..|ps| - 1], width) + EntryWords(ps[|ps| - 1], width)
  }

  /** Refused rather than cut short. */
  predicate Fits(l: Label) {
    && NameFits(l.microload) && NameFits(l.band)
    && FieldFits(l.drive, 8) && FieldFits(l.packName, 8) && FieldFits(l.comment, 24)
    && l.width >= 3 && |l.partitions| <= (BLOCK_WORDS - TABLE_AT) / l.width
    && forall i :: 0 <= i < |l.partitions| ==> EntryFits(l.partitions[i], l.width)
  }

  /** Words 0 to 129: what comes before the table. */
  function Head(l: Label): seq<nat> {
    Texts(l) + ZeroWords(80) + [|l.partitions|, l.width]
  }

  function ZeroWords(n: nat): (w: seq<nat>)
    ensures |w| == n && forall i :: 0 <= i < n ==> w[i] == 0
  {
    seq(n, _ => 0)
  }

  /** The block a label is written as, if it fits one. */
  function Words(l: Label): Option<seq<nat>> {
    if !Fits(l) then None
    else
      var w := Head(l) + Table(l.partitions, l.width);
      Some(w + ZeroWords(if |w| < BLOCK_WORDS then BLOCK_WORDS - |w| else 0))
  }

  // ---- A label read ----

  function EntriesOf(w: seq<nat>, at: nat, width: nat, n: nat): (ps: seq<Partition>)
    requires width >= 3 && at + n * width <= |w|
    ensures |ps| == n
    decreases n
  {
    if n == 0 then []
    else
      EntryRoom(n, width);
      EntriesOf(w, at, width, n - 1) + [EntryOf(w[at + (n - 1) * width..at + n * width])]
  }

  lemma EntryRoom(n: nat, width: nat)
    requires n > 0
    ensures (n - 1) * width + width == n * width
  {
  }

  /** Block 0, as a label, if it is one. */
  function Open(w: seq<nat>): Option<Label> {
    if |w| != BLOCK_WORDS || w[0] != LABL || w[1] != 1 then None
    else
      var count, width := w[COUNT_AT], w[WIDTH_AT];
      if width < 3 || TABLE_AT + count * width > BLOCK_WORDS then None
      else
        Some(Label(w[1], w[2], w[3], w[4], w[5], NameOf(w[6]), NameOf(w[7]), FieldOf(w[8..16]), FieldOf(w[16..24]), FieldOf(w[24..48]),
                   width, EntriesOf(w, TABLE_AT, width, count)))
  }

  /** What a label's text comes back as: names without NULs, fields without the blanks they end in. */
  function Clean(l: Label): Label {
    l.(microload := WithoutNuls(l.microload), band := WithoutNuls(l.band), drive := Trimmed(l.drive), packName := Trimmed(l.packName),
       comment := Trimmed(l.comment), partitions := CleanEntries(l.partitions))
  }

  function CleanEntry(p: Partition): Partition { p.(name := WithoutNuls(p.name), comment := Trimmed(p.comment)) }

  function CleanEntries(ps: seq<Partition>): (r: seq<Partition>)
    ensures |r| == |ps|
  {
    seq(|ps|, i requires 0 <= i < |ps| => CleanEntry(ps[i]))
  }

  lemma EntryReads(p: Partition, width: nat)
    requires EntryFits(p, width)
    ensures |EntryWords(p, width)| == width && EntryOf(EntryWords(p, width)) == CleanEntry(p)
  {
    hide NameOf, NameWord, FieldOf, FieldWords;
    NameReads(p.name);
    FieldReads(p.comment, width - 3);
    assert EntryWords(p, width)[3..] == FieldWords(p.comment, width - 3);
  }

  lemma {:induction false} TableReads(ps: seq<Partition>, width: nat, pre: seq<nat>, post: seq<nat>)
    requires width >= 3 && forall i :: 0 <= i < |ps| ==> EntryFits(ps[i], width)
    ensures |Table(ps, width)| == |ps| * width
    ensures EntriesOf(pre + Table(ps, width) + post, |pre|, width, |ps|) == CleanEntries(ps)
    decreases |ps|
  {
    hide EntryOf, EntryWords, EntryFits, CleanEntry;
    if ps != [] {
      var n := |ps| - 1;
      var e, t := EntryWords(ps[n], width), Table(ps[..n], width);
      TableReads(ps[..n], width, pre, e + post);
      EntryReads(ps[n], width);
      EntryRoom(n + 1, width);
      assert Table(ps, width) == t + e;
      LastEntry(pre, t, e, post);
    }
  }

  lemma LastEntry(pre: seq<nat>, t: seq<nat>, e: seq<nat>, post: seq<nat>)
    ensures pre + (t + e) + post == pre + t + (e + post)
    ensures (pre + (t + e) + post)[|pre| + |t|..|pre| + |t| + |e|] == e
  {
  }

  lemma HeadParts(l: Label, h: seq<nat>)
    requires Fits(l) && h == Head(l)
    ensures |h| == TABLE_AT && h[COUNT_AT] == |l.partitions| && h[WIDTH_AT] == l.width
    ensures h[8..16] == FieldWords(l.drive, 8) && h[16..24] == FieldWords(l.packName, 8) && h[24..48] == FieldWords(l.comment, 24)
    ensures h[..8] == [LABL, l.version, l.cylinders, l.heads, l.blocksPerTrack, l.blocksPerCylinder, NameWord(l.microload), NameWord(l.band)]
  {
    hide NameWord, FieldWords, EntryFits, FieldOf;
    FieldReads(l.drive, 8);
    FieldReads(l.packName, 8);
    FieldReads(l.comment, 24);
  }

  /** What comes before the table, as it is read. */
  lemma HeadReads(l: Label, w: seq<nat>)
    requires Fits(l) && |w| >= TABLE_AT && Head(l) == w[..TABLE_AT]
    ensures w[0] == LABL && w[1] == l.version && w[2] == l.cylinders && w[3] == l.heads && w[4] == l.blocksPerTrack && w[5] == l.blocksPerCylinder
    ensures NameOf(w[6]) == WithoutNuls(l.microload) && NameOf(w[7]) == WithoutNuls(l.band)
    ensures FieldOf(w[8..16]) == Trimmed(l.drive) && FieldOf(w[16..24]) == Trimmed(l.packName) && FieldOf(w[24..48]) == Trimmed(l.comment)
    ensures w[COUNT_AT] == |l.partitions| && w[WIDTH_AT] == l.width
  {
    hide Head, NameOf, NameWord, FieldOf, FieldWords, EntryFits, Trimmed, WithoutNuls;
    var h := w[..TABLE_AT];
    HeadParts(l, h);
    HeadTexts(l);
    assert w[8..16] == h[8..16] && w[16..24] == h[16..24] && w[24..48] == h[24..48];
    var f := h[..8];
    assert w[0] == f[0] && w[1] == f[1] && w[2] == f[2] && w[3] == f[3] && w[4] == f[4] && w[5] == f[5] && w[6] == f[6] && w[7] == f[7];
  }

  lemma HeadTexts(l: Label)
    requires Fits(l)
    ensures NameOf(NameWord(l.microload)) == WithoutNuls(l.microload) && NameOf(NameWord(l.band)) == WithoutNuls(l.band)
    ensures FieldOf(FieldWords(l.drive, 8)) == Trimmed(l.drive) && FieldOf(FieldWords(l.packName, 8)) == Trimmed(l.packName)
    ensures FieldOf(FieldWords(l.comment, 24)) == Trimmed(l.comment)
  {
    hide NameOf, NameWord, FieldOf, FieldWords, EntryFits, Trimmed, WithoutNuls;
    NameReads(l.microload);
    NameReads(l.band);
    FieldReads(l.drive, 8);
    FieldReads(l.packName, 8);
    FieldReads(l.comment, 24);
  }

  lemma TableRoom(count: nat, width: nat)
    requires width > 0 && count <= (BLOCK_WORDS - TABLE_AT) / width
    ensures TABLE_AT + count * width <= BLOCK_WORDS
  {
    MulAtMost(count, (BLOCK_WORDS - TABLE_AT) / width, width);
  }

  /** A label written is a block, and opens, for the version there is, as the label, its text clean. */
  lemma WordsOpen(l: Label)
    requires Fits(l) && l.version == 1
    ensures Words(l).Some? && |Words(l).value| == BLOCK_WORDS && Open(Words(l).value) == Some(Clean(l))
  {
    hide Head, Table, NameOf, FieldOf, EntriesOf, EntryFits, CleanEntries;
    HeadParts(l, Head(l));
    TableRoom(|l.partitions|, l.width);
    var h, t := Head(l), Table(l.partitions, l.width);
    TableFits(l);
    TableReads(l.partitions, l.width, h, []);
    var z := ZeroWords(BLOCK_WORDS - |h + t|);
    TableReads(l.partitions, l.width, h, z);
    var w := h + t + z;
    assert w[..TABLE_AT] == h;
    HeadReads(l, w);
    hide Fits;
  }

  lemma TableFits(l: Label)
    requires Fits(l)
    ensures l.width >= 3 && forall i :: 0 <= i < |l.partitions| ==> EntryFits(l.partitions[i], l.width)
  {
    hide EntryFits;
  }

  /** So every field and partition comes back exactly when no name holds a NUL and no other text ends
      in one or in a blank. */
  lemma ComesBack(l: Label)
    requires Fits(l) && l.version == 1
    ensures Open(Words(l).value) == Some(l) <==>
              && WithoutNuls(l.microload) == l.microload && WithoutNuls(l.band) == l.band
              && Trimmed(l.drive) == l.drive && Trimmed(l.packName) == l.packName && Trimmed(l.comment) == l.comment
              && forall i :: 0 <= i < |l.partitions| ==> WithoutNuls(l.partitions[i].name) == l.partitions[i].name && Trimmed(l.partitions[i].comment) == l.partitions[i].comment
  {
    WordsOpen(l);
    hide Words, Open, Fits, WithoutNuls, Trimmed;
    if CleanEntries(l.partitions) == l.partitions {
      forall i | 0 <= i < |l.partitions|
        ensures CleanEntry(l.partitions[i]) == l.partitions[i]
      {
        assert CleanEntries(l.partitions)[i] == CleanEntry(l.partitions[i]);
      }
    }
  }

  /** A name is its own exactly when it holds no NUL; a text, when it ends in neither NUL nor blank. */
  lemma {:induction false} OwnName(s: Text)
    ensures WithoutNuls(s) == s <==> 0 !in s
    ensures |WithoutNuls(s)| <= |s|
  {
    if s != [] {
      OwnName(s[1..]);
      assert s == [s[0]] + s[1..];
      if s[0] == 0 {
        assert |WithoutNuls(s)| < |s|;
      } else {
        assert WithoutNuls(s)[1..] == WithoutNuls(s[1..]);
      }
    }
  }

  lemma OwnText(s: Text)
    ensures Trimmed(s) == s <==> s == [] || (s[|s| - 1] != 0 && !Blank(s[|s| - 1]))
  {
    if s != [] && s[|s| - 1] == 0 {
      assert |TrimNuls(s)| < |s|;
    } else if s != [] && Blank(s[|s| - 1]) {
      assert |TrimBlanks(s)| < |s|;
    }
  }

  // ---- Filling the block in ----

  function Char(s: Text, i: nat): Byte { if i < |s| then s[i] else 0 }

  /** The four characters of a word of text, NULs past its end. */
  function Quad(s: Text, k: nat): (q: Text) { [Char(s, 4 * k), Char(s, 4 * k + 1), Char(s, 4 * k + 2), Char(s, 4 * k + 3)] }

  lemma {:induction false} PackedAt(p: Text, k: nat)
    requires |p| % 4 == 0 && k < |p| / 4
    ensures |Packed(p)| == |p| / 4 && Packed(p)[k] == WordOf(p[4 * k..4 * k + 4])
    decreases |p|
  {
    hide WordOf;
    PackedReads(p);
    if k > 0 {
      PackedAt(p[4..], k - 1);
      assert p[4..][4 * (k - 1)..4 * (k - 1) + 4] == p[4 * k..4 * k + 4];
    }
  }

  lemma FieldAt(s: Text, words: nat, k: nat)
    requires FieldFits(s, words) && k < words
    ensures |FieldWords(s, words)| == words && FieldWords(s, words)[k] == WordOf(Quad(s, k))
  {
    hide Packed, WordOf;
    var p := Padded(s, 4 * words);
    PackedAt(p, k);
    assert p[4 * k..4 * k + 4] == Quad(s, k);
  }

  lemma QuadWord(s: Text, k: nat)
    ensures WordOf(Quad(s, k)) == Char(s, 4 * k) + 256 * (Char(s, 4 * k + 1) + 256 * (Char(s, 4 * k + 2) + 256 * Char(s, 4 * k + 3)))
  {
    FourWord(Char(s, 4 * k), Char(s, 4 * k + 1), Char(s, 4 * k + 2), Char(s, 4 * k + 3));
    hide WordOf;
  }

  lemma FourWord(a: Byte, b: Byte, c: Byte, d: Byte)
    ensures WordOf([a, b, c, d]) == a + 256 * (b + 256 * (c + 256 * d))
  {
    WordCons(a, [b, c, d]);
    WordCons(b, [c, d]);
    WordCons(c, [d]);
    WordCons(d, []);
    NoWord();
    assert [a, b, c, d] == [a] + [b, c, d] && [b, c, d] == [b] + [c, d] && [c, d] == [c] + [d] && [d] == [d] + [];
    hide WordOf;
  }

  /** A character put at its place in its word, where there was none. */
  lemma QuadNext(s: Text, i: nat, k: nat)
    requires i < |s|
    ensures WordOf(Quad(s[..i + 1], k)) == WordOf(Quad(s[..i], k)) + if k == i / 4 then s[i] * Pow256(i % 4) else 0
  {
    QuadWord(s[..i], k);
    QuadWord(s[..i + 1], k);
    assert Pow256(1) == 256;
    assert Pow256(2) == 0x1_0000;
    assert Pow256(3) == 0x100_0000;
    hide WordOf, Quad, Pow256;
  }

  /** Text into a run of words that hold nothing yet; text too long, or not ASCII, is refused. */
  method PutText(w: array<nat>, at: nat, words: nat, s: Text) returns (ok: bool)
    requires at + words <= w.Length && forall k :: at <= k < at + words ==> w[k] == 0
    modifies w
    ensures ok == FieldFits(s, words)
    ensures w[..] == if ok then old(w[..at]) + FieldWords(s, words) + old(w[at + words..]) else old(w[..])
  {
    hide Packed, WordOf, Quad, Pow256, FieldWords;
    if |s| > 4 * words || !Ascii(s) {
      return false;
    }
    forall k: nat
      ensures WordOf(Quad(s[..0], k)) == 0
    {
      QuadWord(s[..0], k);
    }
    for i := 0 to |s|
      invariant forall j :: at <= j < at + words ==> w[j] == WordOf(Quad(s[..i], j - at))
      invariant forall k :: 0 <= k < at || at + words <= k < w.Length ==> w[k] == old(w[k])
    {
      forall k: nat
        ensures WordOf(Quad(s[..i + 1], k)) == WordOf(Quad(s[..i], k)) + if k == i / 4 then s[i] * Pow256(i % 4) else 0
      {
        QuadNext(s, i, k);
      }
      w[at + i / 4] := w[at + i / 4] + s[i] * Pow256(i % 4);
    }
    assert s[..|s|] == s;
    forall k: nat | k < words
      ensures |FieldWords(s, words)| == words && w[at + k] == FieldWords(s, words)[k]
    {
      FieldAt(s, words, k);
    }
    FieldReads(s, words);
    hide FieldOf;
    assert w[at..at + words] == FieldWords(s, words);
    return true;
  }

  /** Words holding a beginning, and nothing after it. */
  ghost predicate Begun(w: seq<nat>, pre: seq<nat>) { |pre| <= |w| && w == pre + ZeroWords(|w| - |pre|) }

  lemma BegunNext(w: seq<nat>, pre: seq<nat>, f: seq<nat>, v: seq<nat>)
    requires Begun(w, pre) && |pre| + |f| <= |w| && v == w[..|pre|] + f + w[|pre| + |f|..]
    ensures Begun(v, pre + f)
  {
  }

  lemma BegunZeros(w: seq<nat>, pre: seq<nat>, n: nat)
    requires Begun(w, pre) && |pre| + n <= |w|
    ensures Begun(w, pre + ZeroWords(n)) && forall k :: |pre| <= k < |w| ==> w[k] == 0
  {
  }

  /** A field's text after what the block holds already. */
  method PutField(w: array<nat>, ghost pre: seq<nat>, at: nat, words: nat, s: Text) returns (ok: bool)
    requires Begun(w[..], pre) && at == |pre| && at + words <= w.Length
    modifies w
    ensures ok == FieldFits(s, words) && (ok ==> Begun(w[..], pre + FieldWords(s, words)) && |FieldWords(s, words)| == words)
  {
    hide FieldWords, Begun;
    ghost var was := w[..];
    BegunZeros(was, pre, 0);
    assert forall k :: at <= k < at + words ==> was[k] == 0;
    ok := PutText(w, at, words, s);
    if ok {
      FieldReads(s, words);
      hide FieldOf;
      BegunNext(was, pre, FieldWords(s, words), w[..]);
    }
  }

  /** A number after what the block holds already. */
  method PutWord(w: array<nat>, ghost pre: seq<nat>, at: nat, v: nat)
    requires Begun(w[..], pre) && at == |pre| < w.Length
    modifies w
    ensures Begun(w[..], pre + [v])
  {
    ghost var was := w[..];
    w[at] := v;
    assert w[..] == was[..at] + [v] + was[at + 1..];
    BegunNext(was, pre, [v], w[..]);
  }

  /** A partition's descriptor after what the block holds already. */
  method PutEntry(w: array<nat>, ghost pre: seq<nat>, at: nat, p: Partition, width: nat) returns (ok: bool)
    requires Begun(w[..], pre) && at == |pre| && at + width <= w.Length && width >= 3
    modifies w
    ensures ok == EntryFits(p, width)
    ensures ok ==> Begun(w[..], pre + EntryWords(p, width)) && |EntryWords(p, width)| == width
  {
    hide Begun, NameWord, FieldWords;
    if !NameFits(p.name) {
      return false;
    }
    PutWord(w, pre, at, NameWord(p.name));
    PutWord(w, pre + [NameWord(p.name)], at + 1, p.start);
    PutWord(w, pre + [NameWord(p.name)] + [p.start], at + 2, p.blocks);
    ok := PutField(w, pre + [NameWord(p.name)] + [p.start] + [p.blocks], at + 3, width - 3, p.comment);
    assert pre + [NameWord(p.name)] + [p.start] + [p.blocks] + FieldWords(p.comment, width - 3) == pre + EntryWords(p, width);
  }

  function Numbers(l: Label): (n: seq<nat>)
    ensures |n| == 8
  {
    [LABL, l.version, l.cylinders, l.heads, l.blocksPerTrack, l.blocksPerCylinder, NameWord(l.microload), NameWord(l.band)]
  }

  function Texts(l: Label): seq<nat> { Numbers(l) + FieldWords(l.drive, 8) + FieldWords(l.packName, 8) + FieldWords(l.comment, 24) }

  /** The label's own fields: its numbers, and its three texts after them. */
  method PutTexts(w: array<nat>, l: Label) returns (ok: bool)
    requires w.Length == BLOCK_WORDS && forall k :: 0 <= k < BLOCK_WORDS ==> w[k] == 0
    modifies w
    ensures ok == (FieldFits(l.drive, 8) && FieldFits(l.packName, 8) && FieldFits(l.comment, 24))
    ensures ok ==> Begun(w[..], Texts(l)) && |Texts(l)| == 48
  {
    hide Begun, NameWord, FieldWords, FieldFits;
    w[0], w[1], w[2], w[3] := LABL, l.version, l.cylinders, l.heads;
    w[4], w[5], w[6], w[7] := l.blocksPerTrack, l.blocksPerCylinder, NameWord(l.microload), NameWord(l.band);
    FirstEight(w[..], Numbers(l));
    hide Numbers;
    ok := PutField(w, Numbers(l), 8, 8, l.drive);
    if ok {
      ok := PutField(w, Numbers(l) + FieldWords(l.drive, 8), 16, 8, l.packName);
      if ok {
        ok := PutField(w, Numbers(l) + FieldWords(l.drive, 8) + FieldWords(l.packName, 8), 24, 24, l.comment);
      }
    }
  }

  /** The partitions' descriptors, one after another. */
  method PutTable(w: array<nat>, ghost head: seq<nat>, ps: seq<Partition>, width: nat) returns (ok: bool)
    requires w.Length == BLOCK_WORDS && Begun(w[..], head) && |head| == TABLE_AT && width >= 3 && TABLE_AT + |ps| * width <= BLOCK_WORDS
    modifies w
    ensures ok == forall k :: 0 <= k < |ps| ==> EntryFits(ps[k], width)
    ensures ok ==> Begun(w[..], head + Table(ps, width))
  {
    hide Begun, EntryFits, EntryWords, Table;
    NoTable(ps, width);
    assert head + [] == head;
    for i := 0 to |ps|
      invariant Begun(w[..], head + Table(ps[..i], width)) && |Table(ps[..i], width)| == i * width
      invariant forall k :: 0 <= k < i ==> EntryFits(ps[k], width)
    {
      MulAtMost(i + 1, |ps|, width);
      EntryRoom(i + 1, width);
      ok := PutEntry(w, head + Table(ps[..i], width), TABLE_AT + i * width, ps[i], width);
      if !ok {
        return false;
      }
      TableNext(ps, width, i, head);
    }
    assert ps[..|ps|] == ps;
    return true;
  }

  /** A block filled in with the label, word by word, or none. */
  method LabelWords(l: Label) returns (r: Option<seq<nat>>)
    ensures r == Words(l)
  {
    hide Begun, NameWord, FieldWords, EntryFits, Table, Head, Texts, NameFits, FieldFits;
    if !NameFits(l.microload) || !NameFits(l.band) {
      return None;
    }
    var w := new nat[BLOCK_WORDS](_ => 0);
    var ok := PutTexts(w, l);
    if !ok {
      return None;
    }
    var width := l.width;
    if width < 3 || |l.partitions| > (BLOCK_WORDS - TABLE_AT) / width {
      return None;
    }
    BegunZeros(w[..], Texts(l), 80);
    PutWord(w, Texts(l) + ZeroWords(80), COUNT_AT, |l.partitions|);
    PutWord(w, Texts(l) + ZeroWords(80) + [|l.partitions|], WIDTH_AT, width);
    HeadIs(l);
    TableRoom(|l.partitions|, width);
    ok := PutTable(w, Head(l), l.partitions, width);
    if !ok {
      return None;
    }
    BegunIs(w[..], Head(l) + Table(l.partitions, width));
    return Some(w[..]);
  }

  lemma FirstEight(w: seq<nat>, pre: seq<nat>)
    requires |w| == BLOCK_WORDS && |pre| == 8 && w[..8] == pre && forall k :: 8 <= k < BLOCK_WORDS ==> w[k] == 0
    ensures Begun(w, pre)
  {
    assert w == w[..8] + w[8..];
  }

  lemma HeadIs(l: Label)
    ensures Head(l) == Texts(l) + ZeroWords(80) + [|l.partitions|] + [l.width]
  {
    hide NameWord, FieldWords;
    assert ZeroWords(80) == seq(80, _ => 0);
  }

  lemma NoTable(ps: seq<Partition>, width: nat)
    requires width >= 3
    ensures Table(ps[..0], width) == []
  {
  }

  lemma TableNext(ps: seq<Partition>, width: nat, i: nat, head: seq<nat>)
    requires width >= 3 && i < |ps|
    ensures Table(ps[..i + 1], width) == Table(ps[..i], width) + EntryWords(ps[i], width)
    ensures head + Table(ps[..i + 1], width) == (head + Table(ps[..i], width)) + EntryWords(ps[i], width)
  {
    hide EntryWords;
    assert ps[..i + 1][..i] == ps[..i];
  }

  lemma BegunIs(w: seq<nat>, pre: seq<nat>)
    requires Begun(w, pre)
    ensures |pre| <= |w| && w == pre + ZeroWords(|w| - |pre|)
  {
  }

  // ---- Laying partitions out ----

  /** Where it ends, or the greatest block number if that is past it. */
  function End(p: Partition): nat { if p.start + p.blocks > U32_MAX then U32_MAX else p.start + p.blocks }

  function Saturated(n: nat): nat { if n > U32_MAX then U32_MAX else n }

  /** Where the partition before `k` ends, or the first block. */
  function Floor(ps: seq<Partition>, k: nat, first: nat): nat
    requires k <= |ps|
  {
    if k == 0 then first else End(ps[k - 1])
  }

  /** No earlier than they were, and each from `from` on clear of the one before it. */
  ghost predicate Clear(ps: seq<Partition>, was: seq<Partition>, from: nat, first: nat) {
    && |ps| == |was|
    && (forall i :: 0 <= i < |ps| ==> ps[i] == was[i].(start := ps[i].start) && was[i].start <= ps[i].start)
    && (forall i: nat {:trigger Floor(ps, i, first)} :: from <= i < |ps| ==> Floor(ps, i, first) <= ps[i].start)
  }

  /** Where the entry at `k` goes, those from `from` on pushed up out of the way. */
  function StartAt(ps: seq<Partition>, from: nat, first: nat, k: nat): (s: nat)
    requires k < |ps|
    ensures s >= ps[k].start
  {
    if k < from then ps[k].start
    else
      var block := if k == 0 then first else Saturated(StartAt(ps, from, first, k - 1) + ps[k - 1].blocks);
      if ps[k].start < block then block else ps[k].start
  }

  function LaidOut(ps: seq<Partition>, from: nat, first: nat): (r: seq<Partition>)
    ensures |r| == |ps|
  {
    seq(|ps|, k requires 0 <= k < |ps| => ps[k].(start := StartAt(ps, from, first, k)))
  }

  lemma LaidBefore(ps: seq<Partition>, from: nat, first: nat, begin: nat)
    requires begin <= |ps| && begin <= from
    ensures forall i :: 0 <= i < begin ==> StartAt(ps, from, first, i) == ps[i].start
    ensures Floor(ps, begin, first) == if begin == 0 then first else End(ps[begin - 1])
  {
  }

  /** The next entry put no lower than the end of the last. */
  lemma PlacedNext(ps: seq<Partition>, from: nat, first: nat, r: seq<Partition>, k: nat, block: nat)
    requires |r| == |ps| && from <= k < |ps| && r[k] == ps[k] && block == Floor(r, k, first)
    requires forall i :: 0 <= i < k ==> r[i] == ps[i].(start := StartAt(ps, from, first, i))
    ensures StartAt(ps, from, first, k) == if r[k].start < block then block else r[k].start
    ensures forall s: nat :: Floor(r[k := r[k].(start := s)], k + 1, first) == Saturated(s + r[k].blocks)
  {
    assert k > 0 ==> r[k - 1] == ps[k - 1].(start := StartAt(ps, from, first, k - 1));
  }

  /** Entries moved up no further than they must be to be clear of the last. */
  method LayOut(ps: seq<Partition>, from: nat, first: nat) returns (r: seq<Partition>)
    ensures r == LaidOut(ps, from, first)
  {
    hide StartAt, End, Floor;
    var begin := if from < |ps| then from else |ps|;
    LaidBefore(ps, from, first, begin);
    r := ps;
    var block := if begin == 0 then first else End(ps[begin - 1]);
    for k := begin to |ps|
      invariant |r| == |ps|
      invariant forall i :: 0 <= i < k ==> r[i] == ps[i].(start := StartAt(ps, from, first, i))
      invariant forall i :: k <= i < |ps| ==> r[i] == ps[i]
      invariant block == Floor(r, k, first)
    {
      var start := if r[k].start < block then block else r[k].start;
      PlacedNext(ps, from, first, r, k, block);
      r := r[k := r[k].(start := start)];
      block := Saturated(start + r[k].blocks);
    }
  }

  /** Laid out, no entry has moved down, and none overlaps the one before. */
  lemma LaidClear(ps: seq<Partition>, from: nat, first: nat)
    ensures Clear(LaidOut(ps, from, first), ps, from, first)
    ensures forall i :: 0 <= i < |ps| && i < from ==> LaidOut(ps, from, first)[i] == ps[i]
  {
  }

  /** And of all the starts that do neither, it has the least. */
  lemma {:induction false} LaidLeast(ps: seq<Partition>, from: nat, first: nat, other: seq<Partition>, k: nat)
    requires Clear(other, ps, from, first) && k < |ps|
    ensures LaidOut(ps, from, first)[k].start <= other[k].start
  {
    if k >= from {
      assert Floor(other, k, first) <= other[k].start;
      if k > 0 {
        LaidLeast(ps, from, first, other, k - 1);
        assert other[k - 1].blocks == ps[k - 1].blocks;
      }
    }
  }

  /** A pack type: its geometry, and each partition's name and size, blocks if negative, else
      cylinders. */
  datatype PackType = PackType(heads: nat, blocksPerTrack: nat, partitions: seq<(Text, int)>) {
    function Cylinder(): nat { heads * blocksPerTrack }

    function BlocksOf(size: int): nat { if size < 0 then -size else size * Cylinder() }
  }

  /** The first block of a cylinder no earlier than a block. */
  function AtCylinder(block: nat, bpc: nat): (b: nat)
    requires bpc > 0
    ensures block <= b < block + bpc && b % bpc == 0
  {
    var q, r := block / bpc, block % bpc;
    assert block == q * bpc + r;
    assert (q + 1) * bpc == q * bpc + bpc;
    DivUnique(q, bpc, 0);
    DivUnique(q + 1, bpc, 0);
    if r == 0 then q * bpc else (q + 1) * bpc
  }

  /** Where the first `k` partitions of a fresh pack leave off. */
  function FreeAt(t: PackType, k: nat): nat
    requires t.Cylinder() > 0 && k <= |t.partitions|
    decreases k, 0
  {
    if k == 0 then t.blocksPerTrack else FreshStart(t, k - 1) + t.BlocksOf(t.partitions[k - 1].1)
  }

  /** And where the next begins: there, or at the next cylinder if its size is in cylinders. */
  function FreshStart(t: PackType, k: nat): nat
    requires t.Cylinder() > 0 && k < |t.partitions|
    decreases k, 1
  {
    if t.partitions[k].1 > 0 then AtCylinder(FreeAt(t, k), t.Cylinder()) else FreeAt(t, k)
  }

  function Fresh(t: PackType): (ps: seq<Partition>)
    requires t.Cylinder() > 0
    ensures |ps| == |t.partitions|
  {
    seq(|t.partitions|, k requires 0 <= k < |t.partitions| => Partition(t.partitions[k].0, FreshStart(t, k), t.BlocksOf(t.partitions[k].1), []))
  }

  method Initialize(t: PackType) returns (ps: seq<Partition>)
    requires t.Cylinder() > 0
    ensures ps == Fresh(t)
  {
    hide PackType.Cylinder, AtCylinder, PackType.BlocksOf;
    var bpc := t.Cylinder();
    ps := [];
    var block := t.blocksPerTrack;
    for k := 0 to |t.partitions|
      invariant |ps| == k && block == FreeAt(t, k)
      invariant forall i :: 0 <= i < k ==> ps[i] == Partition(t.partitions[i].0, FreshStart(t, i), t.BlocksOf(t.partitions[i].1), [])
    {
      var (name, size) := t.partitions[k];
      if size > 0 {
        block := AtCylinder(block, bpc);
      }
      ps := ps + [Partition(name, block, t.BlocksOf(size), [])];
      block := block + t.BlocksOf(size);
    }
  }

  /** A fresh pack's partitions are apart and past the first track, and those sized in cylinders begin
      at one. */
  lemma FreshApart(t: PackType)
    requires t.Cylinder() > 0
    ensures forall i, j :: 0 <= i < j < |Fresh(t)| ==> Fresh(t)[i].start + Fresh(t)[i].blocks <= Fresh(t)[j].start
    ensures forall i :: 0 <= i < |Fresh(t)| ==> Fresh(t)[i].start >= t.blocksPerTrack
    ensures forall i :: 0 <= i < |Fresh(t)| && t.partitions[i].1 > 0 ==> Fresh(t)[i].start % t.Cylinder() == 0
  {
    hide PackType.Cylinder, PackType.BlocksOf, AtCylinder;
    forall i: nat, j: nat | i < j < |Fresh(t)|
      ensures Fresh(t)[i].start + Fresh(t)[i].blocks <= Fresh(t)[j].start
    {
      FreeGrows(t, i + 1, j);
    }
    forall i: nat | i < |Fresh(t)|
      ensures Fresh(t)[i].start >= t.blocksPerTrack
    {
      FreeGrows(t, 0, i);
    }
  }

  lemma {:induction false} FreeGrows(t: PackType, i: nat, j: nat)
    requires t.Cylinder() > 0 && i <= j <= |t.partitions|
    ensures FreeAt(t, i) <= FreeAt(t, j) && (j < |t.partitions| ==> FreeAt(t, j) <= FreshStart(t, j))
    decreases j
  {
    hide PackType.Cylinder, PackType.BlocksOf, AtCylinder;
    if i < j {
      FreeGrows(t, i, j - 1);
    }
  }
}
