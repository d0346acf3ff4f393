/** A dynamic VHD read and written a sector at a time. */
module DynamicVhd {
  import opened Arithmetic
  import opened BitStream
  import opened Bytes
  import opened Vhd

  // ---- A block's sector bitmap, eight sectors to a byte from its high bit down ----

  ghost predicate BitIn(b: nat, p: nat) { b / Pow2(p) % 2 == 1 }

  lemma LowBit(b: nat)
    ensures Pow2(0) == 1 && (BitIn(b, 0) <==> b % 2 == 1)
  {
  }

  /** Setting a bit that is clear carries into none above. */
  lemma {:induction false} BitFits(b: nat, p: nat, q: nat)
    requires p < q && b < Pow2(q) && !BitIn(b, p)
    ensures b + Pow2(p) < Pow2(q)
    decreases p
  {
    hide BitIn, Pow2;
    PowNext(q - 1);
    HalfBelow(b, Pow2(q - 1));
    if p == 0 {
      LowBit(b);
    } else {
      HalvesBit(b, p);
      BitFits(b / 2, p - 1, q - 1);
      HalfBelow(b + Pow2(p), Pow2(q - 1));
    }
  }

  lemma HalvesBit(b: nat, p: nat)
    requires p > 0
    ensures BitIn(b, p) <==> BitIn(b / 2, p - 1)
    ensures (b + Pow2(p)) / 2 == b / 2 + Pow2(p - 1)
  {
    PowNext(p - 1);
    var d := Pow2(p - 1);
    DivByProduct(b, 2, d);
  }

  lemma DivByProduct(b: nat, c: nat, d: nat)
    requires c > 0 && d > 0
    ensures c * d > 0 && b / (c * d) == b / c / d
  {
    var q, r := b / c, b % c;
    var s, u := q / d, q % d;
    assert b == q * c + r && q == s * d + u;
    assert b == s * (c * d) + (u * c + r) by { assert (s * d + u) * c == s * (c * d) + u * c; }
    assert u * c + r < c * d by { MulAtMost(u + 1, d, c); }
    DivUnique(s, c * d, u * c + r);
  }

  /** Setting a bit that is clear sets it and leaves the others. */
  lemma {:induction false} BitSet(b: nat, p: nat, q: nat)
    requires !BitIn(b, p)
    ensures BitIn(b + Pow2(p), q) <==> q == p || BitIn(b, q)
    decreases p
  {
    hide BitIn, Pow2;
    LowBit(b);
    LowBit(b + Pow2(p));
    if q > 0 {
      HalvesBit(b, q);
      HalvesBit(b + Pow2(p), q);
    }
    if p > 0 {
      PowNext(p - 1);
      HalvesBit(b, p);
      if q > 0 {
        BitSet(b / 2, p - 1, q - 1);
      }
    }
  }

  /** Byte `q` of a block's bitmap. */
  function BitmapByte(v: Image, k: nat, q: nat): Byte {
    if k < |v.table| && v.table[k] != UNALLOCATED && v.table[k] * SECTOR + q < |v.file| then v.file[v.table[k] * SECTOR + q] else 0
  }

  function BlockOf(v: Image, at: nat): nat { if v.blockBytes == 0 then 0 else at / v.blockBytes }

  /** The byte of its block's bitmap, and the bit there, of the sector disk byte `at` lies in. */
  function BitmapAt(at: nat, b: nat): nat { if b == 0 then 0 else at % b / SECTOR / 8 }

  function BitAt(at: nat, b: nat): (p: nat)
    ensures p < 8
  {
    if b == 0 then 0 else 7 - at % b / SECTOR % 8
  }

  /** Disk byte `at` lies in a sector its block's bitmap marks. */
  ghost predicate Marked(v: Image, at: nat)
    requires v.blockBytes > 0
  {
    BitIn(BitmapByte(v, BlockOf(v, at), BitmapAt(at, v.blockBytes)), BitAt(at, v.blockBytes))
  }

  /** Nothing marked is unmarked. */
  ghost predicate KeepsMarks(v: Image, w: Image)
    requires v.blockBytes > 0 && w.blockBytes > 0
  {
    forall at: nat {:trigger Marked(w, at)} :: Marked(v, at) ==> Marked(w, at)
  }

  lemma BitmapHolds(at: nat, b: nat)
    requires b > 0 && b % SECTOR == 0
    ensures BitmapAt(at, b) < BitmapBytes(b)
  {
    var s, n := at % b / SECTOR, b / SECTOR;
    assert s < n;
  }

  lemma InsideBitmap(v: Image, k: nat, rel: nat, buf: seq<Byte>, j: nat, q: nat)
    requires Steady(v) && Allocated(v, k) && rel + |buf| <= Extent(v) && q < v.bitmapBytes
    ensures BitmapByte(Inside(v, k, rel, buf), j, q) == if j == k && rel <= q < rel + |buf| then buf[q - rel] else BitmapByte(v, j, q)
  {
    hide Shaped, Described, Be, FooterOf, BitmapBytes;
    assert Start(v, k) + Extent(v) <= |v.file|;
    if Allocated(v, j) {
      assert Start(v, j) + Extent(v) <= |v.file|;
      assert j != k ==> Apart(Start(v, j), Extent(v), Start(v, k), Extent(v));
    }
  }

  lemma ShapeFacts(v: Image)
    requires Steady(v)
    ensures |v.footer| == 512 && v.blockBytes > 0 && v.blockBytes % SECTOR == 0 && v.bitmapBytes == BitmapBytes(v.blockBytes)
    ensures v.bitmapBytes % SECTOR == 0 && v.end % SECTOR == 0 && |v.file| <= v.end + 512 && v.end >= 512
  {
  }

  // ---- A write into an allocated block ----

  /** A sector's data written where its block holds it. */
  lemma DataWritten(v: Image, at: nat, buf: seq<Byte>)
    requires v.blockBytes > 0 && Allocated(v, BlockOf(v, at)) && Steady(v) && at % SECTOR == 0 && |buf| == SECTOR
    ensures at % v.blockBytes + SECTOR <= v.blockBytes
    ensures var w := Inside(v, BlockOf(v, at), v.bitmapBytes + at % v.blockBytes, buf);
            Disk(w) == Splice(Disk(v), at, buf) && KeepsMarks(v, w)
  {
    hide Steady, Allocated, ByteAt, BitmapByte, BitIn, BitmapAt, BitAt, BitmapBytes, Be, Inside;
    ShapeFacts(v);
    var b := v.blockBytes;
    var k, rel := BlockOf(v, at), v.bitmapBytes + at % b;
    SectorInBlock(at, b);
    AllocatedIn(v, k);
    var w := Inside(v, k, rel, buf);
    InsideParts(v, k, rel, buf);
    SectorsFit(v, at);
    var d, e := Disk(w), Splice(Disk(v), at, buf);
    forall i: nat | i < |v.table| * b
      ensures d[i] == e[i]
    {
      InsideByte(v, k, rel, buf, i);
      ByteInSector(i, at, b);
    }
    assert d == e;
    forall j: nat
      ensures BitmapByte(w, BlockOf(v, j), BitmapAt(j, b)) == BitmapByte(v, BlockOf(v, j), BitmapAt(j, b))
    {
      BitmapHolds(j, b);
      InsideBitmap(v, k, rel, buf, BlockOf(v, j), BitmapAt(j, b));
    }
  }

  lemma AllocatedIn(v: Image, k: nat)
    requires Allocated(v, k)
    ensures k < |v.table|
  {
  }

  lemma InsideParts(v: Image, k: nat, rel: nat, buf: seq<Byte>)
    requires k < |v.table|
    ensures var w := Inside(v, k, rel, buf);
            w == v.(file := w.file)
  {
  }

  /** A sector of a block in the table is all on the disk. */
  lemma SectorsFit(v: Image, at: nat)
    requires v.blockBytes > 0 && v.blockBytes % SECTOR == 0 && at % SECTOR == 0 && BlockOf(v, at) < |v.table|
    ensures at + SECTOR <= |v.table| * v.blockBytes
  {
    var b := v.blockBytes;
    SectorInBlock(at, b);
    assert at == at / b * b + at % b;
    MulAtMost(at / b + 1, |v.table|, b);
    assert (at / b + 1) * b == at / b * b + b;
  }

  /** A bit set in a block's bitmap is no part of the disk. */
  lemma BitWritten(v: Image, at: nat)
    requires v.blockBytes > 0 && Allocated(v, BlockOf(v, at)) && Steady(v)
    ensures var q, p := BitmapAt(at, v.blockBytes), BitAt(at, v.blockBytes);
            var b := BitmapByte(v, BlockOf(v, at), q);
            q < v.bitmapBytes
            && (!BitIn(b, p) ==>
                  && b + Pow2(p) < 256
                  && var w := Inside(v, BlockOf(v, at), q, [b + Pow2(p)]);
                     Disk(w) == Disk(v) && Marked(w, at) && KeepsMarks(v, w))
  {
    hide Steady, Allocated, ByteAt, BitmapByte, BitIn, BitmapAt, BitAt, BitmapBytes, Be, Inside, Pow2;
    ShapeFacts(v);
    BitmapHolds(at, v.blockBytes);
    var k, q, p := BlockOf(v, at), BitmapAt(at, v.blockBytes), BitAt(at, v.blockBytes);
    var b := BitmapByte(v, k, q);
    if !BitIn(b, p) {
      SmallPowers();
      BitFits(b, p, 8);
      AllocatedIn(v, k);
      InsideParts(v, k, q, [b + Pow2(p)]);
      var w := Inside(v, k, q, [b + Pow2(p)]);
      forall i: nat | i < |v.table| * v.blockBytes
        ensures Disk(w)[i] == Disk(v)[i]
      {
        InsideByte(v, k, q, [b + Pow2(p)], i);
      }
      assert Disk(w) == Disk(v);
      forall j: nat
        ensures Marked(w, j) <==> Marked(v, j) || (BlockOf(v, j) == k && BitmapAt(j, v.blockBytes) == q && BitAt(j, v.blockBytes) == p)
      {
        BitMarks(v, k, q, p, j);
      }
    }
  }

  lemma BitMarks(v: Image, k: nat, q: nat, p: nat, at: nat)
    requires Steady(v) && Allocated(v, k) && q < v.bitmapBytes
    requires !BitIn(BitmapByte(v, k, q), p) && BitmapByte(v, k, q) + Pow2(p) < 256
    ensures Marked(Inside(v, k, q, [BitmapByte(v, k, q) + Pow2(p)]), at) <==>
              Marked(v, at) || (BlockOf(v, at) == k && BitmapAt(at, v.blockBytes) == q && BitAt(at, v.blockBytes) == p)
  {
    hide Steady, Allocated, BitmapByte, BitIn, BitmapAt, BitAt, BitmapBytes, Be, Inside, Pow2;
    ShapeFacts(v);
    AllocatedIn(v, k);
    BitmapHolds(at, v.blockBytes);
    var b := BitmapByte(v, k, q);
    InsideParts(v, k, q, [b + Pow2(p)]);
    InsideBitmap(v, k, q, [b + Pow2(p)], BlockOf(v, at), BitmapAt(at, v.blockBytes));
    BitSet(b, p, BitAt(at, v.blockBytes));
  }

  // ---- A block allocated ----

  /** A block for one sector's data: its bitmap all ones, zeros but for what is written. */
  function NewBlock(v: Image, at: nat, buf: seq<Byte>): (block: seq<Byte>)
    requires v.blockBytes > 0
  {
    seq(v.bitmapBytes, _ => 0xFF) + Splice(Zeros(v.blockBytes), at % v.blockBytes, buf)
  }

  /** The block where the footer was, and the footer after it. */
  function Appended(v: Image, block: seq<Byte>): Image {
    v.(file := Splice(Splice(v.file, v.end, block), v.end + |block|, v.footer), end := v.end + |block|)
  }

  lemma AppendedSteady(v: Image, block: seq<Byte>)
    requires Steady(v) && |block| == Extent(v)
    ensures var u := Appended(v, block);
            Steady(u) && FooterLast(u) && Disk(u) == Disk(v) && u.file[v.end..v.end + |block|] == block
  {
    hide Steady, Disk, FooterLast, Splice, Appended, SameBelow;
    ShapeFacts(v);
    ExtentWhole(v);
    AppendedFile(v, block);
    AppendedParts(v, block);
    WholeWrite(v.file, v.end, block, v.footer);
    AppendedBelow(v.file, v.end, block + v.footer);
    SumWhole(v.end, |block|);
    PastEnd(v, Splice(v.file, v.end, block + v.footer), v.end + |block|);
    FooterIsLast(Appended(v, block));
    AppendedHolds(v.file, v.end, block, v.footer);
  }

  lemma AppendedFile(v: Image, block: seq<Byte>)
    requires block != []
    ensures Appended(v, block).file == Splice(v.file, v.end, block + v.footer) && Appended(v, block).footer == v.footer
  {
    TwoWrites(v.file, v.end, block, v.footer);
    hide Splice;
  }

  lemma AppendedBelow(f: seq<Byte>, end: nat, b: seq<Byte>)
    requires b != []
    ensures SameBelow(f, Splice(f, end, b), end)
  {
  }

  lemma AppendedHolds(f: seq<Byte>, end: nat, a: seq<Byte>, b: seq<Byte>)
    requires b != []
    ensures end + |a| <= |Splice(f, end, a + b)| && Splice(f, end, a + b)[end..end + |a|] == a
  {
  }

  lemma FooterIsLast(v: Image)
    requires |v.file| == v.end + 512 && v.file[v.end..] == v.footer
    ensures FooterLast(v)
  {
  }

  lemma AppendedFree(v: Image, block: seq<Byte>, k: nat)
    requires Steady(v) && |block| == Extent(v) && k < |v.table| && !Allocated(v, k)
    ensures Free(Appended(v, block), k, v.end / SECTOR)
  {
    hide Described, Be, BitmapBytes, FooterOf, Splice;
    AppendedSteady(v, block);
    var u := Appended(v, block);
    assert v.end / SECTOR * SECTOR == v.end;
    forall j: nat | Allocated(u, j)
      ensures Start(u, j) + Extent(u) <= v.end
    {
      assert Start(v, j) + Extent(v) <= v.end;
    }
  }

  lemma NewBlockParts(v: Image, at: nat, buf: seq<Byte>)
    requires v.blockBytes > 0 && at % v.blockBytes + SECTOR <= v.blockBytes && |buf| == SECTOR
    ensures |NewBlock(v, at, buf)| == Extent(v)
    ensures forall q :: 0 <= q < v.bitmapBytes ==> NewBlock(v, at, buf)[q] == 0xFF
  {
  }

  lemma NewBlockData(v: Image, at: nat, buf: seq<Byte>, r: nat)
    requires v.blockBytes > 0 && at % v.blockBytes + SECTOR <= v.blockBytes && |buf| == SECTOR && r < v.blockBytes
    ensures |NewBlock(v, at, buf)| == Extent(v)
    ensures NewBlock(v, at, buf)[v.bitmapBytes + r] == if at % v.blockBytes <= r < at % v.blockBytes + SECTOR then buf[r - at % v.blockBytes] else 0
  {
  }

  lemma AppendedParts(v: Image, block: seq<Byte>)
    ensures var u := Appended(v, block);
            u == v.(file := u.file, end := v.end + |block|)
  {
  }
  /** The image after a block for `at` is appended and named. */
  function Added(v: Image, at: nat, buf: seq<Byte>): Image
    requires v.blockBytes > 0 && BlockOf(v, at) < |v.table| && v.end / SECTOR <= 0xFFFF_FFFF
  {
    Entered(Appended(v, NewBlock(v, at, buf)), BlockOf(v, at), v.end / SECTOR)
  }

  ghost predicate Addable(v: Image, at: nat, buf: seq<Byte>) {
    && v.blockBytes > 0 && at % SECTOR == 0 && |buf| == SECTOR
    && BlockOf(v, at) < |v.table| && !Allocated(v, BlockOf(v, at)) && v.end / SECTOR < UNALLOCATED
    && Steady(v)
  }

  /** The appended block is room for the sector's block, the disk as it was. */
  lemma Roomed(v: Image, at: nat, buf: seq<Byte>) returns (u: Image, k: nat, s: nat)
    requires Addable(v, at, buf)
    ensures |NewBlock(v, at, buf)| == Extent(v)
    ensures u == Appended(v, NewBlock(v, at, buf)) && u == v.(file := u.file, end := u.end) && s * SECTOR == v.end
    ensures k == BlockOf(v, at) && s == v.end / SECTOR && k < |v.table| && s < UNALLOCATED && !Allocated(v, k)
    ensures Steady(u) && FooterLast(u) && Free(u, k, s) && Disk(u) == Disk(v) && Added(v, at, buf) == Entered(u, k, s)
  {
    hide Steady, Allocated, Free, Disk, BitmapBytes, Entered, FooterLast, Appended, NewBlock;
    ShapeFacts(v);
    SectorInBlock(at, v.blockBytes);
    var block := NewBlock(v, at, buf);
    NewBlockParts(v, at, buf);
    AppendedParts(v, block);
    AppendedSteady(v, block);
    AppendedFree(v, block, BlockOf(v, at));
    u, k, s := Appended(v, block), BlockOf(v, at), v.end / SECTOR;
  }

  lemma AppendedByte(v: Image, block: seq<Byte>, r: nat)
    requires Steady(v) && |block| == Extent(v) && r < |block|
    ensures v.end + r < |Appended(v, block).file| && Appended(v, block).file[v.end + r] == block[r]
  {
    hide Steady, Disk, FooterLast;
    ShapeFacts(v);
  }

  /** What the new block holds of its bytes of the disk. */
  lemma NewByte(v: Image, at: nat, buf: seq<Byte>, i: nat)
    requires Addable(v, at, buf)
    ensures var r := v.bitmapBytes + i % v.blockBytes;
            && r < |NewBlock(v, at, buf)| == Extent(v)
            && (BlockOf(v, i) == BlockOf(v, at) ==> NewBlock(v, at, buf)[r] == if at <= i < at + SECTOR then buf[i - at] else 0)
    ensures BlockOf(v, i) != BlockOf(v, at) ==> !(at <= i < at + SECTOR)
  {
    hide Steady, Allocated, NewBlock;
    ShapeFacts(v);
    SectorInBlock(at, v.blockBytes);
    NewBlockData(v, at, buf, i % v.blockBytes);
    ByteInSector(i, at, v.blockBytes);
  }

  lemma AddedByte(v: Image, at: nat, buf: seq<Byte>, i: nat)
    requires Addable(v, at, buf) && i < |v.table| * v.blockBytes
    ensures ByteAt(Added(v, at, buf), i) == if at <= i < at + SECTOR then buf[i - at] else ByteAt(v, i)
  {
    hide Steady, Allocated, Free, ByteAt, Entered, FooterLast, Appended, NewBlock, Disk, Added;
    var u, k, s := Roomed(v, at, buf);
    NewByte(v, at, buf, i);
    ByteIs(v, i);
    EnteredByte(u, k, s, i);
    DiskByte(u, i);
    DiskByte(v, i);
    AppendedByte(v, NewBlock(v, at, buf), v.bitmapBytes + i % v.blockBytes);
  }

  lemma DiskByte(v: Image, i: nat)
    requires v.blockBytes > 0 && i < |v.table| * v.blockBytes
    ensures i < |Disk(v)| && Disk(v)[i] == ByteAt(v, i)
  {
  }

  lemma AppendedBitmap(v: Image, block: seq<Byte>, j: nat, q: nat)
    requires Steady(v) && |block| == Extent(v) && q < v.bitmapBytes
    ensures BitmapByte(Appended(v, block), j, q) == BitmapByte(v, j, q)
  {
    hide Shaped, Described, BitmapBytes;
    if Allocated(v, j) {
      assert Start(v, j) + Extent(v) <= |v.file|;
    }
  }

  lemma EnteredBitmap(v: Image, k: nat, s: nat, j: nat, q: nat)
    requires Steady(v) && Free(v, k, s) && s < UNALLOCATED && q < v.bitmapBytes
    ensures s * SECTOR + q < |v.file|
    ensures BitmapByte(Entered(v, k, s), j, q) == if j == k then v.file[s * SECTOR + q] else BitmapByte(v, j, q)
  {
    hide Steady, Free, Entered, BitmapByte, BitmapBytes;
    TableFacts(v);
    FreeFacts(v, k, s);
    EnteredFile(v, k, s);
    EnteredParts(v, k, s);
    BitmapIs(v, j, q);
    BitmapIs(Entered(v, k, s), j, q);
    if j < |v.table| {
      EnteredStart(v, k, s, j);
      if Allocated(v, j) {
        ExtentFacts(v, j);
        EnteredApart(v, k, s, Start(v, j) + q);
      }
    }
  }

  lemma BitmapIs(v: Image, k: nat, q: nat)
    ensures BitmapByte(v, k, q) == if Allocated(v, k) && Start(v, k) + q < |v.file| then v.file[Start(v, k) + q] else 0
  {
  }

  lemma AddedMark(v: Image, at: nat, buf: seq<Byte>, j: nat)
    requires Addable(v, at, buf)
    ensures Added(v, at, buf).blockBytes == v.blockBytes
    ensures Marked(Added(v, at, buf), j) <==> BlockOf(v, j) == BlockOf(v, at) || Marked(v, j)
  {
    hide Steady, Allocated, Free, BitmapByte, BitIn, BitmapAt, BitAt, BitmapBytes, Entered, FooterLast, Appended, NewBlock, Added;
    var u, k, s := Roomed(v, at, buf);
    ShapeFacts(v);
    var q := BitmapAt(j, v.blockBytes);
    BitmapHolds(j, v.blockBytes);
    SectorInBlock(at, v.blockBytes);
    NewBlockParts(v, at, buf);
    EnteredParts(u, k, s);
    AppendedBitmap(v, NewBlock(v, at, buf), BlockOf(v, j), q);
    EnteredBitmap(u, k, s, BlockOf(v, j), q);
    AppendedByte(v, NewBlock(v, at, buf), q);
    AllOnes(BitAt(j, v.blockBytes));
  }

  lemma AllOnes(p: nat)
    requires p < 8
    ensures BitIn(0xFF, p)
  {
    if p >= 4 {
      assert Pow2(p - 1) == 2 * Pow2(p - 2) && Pow2(p - 3) == 2 * Pow2(p - 4);
    }
  }

  /** The block appended and then named is the sector written. */
  lemma BlockAdded(v: Image, at: nat, buf: seq<Byte>)
    requires Addable(v, at, buf)
    ensures |NewBlock(v, at, buf)| == Extent(v)
    ensures var w := Added(v, at, buf);
            && Steady(w) && FooterLast(w) && w.blockBytes == v.blockBytes
            && Disk(w) == Splice(Disk(v), at, buf) && KeepsMarks(v, w) && Marked(w, at)
  {
    hide Steady, Allocated, Free, ByteAt, Marked, BitmapBytes, Entered, FooterLast, Appended, NewBlock, Added;
    var u, k, s := Roomed(v, at, buf);
    ShapeFacts(v);
    SectorsFit(v, at);
    EnteredSteady(u, k, s);
    EnteredParts(u, k, s);
    var w := Added(v, at, buf);
    var d, e := Disk(w), Splice(Disk(v), at, buf);
    forall i: nat | i < |v.table| * v.blockBytes
      ensures d[i] == e[i]
    {
      AddedByte(v, at, buf, i);
    }
    assert d == e;
    forall j: nat
      ensures Marked(w, j) <==> BlockOf(v, j) == k || Marked(v, j)
    {
      AddedMark(v, at, buf, j);
    }
  }

  // ---- The sector number that is the mark of a block not allocated ----

  /** A block with no entry, and the mark of one not allocated for its sector number. */
  ghost predicate Lost(v: Image, at: nat) { !Allocated(v, BlockOf(v, at)) && v.end / SECTOR == UNALLOCATED }

  lemma MarkEntered(v: Image, k: nat)
    requires Steady(v) && k < |v.table| && !Allocated(v, k) && v.blockBytes > 0
    ensures var w := Entered(v, k, UNALLOCATED);
            w == v.(file := w.file) && Steady(w) && (FooterLast(v) ==> FooterLast(w)) && Disk(w) == Disk(v) && KeepsMarks(v, w)
  {
    hide Shaped, Described, Laid, ByteAt, BitmapByte, FooterLast, Entered, BitIn, BitmapAt, BitAt, BitmapBytes;
    TableFacts(v);
    EnteredFile(v, k, UNALLOCATED);
    EnteredDescribed(v, k, UNALLOCATED);
    EnteredShape(v, k, UNALLOCATED);
    var w := Entered(v, k, UNALLOCATED);
    MarkSame(v, k);
    LaidSame(v, w);
    forall i: nat
      ensures ByteAt(w, i) == ByteAt(v, i)
    {
      MarkByte(v, k, i);
    }
    assert Disk(w) == Disk(v);
    ShapeFacts(v);
    forall j: nat
      ensures BitmapByte(w, BlockOf(v, j), BitmapAt(j, v.blockBytes)) == BitmapByte(v, BlockOf(v, j), BitmapAt(j, v.blockBytes))
    {
      BitmapHolds(j, v.blockBytes);
      MarkBitmap(v, k, BlockOf(v, j), BitmapAt(j, v.blockBytes));
    }
  }

  lemma MarkSame(v: Image, k: nat)
    requires k < |v.table| && !Allocated(v, k)
    ensures Entered(v, k, UNALLOCATED) == v.(file := Entered(v, k, UNALLOCATED).file)
  {
    assert v.table[k := UNALLOCATED] == v.table;
  }

  /** What lies clear of the table is as it was. */
  lemma MarkApart(v: Image, k: nat, at: nat)
    requires k < |v.table| && v.tableOffset + 4 * |v.table| <= |v.file|
    requires at < v.tableOffset || v.tableOffset + 4 * |v.table| <= at
    ensures at < |v.file| ==> at < |Entered(v, k, UNALLOCATED).file| && Entered(v, k, UNALLOCATED).file[at] == v.file[at]
  {
    hide Be32Bytes;
  }

  lemma MarkByte(v: Image, k: nat, i: nat)
    requires Steady(v) && k < |v.table| && !Allocated(v, k) && v.blockBytes > 0
    ensures ByteAt(Entered(v, k, UNALLOCATED), i) == ByteAt(v, i)
  {
    hide Steady, Entered, Allocated, Start, ByteAt;
    TableFacts(v);
    MarkSame(v, k);
    ByteIs(v, i);
    ByteIs(Entered(v, k, UNALLOCATED), i);
    MarkStart(v, k, i / v.blockBytes, v.bitmapBytes + i % v.blockBytes);
  }

  lemma MarkBitmap(v: Image, k: nat, j: nat, q: nat)
    requires Steady(v) && k < |v.table| && !Allocated(v, k) && q < v.bitmapBytes
    ensures BitmapByte(Entered(v, k, UNALLOCATED), j, q) == BitmapByte(v, j, q)
  {
    hide Steady, Entered, Allocated, Start, BitmapByte;
    TableFacts(v);
    MarkSame(v, k);
    BitmapIs(v, j, q);
    BitmapIs(Entered(v, k, UNALLOCATED), j, q);
    MarkStart(v, k, j, q);
  }

  lemma MarkStart(v: Image, k: nat, j: nat, rel: nat)
    requires Steady(v) && k < |v.table| && !Allocated(v, k) && rel < Extent(v)
    ensures var w := Entered(v, k, UNALLOCATED);
            && (Allocated(w, j) <==> Allocated(v, j)) && |w.file| == |v.file|
            && (Allocated(v, j) ==> Start(w, j) == Start(v, j) && Start(v, j) + rel < |v.file| && w.file[Start(v, j) + rel] == v.file[Start(v, j) + rel])
  {
    hide Shaped, Described, Laid, Be32Bytes;
    TableFacts(v);
    MarkSame(v, k);
    EnteredFile(v, k, UNALLOCATED);
    hide Entered;
    if Allocated(v, j) {
      ExtentFacts(v, j);
      MarkApart(v, k, Start(v, j) + rel);
    }
  }

  lemma LostWrite(v: Image, at: nat, buf: seq<Byte>)
    requires v.blockBytes > 0 && BlockOf(v, at) < |v.table| && at % SECTOR == 0 && |buf| == SECTOR && Lost(v, at) && Steady(v)
    ensures |NewBlock(v, at, buf)| == Extent(v)
    ensures var w := Added(v, at, buf);
            Steady(w) && FooterLast(w) && w.blockBytes == v.blockBytes && Disk(w) == Disk(v) && KeepsMarks(v, w)
  {
    hide Steady, FooterLast, Disk, Entered, Appended, NewBlock, Marked, BitmapByte, BitmapBytes, BitIn, BitmapAt, BitAt;
    ShapeFacts(v);
    SectorInBlock(at, v.blockBytes);
    var block := NewBlock(v, at, buf);
    NewBlockParts(v, at, buf);
    AppendedParts(v, block);
    AppendedSteady(v, block);
    var u := Appended(v, block);
    MarkEntered(u, BlockOf(v, at));
    forall j: nat
      ensures Marked(u, j) <==> Marked(v, j)
    {
      BitmapHolds(j, v.blockBytes);
      AppendedBitmap(v, block, BlockOf(v, j), BitmapAt(j, v.blockBytes));
      MarkedIs(u, j);
      MarkedIs(v, j);
    }
  }

  lemma MarkedIs(v: Image, at: nat)
    requires v.blockBytes > 0
    ensures Marked(v, at) <==> BitIn(BitmapByte(v, BlockOf(v, at), BitmapAt(at, v.blockBytes)), BitAt(at, v.blockBytes))
  {
  }

  // ---- A sector written, whole ----

  function Rewritten(v: Image, at: nat, buf: seq<Byte>): Image
    requires v.blockBytes > 0 && BlockOf(v, at) < |v.table|
  {
    var k := BlockOf(v, at);
    var w := Inside(v, k, v.bitmapBytes + at % v.blockBytes, buf);
    var q, p := BitmapAt(at, v.blockBytes), BitAt(at, v.blockBytes);
    var b := BitmapByte(w, k, q);
    if b / Pow2(p) % 2 == 0 && b + Pow2(p) < 256 then Inside(w, k, q, [b + Pow2(p)]) else w
  }

  lemma RewrittenIs(v: Image, at: nat, buf: seq<Byte>)
    requires v.blockBytes > 0 && Allocated(v, BlockOf(v, at)) && at % SECTOR == 0 && |buf| == SECTOR && Steady(v)
    ensures at % v.blockBytes + SECTOR <= v.blockBytes
    ensures var w := Rewritten(v, at, buf);
            && w == v.(file := w.file) && Steady(w) && (FooterLast(v) ==> FooterLast(w))
            && Disk(w) == Splice(Disk(v), at, buf) && KeepsMarks(v, w) && Marked(w, at)
  {
    hide Steady, FooterLast, Disk, Splice, Inside, BitmapByte, BitmapBytes, BitmapAt, BitAt, Pow2;
    ShapeFacts(v);
    SectorInBlock(at, v.blockBytes);
    AllocatedIn(v, BlockOf(v, at));
    var k, rel := BlockOf(v, at), v.bitmapBytes + at % v.blockBytes;
    var w := Inside(v, k, rel, buf);
    InsideParts(v, k, rel, buf);
    InsideSteady(v, k, rel, buf);
    DataWritten(v, at, buf);
    BitWritten(w, at);
    var q, p := BitmapAt(at, v.blockBytes), BitAt(at, v.blockBytes);
    var b := BitmapByte(w, k, q);
    if !BitIn(b, p) {
      InsideParts(w, k, q, [b + Pow2(p)]);
      InsideSteady(w, k, q, [b + Pow2(p)]);
    }
  }

  lemma ReadsSector(v: Image, at: nat)
    requires v.blockBytes > 0 && Steady(v) && at % SECTOR == 0 && BlockOf(v, at) < |v.table|
    ensures at + SECTOR <= |Disk(v)| && at % v.blockBytes + SECTOR <= v.blockBytes
    ensures var k := BlockOf(v, at);
            if Allocated(v, k) then
              var off := Start(v, k) + v.bitmapBytes + at % v.blockBytes;
              off + SECTOR <= |v.file| && Disk(v)[at..at + SECTOR] == v.file[off..off + SECTOR]
            else Disk(v)[at..at + SECTOR] == Zeros(SECTOR)
  {
    hide Steady, Allocated, Start, ByteAt;
    ShapeFacts(v);
    SectorInBlock(at, v.blockBytes);
    SectorsFit(v, at);
    var k := BlockOf(v, at);
    if Allocated(v, k) {
      ExtentFacts(v, k);
    }
    forall i: nat | at <= i < at + SECTOR
      ensures ByteAt(v, i) == if Allocated(v, k) then v.file[Start(v, k) + v.bitmapBytes + at % v.blockBytes + (i - at)] else 0
    {
      ByteInSector(i, at, v.blockBytes);
      ByteIs(v, i);
    }
  }

  // ---- An allocation cut short ----

  /** The file once `n` of an allocation's bytes are written: the block, the footer after it, and
      then the table entry, the last of `n` standing for all four of its bytes. */
  function WrittenSoFar(v: Image, at: nat, buf: seq<Byte>, n: nat): seq<Byte>
    requires v.blockBytes > 0 && BlockOf(v, at) < |v.table| && v.end / SECTOR <= 0xFFFF_FFFF
  {
    var block := NewBlock(v, at, buf);
    if n <= |block| + |v.footer| then CutAt(v, block, n) else Added(v, at, buf).file
  }

  /** However far an allocation got, and so long as what the file was left ending in is not itself
      taken for a footer, the file opens as a sound disk: the old one until the entry is written,
      then the new one. */
  lemma CutShort(v: Image, at: nat, buf: seq<Byte>, n: nat) returns (w: Image)
    requires Addable(v, at, buf) && Sound(v)
    requires var f := WrittenSoFar(v, at, buf, n);
             n == 0 || n >= Extent(v) + 512 || (512 <= |f| && FooterOf(f[|f| - 512..]) == NotOne)
    ensures OpenFile(WrittenSoFar(v, at, buf, n)) == DynamicVhd(w, Be64Size(v)) && Sound(w)
    ensures w.blockBytes == v.blockBytes
    ensures Disk(w) == if n <= Extent(v) + 512 then Disk(v) else Splice(Disk(v), at, buf)
  {
    hide Steady, FooterOf, OpenFile, Disk, Splice, Appended, Entered, NewBlock, BitmapBytes, Closed;
    ShapeFacts(v);
    BlockAdded(v, at, buf);
    var block := NewBlock(v, at, buf);
    if n <= |block| + 512 {
      ExtentWhole(v);
      w := SurvivesCut(v, block, n);
    } else {
      w := Added(v, at, buf);
      AddedFooter(v, at, buf);
      FooterCloses(w);
      Reopens(w);
    }
  }

  /** Nowhere in these bytes is what a footer begins with. */
  ghost predicate NoCookie(b: seq<Byte>) { forall o: nat :: !CookieAt(b, o) }

  ghost predicate CookieAt(b: seq<Byte>, o: nat) { o + 8 <= |b| && b[o..o + 8] == COOKIE }

  /** What a block and the footer after it hold at a byte. */
  lemma BlockByte(v: Image, at: nat, buf: seq<Byte>, o: nat)
    requires v.blockBytes > 0 && at % v.blockBytes + SECTOR <= v.blockBytes && |buf| == SECTOR && o < Extent(v) + |v.footer|
    ensures |NewBlock(v, at, buf)| == Extent(v)
    ensures (NewBlock(v, at, buf) + v.footer)[o] ==
              var p := v.bitmapBytes + at % v.blockBytes;
              if o < v.bitmapBytes then 0xFF else if p <= o < p + SECTOR then buf[o - p] else if o < Extent(v) then 0 else v.footer[o - Extent(v)]
  {
    hide NewBlock;
    NewBlockParts(v, at, buf);
    if v.bitmapBytes <= o < Extent(v) {
      NewBlockData(v, at, buf, o - v.bitmapBytes);
    }
  }

  /** One byte other than its own, and it is no footer's beginning. */
  lemma NoneHere(x: seq<Byte>, o: nat, j: nat)
    requires o + 8 <= |x| && j < 8 && x[o + j] != COOKIE[j]
    ensures x[o..o + 8] != COOKIE
  {
    assert x[o..o + 8][j] == x[o + j];
  }

  lemma CookieStarts(f: seq<Byte>)
    requires 8 <= |f| && f[..8] == COOKIE
    ensures f[0] == COOKIE[0] && f[1] == COOKIE[1]
  {
    assert f[..8][0] == f[0] && f[..8][1] == f[1];
  }

  /** Within the data, the block holds the sector's bytes. */
  lemma DataThere(v: Image, at: nat, buf: seq<Byte>, q: nat)
    requires v.blockBytes > 0 && at % v.blockBytes + SECTOR <= v.blockBytes && |buf| == SECTOR && |v.footer| == 512 && q + 8 <= SECTOR
    ensures |NewBlock(v, at, buf)| == Extent(v)
    ensures var o := v.bitmapBytes + at % v.blockBytes + q;
            (NewBlock(v, at, buf) + v.footer)[o..o + 8] == buf[q..q + 8]
  {
    hide NewBlock;
    NewBlockParts(v, at, buf);
    var o := v.bitmapBytes + at % v.blockBytes + q;
    var t, u := (NewBlock(v, at, buf) + v.footer)[o..o + 8], buf[q..q + 8];
    forall i | 0 <= i < 8
      ensures t[i] == u[i]
    {
      BlockByte(v, at, buf, o + i);
    }
  }

  /** Where a block is cut, with none in its data, is no footer: it begins with ones or zeros, or in the
      data, whose end no footer's beginning can carry on. */
  lemma CutBegins(v: Image, at: nat, buf: seq<Byte>, o: nat)
    requires v.blockBytes > 0 && at % v.blockBytes + SECTOR <= v.blockBytes && |buf| == SECTOR && NoCookie(buf)
    requires |v.footer| == 512 && v.footer[..8] == COOKIE && o < Extent(v)
    ensures |NewBlock(v, at, buf)| == Extent(v) && (NewBlock(v, at, buf) + v.footer)[o..o + 8] != COOKIE
  {
    hide NewBlock, CookieAt;
    NewBlockParts(v, at, buf);
    var p := v.bitmapBytes + at % v.blockBytes;
    if p <= o < p + SECTOR {
      var q := o - p;
      if q + 8 <= SECTOR {
        DataThere(v, at, buf, q);
        NotHere(buf, q);
      } else {
        CutInData(v, at, buf, o, SECTOR - q);
      }
    } else {
      BlockByte(v, at, buf, o);
      NoneHere(NewBlock(v, at, buf) + v.footer, o, 0);
    }
  }

  lemma NotHere(b: seq<Byte>, o: nat)
    requires NoCookie(b) && o + 8 <= |b|
    ensures b[o..o + 8] != COOKIE
  {
    assert !CookieAt(b, o);
  }

  lemma CutInData(v: Image, at: nat, buf: seq<Byte>, o: nat, s: nat)
    requires v.blockBytes > 0 && at % v.blockBytes + SECTOR <= v.blockBytes && |buf| == SECTOR
    requires |v.footer| == 512 && v.footer[..8] == COOKIE && 0 < s < 8
    requires o + s == v.bitmapBytes + at % v.blockBytes + SECTOR
    ensures |NewBlock(v, at, buf)| == Extent(v) && (NewBlock(v, at, buf) + v.footer)[o..o + 8] != COOKIE
  {
    hide NewBlock;
    CookieStarts(v.footer);
    var j := if s == 4 then 5 else s;
    BlockByte(v, at, buf, o + j);
    NoneHere(NewBlock(v, at, buf) + v.footer, o, j);
  }

  lemma CutIsNoFooter(v: Image, at: nat, buf: seq<Byte>, n: nat)
    requires Addable(v, at, buf) && FooterLast(v) && NoCookie(buf) && 0 < n < Extent(v) + 512
    ensures |NewBlock(v, at, buf)| == Extent(v) && |v.footer| == 512
    ensures var f := CutAt(v, NewBlock(v, at, buf), n);
            512 <= |f| && FooterOf(f[|f| - 512..]) == NotOne
  {
    hide Steady, NewBlock, BitmapBytes, Allocated, NoCookie, CutAt, FooterOf;
    ShapeFacts(v);
    SectorInBlock(at, v.blockBytes);
    NewBlockParts(v, at, buf);
    FooterBegins(v);
    BitmapSome(v.blockBytes);
    TailBegins(v, at, buf, n);
    var f := CutAt(v, NewBlock(v, at, buf), n);
    NotFooter(f[|f| - 512..]);
  }

  lemma NotFooter(t: seq<Byte>)
    requires |t| == 512 && t[..8] != COOKIE
    ensures FooterOf(t) == NotOne
  {
  }

  lemma TailBegins(v: Image, at: nat, buf: seq<Byte>, n: nat)
    requires v.blockBytes > 0 && at % v.blockBytes + SECTOR <= v.blockBytes && |buf| == SECTOR && NoCookie(buf)
    requires |v.footer| == 512 && v.footer[..8] == COOKIE && v.bitmapBytes >= SECTOR && |v.file| == v.end + 512
    requires 0 < n < Extent(v) + 512
    ensures |NewBlock(v, at, buf)| == Extent(v)
    ensures var f := CutAt(v, NewBlock(v, at, buf), n);
            512 <= |f| && f[|f| - 512..][..8] != COOKIE
  {
    NewBlockParts(v, at, buf);
    hide NewBlock, NoCookie, Splice;
    CutTail(v.file, v.end, NewBlock(v, at, buf) + v.footer, n);
    if n <= 512 {
      BlockByte(v, at, buf, 0);
    } else {
      CutBegins(v, at, buf, n - 512);
    }
  }

  /** How the last sector of a file begins, `x` being written where its last sector is. */
  lemma CutTail(f: seq<Byte>, end: nat, x: seq<Byte>, n: nat)
    requires |f| == end + 512 && 512 <= |x| && 0 < n <= |x|
    ensures var g := Splice(f, end, x[..n]);
            && 512 <= |g| && (n <= 512 ==> g[|g| - 512..][..8][0] == x[0]) && (n > 512 ==> g[|g| - 512..][..8] == x[n - 512..n - 504])
  {
    var g := Splice(f, end, x[..n]);
    if n > 512 {
      AppendedHolds(f, end, x[..n - 512], x[n - 512..n]);
      assert x[..n] == x[..n - 512] + x[n - 512..n];
      CutEnds(f, end, x, n);
    }
  }

  lemma CutEnds(f: seq<Byte>, end: nat, x: seq<Byte>, n: nat)
    requires |f| <= end + n && 512 < n <= |x|
    ensures |Splice(f, end, x[..n])| == end + n && Splice(f, end, x[..n])[end + n - 512..][..8] == x[n - 512..n - 504]
  {
    var g := Splice(f, end, x[..n]);
    var t, u := g[end + n - 512..][..8], x[n - 512..n - 504];
    forall i | 0 <= i < 8
      ensures t[i] == u[i]
    {
    }
    hide Splice;
  }

  lemma FooterBegins(v: Image)
    requires Steady(v)
    ensures |v.footer| == 512 && v.footer[..8] == COOKIE
  {
    hide Laid, Described, Be, Checksum;
  }

  /** However far an allocation got, of a file its footer ends and of data nowhere a footer's beginning,
      the file opens as a sound disk: the old one until the entry is written, then the new one. */
  lemma CutAnywhere(v: Image, at: nat, buf: seq<Byte>, n: nat) returns (w: Image)
    requires Addable(v, at, buf) && Sound(v) && FooterLast(v) && NoCookie(buf)
    ensures OpenFile(WrittenSoFar(v, at, buf, n)) == DynamicVhd(w, Be64Size(v)) && Sound(w) && w.blockBytes == v.blockBytes
    ensures Disk(w) == if n <= Extent(v) + 512 then Disk(v) else Splice(Disk(v), at, buf)
  {
    hide Steady, FooterOf, OpenFile, Disk, Splice, Appended, Entered, NewBlock, BitmapBytes, Closed, FooterLast, NoCookie;
    if 0 < n < Extent(v) + 512 {
      CutIsNoFooter(v, at, buf, n);
    }
    w := CutShort(v, at, buf, n);
  }

  // ---- The entry itself cut short ----

  /** A table entry of which the first `i` bytes are the new sector's and the rest the mark's. */
  function TornBytes(s: nat, i: nat): (b: seq<Byte>)
    requires s < 0x1_0000_0000 && i <= 4
    ensures |b| == 4
  {
    Be32Bytes(s)[..i] + seq(4 - i, _ => 0xFF)
  }

  function Torn(s: nat, i: nat): nat
    requires s < 0x1_0000_0000 && i <= 4
  {
    Be(TornBytes(s, i))
  }

  /** What it names is no sooner in the file, and is that sector only when the bytes not written are ones. */
  lemma TornIsLater(s: nat, i: nat)
    requires s < 0x1_0000_0000 && i <= 4
    ensures s <= Torn(s, i) < 0x1_0000_0000 && Be32Bytes(Torn(s, i)) == TornBytes(s, i)
  {
    hide Be;
    var b, t := Be32Bytes(s), TornBytes(s, i);
    Be32RoundTrip(s);
    BytesOfBe(t);
    FourBytes(b[0], b[1], b[2], b[3]);
    FourBytes(t[0], t[1], t[2], t[3]);
    assert b == [b[0], b[1], b[2], b[3]] && t == [t[0], t[1], t[2], t[3]];
    assert forall k :: 0 <= k < 4 ==> t[k] == if k < i then b[k] else 0xFF;
    hide TornBytes, Be32Bytes;
  }

  /** An entry written where there was the mark, all of it or its first bytes, is an entry written. */
  lemma TornWrite(v: Image, k: nat, s: nat, i: nat)
    requires Shaped(v) && Described(v, v.file) && k < |v.table| && v.table[k] == UNALLOCATED && s < 0x1_0000_0000 && 0 < i <= 4
    ensures Torn(s, i) < 0x1_0000_0000
    ensures Splice(v.file, v.tableOffset + 4 * k, Be32Bytes(s)[..i]) == Entered(v, k, Torn(s, i)).file
  {
    hide Be, Be32Bytes, Torn, Shaped, Described, TornBytes, Splice;
    TornIsLater(s, i);
    MarkBytes(v, k);
    TornParts(s, i);
    var at := v.tableOffset + 4 * k;
    SliceOfSlice(v.file, at, 4, i, 4 - i);
    WrittenAlready(v.file, at, TornBytes(s, i), i);
    TornEntered(v, k, Torn(s, i));
  }

  lemma TornParts(s: nat, i: nat)
    requires s < 0x1_0000_0000 && i <= 4
    ensures TornBytes(s, i)[..i] == Be32Bytes(s)[..i] && TornBytes(s, i)[i..] == MARK[i..4]
  {
    hide Be32Bytes;
  }

  lemma TornEntered(v: Image, k: nat, t: nat)
    requires k < |v.table| && t < 0x1_0000_0000
    ensures Entered(v, k, t).file == Splice(v.file, v.tableOffset + 4 * k, Be32Bytes(t))
  {
    hide Be32Bytes, Splice;
  }

  const MARK: seq<Byte> := [0xFF, 0xFF, 0xFF, 0xFF]

  /** The mark, in the file's table. */
  lemma MarkBytes(v: Image, k: nat)
    requires Shaped(v) && Described(v, v.file) && k < |v.table| && v.table[k] == UNALLOCATED
    ensures v.tableOffset + 4 * k + 4 <= |v.file| && v.file[v.tableOffset + 4 * k..v.tableOffset + 4 * k + 4] == MARK
  {
    hide HeaderOf, BitmapBytes, FooterOf, Be;
    var raw := v.file[v.tableOffset..v.tableOffset + 4 * |v.table|];
    var b := raw[4 * k..4 * k + 4];
    assert Entries(raw, |v.table|)[k] == Be(b);
    BytesOfBe(b);
    MarkIs();
    SliceOfSlice(v.file, v.tableOffset, 4 * |v.table|, 4 * k, 4);
  }

  lemma MarkIs()
    ensures Be32Bytes(UNALLOCATED) == MARK
  {
  }

  /** An allocation whose entry is cut short after `i` of its bytes opens as an image whose entry names the
      sector those bytes and ones make: the old disk when that is the mark of a block not allocated, the new
      one when it is the sector meant, and otherwise one with a block of which not all is before the footer,
      every other block as it was. */
  lemma TornEntry(v: Image, at: nat, buf: seq<Byte>, i: nat) returns (w: Image)
    requires Addable(v, at, buf) && 0 < i <= 4
    ensures |NewBlock(v, at, buf)| == Extent(v)
    ensures var u, k := Appended(v, NewBlock(v, at, buf)), BlockOf(v, at);
            && Torn(v.end / SECTOR, i) < 0x1_0000_0000 && w == Entered(u, k, Torn(v.end / SECTOR, i))
            && OpenFile(Splice(u.file, v.tableOffset + 4 * k, Be32Bytes(v.end / SECTOR)[..i])) == DynamicVhd(w, Be64Size(v))
    ensures w.blockBytes == v.blockBytes
    ensures Torn(v.end / SECTOR, i) == v.end / SECTOR ==> Steady(w) && Disk(w) == Splice(Disk(v), at, buf)
    ensures Torn(v.end / SECTOR, i) == UNALLOCATED ==> Steady(w) && Disk(w) == Disk(v)
    ensures Torn(v.end / SECTOR, i) != v.end / SECTOR && Torn(v.end / SECTOR, i) != UNALLOCATED ==>
              !Steady(w) && PastFooter(w, BlockOf(v, at)) && SameBut(v, w, BlockOf(v, at))
  {
    hide Steady, Free, Disk, BitmapBytes, Entered, FooterLast, Appended, NewBlock, Torn, OpenFile, Splice, Shaped, Described, PastFooter, SameBut;
    var u, k, s := Roomed(v, at, buf);
    var t := Torn(s, i);
    TornIsLater(s, i);
    TornOpens(u, k, s, i);
    w := Entered(u, k, t);
    AppendedParts(v, NewBlock(v, at, buf));
    EnteredParts2(u, k, t);
    BlockAdded(v, at, buf);
    if t == UNALLOCATED {
      MarkEntered(u, k);
    } else if t != s {
      TornIsPast(u, k, s, t);
      TornOthers(u, k, t);
      SameDisk(v, u, w, k);
    }
    TornSize(v, at, buf);
  }

  /** A block the table has, and the end of the file not past it. */
  ghost predicate PastFooter(w: Image, k: nat) { Allocated(w, k) && |w.file| == w.end + 512 && |w.file| <= Start(w, k) + Extent(w) }

  /** Disks alike but for a block. */
  ghost predicate SameBut(v: Image, w: Image, k: nat) {
    && v.blockBytes > 0 && w.blockBytes > 0 && |Disk(w)| == |Disk(v)|
    && forall i: nat :: i < |Disk(v)| && i / v.blockBytes != k ==> Disk(w)[i] == Disk(v)[i]
  }

  lemma SameDisk(v: Image, u: Image, w: Image, k: nat)
    requires v.blockBytes > 0 && u.blockBytes == v.blockBytes && Disk(u) == Disk(v) && SameBut(u, w, k)
    ensures SameBut(v, w, k)
  {
    hide Disk;
  }

  lemma TornOthers(u: Image, k: nat, t: nat)
    requires Steady(u) && k < |u.table| && t < UNALLOCATED && u.blockBytes > 0
    ensures SameBut(u, Entered(u, k, t), k)
  {
    hide Steady, Entered, ByteAt;
    EnteredParts(u, k, t);
    forall i: nat | i < |Disk(u)| && i / u.blockBytes != k
      ensures ByteAt(Entered(u, k, t), i) == ByteAt(u, i)
    {
      OtherByte(u, k, t, i);
    }
  }

  lemma EnteredParts2(v: Image, k: nat, s: nat)
    requires k < |v.table| && s < 0x1_0000_0000
    ensures Entered(v, k, s).blockBytes == v.blockBytes
  {
    hide Be32Bytes;
  }

  lemma TornSize(v: Image, at: nat, buf: seq<Byte>)
    requires v.blockBytes > 0
    ensures Appended(v, NewBlock(v, at, buf)).footer == v.footer && Appended(v, NewBlock(v, at, buf)).tableOffset == v.tableOffset
  {
    hide NewBlock, Splice;
  }

  lemma TornOpens(u: Image, k: nat, s: nat, i: nat)
    requires Steady(u) && FooterLast(u) && k < |u.table| && !Allocated(u, k) && s < 0x1_0000_0000 && 0 < i <= 4
    ensures Torn(s, i) < 0x1_0000_0000
    ensures OpenFile(Splice(u.file, u.tableOffset + 4 * k, Be32Bytes(s)[..i])) == DynamicVhd(Entered(u, k, Torn(s, i)), Be64Size(u))
  {
    hide Laid, OpenFile, OpenKind, Torn, Be, BitmapBytes, FooterOf, Splice, Entered, Shaped, Described;
    TornWrite(u, k, s, i);
    var t := Torn(s, i);
    var w := Entered(u, k, t);
    TableFacts(u);
    ShapeFacts(u);
    EnteredFile(u, k, t);
    EnteredDescribed(u, k, t);
    EnteredShape(u, k, t);
    EnteredEnds(u, k, t);
    CopyIsFooter(w, w.file);
    OpensByTrailer(w);
    OpensAs(w, w.end);
  }

  lemma EnteredEnds(u: Image, k: nat, t: nat)
    requires k < |u.table| && t < 0x1_0000_0000 && u.end % SECTOR == 0 && FooterLast(Entered(u, k, t))
    ensures var w := Entered(u, k, t);
            && |w.file| == w.end + 512 && w.file[w.end..] == w.footer && w.footer == u.footer && w.end == u.end && ToSector(w.end) == w.end
  {
    hide Be32Bytes;
  }

  /** A sector past the one meant is past the end of the blocks. */
  lemma TornIsPast(u: Image, k: nat, s: nat, t: nat)
    requires Steady(u) && FooterLast(u) && Free(u, k, s) && s * SECTOR + Extent(u) == u.end && s < t < UNALLOCATED
    ensures !Steady(Entered(u, k, t)) && PastFooter(Entered(u, k, t), k)
  {
    hide Shaped, Described, Be32Bytes;
    var w := Entered(u, k, t);
    TableFacts(u);
    EnteredFile(u, k, t);
    EnteredStart(u, k, t, k);
    EnteredExtent(u, k, t);
    hide Entered;
    assert Allocated(w, k) && Start(w, k) == t * SECTOR;
  }

  lemma EnteredExtent(v: Image, k: nat, s: nat)
    requires k < |v.table| && s < 0x1_0000_0000
    ensures Extent(Entered(v, k, s)) == Extent(v) && Entered(v, k, s).end == v.end
  {
    hide Be32Bytes;
  }

  function Be64Size(v: Image): nat { if |v.footer| == 512 then Be64(v.footer, 48) else 0 }

  lemma ExtentWhole(v: Image)
    requires Steady(v)
    ensures Extent(v) % SECTOR == 0
  {
    hide Steady, BitmapBytes;
    ShapeFacts(v);
    SumWhole(v.bitmapBytes, v.blockBytes);
  }

  lemma SumWhole(a: nat, b: nat)
    requires a % SECTOR == 0 && b % SECTOR == 0
    ensures (a + b) % SECTOR == 0
  {
  }

  lemma FooterCloses(v: Image)
    requires FooterLast(v)
    ensures Closed(v)
  {
  }

  lemma AddedFooter(v: Image, at: nat, buf: seq<Byte>)
    requires Addable(v, at, buf)
    ensures Added(v, at, buf).footer == v.footer
  {
    hide Steady, NewBlock, Splice, Be32Bytes;
  }

  // ---- Whole runs ----

  /** A write a disk of this size can be asked for. */
  ghost predicate Askable(v: Image, at: nat, buf: seq<Byte>) {
    v.blockBytes > 0 && BlockOf(v, at) < |v.table| && at % SECTOR == 0 && |buf| == SECTOR
  }

  /** A sector written: into its block, or into a new one, if an entry can name it. */
  ghost function Stepped(v: Image, at: nat, buf: seq<Byte>): Image {
    if !Askable(v, at, buf) then v
    else if Allocated(v, BlockOf(v, at)) then Rewritten(v, at, buf) else if v.end / SECTOR <= 0xFFFF_FFFF then Added(v, at, buf) else v
  }

  /** Whether it is kept. */
  ghost predicate Keeps(v: Image, at: nat) { Allocated(v, BlockOf(v, at)) || v.end / SECTOR < UNALLOCATED }

  /** The disk differs in that sector alone, if it is kept, and else not at all. */
  lemma SteppedIs(v: Image, at: nat, buf: seq<Byte>)
    requires Askable(v, at, buf) && Steady(v)
    ensures var w := Stepped(v, at, buf);
            && Steady(w) && w.blockBytes == v.blockBytes && |w.table| == |v.table|
            && Disk(w) == if Keeps(v, at) then Splice(Disk(v), at, buf) else Disk(v)
    ensures Stepped(v, at, buf).end <= v.end + Extent(v) && Extent(Stepped(v, at, buf)) == Extent(v)
  {
    hide Steady, FooterLast, Disk, Splice, Rewritten, Added, NewBlock, BitmapBytes, KeepsMarks, Marked;
    if Allocated(v, BlockOf(v, at)) {
      RewrittenIs(v, at, buf);
    } else if v.end / SECTOR <= 0xFFFF_FFFF {
      AddedParts(v, at, buf);
      AddedExtent(v, at, buf);
      if v.end / SECTOR == UNALLOCATED {
        LostWrite(v, at, buf);
      } else {
        BlockAdded(v, at, buf);
      }
    }
  }

  lemma AddedExtent(v: Image, at: nat, buf: seq<Byte>)
    requires v.blockBytes > 0 && BlockOf(v, at) < |v.table| && v.end / SECTOR <= 0xFFFF_FFFF
    ensures Extent(Added(v, at, buf)) == Extent(v)
  {
    hide NewBlock, Splice, Be32Bytes;
  }

  type Write = (nat, seq<Byte>)

  ghost predicate AllAskable(v: Image, run: seq<Write>) { forall i :: 0 <= i < |run| ==> Askable(v, run[i].0, run[i].1) }

  ghost function Ran(v: Image, run: seq<Write>): Image {
    if run == [] then v else Stepped(Ran(v, run[..|run| - 1]), run[|run| - 1].0, run[|run| - 1].1)
  }

  /** The flat disk a run of writes makes. */
  function Flat(d: seq<Byte>, run: seq<Write>): seq<Byte> {
    if run == [] then d else Splice(Flat(d, run[..|run| - 1]), run[|run| - 1].0, run[|run| - 1].1)
  }

  /** What is asked of a disk can be asked of it once others have been. */
  lemma AskableStill(v: Image, u: Image, at: nat, buf: seq<Byte>)
    requires Askable(v, at, buf) && u.blockBytes == v.blockBytes && |u.table| == |v.table|
    ensures Askable(u, at, buf)
  {
  }

  /** The writes of a run that are kept. */
  ghost function Kept(v: Image, run: seq<Write>): seq<Write> {
    if run == [] then []
    else
      var n := |run| - 1;
      Kept(v, run[..n]) + if Keeps(Ran(v, run[..n]), run[n].0) then [run[n]] else []
  }

  /** Where the blocks would end, a block added by each of `n` writes. */
  ghost function EndAfter(v: Image, n: nat): nat { v.end + n * Extent(v) }

  lemma EndGrows(v: Image, n: nat)
    ensures if n == 0 then EndAfter(v, n) == v.end else EndAfter(v, n) == EndAfter(v, n - 1) + Extent(v)
  {
    assert n > 0 ==> n * Extent(v) == (n - 1) * Extent(v) + Extent(v);
  }

  /** Every run of writes keeps the image steady, and makes of the file the flat disk that those kept make
      of the disk. */
  lemma {:induction false} RunIsFlat(v: Image, run: seq<Write>)
    requires AllAskable(v, run) && Steady(v)
    ensures var u := Ran(v, run);
            && Steady(u) && u.blockBytes == v.blockBytes && |u.table| == |v.table| && Disk(u) == Flat(Disk(v), Kept(v, run))
            && Extent(u) == Extent(v) && u.end <= EndAfter(v, |run|)
  {
    hide Steady, Disk, Splice, Stepped, Askable, Extent, Keeps, EndAfter;
    EndGrows(v, |run|);
    if run != [] {
      var n := |run| - 1;
      RunIsFlat(v, run[..n]);
      var u := Ran(v, run[..n]);
      AskableStill(v, u, run[n].0, run[n].1);
      SteppedIs(u, run[n].0, run[n].1);
      var k := Kept(v, run[..n]);
      assert (k + [run[n]])[..|k|] == k && k + [] == k;
    }
  }

  /** With room for a block a write before the sector that is the mark of a block not allocated, all are
      kept. */
  lemma {:induction false} RoomKeepsAll(v: Image, run: seq<Write>)
    requires AllAskable(v, run) && Steady(v) && EndAfter(v, |run|) / SECTOR < UNALLOCATED
    ensures Kept(v, run) == run
  {
    hide Steady, Askable, Extent, Keeps, Stepped, EndAfter;
    if run != [] {
      var n := |run| - 1;
      EndGrows(v, |run|);
      Below(EndAfter(v, n), EndAfter(v, |run|));
      RoomKeepsAll(v, run[..n]);
      RunIsFlat(v, run[..n]);
      KeepsBelow(Ran(v, run[..n]), run[n].0, EndAfter(v, n));
      assert run == run[..n] + [run[n]];
    }
  }

  lemma Below(a: nat, b: nat)
    requires a <= b
    ensures a / SECTOR <= b / SECTOR
  {
  }

  lemma KeepsBelow(v: Image, at: nat, end: nat)
    requires v.end <= end && end / SECTOR < UNALLOCATED
    ensures Keeps(v, at)
  {
    Below(v.end, end);
  }

  /** The last write of a run to a sector, if there is one. */
  function Last(run: seq<Write>, at: nat): (b: seq<Byte>) {
    if run == [] then [] else if run[|run| - 1].0 == at then run[|run| - 1].1 else Last(run[..|run| - 1], at)
  }

  ghost predicate Writes(run: seq<Write>, at: nat) { exists i :: 0 <= i < |run| && run[i].0 == at }

  ghost predicate ReadsLast(d: seq<Byte>, e: seq<Byte>, run: seq<Write>, at: nat) {
    |e| == |d| && at + SECTOR <= |d| && e[at..at + SECTOR] == if Writes(run, at) then Last(run, at) else d[at..at + SECTOR]
  }

  /** A sector of the flat disk is the last written to it, or what was there. */
  lemma {:induction false} FlatReads(d: seq<Byte>, run: seq<Write>, at: nat)
    requires at % SECTOR == 0 && at + SECTOR <= |d|
    requires forall i :: 0 <= i < |run| ==> run[i].0 % SECTOR == 0 && |run[i].1| == SECTOR && run[i].0 + SECTOR <= |d|
    ensures ReadsLast(d, Flat(d, run), run, at)
  {
    if run != [] {
      var n := |run| - 1;
      FlatReads(d, run[..n], at);
      hide Flat, Splice;
      FlatNext(d, Flat(d, run[..n]), run, at);
    }
  }

  lemma FlatNext(d: seq<Byte>, f: seq<Byte>, run: seq<Write>, at: nat)
    requires run != [] && at % SECTOR == 0 && ReadsLast(d, f, run[..|run| - 1], at)
    requires var w := run[|run| - 1];
             w.0 % SECTOR == 0 && |w.1| == SECTOR && w.0 + SECTOR <= |d|
    ensures ReadsLast(d, Splice(f, run[|run| - 1].0, run[|run| - 1].1), run, at)
  {
    hide Splice;
    var n := |run| - 1;
    var w := run[n];
    SpliceRoom(f, w.0, w.1);
    WritesNext(run, at);
    if w.0 == at {
      ReadsWritten(f, at, w.1);
    } else {
      SectorsApart(w.0, at);
      ReadsApart(f, w.0, w.1, at, SECTOR);
    }
    hide Writes;
  }

  lemma WritesNext(run: seq<Write>, at: nat)
    requires run != []
    ensures Writes(run, at) <==> run[|run| - 1].0 == at || Writes(run[..|run| - 1], at)
  {
  }

  lemma SectorsApart(a: nat, b: nat)
    requires a % SECTOR == 0 && b % SECTOR == 0 && a != b
    ensures a + SECTOR <= b || b + SECTOR <= a
  {
  }

  lemma SpliceRoom(f: seq<Byte>, at: nat, b: seq<Byte>)
    requires at + |b| <= |f|
    ensures |Splice(f, at, b)| == |f|
  {
  }

  /** So over every run a sector reads back the last data written to it and kept, or what the disk held. */
  lemma RunReads(v: Image, run: seq<Write>, at: nat)
    requires AllAskable(v, run) && Steady(v)
    requires at % SECTOR == 0 && v.blockBytes > 0 && BlockOf(v, at) < |v.table|
    ensures Ran(v, run).blockBytes > 0 && ReadsLast(Disk(v), Disk(Ran(v, run)), Kept(v, run), at)
  {
    hide Steady, ByteAt, Flat, ReadsLast, Ran;
    ShapeFacts(v);
    SectorsFit(v, at);
    KeptIsSome(v, run);
    var kept := Kept(v, run);
    hide Kept;
    forall i | 0 <= i < |kept|
      ensures kept[i].0 % SECTOR == 0 && |kept[i].1| == SECTOR && kept[i].0 + SECTOR <= |Disk(v)|
    {
      assert Askable(v, kept[i].0, kept[i].1);
      SectorsFit(v, kept[i].0);
    }
    RunIsFlat(v, run);
    FlatReads(Disk(v), kept, at);
  }

  lemma {:induction false} KeptIsSome(v: Image, run: seq<Write>)
    requires AllAskable(v, run)
    ensures AllAskable(v, Kept(v, run))
  {
    hide Askable, Keeps, Ran;
    if run != [] {
      KeptIsSome(v, run[..|run| - 1]);
    }
  }

  // ---- The file ----

  class Dynamic {
    var file: seq<Byte>
    var table: seq<nat>
    const tableOffset: nat
    const blockBytes: nat
    const bitmapBytes: nat
    const footer: seq<Byte>
    var end: nat

    function State(): Image
      reads this
    {
      Image(file, table, tableOffset, blockBytes, bitmapBytes, footer, end)
    }

    constructor (v: Image)
      ensures State() == v
    {
      file, table, tableOffset, blockBytes, bitmapBytes, footer, end :=
        v.file, v.table, v.tableOffset, v.blockBytes, v.bitmapBytes, v.footer, v.end;
    }

    /** A sector is that part of the disk. */
    method Read(at: nat) returns (buf: seq<Byte>)
      requires blockBytes > 0 && Steady(State()) && at % SECTOR == 0 && BlockOf(State(), at) < |table|
      ensures at + SECTOR <= |Disk(State())| && buf == Disk(State())[at..at + SECTOR]
    {
      hide Steady, Disk, BitmapBytes;
      var k := at / blockBytes;
      ghost var v := State();
      ReadsSector(v, at);
      if table[k] != UNALLOCATED {
        var off := table[k] * SECTOR + bitmapBytes + at % blockBytes;
        buf := file[off..off + SECTOR];
      } else {
        buf := Zeros(SECTOR);
      }
    }

    /** Written, the disk is as it was but for that sector; refused, it is as it was; and a block
        whose sector number is the mark of one not allocated is appended and lost. */
    method WriteSector(at: nat, buf: seq<Byte>) returns (ok: bool)
      requires blockBytes > 0 && Steady(State()) && at % SECTOR == 0 && BlockOf(State(), at) < |table| && |buf| == SECTOR
      modifies this
      ensures State() == Stepped(old(State()), at, buf) && Steady(State()) && |table| == old(|table|)
      ensures ok <==> old(Allocated(State(), BlockOf(State(), at)) || end / SECTOR <= 0xFFFF_FFFF)
      ensures !ok ==> State() == old(State())
      ensures old(FooterLast(State())) || (ok && !old(Allocated(State(), BlockOf(State(), at)))) ==> FooterLast(State())
      ensures Disk(State()) ==
                if ok && !old(Lost(State(), at)) then Splice(old(Disk(State())), at, buf) else old(Disk(State()))
      ensures KeepsMarks(old(State()), State())
      ensures ok && !old(Lost(State(), at)) ==> Marked(State(), at)
      ensures old(end) <= end && (ok && !old(Allocated(State(), BlockOf(State(), at))) ==> old(end) + 2 * SECTOR <= end)
    {
      hide Steady, Disk, FooterLast, KeepsMarks, Marked, BitmapBytes, Splice, Added, Rewritten;
      ghost var v := State();
      var k := at / blockBytes;
      if table[k] != UNALLOCATED {
        RewrittenIs(v, at, buf);
        Rewrite(k, at, buf);
        ok := true;
      } else {
        ok := Allocate(k, at, buf);
        if !ok {
          SameMarks(v);
        } else {
          AddedParts(v, at, buf);
          if Lost(v, at) {
            LostWrite(v, at, buf);
          } else {
            BlockAdded(v, at, buf);
          }
        }
      }
    }

    /** Into a block the table names: its data first, and then the mark that it has been written. */
    method Rewrite(k: nat, at: nat, buf: seq<Byte>)
      requires blockBytes > 0 && k == BlockOf(State(), at) && Allocated(State(), k)
      requires at % SECTOR == 0 && |buf| == SECTOR && Steady(State())
      modifies this
      ensures State() == Rewritten(old(State()), at, buf)
    {
      hide Steady, BitmapBytes, Splice, Pow2, BitmapByte, BitmapAt, BitAt;
      SectorRoom(State(), at, buf);
      BitPlace(at, blockBytes);
      ghost var w := Inside(State(), k, bitmapBytes + at % blockBytes, buf);
      var off := table[k] * SECTOR + bitmapBytes + at % blockBytes;
      file := Splice(file, off, buf);
      assert State() == w;
      var sector := at % blockBytes / SECTOR;
      var bitAt := table[k] * SECTOR + sector / 8;
      var byte := file[bitAt];
      var bit := Pow2(7 - sector % 8);
      if byte / bit % 2 == 0 {
        file := Splice(file, bitAt, [byte + bit]);
      }
    }

    /** A block made for it: nothing names the block until all of it, and a footer past it, is there. */
    method Allocate(k: nat, at: nat, buf: seq<Byte>) returns (ok: bool)
      requires blockBytes > 0 && k == BlockOf(State(), at) < |table| && !Allocated(State(), k)
      requires at % SECTOR == 0 && |buf| == SECTOR && Steady(State())
      modifies this
      ensures ok <==> old(end) / SECTOR <= 0xFFFF_FFFF
      ensures State() == if ok then Added(old(State()), at, buf) else old(State())
    {
      hide Steady, BitmapBytes, Splice, Be32Bytes;
      if end / SECTOR > 0xFFFF_FFFF {
        return false;
      }
      ghost var v := State();
      var sector := end / SECTOR;
      var block := seq(bitmapBytes, _ => 0xFF) + Splice(Zeros(blockBytes), at % blockBytes, buf);
      assert block == NewBlock(v, at, buf) by { BlockIs(v, at, buf); }
      file := Splice(file, end, block);
      var next := end + |block|;
      file := Splice(file, next, footer);
      file := Splice(file, tableOffset + 4 * k, Be32Bytes(sector));
      table := table[k := sector];
      end := next;
      return true;
    }
  }

  lemma AddedParts(v: Image, at: nat, buf: seq<Byte>)
    requires v.blockBytes > 0 && BlockOf(v, at) < |v.table| && v.end / SECTOR <= 0xFFFF_FFFF
    requires at % SECTOR == 0 && |buf| == SECTOR && Steady(v)
    ensures var w := Added(v, at, buf);
            |w.table| == |v.table| && w.end == v.end + Extent(v) && Extent(v) >= 2 * SECTOR
  {
    hide Steady, NewBlock, BitmapBytes, Splice, Appended, Entered;
    ShapeFacts(v);
    BitmapSome(v.blockBytes);
    SectorInBlock(at, v.blockBytes);
    NewBlockParts(v, at, buf);
    AppendedParts(v, NewBlock(v, at, buf));
    EnteredTable(Appended(v, NewBlock(v, at, buf)), BlockOf(v, at), v.end / SECTOR);
  }

  lemma BitmapSome(b: nat)
    requires b > 0 && b % SECTOR == 0
    ensures b >= SECTOR && BitmapBytes(b) >= SECTOR
  {
  }

  lemma EnteredTable(v: Image, k: nat, s: nat)
    requires k < |v.table| && s < 0x1_0000_0000
    ensures |Entered(v, k, s).table| == |v.table| && Entered(v, k, s).end == v.end
  {
    hide Be32Bytes;
  }

  lemma BlockIs(v: Image, at: nat, buf: seq<Byte>)
    requires v.blockBytes > 0
    ensures NewBlock(v, at, buf) == seq(v.bitmapBytes, _ => 0xFF) + Splice(Zeros(v.blockBytes), at % v.blockBytes, buf)
  {
  }

  lemma SameMarks(v: Image)
    requires v.blockBytes > 0
    ensures KeepsMarks(v, v)
  {
  }

  lemma BitPlace(at: nat, b: nat)
    requires b > 0
    ensures BitmapAt(at, b) == at % b / SECTOR / 8 && BitAt(at, b) == 7 - at % b / SECTOR % 8
  {
  }

  /** The sector's data and its bitmap byte are in the file. */
  lemma SectorRoom(v: Image, at: nat, buf: seq<Byte>)
    requires v.blockBytes > 0 && Allocated(v, BlockOf(v, at)) && at % SECTOR == 0 && |buf| == SECTOR && Steady(v)
    ensures var k, q, p := BlockOf(v, at), BitmapAt(at, v.blockBytes), BitAt(at, v.blockBytes);
            var w := Inside(v, k, v.bitmapBytes + at % v.blockBytes, buf);
            && |w.file| == |v.file| && Start(v, k) + q < |v.file| && w.file[Start(v, k) + q] == BitmapByte(w, k, q)
            && (BitmapByte(w, k, q) / Pow2(p) % 2 == 0 ==> BitmapByte(w, k, q) + Pow2(p) < 256)
  {
    hide Steady, BitmapBytes, Pow2, BitmapAt, BitAt, BitmapByte, Inside, Start, Allocated;
    ShapeFacts(v);
    SectorInBlock(at, v.blockBytes);
    BitmapHolds(at, v.blockBytes);
    var k, rel := BlockOf(v, at), v.bitmapBytes + at % v.blockBytes;
    AllocatedIn(v, k);
    ExtentFacts(v, k);
    InsideParts(v, k, rel, buf);
    InsideIs(v, k, rel, buf, k);
    InsideSteady(v, k, rel, buf);
    BitmapIs(Inside(v, k, rel, buf), k, BitmapAt(at, v.blockBytes));
    BitWritten(Inside(v, k, rel, buf), at);
  }
}
