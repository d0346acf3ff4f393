/** Virtual hard disks as files: how one is told, opened and laid out, after Microsoft's "Virtual Hard Disk
    Image Format Specification" of October 2006. */
module Vhd {
  import opened Arithmetic
  import opened Netlist
  import opened BitStream
  import opened Bytes

  const SECTOR: nat := 512
  const UNALLOCATED: nat := 0xFFFF_FFFF
  const COOKIE: seq<Byte> := [0x63, 0x6F, 0x6E, 0x65, 0x63, 0x74, 0x69, 0x78]          // conectix
  const DYNAMIC_COOKIE: seq<Byte> := [0x63, 0x78, 0x73, 0x70, 0x61, 0x72, 0x73, 0x65]  // cxsparse
  const VHDX_COOKIE: seq<Byte> := [0x76, 0x68, 0x64, 0x78, 0x66, 0x69, 0x6C, 0x65]     // vhdxfile

  function Sum(b: seq<Byte>): nat {
    if b == [] then 0 else Sum(b[..|b| - 1]) + b[|b| - 1]
  }

  /** All but the four bytes at `at` added up and complemented. */
  function Checksum(b: seq<Byte>, at: nat): nat
    requires at + 4 <= |b|
  {
    0xFFFF_FFFF - (Sum(b[..at]) + Sum(b[at + 4..])) % 0x1_0000_0000
  }

  /** The next whole sector at or after a byte. */
  function ToSector(n: nat): (r: nat)
    ensures n <= r < n + SECTOR && r % SECTOR == 0
  {
    (n + 511) / SECTOR * SECTOR
  }

  // ---- What a file is ----

  datatype Trailer = NotOne | Damaged | Footer(kind: nat, size: nat)

  /** A sector taken as a footer. */
  function FooterOf(b: seq<Byte>): Trailer
    requires |b| == 512
  {
    if b[..8] != COOKIE then NotOne
    else if Be32(b, 64) != Checksum(b, 64) then Damaged
    else Footer(Be32(b, 60), Be64(b, 48))
  }

  /** An open dynamic image: its bytes, the sector its table gives each block, where that table is, the sizes
      of a block and of the bitmap it begins with, the footer, and the end of what is in use. */
  datatype Image = Image(file: seq<Byte>, table: seq<nat>, tableOffset: nat, blockBytes: nat, bitmapBytes: nat,
                         footer: seq<Byte>, end: nat)

  /** Room for a bit of each of a block's sectors, in sectors of its own. */
  function BitmapBytes(blockBytes: nat): nat { ToSector((blockBytes / SECTOR + 7) / 8) }

  /** A dynamic header's table offset, entry count and block size, if these bytes are one. */
  function HeaderOf(h: seq<Byte>): Option<(nat, nat, nat)>
    requires |h| == 1024
  {
    if h[..8] != DYNAMIC_COOKIE || Be32(h, 36) != Checksum(h, 36) then None
    else Some((Be64(h, 16), Be32(h, 28), Be32(h, 32)))
  }

  /** The table's big-endian entries. */
  function Entries(raw: seq<Byte>, n: nat): (t: seq<nat>)
    requires |raw| == 4 * n
    ensures |t| == n
  {
    seq(n, k requires 0 <= k < n => Be(raw[4 * k..4 * k + 4]))
  }

  function OpenDynamic(f: seq<Byte>, footer: seq<Byte>, end: nat): Option<Image>
    requires |footer| == 512
  {
    match ReadAt(f, Be64(footer, 16), 1024)
    case None => None
    case Some(h) =>
      match HeaderOf(h)
      case None => None
      case Some((tableOffset, entries, blockBytes)) =>
        if blockBytes == 0 || blockBytes % SECTOR != 0 || entries * blockBytes < Be64(footer, 48) then None
        else match ReadAt(f, tableOffset, 4 * entries)
          case None => None
          case Some(raw) =>
            Some(Image(f, Entries(raw, entries), tableOffset, blockBytes, BitmapBytes(blockBytes), footer, ToSector(end)))
  }

  datatype Opened = Refused | Raw(size: nat) | FixedVhd(size: nat) | DynamicVhd(image: Image, size: nat)

  /** A file opened: its last sector says what it is, or, if that is no footer, its first may. */
  function OpenFile(f: seq<Byte>): Opened {
    var len := |f|;
    var first := if len >= 8 then f[..if len < 512 then len else 512] + Zeros(if len < 512 then 512 - len else 0) else Zeros(512);
    if len >= 8 && first[..8] == VHDX_COOKIE then Refused
    else
      var last := if len >= 512 then FooterOf(f[len - 512..]) else NotOne;
      match last
      case Damaged => Refused
      case Footer(kind, size) => OpenKind(f, kind, size, f[len - 512..], len - 512)
      case NotOne =>
        match FooterOf(first)
        case Damaged => Refused
        case Footer(kind, size) => if kind == 3 && len >= 512 then OpenKind(f, 3, size, first, len) else Raw(len)
        case NotOne => Raw(len)
  }

  function OpenKind(f: seq<Byte>, kind: nat, size: nat, footer: seq<Byte>, end: nat): Opened
    requires |footer| == 512
  {
    if kind == 2 then FixedVhd(size)
    else if kind == 3 then
      match OpenDynamic(f, footer, end)
      case None => Refused
      case Some(image) => DynamicVhd(image, size)
    else Refused
  }

  // ---- A sound dynamic image ----

  /** The shape its footer and header give it, and the three regions that say so, below `end`. */
  ghost predicate Shaped(v: Image) {
    && |v.footer| == 512 && FooterOf(v.footer) == Footer(3, Be64(v.footer, 48))
    && v.blockBytes > 0 && v.blockBytes % SECTOR == 0 && v.bitmapBytes == BitmapBytes(v.blockBytes)
    && |v.table| * v.blockBytes >= Be64(v.footer, 48)
    && v.end % SECTOR == 0
    && 512 <= v.end && Be64(v.footer, 16) + 1024 <= v.end && v.tableOffset + 4 * |v.table| <= v.end
    && Be64(v.footer, 16) >= 512 && v.tableOffset >= 512
    && (v.tableOffset + 4 * |v.table| <= Be64(v.footer, 16) || Be64(v.footer, 16) + 1024 <= v.tableOffset)
  }

  /** The file holds them: the footer's copy, the dynamic header, and the table as kept. */
  ghost predicate Described(v: Image, f: seq<Byte>) {
    && |v.footer| == 512 && 512 <= |f| && f[..512] == v.footer
    && Be64(v.footer, 16) + 1024 <= |f| && v.tableOffset + 4 * |v.table| <= |f|
    && HeaderOf(f[Be64(v.footer, 16)..Be64(v.footer, 16) + 1024]) == Some((v.tableOffset, |v.table|, v.blockBytes))
    && Entries(f[v.tableOffset..v.tableOffset + 4 * |v.table|], |v.table|) == v.table
  }

  function Extent(v: Image): nat { v.bitmapBytes + v.blockBytes }

  ghost predicate Allocated(v: Image, k: nat) { k < |v.table| && v.table[k] != UNALLOCATED }

  function Start(v: Image, k: nat): nat
    requires k < |v.table|
  {
    v.table[k] * SECTOR
  }

  ghost predicate Apart(a: nat, n: nat, b: nat, m: nat) { a + n <= b || b + m <= a }

  /** The blocks lie in the file below `end`, clear of what describes it and of each other. */
  ghost predicate Laid(v: Image) {
    && (forall k: nat {:trigger Start(v, k)} :: Allocated(v, k) ==>
          && Start(v, k) + Extent(v) <= v.end && Start(v, k) + Extent(v) <= |v.file|
          && Start(v, k) >= 512
          && Apart(Start(v, k), Extent(v), Be64Of(v), 1024)
          && Apart(Start(v, k), Extent(v), v.tableOffset, 4 * |v.table|))
    && (forall j: nat, k: nat {:trigger Start(v, j), Start(v, k)} :: j != k && Allocated(v, j) && Allocated(v, k) ==>
          Apart(Start(v, j), Extent(v), Start(v, k), Extent(v)))
  }

  function Be64Of(v: Image): nat { if |v.footer| == 512 then Be64(v.footer, 16) else 0 }

  /** Everything but where the file ends. */
  ghost predicate Steady(v: Image) {
    Shaped(v) && Described(v, v.file) && Laid(v) && |v.file| <= v.end + 512
  }

  ghost predicate FooterLast(v: Image) { |v.file| == v.end + 512 && v.file[v.end..] == v.footer }

  /** The footer is at `end`, closing the file, or is lost and the file stops by `end`. */
  ghost predicate Closed(v: Image) {
    || FooterLast(v)
    || (512 <= |v.file| && v.end - SECTOR < |v.file| <= v.end && FooterOf(v.file[|v.file| - 512..]) == NotOne)
  }

  ghost predicate Sound(v: Image) { Steady(v) && Closed(v) }

  /** A byte of the disk: what its block holds, zero if it has none. */
  function ByteAt(v: Image, i: nat): Byte
    requires v.blockBytes > 0
  {
    var k := i / v.blockBytes;
    if k >= |v.table| || v.table[k] == UNALLOCATED then 0
    else
      var off := v.table[k] * SECTOR + v.bitmapBytes + i % v.blockBytes;
      if off < |v.file| then v.file[off] else 0
  }

  /** The disk as it reads. */
  function Disk(v: Image): seq<Byte>
    requires v.blockBytes > 0
  {
    seq(|v.table| * v.blockBytes, i requires 0 <= i => ByteAt(v, i))
  }

  // ---- Opening ----

  /** A sound image's file opens as that image. */
  lemma Reopens(v: Image)
    requires Sound(v)
    ensures OpenFile(v.file) == DynamicVhd(v, Be64(v.footer, 48))
  {
    hide OpenFile, OpenKind, Checksum, Be, HeaderOf, OpenDynamic, BitmapBytes, Laid, FooterOf, Entries, Described;
    SoundParts(v);
    hide Sound, Shaped;
    CopyIsFooter(v, v.file);
    if FooterLast(v) {
      OpensByTrailer(v);
      OpensAs(v, v.end);
    } else {
      OpensByCopy(v);
      OpensAs(v, |v.file|);
    }
  }

  lemma SoundParts(v: Image)
    requires Sound(v)
    ensures Shaped(v) && Described(v, v.file) && v.end % SECTOR == 0 && ToSector(v.end) == v.end
    ensures FooterLast(v) || (512 <= |v.file| && ToSector(|v.file|) == v.end && FooterOf(v.file[|v.file| - 512..]) == NotOne)
  {
    hide Laid, Described, Be, BitmapBytes, FooterOf;
  }

  /** Opened with its footer, the file is the image again. */
  lemma OpensAs(v: Image, e: nat)
    requires Shaped(v) && Described(v, v.file) && ToSector(e) == v.end
    ensures OpenKind(v.file, 3, Be64(v.footer, 48), v.footer, e) == DynamicVhd(v, Be64(v.footer, 48))
  {
    hide Checksum, Be, HeaderOf, OpenDynamic, BitmapBytes, FooterOf, Entries, Described;
    OpensDynamic(v, v.file, e);
    assert v.(file := v.file, end := v.end) == v;
  }

  lemma OpensByTrailer(v: Image)
    requires Shaped(v) && Described(v, v.file) && |v.file| == v.end + 512 && v.file[v.end..] == v.footer
    requires v.file[..8] != VHDX_COOKIE
    ensures OpenFile(v.file) == OpenKind(v.file, 3, Be64(v.footer, 48), v.footer, v.end)
  {
    hide Checksum, Be, HeaderOf, OpenDynamic, BitmapBytes, FooterOf;
    assert (v.file[..512] + Zeros(0))[..8] == v.file[..8];
  }

  lemma OpensByCopy(v: Image)
    requires Shaped(v) && Described(v, v.file) && FooterOf(v.file[|v.file| - 512..]) == NotOne
    requires v.file[..8] != VHDX_COOKIE
    ensures OpenFile(v.file) == OpenKind(v.file, 3, Be64(v.footer, 48), v.footer, |v.file|)
  {
    hide Checksum, Be, HeaderOf, OpenDynamic, BitmapBytes, FooterOf;
    assert v.file[..512] + Zeros(0) == v.file[..512] == v.footer;
    assert v.footer[..8] == v.file[..8];
  }

  /** What its first bytes are read as: a footer, and not a VHDX. */
  lemma CopyIsFooter(v: Image, f: seq<Byte>)
    requires Shaped(v) && Described(v, f)
    ensures f[..8] == COOKIE != VHDX_COOKIE
  {
    assert f[..8] == f[..512][..8];
    assert COOKIE[0] != VHDX_COOKIE[0];
  }

  lemma OpensDynamic(v: Image, f: seq<Byte>, e: nat)
    requires Shaped(v) && Described(v, f)
    ensures OpenDynamic(f, v.footer, e) == Some(v.(file := f, end := ToSector(e)))
  {
    hide Checksum, Be, HeaderOf, BitmapBytes, Entries, FooterOf;
  }

  // ---- What a write may touch ----

  /** `f` holds everything `v` describes where `g` does. */
  ghost predicate SameBelow(g: seq<Byte>, f: seq<Byte>, end: nat) {
    |f| >= (if |g| < end then |g| else end) && forall i :: 0 <= i < |g| && i < end ==> f[i] == g[i]
  }

  lemma DescribedBelow(v: Image, f: seq<Byte>)
    requires Shaped(v) && Described(v, v.file) && SameBelow(v.file, f, v.end)
    ensures Described(v, f)
  {
    hide Be, HeaderOf, BitmapBytes, FooterOf, Entries;
    var h, n := Be64(v.footer, 16), 4 * |v.table|;
    assert f[..512] == v.file[..512];
    assert f[h..h + 1024] == v.file[h..h + 1024];
    assert f[v.tableOffset..v.tableOffset + n] == v.file[v.tableOffset..v.tableOffset + n];
  }

  /** Bytes past `end` name nothing: whatever is there, the disk is as it was. */
  lemma PastEnd(v: Image, f: seq<Byte>, e: nat)
    requires Steady(v) && SameBelow(v.file, f, v.end) && v.end <= e && e % SECTOR == 0 && |f| <= e + 512
    ensures Steady(v.(file := f, end := e)) && Disk(v.(file := f, end := e)) == Disk(v)
  {
    hide Be, HeaderOf, BitmapBytes, FooterOf, ByteAt;
    var w := v.(file := f, end := e);
    DescribedBelow(v, f);
    assert Laid(w) by { LaidBelow(v, w); }
    hide Laid, Closed, Shaped, Described;
    forall i: nat | i < |v.table| * v.blockBytes
      ensures ByteAt(w, i) == ByteAt(v, i)
    {
      SameByte(v, w, i);
    }
    assert Disk(w) == Disk(v);
  }

  lemma LaidBelow(v: Image, w: Image)
    requires Laid(v) && w == v.(file := w.file, end := w.end) && v.end <= w.end && SameBelow(v.file, w.file, v.end)
    ensures Laid(w)
  {
    assert forall k: nat {:trigger Start(w, k)} :: k < |v.table| ==> Start(w, k) == Start(v, k);
  }

  lemma SameByte(v: Image, w: Image, i: nat)
    requires Laid(v) && w == v.(file := w.file, end := w.end) && SameBelow(v.file, w.file, v.end) && v.blockBytes > 0
    ensures ByteAt(w, i) == ByteAt(v, i)
  {
    var k := i / v.blockBytes;
    if Allocated(v, k) {
      assert Start(v, k) + Extent(v) <= |v.file|;
    }
  }

  /** `buf` written into block `k`, `rel` bytes after its bitmap begins. */
  function Inside(v: Image, k: nat, rel: nat, buf: seq<Byte>): Image
    requires k < |v.table|
  {
    v.(file := Splice(v.file, Start(v, k) + rel, buf))
  }

  lemma InsideSteady(v: Image, k: nat, rel: nat, buf: seq<Byte>)
    requires Steady(v) && Allocated(v, k) && rel + |buf| <= Extent(v)
    ensures Steady(Inside(v, k, rel, buf)) && |Inside(v, k, rel, buf).file| == |v.file|
    ensures FooterLast(v) ==> FooterLast(Inside(v, k, rel, buf))
  {
    hide Shaped, Described, Laid, Be, HeaderOf, BitmapBytes, FooterOf, Entries;
    var w := Inside(v, k, rel, buf);
    ExtentFacts(v, k);
    InsideDescribed(v, k, rel, buf);
    SameShape(v, w);
    LaidSame(v, w);
    if FooterLast(v) {
      ReadsApart(v.file, Start(v, k) + rel, buf, v.end, 512);
    }
  }

  lemma SameShape(v: Image, w: Image)
    requires w == v.(file := w.file)
    ensures Shaped(v) ==> Shaped(w)
    ensures Described(v, w.file) ==> Described(w, w.file)
  {
    hide Be, HeaderOf, BitmapBytes, FooterOf, Entries;
  }

  /** Where a block lies. */
  lemma ExtentFacts(v: Image, k: nat)
    requires Steady(v) && Allocated(v, k)
    ensures Start(v, k) + Extent(v) <= |v.file| && 512 <= Start(v, k) && Start(v, k) + Extent(v) <= v.end
    ensures Apart(Start(v, k), Extent(v), Be64Of(v), 1024)
    ensures Apart(Start(v, k), Extent(v), v.tableOffset, 4 * |v.table|)
    ensures 512 <= |v.file| && Be64Of(v) + 1024 <= |v.file| && v.tableOffset + 4 * |v.table| <= |v.file|
  {
  }

  lemma LaidSame(v: Image, w: Image)
    requires Laid(v) && w == v.(file := w.file) && |w.file| == |v.file|
    ensures Laid(w)
  {
    assert forall j: nat {:trigger Start(w, j)} :: j < |v.table| ==> Start(w, j) == Start(v, j);
  }

  lemma DescribedSame(v: Image, g: seq<Byte>)
    requires Described(v, v.file) && |g| >= |v.file|
    requires g[..512] == v.file[..512] && g[Be64Of(v)..Be64Of(v) + 1024] == v.file[Be64Of(v)..Be64Of(v) + 1024]
    requires g[v.tableOffset..v.tableOffset + 4 * |v.table|] == v.file[v.tableOffset..v.tableOffset + 4 * |v.table|]
    ensures Described(v, g)
  {
  }

  lemma InsideDescribed(v: Image, k: nat, rel: nat, buf: seq<Byte>)
    requires Steady(v) && Allocated(v, k) && rel + |buf| <= Extent(v)
    ensures Described(v, Inside(v, k, rel, buf).file)
  {
    hide Shaped, Described, Laid, Be, HeaderOf, BitmapBytes, FooterOf, Entries, Be64Of;
    ExtentFacts(v, k);
    var at := Start(v, k) + rel;
    ReadsApart(v.file, at, buf, 0, 512);
    ReadsApart(v.file, at, buf, Be64Of(v), 1024);
    ReadsApart(v.file, at, buf, v.tableOffset, 4 * |v.table|);
    DescribedSame(v, Splice(v.file, at, buf));
  }

  lemma InsideByte(v: Image, k: nat, rel: nat, buf: seq<Byte>, i: nat)
    requires Steady(v) && Allocated(v, k) && rel + |buf| <= Extent(v)
    ensures ByteAt(Inside(v, k, rel, buf), i) ==
              var p := v.bitmapBytes + i % v.blockBytes;
              if i / v.blockBytes == k && rel <= p < rel + |buf| then buf[p - rel] else ByteAt(v, i)
  {
    hide Steady, ByteAt, BitmapBytes, Inside, ByteOf, Allocated, Start, Extent;
    TableFacts(v);
    NoSuchBlock(v, k);
    SameSizes(v, k, rel, buf);
    ByteIs(v, i);
    ByteIs(Inside(v, k, rel, buf), i);
    RemainderBelow(i, v.blockBytes);
    InsideByteOf(v, k, rel, buf, i / v.blockBytes, i % v.blockBytes);
  }

  lemma SameSizes(v: Image, k: nat, rel: nat, buf: seq<Byte>)
    requires k < |v.table|
    ensures Inside(v, k, rel, buf).blockBytes == v.blockBytes && Inside(v, k, rel, buf).bitmapBytes == v.bitmapBytes
  {
    hide Splice;
  }

  lemma InsideByteOf(v: Image, k: nat, rel: nat, buf: seq<Byte>, j: nat, r: nat)
    requires Steady(v) && Allocated(v, k) && rel + |buf| <= Extent(v) && r < v.blockBytes
    ensures ByteOf(Inside(v, k, rel, buf), j, r) ==
              var p := v.bitmapBytes + r;
              if j == k && rel <= p < rel + |buf| then buf[p - rel] else ByteOf(v, j, r)
  {
    hide Steady, BitmapBytes, Inside, Start, Allocated;
    ExtentFacts(v, k);
    NoSuchBlock(v, k);
    InsideIs(v, k, rel, buf, j);
    if Allocated(v, j) {
      ExtentFacts(v, j);
      BlocksApart(v, j, k);
    }
  }

  lemma InsideIs(v: Image, k: nat, rel: nat, buf: seq<Byte>, j: nat)
    requires k < |v.table| && Start(v, k) + rel + |buf| <= |v.file|
    ensures var w := Inside(v, k, rel, buf);
            && w.blockBytes == v.blockBytes && w.bitmapBytes == v.bitmapBytes && |w.file| == |v.file|
            && (Allocated(w, j) <==> Allocated(v, j)) && (Allocated(v, j) ==> Start(w, j) == Start(v, j))
            && forall i :: 0 <= i < |v.file| ==> w.file[i] == if Start(v, k) + rel <= i < Start(v, k) + rel + |buf| then buf[i - Start(v, k) - rel] else v.file[i]
  {
  }

  lemma BlocksApart(v: Image, j: nat, k: nat)
    requires Steady(v) && Allocated(v, j) && Allocated(v, k)
    ensures j != k ==> Apart(Start(v, j), Extent(v), Start(v, k), Extent(v))
  {
    hide Shaped, Described;
  }

  // ---- Whole sectors in whole blocks ----

  /** A sector lies in one block. */
  lemma SectorInBlock(at: nat, b: nat)
    requires at % SECTOR == 0 && b > 0 && b % SECTOR == 0
    ensures at % b + SECTOR <= b && at % b % SECTOR == 0
  {
    var q, r := at / b, at % b;
    var c, d := b / SECTOR, at / SECTOR;
    assert at == q * b + r && b == c * SECTOR && at == d * SECTOR;
    assert q * b == (q * c) * SECTOR;
    assert r == (d - q * c) * SECTOR;
    assert r / SECTOR < c;
  }

  /** The bytes of a sector are those of its block it covers. */
  lemma ByteInSector(i: nat, at: nat, b: nat)
    requires at % SECTOR == 0 && b > 0 && b % SECTOR == 0
    ensures at <= i < at + SECTOR <==> i / b == at / b && at % b <= i % b < at % b + SECTOR
    ensures at <= i < at + SECTOR ==> i % b - at % b == i - at
  {
    SectorInBlock(at, b);
    var q, r := at / b, at % b;
    assert at == q * b + r && i == (i / b) * b + i % b;
    if at <= i < at + SECTOR {
      DivUnique(q, b, r + (i - at));
    }
  }

  // ---- A block allocated, and the writing of it cut short ----

  /** The file once the first `n` bytes of the new block and the footer after it are written. */
  function CutAt(v: Image, block: seq<Byte>, n: nat): seq<Byte>
    requires n <= |block| + |v.footer|
  {
    Splice(v.file, v.end, (block + v.footer)[..n])
  }

  /** A new block and the footer are two writes, one after the other. */
  lemma TwoWrites(f: seq<Byte>, at: nat, a: seq<Byte>, b: seq<Byte>)
    requires a != []
    ensures Splice(Splice(f, at, a), at + |a|, b) == Splice(f, at, a + b)
  {
    var g, h := Splice(Splice(f, at, a), at + |a|, b), Splice(f, at, a + b);
    assert |g| == |h|;
    forall i | 0 <= i < |g|
      ensures g[i] == h[i]
    {
    }
  }

  /** However many bytes of the block and of the footer after it were written, and so long as
      what the file was left ending in is not itself taken for a footer, the file opens, sound,
      as the disk it was. */
  lemma SurvivesCut(v: Image, block: seq<Byte>, n: nat) returns (w: Image)
    requires Sound(v) && |v.footer| == 512 && |block| == Extent(v) && Extent(v) % SECTOR == 0 && n <= |block| + 512
    requires var f := CutAt(v, block, n);
             n == 0 || n == |block| + 512 || (512 <= |f| && FooterOf(f[|f| - 512..]) == NotOne)
    ensures OpenFile(CutAt(v, block, n)) == DynamicVhd(w, Be64(v.footer, 48))
    ensures Sound(w) && w.blockBytes == v.blockBytes && Disk(w) == Disk(v)
    ensures n > 0 ==> w == v.(file := CutAt(v, block, n), end := if n == |block| + 512 then v.end + |block| else ToSector(|CutAt(v, block, n)|))
    ensures n == |block| + 512 ==> FooterLast(w)
  {
    if n == 0 {
      w := v;
      assert CutAt(v, block, 0) == v.file;
    } else {
      var f := CutAt(v, block, n);
      var e := if n == |block| + 512 then v.end + |block| else ToSector(|f|);
      w := v.(file := f, end := e);
      SoundFacts(v);
      hide Steady, Closed, FooterOf;
      CutCloses(v, block, n, e);
      PastEnd(v, f, e);
    }
    hide Sound;
    Reopens(w);
  }

  lemma SoundFacts(v: Image)
    requires Sound(v)
    ensures |v.footer| == 512 && v.end % SECTOR == 0 && |v.file| <= v.end + 512
  {
  }

  lemma CutCloses(v: Image, block: seq<Byte>, n: nat, e: nat)
    requires |v.footer| == 512 && v.end % SECTOR == 0 && |v.file| <= v.end + 512
    requires |block| == Extent(v) && Extent(v) % SECTOR == 0 && 0 < n <= |block| + 512
    requires var f := CutAt(v, block, n);
             if n == |block| + 512 then e == v.end + |block|
             else e == ToSector(|f|) && 512 <= |f| && FooterOf(f[|f| - 512..]) == NotOne
    ensures var f := CutAt(v, block, n);
            SameBelow(v.file, f, v.end) && v.end <= e && e % SECTOR == 0 && |f| <= e + 512 && Closed(v.(file := f, end := e))
    ensures n == |block| + 512 ==> FooterLast(v.(file := CutAt(v, block, n), end := e))
  {
    hide FooterOf;
    var f := CutAt(v, block, n);
    if n == |block| + 512 {
      assert (block + v.footer)[..n] == block + v.footer;
      WholeWrite(v.file, v.end, block, v.footer);
    }
  }

  lemma WholeWrite(f: seq<Byte>, at: nat, a: seq<Byte>, b: seq<Byte>)
    requires |f| <= at + |b| && b != []
    ensures |Splice(f, at, a + b)| == at + |a| + |b| && Splice(f, at, a + b)[at + |a|..] == b
  {
  }

  // ---- The table entry ----

  /** Room at sector `s` for block `k`, past everything the image has. */
  ghost predicate Free(v: Image, k: nat, s: nat) {
    && k < |v.table| && !Allocated(v, k)
    && s * SECTOR + Extent(v) <= v.end && s * SECTOR + Extent(v) <= |v.file|
    && 512 <= s * SECTOR && Be64Of(v) + 1024 <= s * SECTOR && v.tableOffset + 4 * |v.table| <= s * SECTOR
    && forall j: nat {:trigger Start(v, j)} :: Allocated(v, j) ==> Start(v, j) + Extent(v) <= s * SECTOR
  }

  /** The block's entry written, in the file and in the table kept. */
  function Entered(v: Image, k: nat, s: nat): Image
    requires k < |v.table| && s < 0x1_0000_0000
  {
    v.(file := Splice(v.file, v.tableOffset + 4 * k, Be32Bytes(s)), table := v.table[k := s])
  }

  lemma EntriesUpdated(raw: seq<Byte>, n: nat, k: nat, s: nat)
    requires |raw| == 4 * n && k < n && s < 0x1_0000_0000
    ensures Entries(Splice(raw, 4 * k, Be32Bytes(s)), n) == Entries(raw, n)[k := s]
  {
    var b := Be32Bytes(s);
    var g := Splice(raw, 4 * k, b);
    Be32RoundTrip(s);
    hide Be, Be32Bytes;
    forall j | 0 <= j < n
      ensures Entries(g, n)[j] == Entries(raw, n)[k := s][j]
    {
      if j == k {
        ReadsWritten(raw, 4 * k, b);
      } else {
        ReadsApart(raw, 4 * k, b, 4 * j, 4);
      }
    }
  }

  /** A write into a region changes that region alone. */
  lemma RegionUpdated(f: seq<Byte>, from: nat, n: nat, rel: nat, b: seq<Byte>)
    requires from + n <= |f| && rel + |b| <= n && b != []
    ensures |Splice(f, from + rel, b)| == |f|
    ensures Splice(f, from + rel, b)[from..from + n] == Splice(f[from..from + n], rel, b)
  {
  }

  lemma EnteredDescribed(v: Image, k: nat, s: nat)
    requires Shaped(v) && Described(v, v.file) && k < |v.table| && s < 0x1_0000_0000
    ensures Described(Entered(v, k, s), Entered(v, k, s).file)
  {
    hide Be, HeaderOf, BitmapBytes, FooterOf, Entries, Be32Bytes, Splice;
    var at, n, b := v.tableOffset + 4 * k, 4 * |v.table|, Be32Bytes(s);
    ReadsApart(v.file, at, b, 0, 512);
    ReadsApart(v.file, at, b, Be64(v.footer, 16), 1024);
    RegionUpdated(v.file, v.tableOffset, n, 4 * k, b);
    EntriesUpdated(v.file[v.tableOffset..v.tableOffset + n], |v.table|, k, s);
  }

  lemma EnteredStart(v: Image, k: nat, s: nat, j: nat)
    requires k < |v.table| && s < UNALLOCATED && j < |v.table|
    ensures Allocated(Entered(v, k, s), j) <==> j == k || Allocated(v, j)
    ensures Start(Entered(v, k, s), j) == if j == k then s * SECTOR else Start(v, j)
  {
    hide Be32Bytes;
  }

  lemma EnteredLaid(v: Image, k: nat, s: nat)
    requires Laid(v) && Free(v, k, s) && s < UNALLOCATED
    ensures |Entered(v, k, s).file| == |v.file| ==> Laid(Entered(v, k, s))
  {
    var w := Entered(v, k, s);
    forall j: nat | j < |v.table|
      ensures Allocated(w, j) <==> j == k || Allocated(v, j)
      ensures Start(w, j) == if j == k then s * SECTOR else Start(v, j)
    {
      EnteredStart(v, k, s, j);
    }
    assert w.tableOffset == v.tableOffset && |w.table| == |v.table| && Extent(w) == Extent(v) && Be64Of(w) == Be64Of(v);
    hide Entered, Be32Bytes, Allocated, Be64Of, Extent;
  }

  lemma EnteredFile(v: Image, k: nat, s: nat)
    requires k < |v.table| && s < 0x1_0000_0000 && v.tableOffset + 4 * |v.table| <= v.end && v.tableOffset + 4 * |v.table| <= |v.file|
    ensures |Entered(v, k, s).file| == |v.file|
    ensures FooterLast(v) ==> FooterLast(Entered(v, k, s))
    ensures forall i :: v.tableOffset + 4 * |v.table| <= i < |v.file| ==> Entered(v, k, s).file[i] == v.file[i]
  {
    hide Be32Bytes;
    if FooterLast(v) {
      ReadsApart(v.file, v.tableOffset + 4 * k, Be32Bytes(s), v.end, 512);
    }
  }

  lemma TableFacts(v: Image)
    requires Steady(v)
    ensures v.tableOffset + 4 * |v.table| <= v.end && v.tableOffset + 4 * |v.table| <= |v.file| && v.blockBytes > 0
  {
  }

  /** The entry of a block given room past the others makes it the disk's, as it lies there. */
  lemma EnteredSteady(v: Image, k: nat, s: nat)
    requires Steady(v) && Free(v, k, s) && s < UNALLOCATED
    ensures Steady(Entered(v, k, s)) && (FooterLast(v) ==> FooterLast(Entered(v, k, s)))
  {
    hide Shaped, Described, Laid, Free, Be, HeaderOf, BitmapBytes, FooterOf, Entries, FooterLast;
    TableFacts(v);
    FreeIsUnallocated(v, k, s);
    EnteredFile(v, k, s);
    EnteredDescribed(v, k, s);
    EnteredLaid(v, k, s);
    EnteredShape(v, k, s);
  }

  lemma FreeIsUnallocated(v: Image, k: nat, s: nat)
    requires Free(v, k, s)
    ensures k < |v.table| && !Allocated(v, k)
  {
  }

  lemma EnteredShape(v: Image, k: nat, s: nat)
    requires Shaped(v) && k < |v.table| && s < 0x1_0000_0000
    ensures Shaped(Entered(v, k, s))
  {
  }

  lemma FreeFacts(v: Image, k: nat, s: nat)
    requires Free(v, k, s)
    ensures k < |v.table| && !Allocated(v, k) && s * SECTOR + Extent(v) <= |v.file|
    ensures v.tableOffset + 4 * |v.table| <= s * SECTOR
  {
  }

  lemma EnteredParts(v: Image, k: nat, s: nat)
    requires k < |v.table| && s < UNALLOCATED
    ensures var w := Entered(v, k, s);
            |w.table| == |v.table| && w.blockBytes == v.blockBytes && w.bitmapBytes == v.bitmapBytes
  {
    hide Be32Bytes;
  }

  /** Byte `r` of a block, told by whether it is allocated and where it starts. */
  ghost function ByteOf(v: Image, j: nat, r: nat): Byte {
    if !Allocated(v, j) then 0
    else
      var off := Start(v, j) + v.bitmapBytes + r;
      if off < |v.file| then v.file[off] else 0
  }

  lemma ByteIs(v: Image, i: nat)
    requires v.blockBytes > 0
    ensures ByteAt(v, i) == ByteOf(v, i / v.blockBytes, i % v.blockBytes)
  {
  }

  lemma EnteredByte(v: Image, k: nat, s: nat, i: nat)
    requires Steady(v) && Free(v, k, s) && s < UNALLOCATED
    ensures s * SECTOR + v.bitmapBytes + i % v.blockBytes < |v.file|
    ensures ByteAt(Entered(v, k, s), i) == if i / v.blockBytes == k then v.file[s * SECTOR + v.bitmapBytes + i % v.blockBytes] else ByteAt(v, i)
  {
    hide Steady, Free, Entered, ByteAt, ByteOf;
    TableFacts(v);
    FreeFacts(v, k, s);
    EnteredParts(v, k, s);
    ByteIs(v, i);
    ByteIs(Entered(v, k, s), i);
    RemainderBelow(i, v.blockBytes);
    EnteredByteOf(v, k, s, i / v.blockBytes, i % v.blockBytes);
  }

  lemma RemainderBelow(i: nat, b: nat)
    requires b > 0
    ensures i % b < b
  {
  }

  lemma EnteredByteOf(v: Image, k: nat, s: nat, j: nat, r: nat)
    requires Steady(v) && Free(v, k, s) && s < UNALLOCATED && r < v.blockBytes
    ensures s * SECTOR + v.bitmapBytes + r < |v.file|
    ensures ByteOf(Entered(v, k, s), j, r) == if j == k then v.file[s * SECTOR + v.bitmapBytes + r] else ByteOf(v, j, r)
  {
    hide Steady, Free, Entered, Start, Allocated;
    FreeFacts(v, k, s);
    EnteredParts(v, k, s);
    EnteredThere(v, k, s, j, v.bitmapBytes + r);
  }

  /** Where a byte of a block is, and what it is, the entry written. */
  lemma EnteredThere(v: Image, k: nat, s: nat, j: nat, rel: nat)
    requires Steady(v) && Free(v, k, s) && s < UNALLOCATED && rel < Extent(v)
    ensures var w := Entered(v, k, s);
            && |w.file| == |v.file| && (Allocated(w, j) <==> j == k || Allocated(v, j))
            && (j == k ==> Start(w, j) == s * SECTOR && s * SECTOR + rel < |v.file| && w.file[s * SECTOR + rel] == v.file[s * SECTOR + rel])
            && (j != k && Allocated(v, j) ==>
                  Start(w, j) == Start(v, j) && Start(v, j) + rel < |v.file| && w.file[Start(v, j) + rel] == v.file[Start(v, j) + rel])
  {
    hide Steady, Free, Entered, Start, Allocated;
    FreeFacts(v, k, s);
    if j == k {
      TableFacts(v);
      EnteredFile(v, k, s);
      EnteredStart(v, k, s, k);
    } else {
      OtherThere(v, k, s, j, rel);
    }
  }

  /** Whatever sector the entry names, another block is where it was, and holds what it did. */
  lemma OtherThere(v: Image, k: nat, s: nat, j: nat, rel: nat)
    requires Steady(v) && k < |v.table| && s < UNALLOCATED && j != k && rel < Extent(v)
    ensures var w := Entered(v, k, s);
            && |w.file| == |v.file| && (Allocated(w, j) <==> Allocated(v, j))
            && (Allocated(v, j) ==>
                  Start(w, j) == Start(v, j) && Start(v, j) + rel < |v.file| && w.file[Start(v, j) + rel] == v.file[Start(v, j) + rel])
  {
    hide Steady, Entered, Start, Allocated;
    TableFacts(v);
    EnteredFile(v, k, s);
    EnteredParts(v, k, s);
    NoSuchBlock(v, j);
    NoSuchBlock(Entered(v, k, s), j);
    if j < |v.table| {
      EnteredStart(v, k, s, j);
      if Allocated(v, j) {
        ExtentFacts(v, j);
        EnteredApart(v, k, s, Start(v, j) + rel);
      }
    }
  }

  lemma OtherByte(v: Image, k: nat, s: nat, i: nat)
    requires Steady(v) && k < |v.table| && s < UNALLOCATED && v.blockBytes > 0 && i / v.blockBytes != k
    ensures ByteAt(Entered(v, k, s), i) == ByteAt(v, i)
  {
    hide Steady, Entered, ByteAt, Start, Allocated;
    EnteredParts(v, k, s);
    ByteIs(v, i);
    ByteIs(Entered(v, k, s), i);
    RemainderBelow(i, v.blockBytes);
    OtherThere(v, k, s, i / v.blockBytes, v.bitmapBytes + i % v.blockBytes);
  }

  lemma NoSuchBlock(v: Image, j: nat)
    ensures Allocated(v, j) ==> j < |v.table|
  {
  }

  lemma EnteredApart(v: Image, k: nat, s: nat, at: nat)
    requires k < |v.table| && s < UNALLOCATED && v.tableOffset + 4 * |v.table| <= |v.file|
    requires at < v.tableOffset || v.tableOffset + 4 * |v.table| <= at
    ensures at < |v.file| ==> at < |Entered(v, k, s).file| && Entered(v, k, s).file[at] == v.file[at]
  {
    hide Be32Bytes;
  }
}
