/** Dynamic VHDs of one empty block, whole files, their footers and headers checked. */
module SmallVhd {
  import opened Arithmetic
  import opened Netlist
  import opened BitStream
  import opened Bytes
  import opened Vhd
  import opened DynamicVhd

  const FIVE_TWELVE: seq<Byte> := [0, 0, 0, 0, 0, 0, 2, 0]

  /** The footer up to its checksum: the header at 512, a size of 512, dynamic. */
  function FooterHead(): (b: seq<Byte>)
    ensures |b| == 64
  {
    COOKIE + Zeros(8) + FIVE_TWELVE + Zeros(24) + FIVE_TWELVE + Zeros(4) + [0, 0, 0, 3]
  }

  /** And past it; its bytes before add up to 868. */
  function SmallFooter(): (b: seq<Byte>)
    ensures |b| == 512
  {
    FooterHead() + [0xFF, 0xFF, 0xFC, 0x9B] + Zeros(444)
  }

  /** The dynamic header up to its checksum: the table at 1536, one entry, blocks of 512. */
  function HeaderHead(): (b: seq<Byte>)
    ensures |b| == 36
  {
    DYNAMIC_COOKIE + Zeros(8) + [0, 0, 0, 0, 0, 0, 6, 0] + Zeros(4) + [0, 0, 0, 1] + [0, 0, 2, 0]
  }

  /** And past it; its bytes before add up to 882. */
  function SmallHeader(): (b: seq<Byte>)
    ensures |b| == 1024
  {
    HeaderHead() + [0xFF, 0xFF, 0xFC, 0x8D] + Zeros(984)
  }

  /** The copy of the footer, the header, a table with its one block not allocated, room to `end`, and
      the footer. */
  function SmallFile(end: nat): (f: seq<Byte>)
    requires 2048 <= end
    ensures |f| == end + 512
  {
    SmallFooter() + (SmallHeader() + ([0xFF, 0xFF, 0xFF, 0xFF] + (Zeros(end - 1540) + SmallFooter())))
  }

  function Small(end: nat): Image
    requires 2048 <= end
  {
    Image(SmallFile(end), [UNALLOCATED], 1536, 512, 512, SmallFooter(), end)
  }

  // ---- Sums and numbers ----

  lemma {:induction false} SumJoin(a: seq<Byte>, b: seq<Byte>)
    ensures Sum(a + b) == Sum(a) + Sum(b)
  {
    if b == [] {
      assert a + b == a;
    } else {
      SumJoin(a, b[..|b| - 1]);
      assert (a + b)[..|a + b| - 1] == a + b[..|b| - 1];
    }
  }

  lemma {:induction false} SumZeros(n: nat)
    ensures Sum(Zeros(n)) == 0
  {
    if n > 0 {
      SumZeros(n - 1);
      assert Zeros(n)[..n - 1] == Zeros(n - 1);
    }
  }

  lemma SumFour(a: Byte, b: Byte, c: Byte, d: Byte)
    ensures Sum([a, b, c, d]) == a + b + c + d
  {
    assert [a][..0] == [] && Sum([a]) == a;
    assert [a, b][..1] == [a] && Sum([a, b]) == Sum([a]) + b;
    assert [a, b, c][..2] == [a, b] && Sum([a, b, c]) == Sum([a, b]) + c;
    assert [a, b, c, d][..3] == [a, b, c] && Sum([a, b, c, d]) == Sum([a, b, c]) + d;
  }

  function Eight(s: seq<nat>): nat
    requires |s| == 8
  {
    s[0] + s[1] + s[2] + s[3] + s[4] + s[5] + s[6] + s[7]
  }

  lemma SumEight(s: seq<Byte>)
    requires |s| == 8
    ensures Sum(s) == Eight(s)
  {
    SumJoin(s[..4], s[4..]);
    assert s == s[..4] + s[4..] && s[..4] == [s[0], s[1], s[2], s[3]] && s[4..] == [s[4], s[5], s[6], s[7]];
    SumFour(s[0], s[1], s[2], s[3]);
    SumFour(s[4], s[5], s[6], s[7]);
    hide Sum;
  }

  /** Zeros in front of a number's bytes are no part of it. */
  lemma {:induction false} BeZero(b: seq<Byte>)
    ensures Be([0] + b) == Be(b)
    decreases |b|
  {
    if b == [] {
      assert [0] + b == [] + [0];
      BeAppend([], 0);
      BeNone();
    } else {
      var n := |b| - 1;
      BeZero(b[..n]);
      assert [0] + b == ([0] + b[..n]) + [b[n]] && b == b[..n] + [b[n]];
      BeAppend([0] + b[..n], b[n]);
      BeAppend(b[..n], b[n]);
    }
    hide Be;
  }

  lemma {:induction false} BeZeros(n: nat, b: seq<Byte>)
    ensures Be(Zeros(n) + b) == Be(b)
  {
    if n == 0 {
      assert Zeros(0) + b == b;
    } else {
      BeZeros(n - 1, b);
      BeZero(Zeros(n - 1) + b);
      assert Zeros(n) + b == [0] + (Zeros(n - 1) + b);
    }
    hide Be;
  }

  lemma FieldAt(f: seq<Byte>, at: nat, b: seq<Byte>)
    requires at + |b| <= |f| && forall i :: 0 <= i < |b| ==> f[at + i] == b[i]
    ensures f[at..at + |b|] == b
  {
  }

  lemma HighZeros(b: seq<Byte>, h: Byte, l: Byte)
    requires b == [0, 0, 0, 0, 0, 0, h, l] || b == [0, 0, h, l]
    ensures Be(b) == 256 * h + l
  {
    BeZeros(|b| - 2, [h, l]);
    assert b == Zeros(|b| - 2) + [h, l];
    BeAppend([h], l);
    BeAppend([], h);
    BeNone();
    assert [] + [h] == [h] && [h] + [l] == [h, l];
    hide Be;
  }

  // ---- The footer and the header ----

  lemma FooterSum()
    ensures Sum(FooterHead()) == 868
  {
    SumEight(COOKIE);
    SumEight(FIVE_TWELVE);
    SumFour(0, 0, 0, 3);
    SumZeros(8);
    SumZeros(24);
    SumZeros(4);
    SumJoin(COOKIE, Zeros(8));
    SumJoin(COOKIE + Zeros(8), FIVE_TWELVE);
    SumJoin(COOKIE + Zeros(8) + FIVE_TWELVE, Zeros(24));
    SumJoin(COOKIE + Zeros(8) + FIVE_TWELVE + Zeros(24), FIVE_TWELVE);
    SumJoin(COOKIE + Zeros(8) + FIVE_TWELVE + Zeros(24) + FIVE_TWELVE, Zeros(4));
    SumJoin(COOKIE + Zeros(8) + FIVE_TWELVE + Zeros(24) + FIVE_TWELVE + Zeros(4), [0, 0, 0, 3]);
    hide Sum;
  }

  lemma HeaderSum()
    ensures Sum(HeaderHead()) == 882
  {
    var at, one, size: seq<Byte> := [0, 0, 0, 0, 0, 0, 6, 0], [0, 0, 0, 1], [0, 0, 2, 0];
    SumEight(DYNAMIC_COOKIE);
    SumEight(at);
    SumFour(0, 0, 0, 1);
    SumFour(0, 0, 2, 0);
    SumZeros(8);
    SumZeros(4);
    SumJoin(DYNAMIC_COOKIE, Zeros(8));
    SumJoin(DYNAMIC_COOKIE + Zeros(8), at);
    SumJoin(DYNAMIC_COOKIE + Zeros(8) + at, Zeros(4));
    SumJoin(DYNAMIC_COOKIE + Zeros(8) + at + Zeros(4), one);
    SumJoin(DYNAMIC_COOKIE + Zeros(8) + at + Zeros(4) + one, size);
    hide Sum;
  }

  /** A checksum kept in its own place. */
  lemma ChecksumKept(head: seq<Byte>, check: seq<Byte>, rest: nat, sum: nat)
    requires |check| == 4 && Sum(head) == sum < 0x1_0000_0000
    ensures Checksum(head + check + Zeros(rest), |head|) == 0xFFFF_FFFF - sum
  {
    var b := head + check + Zeros(rest);
    SumZeros(rest);
    assert b[..|head|] == head && b[|head| + 4..] == Zeros(rest);
    hide Sum;
  }

  lemma FooterFields()
    ensures var f := SmallFooter();
            && f[..8] == COOKIE && f[16..24] == FIVE_TWELVE && f[48..56] == FIVE_TWELVE && f[60..64] == [0, 0, 0, 3] && f[64..68] == [0xFF, 0xFF, 0xFC, 0x9B]
  {
  }

  lemma SmallFooterIs()
    ensures FooterOf(SmallFooter()) == Footer(3, 512) && Be64(SmallFooter(), 16) == 512 && Be64(SmallFooter(), 48) == 512
  {
    hide Be, Checksum;
    FooterFields();
    FooterSum();
    ChecksumKept(FooterHead(), [0xFF, 0xFF, 0xFC, 0x9B], 444, 868);
    hide FooterHead;
    FourBytes(0xFF, 0xFF, 0xFC, 0x9B);
    HighZeros(FIVE_TWELVE, 2, 0);
    HighZeros([0, 0, 0, 3], 0, 3);
  }

  lemma HeaderFields()
    ensures var h := SmallHeader();
            && h[..8] == DYNAMIC_COOKIE && h[16..24] == [0, 0, 0, 0, 0, 0, 6, 0] && h[28..32] == [0, 0, 0, 1] && h[32..36] == [0, 0, 2, 0]
            && h[36..40] == [0xFF, 0xFF, 0xFC, 0x8D]
  {
  }

  lemma SmallHeaderIs()
    ensures HeaderOf(SmallHeader()) == Some((1536, 1, 512))
  {
    hide Be, Checksum;
    HeaderFields();
    HeaderSum();
    ChecksumKept(HeaderHead(), [0xFF, 0xFF, 0xFC, 0x8D], 984, 882);
    hide HeaderHead;
    FourBytes(0xFF, 0xFF, 0xFC, 0x8D);
    HighZeros([0, 0, 0, 0, 0, 0, 6, 0], 6, 0);
    HighZeros([0, 0, 0, 1], 0, 1);
    HighZeros([0, 0, 2, 0], 2, 0);
  }

  lemma SmallParts(end: nat)
    requires 2048 <= end
    ensures var f := SmallFile(end);
            f[..512] == SmallFooter() && f[512..1536] == SmallHeader() && f[1536..1540] == [0xFF, 0xFF, 0xFF, 0xFF] && f[end..] == SmallFooter()
  {
    var f, t: seq<Byte> := SmallFile(end), [0xFF, 0xFF, 0xFF, 0xFF];
    hide SmallFooter, SmallHeader;
    FieldAt(f, 0, SmallFooter());
    FieldAt(f, 512, SmallHeader());
    FieldAt(f, 1536, t);
    FieldAt(f, end, SmallFooter());
  }

  lemma EmptyTable()
    ensures Entries([0xFF, 0xFF, 0xFF, 0xFF], 1) == [UNALLOCATED]
  {
    FourBytes(0xFF, 0xFF, 0xFF, 0xFF);
    var raw: seq<Byte> := [0xFF, 0xFF, 0xFF, 0xFF];
    assert raw[4 * 0..4 * 0 + 4] == raw;
    hide Be;
  }

  /** Such a file is sound, and opens as its image. */
  lemma SmallIsSound(end: nat)
    requires 2048 <= end && end % SECTOR == 0
    ensures Sound(Small(end)) && FooterLast(Small(end)) && OpenFile(Small(end).file) == DynamicVhd(Small(end), 512)
  {
    var v := Small(end);
    hide Shaped, Described, Laid, FooterLast, FooterOf, SmallFooter, SmallFile, OpenFile;
    SmallFooterIs();
    SmallSizes(end);
    SmallShaped(end);
    SmallDescribed(end);
    SmallLaid(end);
    Reopens(v);
  }

  lemma SmallSizes(end: nat)
    requires 2048 <= end
    ensures |Small(end).file| == end + 512 && Small(end).end == end
  {
    hide SmallFooter, SmallHeader;
  }

  lemma SmallShaped(end: nat)
    requires 2048 <= end && end % SECTOR == 0
    ensures Shaped(Small(end))
  {
    hide FooterOf, SmallFooter, SmallFile, Be;
    SmallFooterIs();
  }

  lemma SmallDescribed(end: nat)
    requires 2048 <= end
    ensures Described(Small(end), Small(end).file)
  {
    hide FooterOf, HeaderOf, Entries, SmallFooter, SmallHeader, SmallFile, Be;
    SmallFooterIs();
    SmallHeaderIs();
    SmallParts(end);
    SmallSizes(end);
    EmptyTable();
  }

  lemma SmallLaid(end: nat)
    requires 2048 <= end
    ensures Laid(Small(end)) && FooterLast(Small(end))
  {
    hide SmallFooter, SmallFile;
    SmallParts(end);
    SmallSizes(end);
  }

  /** One whose next block would begin at the sector that is the mark of a block not allocated: a write is
      taken, and lost. */
  lemma SmallLoses(buf: seq<Byte>)
    requires |buf| == SECTOR
    ensures var v := Small(UNALLOCATED * SECTOR);
            && Sound(v) && BlockOf(v, 0) < |v.table| && Lost(v, 0) && v.end / SECTOR <= 0xFFFF_FFFF
            && Disk(Added(v, 0, buf)) == Zeros(SECTOR)
  {
    var v := Small(UNALLOCATED * SECTOR);
    SmallIsSound(UNALLOCATED * SECTOR);
    SmallIsBlank(UNALLOCATED * SECTOR);
    SoundIsSteady(v);
    hide Sound, Steady, FooterLast, SmallFile, SmallFooter, OpenFile, Disk, Added, Splice, Zeros;
    LostWrite(v, 0, buf);
  }

  /** In any smaller it is kept. */
  lemma SmallKeeps(end: nat, buf: seq<Byte>)
    requires 2048 <= end < UNALLOCATED * SECTOR && end % SECTOR == 0 && |buf| == SECTOR
    ensures var v := Small(end);
            && Sound(v) && Addable(v, 0, buf) && Disk(Added(v, 0, buf)) == buf
  {
    hide Sound, Steady, FooterLast, SmallFile, SmallFooter, OpenFile, Disk, Added, Splice, Zeros;
    var v := Small(end);
    SmallIsSound(end);
    SmallIsBlank(end);
    SoundIsSteady(v);
    SmallAddable(end, buf);
    hide Addable, Small;
    BlockAdded(v, 0, buf);
    WholeSplice(buf);
  }

  lemma SmallAddable(end: nat, buf: seq<Byte>)
    requires 2048 <= end < UNALLOCATED * SECTOR && end % SECTOR == 0 && |buf| == SECTOR && Steady(Small(end))
    ensures Addable(Small(end), 0, buf)
  {
    hide Steady, SmallFile, SmallFooter;
  }

  lemma WholeSplice(buf: seq<Byte>)
    requires |buf| == SECTOR
    ensures Splice(Zeros(SECTOR), 0, buf) == buf
  {
  }

  lemma SoundIsSteady(v: Image)
    requires Sound(v)
    ensures Steady(v)
  {
  }

  lemma SmallIsBlank(end: nat)
    requires 2048 <= end
    ensures Disk(Small(end)) == Zeros(SECTOR)
  {
    hide SmallFile, SmallFooter;
  }
}
