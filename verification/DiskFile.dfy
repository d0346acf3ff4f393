/** QUUX's disk, in blocks of two sectors: those of a file, and over them those the file has not been
    given. */
module DiskFile {
  import opened Arithmetic
  import opened Netlist
  import opened BitStream
  import opened Bytes
  import opened Vhd
  import opened DynamicVhd

  const BLOCK_BYTES: nat := 1024

  /** A blank disk, a flat file of the disk's bytes from 0, or a dynamic VHD. */
  datatype Backing = Blank | Flat | Sparse(dynamic: Dynamic)

  /** The same but for the `n` bytes at `at`. */
  ghost predicate SameOutside(d: seq<Byte>, e: seq<Byte>, at: nat, n: nat) {
    |d| == |e| && forall i :: 0 <= i < |d| && !(at <= i < at + n) ==> d[i] == e[i]
  }

  /** A block's place, apart from every other's. */
  lemma OtherBlock(d: seq<Byte>, e: seq<Byte>, n: nat, m: nat)
    requires SameOutside(d, e, n * BLOCK_BYTES, BLOCK_BYTES) && m != n
    ensures ReadAt(d, m * BLOCK_BYTES, BLOCK_BYTES) == ReadAt(e, m * BLOCK_BYTES, BLOCK_BYTES)
  {
    if m * BLOCK_BYTES + BLOCK_BYTES <= |d| {
      assert d[m * BLOCK_BYTES..m * BLOCK_BYTES + BLOCK_BYTES] == e[m * BLOCK_BYTES..m * BLOCK_BYTES + BLOCK_BYTES];
    }
  }

  lemma SpliceOutside(d: seq<Byte>, at: nat, n: nat, from: nat, buf: seq<Byte>)
    requires at <= from && from + |buf| <= at + n && from + |buf| <= |d|
    ensures SameOutside(d, Splice(d, from, buf), at, n)
  {
  }

  lemma OutsideTwice(a: seq<Byte>, b: seq<Byte>, c: seq<Byte>, at: nat, n: nat)
    requires SameOutside(a, b, at, n) && SameOutside(b, c, at, n)
    ensures SameOutside(a, c, at, n)
  {
  }

  class Disk {
    const blocks: nat
    const backing: Backing
    const writable: bool
    var file: seq<Byte>
    var written: map<nat, seq<Byte>>

    ghost function Repr(): set<object> { if backing.Sparse? then {this, backing.dynamic} else {this} }

    ghost predicate Valid()
      reads Repr()
    {
      && (backing.Sparse? ==>
            && backing.dynamic.blockBytes > 0 && Steady(backing.dynamic.State())
            && blocks * BLOCK_BYTES <= |backing.dynamic.table| * backing.dynamic.blockBytes)
      && (!writable ==> forall n: nat {:trigger n in written} :: n in written ==> FileBlock(n) != Some(written[n]))
    }

    /** The disk's bytes as the file has them. */
    ghost function FileBytes(): seq<Byte>
      reads Repr()
      requires backing.Sparse? ==> backing.dynamic.blockBytes > 0
    {
      if backing.Sparse? then Vhd.Disk(backing.dynamic.State()) else file
    }

    ghost function FileBlock(n: nat): Option<seq<Byte>>
      reads Repr()
      requires backing.Sparse? ==> backing.dynamic.blockBytes > 0
    {
      if backing.Blank? then Some(Zeros(BLOCK_BYTES)) else ReadAt(FileBytes(), n * BLOCK_BYTES, BLOCK_BYTES)
    }

    /** What block `n` reads as: nothing past the end, nor where the file cannot deliver it. */
    ghost function Block(n: nat): Option<seq<Byte>>
      reads Repr()
      requires Valid()
    {
      if n >= blocks then None else if n in written then Some(written[n]) else FileBlock(n)
    }

    /** A flat file long enough for its blocks. */
    ghost predicate Whole()
      reads this
    {
      backing.Flat? ==> blocks * BLOCK_BYTES <= |file|
    }

    /** No block's sector number has reached the mark of one not allocated. */
    ghost predicate Numbered()
      reads Repr()
    {
      backing.Sparse? ==> backing.dynamic.end / SECTOR <= UNALLOCATED
    }

    constructor (backing: Backing, file: seq<Byte>, blocks: nat, writable: bool)
      requires backing.Sparse? ==>
                 && backing.dynamic.blockBytes > 0 && Steady(backing.dynamic.State())
                 && blocks * BLOCK_BYTES <= |backing.dynamic.table| * backing.dynamic.blockBytes
      ensures this.backing == backing && this.file == file && this.blocks == blocks && this.writable == writable
      ensures Valid() && written == map[]
    {
      this.backing, this.file, this.blocks, this.writable, written := backing, file, blocks, writable, map[];
    }

    method ReadFile(n: nat) returns (r: Option<seq<Byte>>)
      requires Valid() && n < blocks
      ensures r == FileBlock(n)
    {
      match backing
      case Blank => r := Some(Zeros(BLOCK_BYTES));
      case Flat => r := ReadAt(file, n * BLOCK_BYTES, BLOCK_BYTES);
      case Sparse(d) =>
        var at := n * BLOCK_BYTES;
        SectorsInside(d.State(), blocks, n);
        var low := d.Read(at);
        var high := d.Read(at + SECTOR);
        r := Some(low + high);
        assert Vhd.Disk(d.State())[at..at + BLOCK_BYTES] == low + high;
    }

    method ReadBlock(n: nat) returns (r: Option<seq<Byte>>)
      requires Valid()
      ensures r == Block(n)
    {
      if n >= blocks {
        return None;
      }
      if n in written {
        return Some(written[n]);
      }
      r := ReadFile(n);
    }

    /** To the file, a sector at a time. */
    method WriteFile(n: nat, data: seq<Byte>) returns (ok: bool)
      requires Valid() && writable && n < blocks && |data| == BLOCK_BYTES && !backing.Blank?
      modifies this`file, if backing.Sparse? then {backing.dynamic} else {}
      ensures Valid() && (old(Whole()) ==> Whole())
      ensures ok && Numbered() ==> FileBlock(n) == Some(data)
      ensures old(Whole()) ==> SameOutside(old(FileBytes()), FileBytes(), n * BLOCK_BYTES, BLOCK_BYTES)
      ensures backing.Flat? ==> ok
    {
      hide Steady, Vhd.Disk, FooterLast;
      var at := n * BLOCK_BYTES;
      if backing.Flat? {
        ReadsWritten(file, at, data);
        file := Splice(file, at, data);
        ok := true;
      } else {
        ok := WriteSectors(backing.dynamic, blocks, n, data);
      }
    }

    /** Block `n` written reads back, and every other block is as it was. Read-only, the file is
        untouched, and what is kept is only what it does not hold. */
    method WriteBlock(n: nat, data: seq<Byte>) returns (ok: bool)
      requires Valid() && |data| == BLOCK_BYTES
      modifies Repr()
      ensures Valid() && (old(Whole()) ==> Whole())
      ensures n >= blocks ==> !ok
      ensures n < blocks && !(writable && backing.Sparse?) ==> ok
      ensures ok && Numbered() ==> Block(n) == Some(data)
      ensures old(Whole()) ==> forall m: nat :: m != n ==> Block(m) == old(Block(m))
      ensures !writable ==> FileBytes() == old(FileBytes())
    {
      hide Steady, Vhd.Disk;
      if n >= blocks {
        return false;
      }
      if writable && !backing.Blank? {
        ghost var was := FileBytes();
        ok := WriteFile(n, data);
        ghost var now := FileBytes();
        if ok {
          written := written - {n};
        }
        if old(Whole()) {
          forall m: nat | m != n
            ensures ReadAt(now, m * BLOCK_BYTES, BLOCK_BYTES) == ReadAt(was, m * BLOCK_BYTES, BLOCK_BYTES)
          {
            OtherBlock(was, now, n, m);
          }
        }
      } else {
        // What the file already says need not be said over it.
        var held := ReadFile(n);
        if held == Some(data) {
          written := written - {n};
        } else {
          written := written[n := data];
        }
        return true;
      }
    }
  }

  /** A block written to a dynamic VHD, a sector at a time. */
  method WriteSectors(d: Dynamic, blocks: nat, n: nat, data: seq<Byte>) returns (ok: bool)
    requires d.blockBytes > 0 && Steady(d.State()) && blocks * BLOCK_BYTES <= |d.table| * d.blockBytes && n < blocks && |data| == BLOCK_BYTES
    modifies d
    ensures Steady(d.State()) && |d.table| == old(|d.table|)
    ensures SameOutside(old(Vhd.Disk(d.State())), Vhd.Disk(d.State()), n * BLOCK_BYTES, BLOCK_BYTES)
    ensures ok && d.end / SECTOR <= UNALLOCATED ==> ReadAt(Vhd.Disk(d.State()), n * BLOCK_BYTES, BLOCK_BYTES) == Some(data)
  {
    hide Steady, Vhd.Disk, Splice, BlockOf, SameOutside;
    var at := n * BLOCK_BYTES;
    SectorsInside(d.State(), blocks, n);
    ghost var v0 := d.State();
    var low, high := data[..SECTOR], data[SECTOR..];
    ok := WriteOne(d, at, low, at, BLOCK_BYTES);
    ghost var v1 := d.State();
    if ok {
      SectorsInside(v1, blocks, n);
      ok := WriteOne(d, at + SECTOR, high, at, BLOCK_BYTES);
      ghost var v2 := d.State();
      OutsideTwice(Vhd.Disk(v0), Vhd.Disk(v1), Vhd.Disk(v2), at, BLOCK_BYTES);
      if ok && d.end / SECTOR <= UNALLOCATED {
        assert low + high == data;
        TwoWrites(Vhd.Disk(v0), at, low, high);
        ReadsWritten(Vhd.Disk(v0), at, data);
      }
    }
  }

  /** One sector of it, in a part of the disk; kept, if the file does not end past what an entry can name. */
  method WriteOne(d: Dynamic, at: nat, buf: seq<Byte>, from: nat, n: nat) returns (ok: bool)
    requires d.blockBytes > 0 && Steady(d.State()) && at % SECTOR == 0 && BlockOf(d.State(), at) < |d.table| && |buf| == SECTOR
    requires from <= at && at + SECTOR <= from + n <= |Vhd.Disk(d.State())|
    modifies d
    ensures Steady(d.State()) && |d.table| == old(|d.table|) && d.end >= old(d.end)
    ensures SameOutside(old(Vhd.Disk(d.State())), Vhd.Disk(d.State()), from, n)
    ensures ok && d.end / SECTOR <= UNALLOCATED ==> Vhd.Disk(d.State()) == Splice(old(Vhd.Disk(d.State())), at, buf)
  {
    hide Steady, Vhd.Disk, FooterLast, KeepsMarks, Marked, Splice, Allocated, BlockOf, SameOutside, Stepped;
    ghost var v := d.State();
    ok := d.WriteSector(at, buf);
    SpliceOutside(Vhd.Disk(v), from, n, at, buf);
    SameSame(Vhd.Disk(v), from, n);
  }

  lemma SameSame(d: seq<Byte>, at: nat, n: nat)
    ensures SameOutside(d, d, at, n)
  {
  }

  /** The two sectors of a block of the disk are the table's. */
  lemma SectorsInside(v: Image, blocks: nat, n: nat)
    requires v.blockBytes > 0 && blocks * BLOCK_BYTES <= |v.table| * v.blockBytes && n < blocks
    ensures BlockOf(v, n * BLOCK_BYTES) < |v.table| && BlockOf(v, n * BLOCK_BYTES + SECTOR) < |v.table|
    ensures |Vhd.Disk(v)| == |v.table| * v.blockBytes && n * BLOCK_BYTES + BLOCK_BYTES <= |Vhd.Disk(v)|
    ensures n * BLOCK_BYTES % SECTOR == 0 && (n * BLOCK_BYTES + SECTOR) % SECTOR == 0
  {
    QuotientBelow(n * BLOCK_BYTES, v.blockBytes, |v.table|);
    QuotientBelow(n * BLOCK_BYTES + SECTOR, v.blockBytes, |v.table|);
    SectorsWhole(n);
    hide ByteAt;
  }

  lemma SectorsWhole(n: nat)
    ensures n * BLOCK_BYTES % SECTOR == 0 && (n * BLOCK_BYTES + SECTOR) % SECTOR == 0
  {
    DivUnique(2 * n, SECTOR, 0);
    DivUnique(2 * n + 1, SECTOR, 0);
  }
}
