/** QUUX's block-disk: transfers between a command list's pages and a run of the disk's blocks. */
module BlockTransfers {
  import opened Arithmetic
  import opened Netlist
  import opened BitStream
  import opened Bytes

  const BLOCK_BYTES: nat := 1024
  const LOW: nat := 0x1_0000_0000
  const UNBOXED_TAG: nat := 0x5_0000_0000

  /** A disk's bytes, block after block. */
  type Disk = seq<Byte>

  /** How a page moves: its blocks, a word's bytes, its words, how many page numbers an entry has
      room for, and the tag a word read is given. */
  datatype Shape = Shape(blocks: nat, bytes: nat, words: nat, pages: nat, tag: nat)

  ghost predicate IsShape(sh: Shape) { sh == PACKED || sh == FOUR_BYTE || sh == OLD }

  const PACKED := Shape(5, 5, 1024, 0x4_0000, 0)
  const FOUR_BYTE := Shape(4, 4, 1024, 0x4_0000, UNBOXED_TAG)
  /** The page of 256 words of the revisions before. */
  const OLD := Shape(1, 4, 256, 0x4000, 0)

  // ---- Words and bytes ----

  /** A word as it comes back: all of it packed, else its low half under the tag. */
  function Kept(w: nat, sh: Shape): nat { sh.tag + w % Pow256(sh.bytes) }

  lemma KeptIs(w: nat)
    ensures w < 0x100_0000_0000 ==> Kept(w, PACKED) == w
    ensures Kept(w, FOUR_BYTE) == UNBOXED_TAG + w % LOW && Kept(w, OLD) == w % LOW
  {
    assert Pow256(2) == 0x1_0000;
    assert Pow256(4) == LOW;
    assert Pow256(5) == 0x100_0000_0000;
  }

  // ---- A page ----

  function PageBytes(mem: seq<nat>, page: nat, sh: Shape): (b: seq<Byte>)
    ensures |b| == sh.words * sh.bytes
  {
    seq(sh.words * sh.bytes, i requires 0 <= i => PageByte(mem, page, sh, i))
  }

  function PageByte(mem: seq<nat>, page: nat, sh: Shape, i: nat): Byte {
    if sh.bytes > 0 && page + i / sh.bytes < |mem| then LowBytes(mem[page + i / sh.bytes], sh.bytes)[i % sh.bytes] else 0
  }

  /** The words a page's bytes make. */
  function PageWords(buf: seq<Byte>, sh: Shape): (w: seq<nat>)
    ensures |w| == sh.words
  {
    seq(sh.words, j requires 0 <= j => WordAt(buf, sh, j))
  }

  function WordAt(buf: seq<Byte>, sh: Shape, j: nat): nat {
    if j * sh.bytes + sh.bytes <= |buf| then sh.tag + WordOf(buf[j * sh.bytes..j * sh.bytes + sh.bytes]) else 0
  }

  lemma WordFits(j: nat, words: nat, bytes: nat)
    requires j < words
    ensures j * bytes + bytes <= words * bytes && (j + 1) * bytes == j * bytes + bytes
  {
    MulAtMost(j + 1, words, bytes);
    assert (j + 1) * bytes == j * bytes + bytes;
  }

  lemma WordByte(mem: seq<nat>, page: nat, sh: Shape, j: nat, i: nat)
    requires sh.bytes > 0 && page + sh.words <= |mem| && j < sh.words && i < sh.bytes
    ensures j * sh.bytes + i < |PageBytes(mem, page, sh)|
    ensures PageBytes(mem, page, sh)[j * sh.bytes + i] == LowBytes(mem[page + j], sh.bytes)[i]
  {
    WordFits(j, sh.words, sh.bytes);
    DivUnique(j, sh.bytes, i);
    hide LowBytes;
    assert PageBytes(mem, page, sh)[j * sh.bytes + i] == PageByte(mem, page, sh, j * sh.bytes + i);
  }

  /** A word's bytes in its page. */
  lemma WordBytes(mem: seq<nat>, page: nat, sh: Shape, j: nat)
    requires sh.bytes > 0 && page + sh.words <= |mem| && j < sh.words
    ensures j * sh.bytes + sh.bytes <= |PageBytes(mem, page, sh)|
    ensures PageBytes(mem, page, sh)[j * sh.bytes..j * sh.bytes + sh.bytes] == LowBytes(mem[page + j], sh.bytes)
  {
    WordFits(j, sh.words, sh.bytes);
    var buf := PageBytes(mem, page, sh);
    var from := j * sh.bytes;
    var b, w := buf[from..from + sh.bytes], LowBytes(mem[page + j], sh.bytes);
    forall i: nat | i < sh.bytes
      ensures b[i] == w[i]
    {
      WordByte(mem, page, sh, j, i);
    }
    hide PageBytes, LowBytes;
  }

  /** A page's words, taken to bytes and back. */
  lemma PageKept(mem: seq<nat>, page: nat, sh: Shape, j: nat)
    requires sh.bytes > 0 && page + sh.words <= |mem| && j < sh.words
    ensures PageWords(PageBytes(mem, page, sh), sh)[j] == Kept(mem[page + j], sh)
  {
    hide PageBytes, LowBytes, WordOf;
    WordBytes(mem, page, sh, j);
    LowIsWord(mem[page + j], sh.bytes);
  }

  /** Memory with some words made a page of it. */
  function Stored(mem: seq<nat>, page: nat, words: seq<nat>): (m: seq<nat>)
    ensures |m| == |mem|
    ensures forall i :: 0 <= i < |mem| ==> m[i] == if page <= i < page + |words| then words[i - page] else mem[i]
  {
    seq(|mem|, i requires 0 <= i < |mem| => if page <= i < page + |words| then words[i - page] else mem[i])
  }

  // ---- A run of blocks ----

  /** The bytes of a run of blocks, zeros where there are none. */
  function Run(disk: Disk, block: nat, n: nat): (b: seq<Byte>)
    ensures |b| == n * BLOCK_BYTES
  {
    if (block + n) * BLOCK_BYTES <= |disk| then disk[block * BLOCK_BYTES..(block + n) * BLOCK_BYTES] else Zeros(n * BLOCK_BYTES)
  }

  /** Some bytes are on the disk from a block on. */
  ghost predicate OnDisk(d: Disk, block: nat, buf: seq<Byte>) {
    block * BLOCK_BYTES + |buf| <= |d| && d[block * BLOCK_BYTES..block * BLOCK_BYTES + |buf|] == buf
  }

  /** The same from a block up to another. */
  ghost predicate Same(d: Disk, e: Disk, from: nat, to: nat) {
    |d| == |e| && forall j :: 0 <= j < |d| && from * BLOCK_BYTES <= j < to * BLOCK_BYTES ==> e[j] == d[j]
  }

  lemma StillOn(d: Disk, e: Disk, block: nat, buf: seq<Byte>, from: nat, to: nat)
    requires OnDisk(d, block, buf) && Same(d, e, from, to) && from <= block && block * BLOCK_BYTES + |buf| <= to * BLOCK_BYTES
    ensures OnDisk(e, block, buf)
  {
  }

  lemma RunOn(d: Disk, block: nat, buf: seq<Byte>, n: nat)
    requires OnDisk(d, block, buf) && |buf| == n * BLOCK_BYTES
    ensures Run(d, block, n) == buf
  {
  }

  lemma SameTwice(a: Disk, b: Disk, c: Disk, from: nat, to: nat, beyond: nat)
    requires Same(a, b, from, to) && Same(b, c, from, beyond) && to <= beyond
    ensures Same(a, c, from, to)
  {
  }

  // ---- A transfer ----

  datatype Outcome = Done | PastEnd | Nxm

  /** What a transfer leaves: memory, the disk, the block it stopped at, how many it moved, the last
      address it used, the pages it moved, and how it ended. */
  datatype Left = Left(mem: seq<nat>, disk: Disk, block: nat, moved: nat, last: nat, pages: seq<nat>, outcome: Outcome)

  /** Where a command list's entry is: only its low sixteen bits count. */
  function EntryAt(clp: nat, n: nat): nat { clp - clp % 0x1_0000 + (clp + n) % 0x1_0000 }

  function PageOf(ccw: nat, sh: Shape): nat { if sh.words == 0 then 0 else ccw / sh.words % (if sh.pages == 0 then 1 else sh.pages) * sh.words }

  predicate More(ccw: nat) { ccw % 2 == 1 }

  /** Memory, and the disk, after a page is moved from or to the blocks from one on. */
  function MemAfter(mem: seq<nat>, disk: Disk, read: bool, sh: Shape, page: nat, block: nat): (m: seq<nat>)
    ensures |m| == |mem|
  {
    if read then Stored(mem, page, PageWords(Run(disk, block, sh.blocks), sh)) else mem
  }

  /** The disk after the first `n` of a page's blocks are written, or it is read. */
  function DiskAfter(mem: seq<nat>, disk: Disk, read: bool, sh: Shape, page: nat, block: nat, n: nat): (d: Disk)
    ensures (block + n) * BLOCK_BYTES <= |disk| ==> |d| == |disk|
  {
    if read then disk else Splice(disk, block * BLOCK_BYTES, Front(PageBytes(mem, page, sh), n * BLOCK_BYTES))
  }

  function Front(b: seq<Byte>, n: nat): (f: seq<Byte>)
    ensures |f| <= n && |f| <= |b| && (n == |b| ==> f == b)
  {
    if n < |b| then b[..n] else b
  }

  lemma Sizes(sh: Shape)
    requires IsShape(sh)
    ensures sh.blocks > 0 && sh.bytes > 0 && sh.words > 0 && sh.words * sh.bytes == sh.blocks * BLOCK_BYTES
  {
  }

  /** How a step of a transfer goes. */
  datatype Step = NoEntry | Short(page: nat, n: nat) | Last(page: nat) | On(page: nat)

  function NextStep(mem: seq<nat>, size: nat, sh: Shape, at: nat, block: nat): (s: Step)
    ensures !s.NoEntry? ==> at < |mem| && s.page == PageOf(mem[at], sh) && s.page + sh.words <= |mem|
    ensures s.Short? ==> block + s.n <= size < block + sh.blocks || (s.n == 0 && size < block)
    ensures s.Last? || s.On? ==> block + sh.blocks <= size
  {
    if at >= |mem| then NoEntry
    else
      var page := PageOf(mem[at], sh);
      if page + sh.words > |mem| then NoEntry
      else if block + sh.blocks > size then Short(page, if block < size then size - block else 0)
      else if More(mem[at]) then On(page) else Last(page)
  }

  function Then(page: nat, sh: Shape, l: Left): Left { l.(moved := l.moved + sh.blocks, pages := [page] + l.pages) }

  /** The transfer from the list's entry `n` on, the next block `block`. */
  function Moves(mem: seq<nat>, disk: Disk, read: bool, sh: Shape, clp: nat, n: nat, block: nat): (l: Left)
    requires IsShape(sh)
    ensures |l.mem| == |mem| && |l.disk| == |disk|
    decreases |disk| / BLOCK_BYTES + 1 - block
  {
    var at := EntryAt(clp, n);
    match NextStep(mem, |disk| / BLOCK_BYTES, sh, at, block)
    case NoEntry => Left(mem, disk, block, 0, at, [], Nxm)
    case Short(page, k) => Left(mem, if k == 0 then disk else DiskAfter(mem, disk, read, sh, page, block, k), block + k, k, at, [], PastEnd)
    case Last(page) =>
      Left(MemAfter(mem, disk, read, sh, page, block), DiskAfter(mem, disk, read, sh, page, block, sh.blocks), block + sh.blocks - 1, sh.blocks,
           page + sh.words - 1, [page], Done)
    case On(page) =>
      Then(page, sh, Moves(MemAfter(mem, disk, read, sh, page, block), DiskAfter(mem, disk, read, sh, page, block, sh.blocks), read, sh, clp, n + 1, block + sh.blocks))
  }

  // ---- There and back ----

  lemma DiskWritten(mem: seq<nat>, disk: Disk, sh: Shape, page: nat, block: nat)
    requires IsShape(sh) && block + sh.blocks <= |disk| / BLOCK_BYTES
    ensures var d := DiskAfter(mem, disk, false, sh, page, block, sh.blocks);
            |d| == |disk| && Same(disk, d, 0, block) && OnDisk(d, block, PageBytes(mem, page, sh))
  {
    hide PageBytes;
    var buf := PageBytes(mem, page, sh);
    Sizes(sh);
    ReadsWritten(disk, block * BLOCK_BYTES, buf);
  }

  /** Blocks written change none before them. */
  lemma PutKeeps(mem: seq<nat>, disk: Disk, sh: Shape, page: nat, block: nat, n: nat)
    requires block + n <= |disk| / BLOCK_BYTES
    ensures Same(disk, DiskAfter(mem, disk, false, sh, page, block, n), 0, block)
  {
    hide PageBytes;
  }

  /** A step of a write. */
  lemma WriteStep(mem: seq<nat>, disk: Disk, sh: Shape, clp: nat, n: nat, block: nat, s: Step, l: Left)
    requires IsShape(sh) && l == Moves(mem, disk, false, sh, clp, n, block)
    requires s == NextStep(mem, |disk| / BLOCK_BYTES, sh, EntryAt(clp, n), block)
    ensures match s
            case NoEntry => l.mem == mem && l.disk == disk
            case Short(page, k) => l.mem == mem && (if k == 0 then l.disk == disk else l.disk == DiskAfter(mem, disk, false, sh, page, block, k))
            case Last(page) => l.mem == mem && l.disk == DiskAfter(mem, disk, false, sh, page, block, sh.blocks)
            case On(page) => l == Then(page, sh, Moves(mem, DiskAfter(mem, disk, false, sh, page, block, sh.blocks), false, sh, clp, n + 1, block + sh.blocks))
  {
    hide NextStep, DiskAfter, EntryAt, IsShape;
  }

  lemma StepFits(mem: seq<nat>, size: nat, sh: Shape, at: nat, block: nat)
    ensures var s := NextStep(mem, size, sh, at, block);
            && (s.Last? || s.On? ==> block + sh.blocks <= size)
            && (s.Short? ==> s.n == 0 || block + s.n <= size)
  {
    hide PageOf;
  }

  lemma SameSelf(d: Disk, from: nat, to: nat)
    ensures Same(d, d, from, to)
  {
  }

  /** A write leaves memory as it was, and the disk before its first block. */
  lemma {:induction false} WriteKeeps(mem: seq<nat>, disk: Disk, sh: Shape, clp: nat, n: nat, block: nat)
    requires IsShape(sh)
    ensures var l := Moves(mem, disk, false, sh, clp, n, block);
            l.mem == mem && Same(disk, l.disk, 0, block)
    decreases |disk| / BLOCK_BYTES + 1 - block
  {
    hide Moves, NextStep, EntryAt, IsShape, DiskAfter, Same, PageOf;
    Sizes(sh);
    var s := NextStep(mem, |disk| / BLOCK_BYTES, sh, EntryAt(clp, n), block);
    var l := Moves(mem, disk, false, sh, clp, n, block);
    WriteStep(mem, disk, sh, clp, n, block, s, l);
    StepFits(mem, |disk| / BLOCK_BYTES, sh, EntryAt(clp, n), block);
    SameSelf(disk, 0, block);
    match s
    case NoEntry =>
    case Short(page, k) =>
      if k > 0 {
        PutKeeps(mem, disk, sh, page, block, k);
      }
    case Last(page) => PutKeeps(mem, disk, sh, page, block, sh.blocks);
    case On(page) =>
      var d := DiskAfter(mem, disk, false, sh, page, block, sh.blocks);
      PutKeeps(mem, disk, sh, page, block, sh.blocks);
      WriteKeeps(mem, d, sh, clp, n + 1, block + sh.blocks);
      SameTwice(disk, d, l.disk, 0, block, block + sh.blocks);
  }

  /** Memory as it was but for words that have been there and back. */
  ghost predicate Back(m: seq<nat>, mem: seq<nat>, sh: Shape) {
    |m| == |mem| && forall i :: 0 <= i < |mem| ==> m[i] == mem[i] || m[i] == Kept(mem[i], sh)
  }

  /** What there and back makes of the words of some pages. */
  ghost predicate InPages(i: nat, pages: seq<nat>, words: nat) { exists k :: 0 <= k < |pages| && pages[k] <= i < pages[k] + words }

  lemma DivShift(a: nat, d: nat, r: nat)
    requires d > 0
    ensures (a * d + r) / d == a + r / d && (a * d + r) % d == r % d
  {
    var q, s := r / d, r % d;
    assert r == q * d + s;
    assert (a + q) * d == a * d + q * d;
    DivUnique(a + q, d, s);
  }

  /** A quotient's low end is told by the low end of the number. */
  lemma LowEnd(q: nat, r: nat, d: nat, c: nat, m: nat)
    requires d > 0 && m > 0
    ensures (q * (d * (c * m)) + r) / d % m == r / d % m
  {
    var a := (q * c) * m;
    assert q * (d * (c * m)) == a * d by { Regroup(q, d, c, m); }
    DivShift(a, d, r);
    DivShift(q * c, m, r / d);
  }

  lemma Regroup(q: nat, d: nat, c: nat, m: nat)
    ensures q * (d * (c * m)) == ((q * c) * m) * d
  {
    assert q * (d * (c * m)) == (q * (c * m)) * d;
    assert q * (c * m) == (q * c) * m;
  }

  lemma OldEntry(w: nat)
    ensures PageOf(w % LOW, OLD) == PageOf(w, OLD) && More(w % LOW) == More(w)
  {
    var q, r := w / LOW, w % LOW;
    LowEnd(q, r, 256, 1024, 0x4000);
    DivShift(q * 0x8000_0000, 2, r);
    assert w == q * (256 * (1024 * 0x4000)) + r == q * 0x8000_0000 * 2 + r;
  }

  lemma TaggedEntry(w: nat)
    ensures PageOf(UNBOXED_TAG + w % LOW, FOUR_BYTE) == PageOf(w, FOUR_BYTE) && More(UNBOXED_TAG + w % LOW) == More(w)
  {
    var q, r := w / LOW, w % LOW;
    LowEnd(q, r, 1024, 16, 0x4_0000);
    LowEnd(5, r, 1024, 16, 0x4_0000);
    DivShift(q * 0x8000_0000, 2, r);
    DivShift(5 * 0x8000_0000, 2, r);
    assert w == q * (1024 * (16 * 0x4_0000)) + r == q * 0x8000_0000 * 2 + r;
    assert UNBOXED_TAG + r == 5 * (1024 * (16 * 0x4_0000)) + r == 5 * 0x8000_0000 * 2 + r;
  }

  /** A word that has been there and back names the same page of the list, and as many more. */
  lemma SameEntry(w: nat, sh: Shape)
    requires IsShape(sh) && (sh == PACKED ==> w < 0x100_0000_0000)
    ensures PageOf(Kept(w, sh), sh) == PageOf(w, sh) && More(Kept(w, sh)) == More(w)
  {
    KeptIs(w);
    OldEntry(w);
    TaggedEntry(w);
    hide PageOf, More, Kept;
  }

  ghost predicate Fits(mem: seq<nat>, sh: Shape) { sh == PACKED ==> forall i :: 0 <= i < |mem| ==> mem[i] < 0x100_0000_0000 }

  /** A page written by a transfer reads back as its words were, there and back. */
  lemma PageBack(mem: seq<nat>, m: seq<nat>, page: nat, sh: Shape)
    requires IsShape(sh) && page + sh.words <= |mem| && Back(m, mem, sh)
    ensures var r := Stored(m, page, PageWords(PageBytes(mem, page, sh), sh));
            && Back(r, mem, sh)
            && (forall i :: page <= i < page + sh.words ==> r[i] == Kept(mem[i], sh))
            && (forall i :: 0 <= i < |m| && !(page <= i < page + sh.words) ==> r[i] == m[i])
  {
    hide PageBytes, PageWords, Kept;
    Sizes(sh);
    var w := PageWords(PageBytes(mem, page, sh), sh);
    forall j: nat | j < sh.words
      ensures w[j] == Kept(mem[page + j], sh)
    {
      PageKept(mem, page, sh, j);
    }
  }

  /** The list names the same pages in memory that has been there and back. */
  lemma SameStep(mem: seq<nat>, m: seq<nat>, size: nat, sh: Shape, at: nat, block: nat)
    requires IsShape(sh) && Fits(mem, sh) && Back(m, mem, sh)
    ensures NextStep(m, size, sh, at, block) == NextStep(mem, size, sh, at, block)
  {
    if at < |mem| {
      SameEntry(mem[at], sh);
    }
    hide PageOf, More, Kept;
  }

  /** A page's blocks read after they were written give it back. */
  lemma PageRead(mem: seq<nat>, m: seq<nat>, d: Disk, sh: Shape, page: nat, block: nat)
    requires IsShape(sh) && OnDisk(d, block, PageBytes(mem, page, sh))
    ensures MemAfter(m, d, true, sh, page, block) == Stored(m, page, PageWords(PageBytes(mem, page, sh), sh))
    ensures DiskAfter(m, d, true, sh, page, block, sh.blocks) == d
  {
    hide PageBytes, PageWords, Stored;
    Sizes(sh);
    RunOn(d, block, PageBytes(mem, page, sh), sh.blocks);
  }

  /** A write's first step, and the rest of it. */
  lemma FirstStep(mem: seq<nat>, disk: Disk, sh: Shape, clp: nat, n: nat, block: nat, s: Step, l: Left)
    requires IsShape(sh) && l == Moves(mem, disk, false, sh, clp, n, block) && l.outcome == Done
    requires s == NextStep(mem, |disk| / BLOCK_BYTES, sh, EntryAt(clp, n), block)
    ensures s.Last? || s.On?
    ensures var d := DiskAfter(mem, disk, false, sh, s.page, block, sh.blocks);
            && (s.Last? ==> l.disk == d && l.block + 1 == block + sh.blocks)
            && (s.On? ==> l == Then(s.page, sh, Moves(mem, d, false, sh, clp, n + 1, block + sh.blocks)))
  {
    hide NextStep, DiskAfter, EntryAt, IsShape;
    Sizes(sh);
  }

  /** What a transfer wrote first is still there when it is done. */
  lemma WroteFirst(mem: seq<nat>, disk: Disk, sh: Shape, clp: nat, n: nat, block: nat, s: Step, l: Left)
    requires IsShape(sh) && l == Moves(mem, disk, false, sh, clp, n, block) && l.outcome == Done
    requires s == NextStep(mem, |disk| / BLOCK_BYTES, sh, EntryAt(clp, n), block)
    ensures (s.Last? || s.On?) && block + sh.blocks <= l.block + 1
    ensures OnDisk(l.disk, block, PageBytes(mem, s.page, sh))
  {
    hide PageBytes, PageOf, EntryAt, NextStep, OnDisk, DiskAfter, IsShape, Same, Moves;
    FirstStep(mem, disk, sh, clp, n, block, s, l);
    StepFits(mem, |disk| / BLOCK_BYTES, sh, EntryAt(clp, n), block);
    DiskWritten(mem, disk, sh, s.page, block);
    if s.On? {
      Sizes(sh);
      var d := DiskAfter(mem, disk, false, sh, s.page, block, sh.blocks);
      WriteKeeps(mem, d, sh, clp, n + 1, block + sh.blocks);
      Ends(mem, d, false, sh, clp, n + 1, block + sh.blocks);
      StillOn(d, l.disk, block, PageBytes(mem, s.page, sh), 0, block + sh.blocks);
    }
  }

  /** What is read after a write, from where it began: each step of the one is a step of the other. */
  lemma {:induction false} ThereAndBack(mem: seq<nat>, m: seq<nat>, disk: Disk, d: Disk, sh: Shape, clp: nat, n: nat, block: nat)
    requires IsShape(sh) && Fits(mem, sh) && Back(m, mem, sh)
    requires var l := Moves(mem, disk, false, sh, clp, n, block);
             l.outcome == Done && Same(l.disk, d, block, l.block + 1)
    ensures var l := Moves(mem, disk, false, sh, clp, n, block);
            var r := Moves(m, d, true, sh, clp, n, block);
            && r.outcome == Done && r.block == l.block && r.moved == l.moved && r.last == l.last && r.pages == l.pages && r.disk == d
            && |r.mem| == |mem|
            && forall i :: 0 <= i < |mem| ==> r.mem[i] == if InPages(i, l.pages, sh.words) then Kept(mem[i], sh) else m[i]
    decreases |disk| / BLOCK_BYTES + 1 - block
  {
    hide PageBytes, PageWords, Kept, EntryAt, NextStep, Fits, InPages, MemAfter, DiskAfter, Stored, IsShape, Back, OnDisk, Same;
    Sizes(sh);
    var at := EntryAt(clp, n);
    var s := NextStep(mem, |disk| / BLOCK_BYTES, sh, at, block);
    var l := Moves(mem, disk, false, sh, clp, n, block);
    WroteFirst(mem, disk, sh, clp, n, block, s, l);
    SameSize(l.disk, d, block, l.block + 1);
    SameStep(mem, m, |disk| / BLOCK_BYTES, sh, at, block);
    var page := s.page;
    StillOn(l.disk, d, block, PageBytes(mem, page, sh), block, l.block + 1);
    PageRead(mem, m, d, sh, page, block);
    PageBack(mem, m, page, sh);
    BackSize(m, mem, sh);
    NoPages(sh.words);
    var m' := MemAfter(m, d, true, sh, page, block);
    if s.On? {
      WriteMem(mem, disk, sh, page, block);
      var disk' := DiskAfter(mem, disk, false, sh, page, block, sh.blocks);
      var rest := Moves(mem, disk', false, sh, clp, n + 1, block + sh.blocks);
      assert l == Then(page, sh, rest);
      SameLess(l.disk, d, block, block + sh.blocks, l.block + 1);
      ThereAndBack(mem, m', disk', d, sh, clp, n + 1, block + sh.blocks);
      InFirst(l.pages, page, rest.pages, sh.words);
    } else {
      InFirst(l.pages, page, [], sh.words);
    }
  }

  lemma WriteMem(mem: seq<nat>, disk: Disk, sh: Shape, page: nat, block: nat)
    ensures MemAfter(mem, disk, false, sh, page, block) == mem
  {
  }

  lemma SameSize(d: Disk, e: Disk, from: nat, to: nat)
    requires Same(d, e, from, to)
    ensures |d| == |e|
  {
  }

  lemma SameLess(d: Disk, e: Disk, from: nat, later: nat, to: nat)
    requires Same(d, e, from, to) && from <= later
    ensures Same(d, e, later, to)
  {
  }

  lemma BackSize(m: seq<nat>, mem: seq<nat>, sh: Shape)
    requires Back(m, mem, sh)
    ensures |m| == |mem|
  {
  }

  lemma NoPages(words: nat)
    ensures forall i: nat :: !InPages(i, [], words)
  {
  }

  lemma InFirst(pages: seq<nat>, page: nat, rest: seq<nat>, words: nat)
    requires pages == [page] + rest
    ensures forall i: nat :: InPages(i, pages, words) <==> page <= i < page + words || InPages(i, rest, words)
  {
    forall i: nat
      ensures InPages(i, pages, words) <==> page <= i < page + words || InPages(i, rest, words)
    {
      if InPages(i, rest, words) {
        var k :| 0 <= k < |rest| && rest[k] <= i < rest[k] + words;
        assert pages[k + 1] == rest[k];
      }
      if page <= i < page + words {
        assert pages[0] == page;
      }
    }
  }

  /** The block it stops at is as many on as it moved: the last moved, or the one past them. */
  lemma {:induction false} Ends(mem: seq<nat>, disk: Disk, read: bool, sh: Shape, clp: nat, n: nat, block: nat)
    requires IsShape(sh)
    ensures var l := Moves(mem, disk, read, sh, clp, n, block);
            && l.block + (if l.outcome == Done then 1 else 0) == block + l.moved
            && (l.outcome == Done ==> l.moved >= sh.blocks)
            && (l.outcome == PastEnd ==> l.block >= |disk| / BLOCK_BYTES)
    decreases |disk| / BLOCK_BYTES + 1 - block
  {
    hide EntryAt, NextStep, MemAfter, DiskAfter, PageOf;
    StepEnds(mem, |disk| / BLOCK_BYTES, sh, EntryAt(clp, n), block);
    var s := NextStep(mem, |disk| / BLOCK_BYTES, sh, EntryAt(clp, n), block);
    if s.On? {
      Ends(MemAfter(mem, disk, read, sh, s.page, block), DiskAfter(mem, disk, read, sh, s.page, block, sh.blocks), read, sh, clp, n + 1, block + sh.blocks);
    }
  }

  lemma StepEnds(mem: seq<nat>, size: nat, sh: Shape, at: nat, block: nat)
    ensures var s := NextStep(mem, size, sh, at, block);
            s.Short? ==> block + s.n >= size
  {
    hide PageOf, More;
  }

  /** With disk enough, a write and then a read through the same list from the same block leaves each
      word of the pages moved as it comes back, and every other as it was. */
  lemma RoundTrip(mem: seq<nat>, disk: Disk, sh: Shape, clp: nat, block: nat)
    requires IsShape(sh) && Fits(mem, sh) && Moves(mem, disk, false, sh, clp, 0, block).outcome == Done
    ensures var l := Moves(mem, disk, false, sh, clp, 0, block);
            var r := Moves(l.mem, l.disk, true, sh, clp, 0, block);
            && r.outcome == Done && r.block == l.block && r.pages == l.pages && r.disk == l.disk && |r.mem| == |mem|
            && forall i :: 0 <= i < |mem| ==> r.mem[i] == if InPages(i, l.pages, sh.words) then Kept(mem[i], sh) else mem[i]
  {
    hide Moves, Kept, InPages, IsShape, Fits;
    WriteKeeps(mem, disk, sh, clp, 0, block);
    ThereAndBack(mem, mem, disk, Moves(mem, disk, false, sh, clp, 0, block).disk, sh, clp, 0, block);
  }

  /** Packed, memory is as it was. */
  lemma PackedRoundTrip(mem: seq<nat>, disk: Disk, clp: nat, block: nat)
    requires Fits(mem, PACKED) && Moves(mem, disk, false, PACKED, clp, 0, block).outcome == Done
    ensures var l := Moves(mem, disk, false, PACKED, clp, 0, block);
            Moves(l.mem, l.disk, true, PACKED, clp, 0, block).mem == mem
  {
    RoundTrip(mem, disk, PACKED, clp, block);
    hide Moves, Kept, InPages;
    forall i: nat | i < |mem|
      ensures Kept(mem[i], PACKED) == mem[i]
    {
      KeptIs(mem[i]);
    }
  }

  /** A read changes no word but of the pages it moved whole: the page it stopped in is as it was. */
  lemma {:induction false} ReadKeeps(mem: seq<nat>, disk: Disk, sh: Shape, clp: nat, n: nat, block: nat)
    requires IsShape(sh)
    ensures var r := Moves(mem, disk, true, sh, clp, n, block);
            r.disk == disk && |r.mem| == |mem| && forall i :: 0 <= i < |mem| && !InPages(i, r.pages, sh.words) ==> r.mem[i] == mem[i]
    decreases |disk| / BLOCK_BYTES + 1 - block
  {
    hide PageWords, PageOf, More, EntryAt, NextStep, Run, InPages, IsShape;
    Sizes(sh);
    NoPages(sh.words);
    var s := NextStep(mem, |disk| / BLOCK_BYTES, sh, EntryAt(clp, n), block);
    if s.On? || s.Last? {
      var page := s.page;
      var m := MemAfter(mem, disk, true, sh, page, block);
      assert forall i :: 0 <= i < |mem| && !(page <= i < page + sh.words) ==> m[i] == mem[i];
      hide MemAfter, Stored;
      if s.On? {
        var rest := Moves(m, disk, true, sh, clp, n + 1, block + sh.blocks);
        ReadKeeps(m, disk, sh, clp, n + 1, block + sh.blocks);
        InFirst([page] + rest.pages, page, rest.pages, sh.words);
      } else {
        InFirst([page], page, [], sh.words);
      }
    }
  }

  // ---- The controller ----

  /** A run of blocks off the disk, or the first it does not have. */
  method ReadRun(disk: Disk, block: nat, n: nat) returns (buf: seq<Byte>, got: nat)
    ensures got <= n && (got < n ==> block + got >= |disk| / BLOCK_BYTES) && (got > 0 ==> block + got <= |disk| / BLOCK_BYTES)
    ensures got == n && n > 0 ==> buf == Run(disk, block, n)
  {
    buf, got := [], 0;
    while got < n
      invariant got <= n && (got > 0 ==> block + got <= |disk| / BLOCK_BYTES)
      invariant got > 0 ==> buf == disk[block * BLOCK_BYTES..(block + got) * BLOCK_BYTES]
      invariant got == 0 ==> buf == []
    {
      if block + got >= |disk| / BLOCK_BYTES {
        return;
      }
      var b := disk[(block + got) * BLOCK_BYTES..(block + got + 1) * BLOCK_BYTES];
      buf := buf + b;
      got := got + 1;
    }
  }

  /** A run of blocks onto the disk, as far as it goes. */
  method WriteRun(disk: Disk, block: nat, buf: seq<Byte>, n: nat) returns (d: Disk, put: nat)
    requires |buf| == n * BLOCK_BYTES
    ensures put <= n && (put < n ==> block + put >= |disk| / BLOCK_BYTES) && (put > 0 ==> block + put <= |disk| / BLOCK_BYTES)
    ensures d == Splice(disk, block * BLOCK_BYTES, Front(buf, put * BLOCK_BYTES))
  {
    d, put := disk, 0;
    while put < n
      invariant put <= n && |d| == |disk| && (put > 0 ==> block + put <= |disk| / BLOCK_BYTES)
      invariant d == Splice(disk, block * BLOCK_BYTES, Front(buf, put * BLOCK_BYTES))
    {
      if block + put >= |disk| / BLOCK_BYTES {
        return;
      }
      ghost var was := d;
      d := Splice(d, (block + put) * BLOCK_BYTES, buf[put * BLOCK_BYTES..(put + 1) * BLOCK_BYTES]);
      OneMore(disk, block, buf, put);
      put := put + 1;
    }
  }

  lemma OneMore(disk: Disk, block: nat, buf: seq<Byte>, k: nat)
    requires (k + 1) * BLOCK_BYTES <= |buf| && (block + k + 1) * BLOCK_BYTES <= |disk|
    ensures var d := Splice(disk, block * BLOCK_BYTES, Front(buf, k * BLOCK_BYTES));
            var e := Splice(d, (block + k) * BLOCK_BYTES, buf[k * BLOCK_BYTES..(k + 1) * BLOCK_BYTES]);
            |e| == |disk| && e == Splice(disk, block * BLOCK_BYTES, Front(buf, (k + 1) * BLOCK_BYTES))
  {
    hide Splice, Front;
    SpliceMore(disk, block * BLOCK_BYTES, buf, k * BLOCK_BYTES, (k + 1) * BLOCK_BYTES);
  }

  lemma SpliceMore(disk: Disk, at: nat, buf: seq<Byte>, m: nat, n: nat)
    requires m < n <= |buf| && at + n <= |disk|
    ensures var e := Splice(Splice(disk, at, Front(buf, m)), at + m, buf[m..n]);
            |e| == |disk| && e == Splice(disk, at, Front(buf, n))
  {
    var e := Splice(Splice(disk, at, Front(buf, m)), at + m, buf[m..n]);
    var f := Splice(disk, at, Front(buf, n));
    assert |e| == |f| == |disk|;
    forall i | 0 <= i < |e|
      ensures e[i] == f[i]
    {
      if at + m <= i < at + n {
        assert buf[m..n][i - at - m] == buf[i - at];
      }
    }
  }

  method TakePage(main: array<nat>, page: nat, sh: Shape) returns (buf: seq<Byte>)
    requires IsShape(sh) && page + sh.words <= main.Length
    ensures buf == PageBytes(main[..], page, sh)
  {
    hide IsShape, LowBytes;
    Sizes(sh);
    buf := [];
    for j := 0 to sh.words
      invariant |buf| == j * sh.bytes
      invariant forall i :: 0 <= i < |buf| ==> buf[i] == PageByte(main[..], page, sh, i)
    {
      WordFits(j, sh.words, sh.bytes);
      ghost var n := |buf|;
      var w := LowBytes(main[page + j], sh.bytes);
      forall i: nat | n <= i < n + sh.bytes
        ensures w[i - n] == PageByte(main[..], page, sh, i)
      {
        DivUnique(j, sh.bytes, i - n);
      }
      buf := buf + w;
    }
  }

  method StorePage(main: array<nat>, page: nat, buf: seq<Byte>, sh: Shape)
    requires page + sh.words <= main.Length && |buf| == sh.words * sh.bytes
    modifies main
    ensures main[..] == Stored(old(main[..]), page, PageWords(buf, sh))
  {
    hide WordOf;
    for j := 0 to sh.words
      invariant forall k :: 0 <= k < main.Length ==> main[k] == if page <= k < page + j then WordAt(buf, sh, k - page) else old(main[k])
    {
      WordFits(j, sh.words, sh.bytes);
      var from := j * sh.bytes;
      main[page + j] := sh.tag + WordOf(buf[from..from + sh.bytes]);
    }
  }

  /** What a transfer leaves is what the rest of it leaves, and what it has moved already. */
  ghost predicate Rest(l: Left, rest: Left, moved: nat, pages: seq<nat>) {
    l == rest.(moved := moved + rest.moved, pages := pages + rest.pages)
  }

  lemma MovesIs(mem: seq<nat>, disk: Disk, read: bool, sh: Shape, clp: nat, n: nat, block: nat)
    requires IsShape(sh)
    ensures var at := EntryAt(clp, n);
            var l := Moves(mem, disk, read, sh, clp, n, block);
            if at >= |mem| || PageOf(mem[at], sh) + sh.words > |mem| then l == Left(mem, disk, block, 0, at, [], Nxm)
            else
              var page, size := PageOf(mem[at], sh), |disk| / BLOCK_BYTES;
              if block + sh.blocks > size then
                var k := if block < size then size - block else 0;
                l == Left(mem, if k == 0 then disk else DiskAfter(mem, disk, read, sh, page, block, k), block + k, k, at, [], PastEnd)
              else
                var m, d := MemAfter(mem, disk, read, sh, page, block), DiskAfter(mem, disk, read, sh, page, block, sh.blocks);
                if !More(mem[at]) then l == Left(m, d, block + sh.blocks - 1, sh.blocks, page + sh.words - 1, [page], Done)
                else l == Then(page, sh, Moves(m, d, read, sh, clp, n + 1, block + sh.blocks))
  {
    hide MemAfter, DiskAfter, PageOf, More, EntryAt;
  }

  lemma RestAll(l: Left)
    ensures Rest(l, l, 0, [])
  {
    assert [] + l.pages == l.pages;
  }

  /** At the end of a transfer, what it leaves. */
  lemma RestEnds(l: Left, rest: Left, moved: nat, pages: seq<nat>)
    requires Rest(l, rest, moved, pages)
    ensures l.mem == rest.mem && l.disk == rest.disk && l.block == rest.block && l.last == rest.last && l.outcome == rest.outcome
    ensures l.moved == moved + rest.moved && l.pages == pages + rest.pages
  {
  }

  lemma RestOn(l: Left, rest: Left, moved: nat, pages: seq<nat>, page: nat, sh: Shape)
    requires Rest(l, Then(page, sh, rest), moved, pages)
    ensures Rest(l, rest, moved + sh.blocks, pages + [page])
  {
    assert pages + ([page] + rest.pages) == (pages + [page]) + rest.pages;
  }

  /** A page, from or to the blocks from one on: how many of them there were. */
  method MovePage(main: array<nat>, disk: Disk, read: bool, sh: Shape, page: nat, block: nat) returns (d: Disk, k: nat)
    requires IsShape(sh) && page + sh.words <= main.Length
    modifies main
    ensures var size := |disk| / BLOCK_BYTES;
            if block + sh.blocks <= size then
              k == sh.blocks && main[..] == MemAfter(old(main[..]), disk, read, sh, page, block) && d == DiskAfter(old(main[..]), disk, read, sh, page, block, k)
            else
              && k == (if block < size then size - block else 0) && k < sh.blocks && main[..] == old(main[..])
              && d == if k == 0 then disk else DiskAfter(old(main[..]), disk, read, sh, page, block, k)
  {
    hide IsShape, PageBytes, PageWords, Stored, Run, Splice, Front;
    Sizes(sh);
    d := disk;
    if read {
      var buf;
      buf, k := ReadRun(disk, block, sh.blocks);
      if k == sh.blocks {
        StorePage(main, page, buf, sh);
      }
    } else {
      var buf := TakePage(main, page, sh);
      d, k := WriteRun(disk, block, buf, sh.blocks);
      NothingPut(disk, block * BLOCK_BYTES, buf);
    }
  }

  lemma NothingPut(disk: Disk, at: nat, buf: seq<Byte>)
    ensures Splice(disk, at, Front(buf, 0)) == disk
  {
  }

  class BlockDisk {
    var cmd: nat
    var clp: nat
    var da: nat
    var lastMemoryAddress: nat
    var doneAt: nat
    var now: nat
    const blockNs: nat
    var pastEnd: bool
    var nxm: bool
    var badCommand: bool
    var disk: Option<Disk>
    /** The pages moved by the last transfer. */
    ghost var pages: seq<nat>

    constructor (blockNs: nat, disk: Option<Disk>)
      ensures this.disk == disk && this.blockNs == blockNs
    {
      cmd, clp, da, lastMemoryAddress, doneAt, now, this.blockNs := 0, 0, 0, 0, 0, 0, blockNs;
      pastEnd, nxm, badCommand, this.disk, pages := false, false, false, disk, [];
    }

    predicate Command()
      reads this
    {
      cmd % 16 == 0 || cmd % 16 == 9
    }

    /** START carried out in memory and on the disk where they are. What is left in the address register
        names a block: the final one to move, if every one did, and otherwise the first that could not. */
    method Start(main: array<nat>, thirteen: bool)
      requires clp < 0x1_0000_0000
      modifies this, main
      ensures badCommand == !old(Command()) && cmd == old(cmd) && clp == old(clp) && now == old(now)
      ensures badCommand || old(disk) == None ==>
                main[..] == old(main[..]) && disk == old(disk) && da == old(da) && doneAt == old(doneAt) && !pastEnd && !nxm
      ensures !badCommand && old(disk).Some? ==>
                var sh := if !thirteen then OLD else if old(cmd) / 4096 % 2 == 1 then FOUR_BYTE else PACKED;
                var l := Moves(old(main[..]), old(disk).value, old(cmd) % 16 == 0, sh, clp, 0, old(da));
                && main[..] == l.mem && disk == Some(l.disk) && da == l.block && lastMemoryAddress == l.last
                && pastEnd == l.outcome.PastEnd? && nxm == l.outcome.Nxm? && doneAt == now + l.moved * blockNs && pages == l.pages
    {
      hide Moves;
      pastEnd, nxm, badCommand := false, false, false;
      if cmd % 16 != 0 && cmd % 16 != 9 {
        badCommand := true;
        return;
      }
      var read := cmd % 16 == 0;
      var sh := if !thirteen then OLD else if cmd / 4096 % 2 == 1 then FOUR_BYTE else PACKED;
      if disk == None {
        return;
      }
      Transfer(main, read, sh);
    }

    method Transfer(main: array<nat>, read: bool, sh: Shape)
      requires IsShape(sh) && disk.Some? && !pastEnd && !nxm
      modifies this`da, this`lastMemoryAddress, this`doneAt, this`pastEnd, this`nxm, this`disk, this`pages, main
      ensures var l := Moves(old(main[..]), old(disk).value, read, sh, clp, 0, old(da));
              && main[..] == l.mem && disk == Some(l.disk) && da == l.block && lastMemoryAddress == l.last
              && pastEnd == l.outcome.PastEnd? && nxm == l.outcome.Nxm? && doneAt == now + l.moved * blockNs && pages == l.pages
    {
      hide Moves;
      var d, moved, block, last, past, missing;
      ghost var done;
      d, moved, block, last, past, missing, done := Follow(main, disk.value, read, sh, clp, da);
      pastEnd, nxm, lastMemoryAddress, pages := past, missing, last, done;
      da := block;
      disk := Some(d);
      doneAt := now + moved * blockNs;
    }
  }

  /** The list followed to its end: what has moved, and where it stopped. */
  method Follow(main: array<nat>, disk: Disk, read: bool, sh: Shape, clp: nat, da: nat)
    returns (d: Disk, moved: nat, block: nat, last: nat, past: bool, missing: bool, ghost done: seq<nat>)
    requires IsShape(sh)
    modifies main
    ensures var l := Moves(old(main[..]), disk, read, sh, clp, 0, da);
            && main[..] == l.mem && d == l.disk && block == l.block && last == l.last && moved == l.moved && done == l.pages
            && past == l.outcome.PastEnd? && missing == l.outcome.Nxm?
  {
    hide Moves, IsShape, MemAfter, DiskAfter, PageOf, More, EntryAt, Rest;
    RestAll(Moves(main[..], disk, read, sh, clp, 0, da));
    Sizes(sh);
    ghost var l := Moves(main[..], disk, read, sh, clp, 0, da);
    var n: nat := 0;
    d, moved, block, last, past, missing, done := disk, 0, da, 0, false, false, [];
    while true
      invariant Rest(l, Moves(main[..], d, read, sh, clp, n, block), moved, done)
      invariant !past && !missing
      decreases |d| / BLOCK_BYTES + 1 - block
    {
      MovesIs(main[..], d, read, sh, clp, n, block);
      RestEnds(l, Moves(main[..], d, read, sh, clp, n, block), moved, done);
      var at := EntryAt(clp, n);
      last := at;
      if at >= main.Length {
        missing := true;
        break;
      }
      var ccw := main[at];
      var page := PageOf(ccw, sh);
      if page + sh.words > main.Length {
        missing := true;
        break;
      }
      var k;
      d, k := MovePage(main, d, read, sh, page, block);
      if k < sh.blocks {
        past := true;
        moved, block := moved + k, block + k;
        break;
      }
      last := page + sh.words - 1;
      if !More(ccw) {
        moved, block := moved + sh.blocks, block + sh.blocks - 1;
        done := done + [page];
        break;
      }
      RestOn(l, Moves(main[..], d, read, sh, clp, n + 1, block + sh.blocks), moved, done, page, sh);
      moved, block := moved + sh.blocks, block + sh.blocks;
      done := done + [page];
      n := n + 1;
    }
  }
}
