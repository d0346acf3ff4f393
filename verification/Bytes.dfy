/** Files as byte sequences: reads that must be whole, writes that splice. */
module Bytes {
  import opened Arithmetic
  import opened Netlist
  import opened BitStream

  function Zeros(n: nat): (z: seq<Byte>)
    ensures |z| == n && forall i :: 0 <= i < n ==> z[i] == 0
  {
    seq(n, _ => 0)
  }

  /** `buf` written at `at`: past the end the file grows, a gap reading as zeros. */
  function Splice(f: seq<Byte>, at: nat, buf: seq<Byte>): (g: seq<Byte>)
    ensures buf == [] ==> g == f
    ensures buf != [] ==> |g| == if |f| < at + |buf| then at + |buf| else |f|
    ensures forall i :: 0 <= i < |g| ==> g[i] == if at <= i < at + |buf| then buf[i - at] else if i < |f| then f[i] else 0
  {
    if buf == [] then f
    else
      var n := if |f| < at + |buf| then at + |buf| else |f|;
      seq(n, i requires 0 <= i < n => if at <= i < at + |buf| then buf[i - at] else if i < |f| then f[i] else 0)
  }

  /** A whole read, or none. */
  function ReadAt(f: seq<Byte>, at: nat, n: nat): Option<seq<Byte>> {
    if at + n <= |f| then Some(f[at..at + n]) else None
  }

  lemma ReadsApart(f: seq<Byte>, at: nat, buf: seq<Byte>, from: nat, n: nat)
    requires from + n <= |f| && (from + n <= at || at + |buf| <= from)
    ensures |Splice(f, at, buf)| >= |f| && Splice(f, at, buf)[from..from + n] == f[from..from + n]
  {
  }

  lemma ReadsWritten(f: seq<Byte>, at: nat, buf: seq<Byte>)
    requires buf != []
    ensures at + |buf| <= |Splice(f, at, buf)| && Splice(f, at, buf)[at..at + |buf|] == buf
  {
  }

  /** The first bytes of what is written, when the rest is there already. */
  lemma WrittenAlready(f: seq<Byte>, at: nat, b: seq<Byte>, i: nat)
    requires 0 < i <= |b| && at + |b| <= |f| && f[at + i..at + |b|] == b[i..]
    ensures Splice(f, at, b[..i]) == Splice(f, at, b)
  {
    var g, h := Splice(f, at, b[..i]), Splice(f, at, b);
    forall j | 0 <= j < |f|
      ensures g[j] == h[j]
    {
      if at + i <= j < at + |b| {
        assert f[j] == f[at + i..at + |b|][j - at - i] == b[i..][j - at - i];
      }
    }
    assert g == h;
  }

  lemma SliceOfSlice(f: seq<Byte>, a: nat, n: nat, i: nat, m: nat)
    requires a + n <= |f| && i + m <= n
    ensures f[a..a + n][i..i + m] == f[a + i..a + i + m]
  {
    var g, l, r := f[a..a + n], f[a..a + n][i..i + m], f[a + i..a + i + m];
    forall j | 0 <= j < |l|
      ensures l[j] == r[j]
    {
      assert l[j] == g[i + j] == f[a + i + j];
    }
  }

  // ---- Big-endian fields ----

  function Be(b: seq<Byte>): (v: nat) {
    if b == [] then 0 else 256 * Be(b[..|b| - 1]) + b[|b| - 1]
  }

  function Be32(b: seq<Byte>, at: nat): nat
    requires at + 4 <= |b|
  {
    Be(b[at..at + 4])
  }

  function Be64(b: seq<Byte>, at: nat): nat
    requires at + 8 <= |b|
  {
    Be(b[at..at + 8])
  }

  /** A 32-bit number's bytes, the high one first. */
  function Be32Bytes(v: nat): (b: seq<Byte>)
    requires v < 0x1_0000_0000
    ensures |b| == 4
  {
    [v / 256 / 256 / 256, v / 256 / 256 % 256, v / 256 % 256, v % 256]
  }

  lemma Be32RoundTrip(v: nat)
    requires v < 0x1_0000_0000
    ensures Be(Be32Bytes(v)) == v
  {
    hide Be;
    var q0 := v / 256;
    var q1 := q0 / 256;
    FourBytes(q1 / 256, q1 % 256, q0 % 256, v % 256);
  }

  lemma FourBytes(h: Byte, m: Byte, l: Byte, b: Byte)
    ensures Be([h, m, l, b]) == 256 * (256 * (256 * h + m) + l) + b
  {
    BeAppend([h, m, l], b);
    BeAppend([h, m], l);
    BeAppend([h], m);
    BeAppend([], h);
    BeNone();
    assert [h, m, l] + [b] == [h, m, l, b] && [h, m] + [l] == [h, m, l] && [h] + [m] == [h, m] && [] + [h] == [h];
    hide Be;
  }

  /** Four bytes are those of the number they make. */
  lemma BytesOfBe(b: seq<Byte>)
    requires |b| == 4
    ensures Be(b) < 0x1_0000_0000 && Be32Bytes(Be(b)) == b
  {
    hide Be;
    assert b == [b[0], b[1], b[2], b[3]];
    FourBytes(b[0], b[1], b[2], b[3]);
    var v2: nat := b[1] + 256 * b[0] as nat;
    var v3: nat := b[2] + 256 * v2;
    DivUnique(v3, 256, b[3]);
    DivUnique(v2, 256, b[2]);
    DivUnique(b[0], 256, b[1]);
  }

  lemma BeNone()
    ensures Be([]) == 0
  {
  }

  lemma BeAppend(b: seq<Byte>, x: Byte)
    ensures Be(b + [x]) == 256 * Be(b) + x
  {
    assert (b + [x])[..|b|] == b;
  }

  // ---- Words, the low byte first ----

  function Pow256(n: nat): (p: nat)
    ensures p > 0
  {
    if n == 0 then 1 else 256 * Pow256(n - 1)
  }

  /** A word's bytes, the low one first. */
  function LowBytes(w: nat, n: nat): (b: seq<Byte>)
    ensures |b| == n
  {
    if n == 0 then [] else [w % 256] + LowBytes(w / 256, n - 1)
  }

  function WordOf(b: seq<Byte>): nat { if b == [] then 0 else b[0] + 256 * WordOf(b[1..]) }

  lemma WordCons(x: Byte, b: seq<Byte>)
    ensures WordOf([x] + b) == x + 256 * WordOf(b)
  {
    assert ([x] + b)[1..] == b;
  }

  lemma NoWord()
    ensures WordOf([]) == 0
  {
  }

  lemma {:induction false} LowIsWord(w: nat, n: nat)
    ensures WordOf(LowBytes(w, n)) == w % Pow256(n)
  {
    if n > 0 {
      LowIsWord(w / 256, n - 1);
      assert LowBytes(w, n)[1..] == LowBytes(w / 256, n - 1);
      ModSplit(w, Pow256(n - 1));
    }
  }

  lemma ModSplit(w: nat, p: nat)
    requires p > 0
    ensures w % (256 * p) == w % 256 + 256 * (w / 256 % p)
  {
    var q, r := w / 256, w % 256;
    var a, b := q / p, q % p;
    assert q == a * p + b && w == 256 * q + r;
    assert 256 * q == a * (256 * p) + 256 * b by { assert 256 * (a * p) == a * (256 * p); }
    DivUnique(a, 256 * p, 256 * b + r);
  }

  lemma ByteBelow(x: Byte, r: nat)
    ensures (x + 256 * r) % 256 == x && (x + 256 * r) / 256 == r
  {
    DivUnique(r, 256, x);
  }

  lemma PowBelow(x: Byte, r: nat, n: nat)
    ensures r < Pow256(n) ==> x + 256 * r < Pow256(n + 1)
  {
  }

  /** Bytes make a word they are the bytes of. */
  lemma {:induction false} WordIsLow(b: seq<Byte>)
    ensures LowBytes(WordOf(b), |b|) == b && WordOf(b) < Pow256(|b|)
  {
    if b != [] {
      WordIsLow(b[1..]);
      var r := WordOf(b[1..]);
      WordCons(b[0], b[1..]);
      assert b == [b[0]] + b[1..];
      ByteBelow(b[0], r);
      PowBelow(b[0], r, |b| - 1);
      hide WordOf, Pow256;
      assert LowBytes(b[0] + 256 * r, |b|) == [(b[0] + 256 * r) % 256] + LowBytes((b[0] + 256 * r) / 256, |b| - 1);
    }
  }
}
