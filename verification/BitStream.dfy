/** Bits packed into bytes, least significant first. */
module BitStream {
  import opened Arithmetic

  type Byte = b: nat | b < 256

  type Bits = seq<bool>

  function Pow2(n: nat): (p: nat)
    ensures p > 0
  {
    if n == 0 then 1 else 2 * Pow2(n - 1)
  }

  /** The low `n` bits of a number, the least significant first. */
  function BitsOf(v: nat, n: nat): (b: Bits)
    ensures |b| == n
  {
    if n == 0 then [] else [v % 2 == 1] + BitsOf(v / 2, n - 1)
  }

  function ValueOf(b: Bits): (v: nat) {
    if b == [] then 0 else (if b[0] then 1 else 0) + 2 * ValueOf(b[1..])
  }

  function BytesBits(bytes: seq<Byte>): Bits {
    if bytes == [] then [] else BytesBits(bytes[..|bytes| - 1]) + BitsOf(bytes[|bytes| - 1], 8)
  }

  lemma {:induction false} ValueOfBits(v: nat, n: nat)
    requires v < Pow2(n)
    ensures ValueOf(BitsOf(v, n)) == v
  {
    if n > 0 {
      ValueOfBits(v / 2, n - 1);
      assert BitsOf(v, n)[1..] == BitsOf(v / 2, n - 1);
    }
  }

  lemma Halved(low: nat, high: nat, n: nat)
    requires n > 0
    ensures (low + high * Pow2(n)) / 2 == low / 2 + high * Pow2(n - 1) && (low + high * Pow2(n)) % 2 == low % 2
  {
    assert Pow2(n) == 2 * Pow2(n - 1);
    assert high * Pow2(n) == 2 * (high * Pow2(n - 1));
    hide Pow2;
  }

  /** A value above `n` bits of another: their bits one after the other. */
  lemma {:induction false} BitsJoin(low: nat, n: nat, high: nat, m: nat)
    requires low < Pow2(n)
    ensures BitsOf(low + high * Pow2(n), n + m) == BitsOf(low, n) + BitsOf(high, m)
  {
    if n == 0 {
      assert BitsOf(low, 0) + BitsOf(high, m) == BitsOf(high, m);
    } else {
      var v := low + high * Pow2(n);
      Halved(low, high, n);
      assert low / 2 < Pow2(n - 1);
      BitsJoin(low / 2, n - 1, high, m);
      assert BitsOf(v, n + m) == [v % 2 == 1] + BitsOf(v / 2, n + m - 1);
      assert BitsOf(low, n) == [low % 2 == 1] + BitsOf(low / 2, n - 1);
      hide BitsOf, Pow2;
    }
  }

  /** The first byte of a value, and the rest of it. */
  lemma BitsSplit(v: nat, n: nat)
    requires n >= 8
    ensures BitsOf(v, n) == BitsOf(v % 256, 8) + BitsOf(v / 256, n - 8)
  {
    assert Pow2(8) == 256;
    BitsJoin(v % 256, 8, v / 256, n - 8);
  }

  lemma PowSplit(n: nat, m: nat)
    ensures Pow2(n + m) == Pow2(n) * Pow2(m)
  {
    if n > 0 {
      PowSplit(n - 1, m);
    }
  }

  lemma PutAbove(acc: nat, n: nat, code: nat, width: nat)
    requires acc < Pow2(n) && code < Pow2(width)
    ensures acc + code * Pow2(n) < Pow2(n + width)
    ensures BitsOf(acc + code * Pow2(n), n + width) == BitsOf(acc, n) + BitsOf(code, width)
  {
    hide Pow2, BitsOf;
    BitsJoin(acc, n, code, width);
    PowSplit(n, width);
    DigitsBelow(acc, Pow2(n), code, Pow2(width));
  }

  lemma SmallPowers()
    ensures Pow2(0) == 1 && Pow2(2) == 4 && Pow2(8) == 256 && Pow2(11) == 2048 && Pow2(12) == 4096
  {
    assert Pow2(4) == 16;
    assert Pow2(8) == 256;
    assert Pow2(11) == 2048;
  }

  lemma PowNext(n: nat)
    ensures Pow2(n + 1) == 2 * Pow2(n)
  {
  }

  lemma NoBits(v: nat)
    ensures BitsOf(v, 0) == []
  {
  }

  /** Bits short of a byte are padded with zeros. */
  lemma LastByte(out: seq<Byte>, acc: nat, n: nat)
    requires n < 8 && acc < Pow2(n)
    ensures acc < 256 && BytesBits(out + [acc]) == BytesBits(out) + BitsOf(acc, n) + BitsOf(0, 8 - n)
  {
    hide Pow2, BitsOf;
    PowGrows(n, 8);
    SmallPowers();
    BitsJoin(acc, n, 0, 8 - n);
    assert acc + 0 * Pow2(n) == acc;
    assert (out + [acc])[..|out|] == out;
  }

  lemma PowGrows(n: nat, m: nat)
    requires n <= m
    ensures Pow2(n) <= Pow2(m)
    decreases m - n
  {
    if n < m { PowGrows(n + 1, m); }
  }

  lemma ByteOff(acc: nat, n: nat)
    requires n >= 8 && acc < Pow2(n)
    ensures acc / 256 < Pow2(n - 8)
  {
    hide Pow2;
    PowSplit(8, n - 8);
    SmallPowers();
  }

  lemma EmitKeeps(out: seq<Byte>, acc: nat, n: nat)
    requires n >= 8
    ensures BytesBits(out + [acc % 256]) + BitsOf(acc / 256, n - 8) == BytesBits(out) + BitsOf(acc, n)
  {
    hide BitsOf, BytesBits;
    var q, r := acc / 256, acc % 256;
    BitsSplit(acc, n);
    ByteMore(out, r);
    ThreeBits(BytesBits(out), BitsOf(r, 8), BitsOf(q, n - 8));
  }

  lemma ThreeBits(a: Bits, b: Bits, c: Bits)
    ensures (a + b) + c == a + (b + c)
  {
  }

  lemma ByteMore(out: seq<Byte>, b: Byte)
    ensures BytesBits(out + [b]) == BytesBits(out) + BitsOf(b, 8)
  {
    assert (out + [b])[..|out|] == out;
  }

  /** The writer: `n` bits below a byte wait in `acc`. */
  class BitWriter {
    var out: seq<Byte>
    var acc: nat
    var n: nat

    ghost predicate Valid()
      reads this
    {
      n < 8 && acc < Pow2(n)
    }

    /** Every bit put. */
    ghost function Written(): Bits
      reads this
    {
      BytesBits(out) + BitsOf(acc, n)
    }

    constructor ()
      ensures Valid() && Written() == []
    {
      out, acc, n := [], 0, 0;
    }

    /** Puts a code of `width` bits.  The bits waiting lie below it, so adding them in is the
        `or` of the two; a 16-bit code and 7 bits waiting never pass 32. */
    method Put(code: nat, width: nat)
      requires Valid() && code < Pow2(width) && width <= 16
      modifies this
      ensures Valid() && Written() == old(Written()) + BitsOf(code, width)
    {
      hide Pow2, BitsOf, BytesBits;
      PutAbove(acc, n, code, width);
      assert BytesBits(out) + (BitsOf(acc, n) + BitsOf(code, width)) == Written() + BitsOf(code, width);
      acc := acc + code * Pow2(n);
      n := n + width;
      while n >= 8
        invariant acc < Pow2(n)
        invariant Written() == old(Written()) + BitsOf(code, width)
      {
        Emit();
      }
    }

    /** The low eight bits waiting become a byte. */
    method Emit()
      requires n >= 8 && acc < Pow2(n)
      modifies this
      ensures n == old(n) - 8 && acc < Pow2(n) && Written() == old(Written())
    {
      hide Pow2, BitsOf, BytesBits;
      ByteOff(acc, n);
      EmitKeeps(out, acc, n);
      out := out + [acc % 256];
      acc := acc / 256;
      n := n - 8;
    }

    /** The bytes, the last padded with zeros. */
    method Finish() returns (bytes: seq<Byte>)
      requires Valid()
      ensures |Written()| <= |BytesBits(bytes)| < |Written()| + 8
      ensures BytesBits(bytes) == Written() + BitsOf(0, |BytesBits(bytes)| - |Written()|)
    {
      hide Pow2, BitsOf, BytesBits;
      bytes := out;
      if n > 0 {
        LastByte(out, acc, n);
        bytes := bytes + [acc];
      } else {
        NoBits(0);
        assert BytesBits(bytes) + BitsOf(acc, 0) == BytesBits(bytes) + BitsOf(acc, 0) + BitsOf(0, 0);
        NoBits(acc);
      }
    }
  }
}
