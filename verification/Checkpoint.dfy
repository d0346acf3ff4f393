/** A checkpoint's body, packed: counts of zeros and of literals, and the literals. */
module Checkpoint {
  import opened Arithmetic
  import opened Netlist
  import opened BitStream
  import opened Bytes

  const MIN_ZERO_RUN: nat := 4
  const MAX_BODY: nat := 0x1_0000_0000
  const U64: nat := 0x1_0000_0000_0000_0000

  // ---- Counts: unsigned LEB128 ----

  function Varint(v: nat): (b: seq<Byte>)
    ensures |b| > 0
  {
    if v < 128 then [v] else [v % 128 + 128] + Varint(v / 128)
  }

  method PutVarint(out: seq<Byte>, v: nat) returns (r: seq<Byte>)
    ensures r == out + Varint(v)
  {
    r := out;
    var left := v;
    while left >= 128
      invariant r + Varint(left) == out + Varint(v)
    {
      r := r + [left % 128 + 128];
      left := left / 128;
    }
    r := r + [left];
  }

  /** A count read at `at`, `v` of it so far and `shift` the next byte's: no more than ten bytes, and
      of the tenth what a 64-bit number has room for. */
  function UnvarintFrom(data: seq<Byte>, at: nat, shift: nat, v: nat): Option<(nat, nat)>
    decreases 64 - shift
  {
    if shift >= 64 || at >= |data| then None
    else
      var w := v + data[at] % 128 * Pow2(shift) % U64;
      if data[at] < 128 then Some((w, at + 1)) else UnvarintFrom(data, at + 1, shift + 7, w)
  }

  function Unvarint(data: seq<Byte>, at: nat): Option<(nat, nat)> { UnvarintFrom(data, at, 0, 0) }

  method GetVarint(data: seq<Byte>, at: nat) returns (r: Option<(nat, nat)>)
    ensures r == Unvarint(data, at)
  {
    hide Pow2;
    var v: nat, i: nat, shift: nat := 0, at, 0;
    while shift < 64
      invariant UnvarintFrom(data, i, shift, v) == Unvarint(data, at)
      decreases 64 - shift
    {
      if i >= |data| {
        return None;
      }
      var byte := data[i];
      i := i + 1;
      v := v + byte % 128 * Pow2(shift) % U64;
      if byte < 128 {
        return Some((v, i));
      }
      shift := shift + 7;
    }
    return None;
  }

  /** Every 64-bit count reads back, wherever it is, and the reading stops at its end. */
  lemma {:induction false} VarintRoundTrip(pre: seq<Byte>, v: nat, post: seq<Byte>)
    requires v < U64
    ensures Unvarint(pre + Varint(v) + post, |pre|) == Some((v, |pre| + |Varint(v)|))
  {
    SixtyFour();
    assert Pow2(0) == 1;
    VarintDigits(pre, v, post, 0, 0);
  }

  lemma SixtyFour()
    ensures Pow2(64) == U64
  {
    SmallPowers();
    hide Pow2;
    PowSplit(8, 8);
    PowSplit(16, 16);
    PowSplit(32, 32);
  }

  /** One digit of a count, and the rest above it. */
  lemma DigitSplit(v: nat, shift: nat)
    requires v >= 128
    ensures v * Pow2(shift) == v % 128 * Pow2(shift) + v / 128 * Pow2(shift + 7)
    ensures v % 128 * Pow2(shift) <= v * Pow2(shift) && v / 128 * Pow2(shift + 7) <= v * Pow2(shift)
  {
    PowSplit(shift, 7);
    assert Pow2(7) == 128;
    hide Pow2;
    var d, q, p := v % 128, v / 128, Pow2(shift);
    assert v == d + q * 128;
    assert (d + q * 128) * p == d * p + (q * 128) * p;
    assert (q * 128) * p == q * (p * 128);
    MulAtMost(d, v, p);
  }

  /** One digit read, as it stands when the number has room for it. */
  lemma DigitRead(data: seq<Byte>, at: nat, shift: nat, v: nat)
    requires shift < 64 && at < |data| && data[at] % 128 * Pow2(shift) < U64
    ensures UnvarintFrom(data, at, shift, v) ==
              var w := v + data[at] % 128 * Pow2(shift);
              if data[at] < 128 then Some((w, at + 1)) else UnvarintFrom(data, at + 1, shift + 7, w)
  {
    hide Pow2;
    var x := data[at] % 128 * Pow2(shift);
    assert x % U64 == x;
  }

  lemma LastDigit(pre: seq<Byte>, v: nat, post: seq<Byte>, shift: nat, low: nat)
    requires v < 128 && shift < 64 && v * Pow2(shift) < U64
    ensures UnvarintFrom(pre + Varint(v) + post, |pre|, shift, low) == Some((low + v * Pow2(shift), |pre| + |Varint(v)|))
  {
    hide Pow2, UnvarintFrom;
    assert (pre + Varint(v) + post)[|pre|] == v;
    DigitRead(pre + Varint(v) + post, |pre|, shift, low);
  }

  /** A digit with more above it, those read. */
  lemma MiddleDigit(pre: seq<Byte>, v: nat, post: seq<Byte>, shift: nat, low: nat)
    requires v >= 128 && shift < 64 && v * Pow2(shift) < U64
    requires var next := pre + [v % 128 + 128];
             UnvarintFrom(next + Varint(v / 128) + post, |next|, shift + 7, low + v % 128 * Pow2(shift)) ==
             Some((low + v * Pow2(shift), |next| + |Varint(v / 128)|))
    ensures UnvarintFrom(pre + Varint(v) + post, |pre|, shift, low) == Some((low + v * Pow2(shift), |pre| + |Varint(v)|))
  {
    DigitSplit(v, shift);
    hide Pow2, UnvarintFrom;
    assert Varint(v) == [v % 128 + 128] + Varint(v / 128);
    hide Varint;
    Regroup(pre, v % 128 + 128, Varint(v / 128), post);
    DigitRead(pre + Varint(v) + post, |pre|, shift, low);
  }

  lemma {:induction false} VarintDigits(pre: seq<Byte>, v: nat, post: seq<Byte>, shift: nat, low: nat)
    requires v * Pow2(shift) < Pow2(64) == U64 && (shift == 0 || v > 0)
    ensures UnvarintFrom(pre + Varint(v) + post, |pre|, shift, low) == Some((low + v * Pow2(shift), |pre| + |Varint(v)|))
    decreases v
  {
    ShiftFits(v, shift);
    hide Pow2, UnvarintFrom, Varint;
    if v < 128 {
      LastDigit(pre, v, post, shift, low);
    } else {
      DigitSplit(v, shift);
      VarintDigits(pre + [v % 128 + 128], v / 128, post, shift + 7, low + v % 128 * Pow2(shift));
      MiddleDigit(pre, v, post, shift, low);
    }
  }

  lemma Regroup(pre: seq<Byte>, b: Byte, s: seq<Byte>, post: seq<Byte>)
    ensures pre + ([b] + s) + post == (pre + [b]) + s + post
    ensures (pre + ([b] + s) + post)[|pre|] == b
  {
  }

  /** A number that fits, shifted, has been shifted less than 64. */
  lemma ShiftFits(v: nat, shift: nat)
    requires v * Pow2(shift) < Pow2(64) && (shift == 0 || v > 0)
    ensures shift < 64
  {
    if shift >= 64 {
      PowGrows(64, shift);
      MulAtMost(1, v, Pow2(shift));
    }
  }

  // ---- Runs ----

  /** How many zeros begin at `i`. */
  function ZeroRun(raw: seq<Byte>, i: nat): (n: nat)
    requires i <= |raw|
    ensures i + n <= |raw| && (forall k :: i <= k < i + n ==> raw[k] == 0) && (i + n < |raw| ==> raw[i + n] != 0)
    decreases |raw| - i
  {
    if i < |raw| && raw[i] == 0 then 1 + ZeroRun(raw, i + 1) else 0
  }

  /** Where the literals from `i` end: at the end, or where four zeros begin. */
  function LiteralEnd(raw: seq<Byte>, i: nat): (e: nat)
    requires i <= |raw|
    ensures i <= e <= |raw| && (e < |raw| ==> ZeroRun(raw, e) >= MIN_ZERO_RUN)
    ensures i < |raw| && raw[i] != 0 ==> i < e
    decreases |raw| - i
  {
    if i == |raw| then i
    else if raw[i] != 0 then LiteralEnd(raw, i + 1)
    else
      var run := ZeroRun(raw, i);
      if run >= MIN_ZERO_RUN then i else LiteralEnd(raw, i + run)
  }

  datatype Run = Run(zeros: nat, literals: seq<Byte>)

  function Runs(raw: seq<Byte>, i: nat): seq<Run>
    requires i <= |raw|
    decreases |raw| - i
  {
    if i == |raw| then []
    else
      var s := i + ZeroRun(raw, i);
      var e := LiteralEnd(raw, s);
      [Run(s - i, raw[s..e])] + Runs(raw, e)
  }

  function Packed(runs: seq<Run>): seq<Byte> {
    if runs == [] then [] else Record(runs[0]) + Packed(runs[1..])
  }

  function Record(r: Run): seq<Byte> { Varint(r.zeros) + Varint(|r.literals|) + r.literals }

  function Bodies(runs: seq<Run>): seq<Byte> {
    if runs == [] then [] else Zeros(runs[0].zeros) + runs[0].literals + Bodies(runs[1..])
  }

  /** A body packed: how many zeros come next, how many bytes after them do not pack, and those. */
  method Pack(raw: seq<Byte>) returns (out: seq<Byte>)
    ensures out == Packed(Runs(raw, 0))
  {
    hide Varint, Packed, Runs, Record, LiteralEnd, ZeroRun;
    out := [];
    var i := 0;
    while i < |raw|
      invariant i <= |raw|
      invariant out + Packed(Runs(raw, i)) == Packed(Runs(raw, 0))
    {
      out, i := PackRun(raw, out, i);
    }
    NoRuns(raw);
    assert out + [] == out;
  }

  /** The zeros from `i` and the literals after them, put after `out`. */
  method PackRun(raw: seq<Byte>, out: seq<Byte>, i: nat) returns (out': seq<Byte>, i': nat)
    requires i < |raw|
    ensures i < i' <= |raw| && out' + Packed(Runs(raw, i')) == out + Packed(Runs(raw, i))
  {
    hide Varint, Packed, Runs, Record, LiteralEnd, ZeroRun;
    var zeros := CountZeros(raw, i);
    var start := i + zeros;
    i' := PassLiterals(raw, start);
    RunsFrom(raw, i);
    out' := PutVarint(out, zeros);
    out' := PutVarint(out', i' - start);
    out' := out' + raw[start..i'];
    RecordPut(out, Run(zeros, raw[start..i']), Packed(Runs(raw, i')));
  }

  /** To the end of the literals from `start`. */
  method PassLiterals(raw: seq<Byte>, start: nat) returns (i: nat)
    requires start <= |raw|
    ensures i == LiteralEnd(raw, start)
  {
    hide LiteralEnd, ZeroRun;
    i := start;
    while i < |raw|
      invariant start <= i <= |raw| && LiteralEnd(raw, i) == LiteralEnd(raw, start)
    {
      LiteralStep(raw, i);
      if raw[i] != 0 {
        i := i + 1;
        continue;
      }
      var run := CountZeros(raw, i);
      if run >= MIN_ZERO_RUN {
        break;
      }
      i := i + run;
    }
    LiteralStep(raw, i);
  }

  /** A step of the way to the literals' end. */
  lemma LiteralStep(raw: seq<Byte>, i: nat)
    requires i <= |raw|
    ensures LiteralEnd(raw, i) ==
              if i == |raw| then i
              else if raw[i] != 0 then LiteralEnd(raw, i + 1)
              else if ZeroRun(raw, i) >= MIN_ZERO_RUN then i else LiteralEnd(raw, i + ZeroRun(raw, i))
    ensures i < |raw| && raw[i] == 0 ==> ZeroRun(raw, i) > 0
  {
  }

  lemma NoRuns(raw: seq<Byte>)
    ensures Packed(Runs(raw, |raw|)) == []
  {
  }

  lemma RecordPut(out: seq<Byte>, r: Run, rest: seq<Byte>)
    ensures (((out + Varint(r.zeros)) + Varint(|r.literals|)) + r.literals) + rest == out + (Record(r) + rest)
  {
    hide Varint;
  }

  /** The first run from `i`, and the rest. */
  lemma RunsStep(raw: seq<Byte>, i: nat)
    requires i < |raw|
    ensures var s := i + ZeroRun(raw, i);
            var e := LiteralEnd(raw, s);
            i < e <= |raw| && s <= e && Runs(raw, i) == [Run(s - i, raw[s..e])] + Runs(raw, e)
  {
    hide LiteralEnd;
    if raw[i] != 0 {
      hide ZeroRun;
    }
  }

  lemma PackedStep(r: Run, rest: seq<Run>)
    ensures Packed([r] + rest) == Record(r) + Packed(rest) && Bodies([r] + rest) == Zeros(r.zeros) + r.literals + Bodies(rest)
  {
    hide Record;
    assert ([r] + rest)[1..] == rest;
  }

  lemma RunsFrom(raw: seq<Byte>, i: nat)
    requires i < |raw|
    ensures var s := i + ZeroRun(raw, i);
            var e := LiteralEnd(raw, s);
            i < e && Packed(Runs(raw, i)) == Record(Run(s - i, raw[s..e])) + Packed(Runs(raw, e))
  {
    hide ZeroRun, LiteralEnd, Runs, Record, Packed, Bodies;
    RunsStep(raw, i);
    var s := i + ZeroRun(raw, i);
    var e := LiteralEnd(raw, s);
    PackedStep(Run(s - i, raw[s..e]), Runs(raw, e));
  }

  method CountZeros(raw: seq<Byte>, i: nat) returns (n: nat)
    requires i <= |raw|
    ensures n == ZeroRun(raw, i)
  {
    n := 0;
    while i + n < |raw| && raw[i + n] == 0
      invariant i + n <= |raw| && ZeroRun(raw, i) == n + ZeroRun(raw, i + n)
    {
      n := n + 1;
    }
  }

  // ---- Unpacking ----

  function UnpackFrom(packed: seq<Byte>, at: nat, out: seq<Byte>): Option<seq<Byte>>
    decreases |packed| - at
  {
    if at >= |packed| then Some(out)
    else match Unvarint(packed, at)
      case None => None
      case Some((zeros, a)) =>
        match Unvarint(packed, a)
        case None => None
        case Some((literals, b)) =>
          if b + literals > |packed| || zeros > (if |out| < MAX_BODY then MAX_BODY - |out| else 0) || b <= at then None
          else UnpackFrom(packed, b + literals, out + Zeros(zeros) + packed[b..b + literals])
  }

  method Unpack(packed: seq<Byte>) returns (r: Option<seq<Byte>>)
    ensures r == UnpackFrom(packed, 0, [])
  {
    hide Unvarint, UnpackFrom;
    var out, at := [], 0;
    while at < |packed|
      invariant UnpackFrom(packed, at, out) == UnpackFrom(packed, 0, [])
      decreases |packed| - at
    {
      UnpackIs(packed, at, out);
      UnvarintAhead(packed, at);
      var z := GetVarint(packed, at);
      if z == None {
        return None;
      }
      UnvarintAhead(packed, z.value.1);
      var l := GetVarint(packed, z.value.1);
      if l == None {
        return None;
      }
      var (zeros, literals, from) := (z.value.0, l.value.0, l.value.1);
      if from + literals > |packed| {
        return None;
      }
      if zeros > (if |out| < MAX_BODY then MAX_BODY - |out| else 0) {
        return None;
      }
      out := out + Zeros(zeros) + packed[from..from + literals];
      at := from + literals;
    }
    UnpackIs(packed, at, out);
    return Some(out);
  }

  lemma UnpackIs(packed: seq<Byte>, at: nat, out: seq<Byte>)
    ensures UnpackFrom(packed, at, out) ==
              if at >= |packed| then Some(out)
              else match Unvarint(packed, at)
                case None => None
                case Some((zeros, a)) =>
                  match Unvarint(packed, a)
                  case None => None
                  case Some((literals, b)) =>
                    if b + literals > |packed| || zeros > (if |out| < MAX_BODY then MAX_BODY - |out| else 0) || b <= at then None
                    else UnpackFrom(packed, b + literals, out + Zeros(zeros) + packed[b..b + literals])
  {
    hide Unvarint;
  }

  /** A count read is at least a byte. */
  lemma UnvarintAhead(data: seq<Byte>, at: nat)
    ensures Unvarint(data, at).Some? ==> Unvarint(data, at).value.1 > at
  {
    AheadFrom(data, at, 0, 0);
  }

  lemma {:induction false} AheadFrom(data: seq<Byte>, at: nat, shift: nat, v: nat)
    ensures UnvarintFrom(data, at, shift, v).Some? ==> UnvarintFrom(data, at, shift, v).value.1 > at
    decreases 64 - shift
  {
    if shift < 64 && at < |data| {
      AheadFrom(data, at + 1, shift + 7, v + data[at] % 128 * Pow2(shift) % U64);
    }
  }

  lemma RecordParts(pre: seq<Byte>, z: seq<Byte>, l: seq<Byte>, s: seq<Byte>, post: seq<Byte>)
    ensures pre + (z + l + s) + post == pre + z + (l + s + post) == (pre + z) + l + (s + post)
    ensures var b := |pre| + |z| + |l|;
            (pre + (z + l + s) + post)[b..b + |s|] == s
  {
    assert pre + (z + l + s) + post == (pre + z + l) + s + post;
  }

  /** A run packed reads back, wherever it is. */
  lemma RecordReads(pre: seq<Byte>, r: Run, post: seq<Byte>, out: seq<Byte>)
    requires |out| + r.zeros + |r.literals| <= MAX_BODY
    ensures UnpackFrom(pre + Record(r) + post, |pre|, out) ==
              UnpackFrom(pre + Record(r) + post, |pre| + |Record(r)|, out + Zeros(r.zeros) + r.literals)
  {
    hide Varint, Unvarint, UnvarintFrom, UnpackFrom;
    var z, l := Varint(r.zeros), Varint(|r.literals|);
    RecordParts(pre, z, l, r.literals, post);
    VarintRoundTrip(pre, r.zeros, l + r.literals + post);
    VarintRoundTrip(pre + z, |r.literals|, r.literals + post);
    UnpackStep(pre + Record(r) + post, |pre|, out, r.zeros, |pre| + |z|, |r.literals|, |pre| + |z| + |l|);
  }

  lemma UnpackStep(p: seq<Byte>, at: nat, out: seq<Byte>, zeros: nat, a: nat, literals: nat, b: nat)
    requires Unvarint(p, at) == Some((zeros, a)) && Unvarint(p, a) == Some((literals, b))
    requires at < b && b + literals <= |p| && |out| + zeros <= MAX_BODY
    ensures UnpackFrom(p, at, out) == UnpackFrom(p, b + literals, out + Zeros(zeros) + p[b..b + literals])
  {
    hide Unvarint;
  }

  /** What is packed reads back as the zeros and literals it was packed from. */
  lemma {:induction false} PackedReadsBack(pre: seq<Byte>, runs: seq<Run>, out: seq<Byte>)
    requires |out| + |Bodies(runs)| <= MAX_BODY
    ensures UnpackFrom(pre + Packed(runs), |pre|, out) == Some(out + Bodies(runs))
    decreases |runs|
  {
    hide Record, UnpackFrom, Packed, Bodies;
    if runs == [] {
      NothingReadsBack(pre, out);
    } else {
      var r, rest := runs[0], runs[1..];
      RunParts(pre, runs, out);
      RecordReads(pre, r, Packed(rest), out);
      PackedReadsBack(pre + Record(r), rest, out + Zeros(r.zeros) + r.literals);
    }
  }

  lemma NothingReadsBack(pre: seq<Byte>, out: seq<Byte>)
    ensures UnpackFrom(pre + Packed([]), |pre|, out) == Some(out + Bodies([]))
  {
    assert pre + Packed([]) == pre && out + Bodies([]) == out;
  }

  lemma RunParts(pre: seq<Byte>, runs: seq<Run>, out: seq<Byte>)
    requires runs != []
    ensures var r, rest := runs[0], runs[1..];
            && pre + Packed(runs) == (pre + Record(r)) + Packed(rest) && |pre + Record(r)| == |pre| + |Record(r)|
            && out + Bodies(runs) == (out + Zeros(r.zeros) + r.literals) + Bodies(rest)
            && |Bodies(runs)| == r.zeros + |r.literals| + |Bodies(rest)|
  {
    var r, rest := runs[0], runs[1..];
    assert Packed(runs) == Record(r) + Packed(rest) && Bodies(runs) == Zeros(r.zeros) + r.literals + Bodies(rest);
    hide Record, Packed, Bodies, Zeros;
    Joined(pre, Record(r), Packed(rest));
    Joined(Zeros(r.zeros), r.literals, Bodies(rest));
    Joined(out, Zeros(r.zeros), r.literals + Bodies(rest));
    Joined(out + Zeros(r.zeros), r.literals, Bodies(rest));
  }

  lemma Joined(a: seq<Byte>, b: seq<Byte>, c: seq<Byte>)
    ensures a + (b + c) == (a + b) + c
  {
  }

  lemma {:induction false} RunsCover(raw: seq<Byte>, i: nat)
    requires i <= |raw|
    ensures Bodies(Runs(raw, i)) == raw[i..]
    decreases |raw| - i
  {
    hide ZeroRun, LiteralEnd, Runs, Bodies, Packed;
    if i == |raw| {
      NoRunsLeft(raw);
    } else {
      RunsStep(raw, i);
      var s := i + ZeroRun(raw, i);
      var e := LiteralEnd(raw, s);
      RunsCover(raw, e);
      PackedStep(Run(s - i, raw[s..e]), Runs(raw, e));
      assert Bodies(Runs(raw, i)) == Zeros(s - i) + raw[s..e] + raw[e..];
      ThreeParts(raw, i, s, e);
    }
  }

  lemma ThreeParts(raw: seq<Byte>, i: nat, s: nat, e: nat)
    requires i <= s <= e <= |raw| && forall k :: i <= k < s ==> raw[k] == 0
    ensures Zeros(s - i) + raw[s..e] + raw[e..] == raw[i..]
  {
    assert Zeros(s - i) == raw[i..s];
    assert raw[i..s] + raw[s..e] == raw[i..e];
  }

  /** Every body unpacks to itself. */
  lemma RoundTrip(raw: seq<Byte>)
    requires |raw| <= MAX_BODY
    ensures UnpackFrom(Packed(Runs(raw, 0)), 0, []) == Some(raw)
  {
    hide Runs, Packed, UnpackFrom, Bodies;
    RunsCover(raw, 0);
    assert raw[0..] == raw;
    PackedReadsBack([], Runs(raw, 0), []);
    assert [] + Packed(Runs(raw, 0)) == Packed(Runs(raw, 0));
    assert [] + Bodies(Runs(raw, 0)) == Bodies(Runs(raw, 0));
  }

  // ---- How well it packs ----

  ghost predicate NoFourZeros(s: seq<Byte>) {
    forall j {:trigger s[j]} :: 0 <= j && j + 4 <= |s| ==> s[j] != 0 || s[j + 1] != 0 || s[j + 2] != 0 || s[j + 3] != 0
  }

  lemma {:induction false} LiteralsBroken(raw: seq<Byte>, i: nat, j: nat)
    requires i <= j && i <= |raw| && j + 4 <= LiteralEnd(raw, i)
    ensures raw[j] != 0 || raw[j + 1] != 0 || raw[j + 2] != 0 || raw[j + 3] != 0
    decreases |raw| - i
  {
    if i < |raw| {
      if raw[i] != 0 {
        if j > i {
          LiteralsBroken(raw, i + 1, j);
        }
      } else {
        var run := ZeroRun(raw, i);
        if j >= i + run {
          LiteralsBroken(raw, i + run, j);
        } else {
          assert raw[i + run] != 0 && j < i + run <= j + 3;
        }
      }
    }
  }

  /** No run of literals holds four zeros together, and every run but the first begins with four. */
  ghost predicate Tight(runs: seq<Run>) {
    && (forall k :: 0 <= k < |runs| ==> NoFourZeros(runs[k].literals))
    && (forall k :: 0 < k < |runs| ==> runs[k].zeros >= MIN_ZERO_RUN)
  }

  lemma TightAhead(r: Run, rest: seq<Run>)
    requires Tight(rest) && NoFourZeros(r.literals) && (rest != [] ==> rest[0].zeros >= MIN_ZERO_RUN)
    ensures Tight([r] + rest)
  {
    hide NoFourZeros;
  }

  lemma {:induction false} RunsAreTight(raw: seq<Byte>, i: nat)
    requires i <= |raw|
    ensures Tight(Runs(raw, i))
    ensures i < |raw| ==> Runs(raw, i) != [] && Runs(raw, i)[0].zeros == ZeroRun(raw, i)
    decreases |raw| - i
  {
    hide ZeroRun, LiteralEnd, Runs, Tight, NoFourZeros;
    NoRunsLeft(raw);
    if i < |raw| {
      RunsStep(raw, i);
      var s := i + ZeroRun(raw, i);
      var e := LiteralEnd(raw, s);
      RunsAreTight(raw, e);
      LiteralsTight(raw, s);
      TightAhead(Run(s - i, raw[s..e]), Runs(raw, e));
    }
  }

  lemma NoRunsLeft(raw: seq<Byte>)
    ensures Runs(raw, |raw|) == [] && Bodies([]) == [] && Tight([])
  {
  }

  lemma LiteralsTight(raw: seq<Byte>, s: nat)
    requires s <= |raw|
    ensures NoFourZeros(raw[s..LiteralEnd(raw, s)])
  {
    hide LiteralEnd;
    var e := LiteralEnd(raw, s);
    forall j | 0 <= j && j + 4 <= e - s
      ensures raw[s..e][j] != 0 || raw[s..e][j + 1] != 0 || raw[s..e][j + 2] != 0 || raw[s..e][j + 3] != 0
    {
      LiteralsBroken(raw, s, s + j);
    }
  }

  lemma VarintLength(v: nat)
    requires v < 0x20_0000
    ensures |Varint(v)| <= 3 && (v < 128 ==> |Varint(v)| == 1)
  {
    if v >= 128 {
      assert Varint(v) == [v % 128 + 128] + Varint(v / 128);
      if v / 128 >= 128 {
        assert Varint(v / 128) == [v / 128 % 128 + 128] + Varint(v / 128 / 128);
      }
    }
  }

  /** Runs that begin with four zeros pack into no more than they hold. */
  lemma {:induction false} TightRunsShrink(runs: seq<Run>)
    requires |Bodies(runs)| < 0x20_0000 && forall k :: 0 <= k < |runs| ==> runs[k].zeros >= MIN_ZERO_RUN
    ensures |Packed(runs)| <= |Bodies(runs)|
  {
    if runs != [] {
      VarintLength(runs[0].zeros);
      VarintLength(|runs[0].literals|);
      TightRunsShrink(runs[1..]);
    }
  }

  /** Packing adds at most four bytes to a body under two megabytes. */
  lemma PackedSize(raw: seq<Byte>)
    requires |raw| < 0x20_0000
    ensures |Packed(Runs(raw, 0))| <= |raw| + 4
  {
    RunsCover(raw, 0);
    RunsAreTight(raw, 0);
    var runs := Runs(raw, 0);
    if runs != [] {
      VarintLength(runs[0].zeros);
      VarintLength(|runs[0].literals|);
      TightRunsShrink(runs[1..]);
    }
  }
}
