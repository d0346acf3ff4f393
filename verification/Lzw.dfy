/** GIF's variable-width LZW: the encoder the recorder writes frames with, and the decoder of
    the GIF89a specification (Appendix F) that must read them back. */
module Lzw {
  import opened Netlist
  import opened BitStream

  // ---- The decoder ----

  const MAX_CODES: nat := 4096
  const MAX_WIDTH: nat := 12

  function ClearCode(min: nat): nat { Pow2(min) }

  function EndCode(min: nat): nat { Pow2(min) + 1 }

  /** The strings of a cleared table: each pixel its own code, then the two control codes. */
  function Literals(min: nat): (t: seq<seq<nat>>)
    ensures |t| == Pow2(min) + 2
    ensures forall c :: 0 <= c < Pow2(min) ==> t[c] == [c]
  {
    seq(Pow2(min), c => [c]) + [[], []]
  }

  function First(s: seq<nat>): nat { if s == [] then 0 else s[0] }

  /** A decoder: the width it reads codes at, the string of each code it knows, the code before,
      and the pixels so far. */
  datatype Decoder = Decoder(min: nat, width: nat, table: seq<seq<nat>>, prev: Option<nat>, out: seq<nat>)

  function Initial(min: nat): Decoder {
    Decoder(min, min + 1, Literals(min), None, [])
  }

  /** A code read.  With a code before it, the table gains that code's string and the first
      pixel of this one's, which may be the very entry gained; the width follows the table to
      12 bits; a clear starts the table over. */
  function Read(d: Decoder, code: nat): Option<Decoder> {
    if code == ClearCode(d.min) then
      Some(d.(width := d.min + 1, table := Literals(d.min), prev := None))
    else match d.prev
      case None =>
        if code < ClearCode(d.min) && code < |d.table| then Some(d.(prev := Some(code), out := d.out + d.table[code])) else None
      case Some(q) =>
        if code == EndCode(d.min) || code > |d.table| || q >= |d.table| || (code == |d.table| && code >= MAX_CODES) then None
        else
          var s := if code < |d.table| then d.table[code] else d.table[q] + [First(d.table[q])];
          var table := if |d.table| < MAX_CODES then d.table + [d.table[q] + [First(s)]] else d.table;
          var width := if |table| == Pow2(d.width) && d.width < MAX_WIDTH then d.width + 1 else d.width;
          Some(d.(width := width, table := table, prev := Some(code), out := d.out + s))
  }

  /** Codes read until `count` pixels are out: the decoder then, and the bits left. */
  function Decode(d: Decoder, bits: Bits, count: nat): Option<(Decoder, Bits)>
    decreases |bits|
  {
    if |d.out| >= count then Some((d, bits))
    else if |bits| < d.width || d.width == 0 then None
    else match Read(d, ValueOf(bits[..d.width]))
      case None => None
      case Some(d') => Decode(d', bits[d.width..], count)
  }

  /** The bits are whole codes that take `d` to `d'`. */
  ghost predicate RunsTo(d: Decoder, bits: Bits, d': Decoder)
    decreases |bits|
  {
    if bits == [] then d == d'
    else
      && 0 < d.width <= |bits|
      && Read(d, ValueOf(bits[..d.width])).Some?
      && RunsTo(Read(d, ValueOf(bits[..d.width])).value, bits[d.width..], d')
  }

  lemma RunsCode(d: Decoder, code: nat)
    requires 0 < d.width && code < Pow2(d.width) && Read(d, code).Some?
    ensures RunsTo(d, BitsOf(code, d.width), Read(d, code).value)
  {
    var bits := BitsOf(code, d.width);
    ValueOfBits(code, d.width);
    assert bits[..d.width] == bits && bits[d.width..] == [];
  }

  lemma {:induction false} RunsOn(a: Decoder, x: Bits, b: Decoder, y: Bits, c: Decoder)
    requires RunsTo(a, x, b) && RunsTo(b, y, c)
    ensures RunsTo(a, x + y, c)
    decreases |x|
  {
    if x == [] {
      assert x + y == y;
    } else {
      var w := a.width;
      assert (x + y)[..w] == x[..w] && (x + y)[w..] == x[w..] + y;
      RunsOn(Read(a, ValueOf(x[..w])).value, x[w..], b, y, c);
    }
  }

  lemma {:induction false} RunGrows(d: Decoder, bits: Bits, d': Decoder)
    requires RunsTo(d, bits, d')
    ensures |d.out| <= |d'.out|
    decreases |bits|
  {
    if bits != [] {
      RunGrows(Read(d, ValueOf(bits[..d.width])).value, bits[d.width..], d');
    }
  }

  /** Decoding goes through whole codes until the pixels are out. */
  lemma {:induction false} DecodeRuns(d: Decoder, x: Bits, d': Decoder, rest: Bits, count: nat)
    requires RunsTo(d, x, d') && |d'.out| < count
    ensures Decode(d, x + rest, count) == Decode(d', rest, count)
    decreases |x|
  {
    RunGrows(d, x, d');
    if x == [] {
      assert x + rest == rest;
    } else {
      var w := d.width;
      assert (x + rest)[..w] == x[..w] && (x + rest)[w..] == x[w..] + rest;
      DecodeRuns(Read(d, ValueOf(x[..w])).value, x[w..], d', rest, count);
    }
  }

  // ---- The two tables in step ----

  /** The encoder's codes, as strings, `cur` the one it stands at, and the decoder one entry
      behind them: the last is the code before and the first pixel of the one to come. */
  ghost predicate Synced(min: nat, strs: seq<seq<nat>>, cur: nat, width: nat, d: Decoder) {
    && 2 <= min <= 11 && min + 1 <= width <= MAX_WIDTH
    && Pow2(min) + 2 <= |strs| <= MAX_CODES && |strs| <= Pow2(width)
    && strs[..Pow2(min) + 2] == Literals(min)
    && cur < |strs| && strs[cur] != []
    && d.min == min && d.width == width
    && match d.prev
       case None => d.table == strs && |strs| == Pow2(min) + 2 && width == min + 1
       case Some(q) =>
         && |strs| == |d.table| + 1 && d.table == strs[..|d.table|] && |d.table| >= Pow2(min) + 2
         && q < |d.table| && strs[q] != [] && strs[|d.table|] == strs[q] + [First(strs[cur])]
  }

  /** `cur` has pixels, so it is no control code. */
  lemma NoControl(min: nat, strs: seq<seq<nat>>, cur: nat, width: nat, d: Decoder)
    requires Synced(min, strs, cur, width, d)
    ensures cur != ClearCode(min) && cur != EndCode(min) && cur < Pow2(width)
    ensures |strs| == Pow2(min) + 2 ==> cur < ClearCode(min)
  {
    assert Literals(min)[Pow2(min)] == [] && Literals(min)[Pow2(min) + 1] == [];
    assert cur < Pow2(min) + 2 ==> strs[cur] == strs[..Pow2(min) + 2][cur];
  }

  /** The code emitted is read as its string, and the decoder's table catches up. */
  ghost predicate Emits(strs: seq<seq<nat>>, cur: nat, d: Decoder, d': Decoder)
    requires cur < |strs|
  {
    && Read(d, cur) == Some(d')
    && d'.out == d.out + strs[cur] && d'.table == strs && d'.prev == Some(cur) && d'.min == d.min
    && d'.width == if |strs| == Pow2(d.width) && d.width < MAX_WIDTH then d.width + 1 else d.width
  }

  lemma EmitsFirst(min: nat, strs: seq<seq<nat>>, cur: nat, width: nat, d: Decoder)
    requires Synced(min, strs, cur, width, d) && d.prev == None
    ensures Read(d, cur).Some? && Emits(strs, cur, d, Read(d, cur).value)
  {
    NoControl(min, strs, cur, width, d);
    PowNext(min);
    PowGrows(2, min);
    SmallPowers();
  }

  lemma EmitsNext(min: nat, strs: seq<seq<nat>>, cur: nat, width: nat, d: Decoder)
    requires Synced(min, strs, cur, width, d) && d.prev.Some?
    ensures Read(d, cur).Some? && Emits(strs, cur, d, Read(d, cur).value)
  {
    NoControl(min, strs, cur, width, d);
    hide Pow2, Literals;
    var q := d.prev.value;
    assert strs == strs[..|d.table|] + [strs[|d.table|]];
    if cur == |d.table| {
      assert strs[cur] == strs[q] + [First(strs[cur])] && First(strs[cur]) == First(strs[q]);
    }
  }

  lemma EmitsString(min: nat, strs: seq<seq<nat>>, cur: nat, width: nat, d: Decoder) returns (d': Decoder)
    requires Synced(min, strs, cur, width, d)
    ensures cur < Pow2(width) && cur < |strs| && Emits(strs, cur, d, d') && RunsTo(d, BitsOf(cur, width), d')
  {
    NoControl(min, strs, cur, width, d);
    if d.prev.None? { EmitsFirst(min, strs, cur, width, d); } else { EmitsNext(min, strs, cur, width, d); }
    d' := Read(d, cur).value;
    hide Read, RunsTo, Pow2;
    RunsCode(d, cur);
  }

  /** With room, the encoder's new entry puts it one ahead again. */
  lemma Extends(min: nat, strs: seq<seq<nat>>, cur: nat, width: nat, d: Decoder, p: nat)
    requires Synced(min, strs, cur, width, d) && |strs| < MAX_CODES && p < Pow2(min)
    requires d.prev == None ==> cur < Pow2(min)
    ensures Read(d, cur).Some?
    ensures var width' := if |strs| + 1 > Pow2(width) && width < MAX_WIDTH then width + 1 else width;
            Synced(min, strs + [strs[cur] + [p]], p, width', Read(d, cur).value)
  {
    var d' := EmitsString(min, strs, cur, width, d);
    SmallPowers();
    PowNext(width);
    LiteralsStay(min, strs, strs[cur] + [p], p);
    hide Read, RunsTo, Literals, Pow2;
    var strs' := strs + [strs[cur] + [p]];
    assert strs'[..|strs|] == strs;
  }

  lemma LiteralsStay(min: nat, strs: seq<seq<nat>>, more: seq<nat>, p: nat)
    requires |strs| >= Pow2(min) + 2 && strs[..Pow2(min) + 2] == Literals(min) && p < Pow2(min)
    ensures strs[p] == [p] == (strs + [more])[p] && (strs + [more])[..Pow2(min) + 2] == Literals(min)
  {
    assert strs[..Pow2(min) + 2][p] == strs[p];
  }

  /** A full table is cleared at the widest code. */
  lemma Restarts(min: nat, strs: seq<seq<nat>>, cur: nat, width: nat, d: Decoder, p: nat)
    requires Synced(min, strs, cur, width, d) && |strs| == MAX_CODES && p < Pow2(min)
    ensures width == MAX_WIDTH && ClearCode(min) < Pow2(width) && Read(d, cur).Some? && Read(d, cur).value.width == width
    ensures Read(Read(d, cur).value, ClearCode(min)).Some?
    ensures var d'' := Read(Read(d, cur).value, ClearCode(min)).value;
            Synced(min, Literals(min), p, min + 1, d'') && d''.out == d.out + strs[cur]
  {
    var d' := EmitsString(min, strs, cur, width, d);
    SmallPowers();
    PowGrows(if width < 11 then width else 11, 11);
    PowGrows(min, 11);
    Starting(min, p, d'.out);
  }

  /** A cleared table and a first pixel. */
  lemma Starting(min: nat, p: nat, out: seq<nat>)
    requires 2 <= min <= 11 && p < Pow2(min)
    ensures Synced(min, Literals(min), p, min + 1, Decoder(min, min + 1, Literals(min), None, out))
  {
    PowGrows(2, min);
    PowGrows(min, 11);
    SmallPowers();
    PowNext(min);
    hide Pow2;
    assert Literals(min)[..Pow2(min) + 2] == Literals(min);
  }

  // ---- The encoder ----

  const NONE: nat := 0xFFFF

  /** The table is the codes' tries: an entry is the code whose string is one pixel longer. */
  ghost predicate Tries(table: array2<nat>, n: nat, strs: seq<seq<nat>>)
    reads table
  {
    && table.Length0 == MAX_CODES && table.Length1 == n && |strs| <= MAX_CODES
    && forall c, p :: 0 <= c < MAX_CODES && 0 <= p < n && table[c, p] != NONE ==>
         c < |strs| && table[c, p] < |strs| && strs[table[c, p]] == strs[c] + [p]
  }

  /** A longer string with the same first pixel. */
  lemma Follows(min: nat, strs: seq<seq<nat>>, cur: nat, width: nat, d: Decoder, child: nat, p: nat)
    requires Synced(min, strs, cur, width, d) && child < |strs| && strs[child] == strs[cur] + [p]
    ensures Synced(min, strs, child, width, d)
  {
  }

  /** The table cleared, row by row. */
  method ClearTable(table: array2<nat>)
    modifies table
    ensures forall c, p :: 0 <= c < table.Length0 && 0 <= p < table.Length1 ==> table[c, p] == NONE
  {
    for c := 0 to table.Length0
      invariant forall k, p :: 0 <= k < c && 0 <= p < table.Length1 ==> table[k, p] == NONE
    {
      for p := 0 to table.Length1
        invariant forall k, q :: 0 <= k < c && 0 <= q < table.Length1 ==> table[k, q] == NONE
        invariant forall q :: 0 <= q < p ==> table[c, q] == NONE
      {
        table[c, p] := NONE;
      }
    }
  }

  /** A new entry continues the tries. */
  method Enter(table: array2<nat>, n: nat, cur: nat, p: nat, next: nat, ghost strs: seq<seq<nat>>)
    requires Tries(table, n, strs) && next == |strs| < MAX_CODES && cur < |strs| && p < n
    modifies table
    ensures Tries(table, n, strs + [strs[cur] + [p]])
  {
    table[cur, p] := next;
  }

  /** What the encoder's loop keeps: the bits written take the decoder as far as the string
      the encoder stands at. */
  ghost predicate Encoding(min: nat, strs: seq<seq<nat>>, cur: nat, width: nat, d: Decoder, written: Bits, seen: seq<nat>) {
    && Synced(min, strs, cur, width, d)
    && RunsTo(Initial(min), written, d)
    && d.out + strs[cur] == seen
  }

  lemma EncodingFollows(min: nat, strs: seq<seq<nat>>, cur: nat, width: nat, d: Decoder, written: Bits, seen: seq<nat>, child: nat, p: nat)
    requires Encoding(min, strs, cur, width, d, written, seen) && child < |strs| && strs[child] == strs[cur] + [p]
    ensures Encoding(min, strs, child, width, d, written, seen + [p])
  {
    Follows(min, strs, cur, width, d, child, p);
    assert d.out + strs[child] == d.out + strs[cur] + [p];
  }

  lemma EncodingExtends(min: nat, strs: seq<seq<nat>>, cur: nat, width: nat, d: Decoder, written: Bits, seen: seq<nat>, p: nat)
    requires Encoding(min, strs, cur, width, d, written, seen) && |strs| < MAX_CODES && p < Pow2(min)
    ensures cur < |strs| && cur < Pow2(width) && Read(d, cur).Some?
    ensures var width' := if |strs| + 1 > Pow2(width) && width < MAX_WIDTH then width + 1 else width;
            Encoding(min, strs + [strs[cur] + [p]], p, width', Read(d, cur).value, written + BitsOf(cur, width), seen + [p])
  {
    NoControl(min, strs, cur, width, d);
    var d' := EmitsString(min, strs, cur, width, d);
    Extends(min, strs, cur, width, d, p);
    RunsOn(Initial(min), written, d, BitsOf(cur, width), d');
    LiteralsStay(min, strs, strs[cur] + [p], p);
  }

  lemma EncodingRestarts(min: nat, strs: seq<seq<nat>>, cur: nat, width: nat, d: Decoder, written: Bits, seen: seq<nat>, p: nat)
    requires Encoding(min, strs, cur, width, d, written, seen) && |strs| == MAX_CODES && p < Pow2(min)
    ensures cur < Pow2(width) && ClearCode(min) < Pow2(width) && Read(d, cur).Some? && Read(Read(d, cur).value, ClearCode(min)).Some?
    ensures Encoding(min, Literals(min), p, min + 1, Read(Read(d, cur).value, ClearCode(min)).value,
                     written + BitsOf(cur, width) + BitsOf(ClearCode(min), width), seen + [p])
  {
    var d' := EmitsString(min, strs, cur, width, d);
    Restarts(min, strs, cur, width, d, p);
    RunsCode(d', ClearCode(min));
    RunsOn(Initial(min), written, d, BitsOf(cur, width), d');
    RunsOn(Initial(min), written + BitsOf(cur, width), d', BitsOf(ClearCode(min), width), Read(d', ClearCode(min)).value);
    assert Literals(min)[p] == [p];
  }

  lemma EncodingStarts(min: nat, p: nat)
    requires 2 <= min <= 11 && p < Pow2(min)
    ensures ClearCode(min) < Pow2(min + 1)
    ensures Encoding(min, Literals(min), p, min + 1, Initial(min), BitsOf(ClearCode(min), min + 1), [p])
  {
    Starting(min, p, []);
    assert Pow2(min + 1) == 2 * Pow2(min);
    RunsCode(Initial(min), ClearCode(min));
    assert Literals(min)[p] == [p];
    assert Initial(min).out + [p] == [p];
  }

  /** What a decoder reads of the whole stream: the pixels, and then the end code, or too few
      bits for any code.  (The end code is written at the encoder's width, a bit below the
      decoder's when the last code filled its width.) */
  ghost predicate ReadsBack(min: nat, bytes: seq<Byte>, pixels: seq<nat>) {
    match Decode(Initial(min), BytesBits(bytes), |pixels|)
    case None => false
    case Some((d, rest)) =>
      && d.out == pixels
      && (pixels != [] ==> |rest| < d.width || ValueOf(rest[..d.width]) == EndCode(min))
  }

  /** A code followed by padding is the code, read a bit wider. */
  lemma ReadWider(code: nat, width: nat, k: nat)
    requires code < Pow2(width) && k > 0
    ensures ValueOf((BitsOf(code, width) + BitsOf(0, k))[..width + 1]) == code
  {
    BitsJoin(code, width, 0, 1);
    assert code + 0 * Pow2(width) == code;
    assert BitsOf(0, 1) == [false] == BitsOf(0, k)[..1];
    hide BitsOf;
    assert (BitsOf(code, width) + BitsOf(0, k))[..width + 1] == BitsOf(code, width) + BitsOf(0, 1);
    PowGrows(width, width + 1);
    ValueOfBits(code, width + 1);
  }

  /** The end code and the padding, read at the width it was written or a bit wider. */
  lemma ReadsEnd(min: nat, width: nat, k: nat, wider: nat)
    requires EndCode(min) < Pow2(width) && width <= wider <= width + 1
    ensures var tail := BitsOf(EndCode(min), width) + BitsOf(0, k);
            |tail| < wider || ValueOf(tail[..wider]) == EndCode(min)
  {
    hide BitsOf, ValueOf, Pow2;
    var e := EndCode(min);
    var tail := BitsOf(e, width) + BitsOf(0, k);
    if wider == width {
      ValueOfBits(e, width);
      assert tail[..wider] == BitsOf(e, width);
    } else if k > 0 {
      ReadWider(e, width, k);
    }
  }

  /** The last code and the end code are put, and the whole reads back. */
  lemma EncodingEnds(min: nat, strs: seq<seq<nat>>, cur: nat, width: nat, d: Decoder, written: Bits, pixels: seq<nat>, k: nat, bytes: seq<Byte>)
    requires Encoding(min, strs, cur, width, d, written, pixels)
    requires BytesBits(bytes) == written + BitsOf(cur, width) + BitsOf(EndCode(min), width) + BitsOf(0, k)
    ensures ReadsBack(min, bytes, pixels)
  {
    hide Synced, Read, Literals, BitsOf, Decode, RunsTo, Pow2, BytesBits;
    SyncedFacts(min, strs, cur, width, d);
    var d' := EmitsString(min, strs, cur, width, d);
    EndFits(min, width);
    var tail := BitsOf(EndCode(min), width) + BitsOf(0, k);
    assert BytesBits(bytes) == written + (BitsOf(cur, width) + tail);
    DecodeRuns(Initial(min), written, d, BitsOf(cur, width) + tail, |pixels|);
    LastCode(d, cur, d', tail, |pixels|);
    ReadsEnd(min, width, k, d'.width);
  }

  lemma SyncedFacts(min: nat, strs: seq<seq<nat>>, cur: nat, width: nat, d: Decoder)
    requires Synced(min, strs, cur, width, d)
    ensures 2 <= min <= 11 && min + 1 <= width <= MAX_WIDTH && |strs| <= MAX_CODES
    ensures cur < |strs| && strs[cur] != [] && d.min == min && d.width == width
  {
  }

  lemma LastCode(d: Decoder, code: nat, d': Decoder, tail: Bits, count: nat)
    requires 0 < d.width && code < Pow2(d.width) && Read(d, code) == Some(d') && |d.out| < count <= |d'.out|
    ensures Decode(d, BitsOf(code, d.width) + tail, count) == Some((d', tail))
  {
    var rest := BitsOf(code, d.width) + tail;
    assert rest[..d.width] == BitsOf(code, d.width) && rest[d.width..] == tail;
    ValueOfBits(code, d.width);
  }

  lemma EndFits(min: nat, width: nat)
    requires 2 <= min && min + 1 <= width
    ensures ClearCode(min) < EndCode(min) < Pow2(width)
  {
    PowGrows(min + 1, width);
    PowGrows(2, min);
    assert Pow2(2) == 4;
  }

  /** The pixel after `seen`: a string one pixel longer if the table has it; else the string's
      code, and a new entry or, the table full, a clear. */
  method Pixel(bits: BitWriter, table: array2<nat>, n: nat, min: nat, p: nat, cur: nat, next: nat, width: nat,
               ghost strs: seq<seq<nat>>, ghost d: Decoder, ghost seen: seq<nat>)
    returns (cur': nat, next': nat, width': nat, ghost strs': seq<seq<nat>>, ghost d': Decoder)
    requires bits.Valid() && Tries(table, n, strs) && next == |strs| && p < n <= Pow2(min)
    requires Encoding(min, strs, cur, width, d, bits.Written(), seen)
    modifies bits, table
    ensures bits.Valid() && Tries(table, n, strs') && next' == |strs'|
    ensures Encoding(min, strs', cur', width', d', bits.Written(), seen + [p])
  {
    hide Encoding, Tries, Read, Literals, Pow2, BitsOf;
    ghost var written := bits.Written();
    CodesFit(min, strs, cur, width, d, written, seen);
    TrieFacts(table, n, strs, cur, p);
    var child := table[cur, p];
    if child != NONE {
      EncodingFollows(min, strs, cur, width, d, written, seen, child, p);
      return child, next, width, strs, d;
    }
    if next < MAX_CODES {
      EncodingExtends(min, strs, cur, width, d, written, seen, p);
      next', width' := Extend(bits, table, n, p, cur, next, width, strs);
      d', strs' := Read(d, cur).value, strs + [strs[cur] + [p]];
    } else {
      EncodingRestarts(min, strs, cur, width, d, written, seen, p);
      Restart(bits, table, n, min, cur, width);
      next', width' := EndCode(min) + 1, min + 1;
      d', strs' := Read(Read(d, cur).value, ClearCode(min)).value, Literals(min);
    }
    cur' := p;
  }

  /** An entry's string is one pixel longer. */
  lemma TrieFacts(table: array2<nat>, n: nat, strs: seq<seq<nat>>, c: nat, p: nat)
    requires Tries(table, n, strs) && c < |strs| && p < n
    ensures table.Length0 == MAX_CODES && table.Length1 == n && |strs| <= MAX_CODES
    ensures table[c, p] != NONE ==> table[c, p] < |strs| && strs[table[c, p]] == strs[c] + [p]
  {
  }

  /** The code, and the string one pixel longer entered under the next. */
  method Extend(bits: BitWriter, table: array2<nat>, n: nat, p: nat, cur: nat, next: nat, width: nat, ghost strs: seq<seq<nat>>)
    returns (next': nat, width': nat)
    requires bits.Valid() && Tries(table, n, strs) && next == |strs| < MAX_CODES && cur < |strs| && p < n
    requires cur < Pow2(width) && width <= MAX_WIDTH
    modifies bits, table
    ensures bits.Valid() && bits.Written() == old(bits.Written()) + BitsOf(cur, width)
    ensures Tries(table, n, strs + [strs[cur] + [p]]) && next' == next + 1
    ensures width' == if next + 1 > Pow2(width) && width < MAX_WIDTH then width + 1 else width
  {
    hide Tries, Pow2, BitsOf;
    bits.Put(cur, width);
    Enter(table, n, cur, p, next, strs);
    next' := next + 1;
    width' := if next' > Pow2(width) && width < MAX_WIDTH then width + 1 else width;
  }

  /** The table full: the code, a clear, and the table empty. */
  method Restart(bits: BitWriter, table: array2<nat>, n: nat, min: nat, cur: nat, width: nat)
    requires bits.Valid() && table.Length0 == MAX_CODES && table.Length1 == n && 2 <= min <= 11
    requires cur < Pow2(width) && ClearCode(min) < Pow2(width) && width <= MAX_WIDTH
    modifies bits, table
    ensures bits.Valid() && bits.Written() == old(bits.Written()) + BitsOf(cur, width) + BitsOf(ClearCode(min), width)
    ensures Tries(table, n, Literals(min)) && |Literals(min)| == EndCode(min) + 1
  {
    bits.Put(cur, width);
    bits.Put(ClearCode(min), width);
    ClearTable(table);
    TableCleared(table, n, min);
  }

  lemma TableCleared(table: array2<nat>, n: nat, min: nat)
    requires table.Length0 == MAX_CODES && table.Length1 == n && min <= 11
    requires forall c, p :: 0 <= c < MAX_CODES && 0 <= p < n ==> table[c, p] == NONE
    ensures Tries(table, n, Literals(min)) && |Literals(min)| == EndCode(min) + 1
  {
    PowGrows(min, 11);
    SmallPowers();
  }

  /** The pixels of a frame, coded. */
  method Encode(n: nat, pixels: seq<nat>, min: nat) returns (bytes: seq<Byte>)
    requires 2 <= min <= 11 && n <= Pow2(min)
    requires forall i :: 0 <= i < |pixels| ==> pixels[i] < n
    ensures ReadsBack(min, bytes, pixels)
  {
    hide Encoding, ReadsBack, Tries, Read, Decode, RunsTo, Literals, Synced, Pow2, BitsOf, BytesBits;
    var clear, end := ClearCode(min), EndCode(min);
    var bits := new BitWriter();
    var table := new nat[MAX_CODES, n]((c, p) => NONE);
    var next: nat, width: nat := end + 1, min + 1;
    EndFits(min, width);
    bits.Put(clear, width);
    if pixels == [] {
      bits.Put(end, width);
      bytes := bits.Finish();
      NothingReadsBack(min, bytes);
      return;
    }
    var cur := pixels[0];
    EncodingStarts(min, cur);
    TableCleared(table, n, min);
    ghost var strs, d := Literals(min), Initial(min);
    assert pixels[..1] == [cur];
    assert bits.Written() == BitsOf(clear, width);
    for i := 1 to |pixels|
      invariant bits.Valid() && fresh(bits) && fresh(table)
      invariant Tries(table, n, strs) && next == |strs|
      invariant Encoding(min, strs, cur, width, d, bits.Written(), pixels[..i])
    {
      assert pixels[..i + 1] == pixels[..i] + [pixels[i]];
      cur, next, width, strs, d := Pixel(bits, table, n, min, pixels[i], cur, next, width, strs, d, pixels[..i]);
    }
    assert pixels[..|pixels|] == pixels;
    ghost var written := bits.Written();
    CodesFit(min, strs, cur, width, d, written, pixels);
    bits.Put(cur, width);
    assert bits.Written() == written + BitsOf(cur, width);
    bits.Put(end, width);
    assert bits.Written() == written + BitsOf(cur, width) + BitsOf(end, width);
    bytes := bits.Finish();
    EncodingEnds(min, strs, cur, width, d, written, pixels, |BytesBits(bytes)| - |bits.Written()|, bytes);
  }

  lemma CodesFit(min: nat, strs: seq<seq<nat>>, cur: nat, width: nat, d: Decoder, written: Bits, seen: seq<nat>)
    requires Encoding(min, strs, cur, width, d, written, seen)
    ensures cur < |strs| <= MAX_CODES && strs[cur] != [] && 2 <= min <= 11
    ensures cur < Pow2(width) && EndCode(min) < Pow2(width) && width <= MAX_WIDTH
  {
    NoControl(min, strs, cur, width, d);
    EndFits(min, width);
  }

  lemma NothingReadsBack(min: nat, bytes: seq<Byte>)
    ensures ReadsBack(min, bytes, [])
  {
  }
}
