/** QUUX's memory cache: the tags, set by set, most recently used first. */
module LruCache {
  import opened Arithmetic
  import opened BitStream

  // ---- Its shape ----

  ghost predicate PowerOfTwo(n: nat) { exists k: nat {:trigger Pow2(k)} :: n == Pow2(k) }

  datatype CacheConfig = CacheConfig(words: nat, lineWords: nat, ways: nat) {
    /** Whether the shape is one. */
    ghost predicate Check() {
      PowerOfTwo(words) && PowerOfTwo(lineWords) && PowerOfTwo(ways) && lineWords * ways <= words
    }

    function Sets(): nat { if lineWords == 0 || ways == 0 then 0 else words / lineWords / ways }
  }

  /** A shape's sets hold its words exactly, and there is one at least. */
  lemma SetsHoldWords(c: CacheConfig)
    requires c.Check()
    ensures c.Sets() > 0 && c.lineWords > 0 && c.ways > 0 && c.Sets() * c.ways * c.lineWords == c.words
    ensures PowerOfTwo(c.Sets())
  {
    var a: nat, b: nat, d: nat :| c.words == Pow2(a) && c.lineWords == Pow2(b) && c.ways == Pow2(d);
    hide Pow2;
    PowSplit(b, d);
    if a < b + d {
      PowLess(a, b + d);
    }
    var e := a - b - d;
    PowSplit(b, d + e);
    PowSplit(d, e);
    DivExact(Pow2(d + e), Pow2(b));
    DivExact(Pow2(e), Pow2(d));
    assert Pow2(b) * Pow2(d + e) == Pow2(d + e) * Pow2(b) && Pow2(d) * Pow2(e) == Pow2(e) * Pow2(d);
    assert c.Sets() == Pow2(e);
  }

  lemma PowLess(a: nat, b: nat)
    requires a < b
    ensures Pow2(a) < Pow2(b)
  {
    if b > a + 1 {
      PowLess(a, b - 1);
    }
  }

  lemma DivExact(q: nat, b: nat)
    requires b > 0
    ensures q * b / b == q
  {
    QuotientAtMost(q * b, b, q);
    if q > 0 {
      QuotientAtMost(q * b, b, q - 1);
    }
  }

  // ---- What has been read ----

  function Without(s: seq<nat>, x: nat): (r: seq<nat>)
  {
    if s == [] then [] else if s[0] == x then s[1..] else [s[0]] + Without(s[1..], x)
  }

  /** The lines of a set that have been read, each once, the last read first. */
  function Recent(h: seq<nat>, set_: nat, sets: nat): seq<nat>
    requires sets > 0
  {
    if h == [] then []
    else
      var r := Recent(h[..|h| - 1], set_, sets);
      var last := h[|h| - 1];
      if last % sets == set_ then [last] + Without(r, last) else r
  }

  /** The other lines of its set read since a line was. */
  function Since(h: seq<nat>, line: nat, sets: nat): set<nat>
    requires sets > 0
  {
    if h == [] || h[|h| - 1] == line then {}
    else Since(h[..|h| - 1], line, sets) + if h[|h| - 1] % sets == line % sets then {h[|h| - 1]} else {}
  }

  function Cut(s: seq<nat>, n: nat): (r: seq<nat>)
    ensures |r| <= n && |r| <= |s|
  {
    if |s| <= n then s else s[..n]
  }

  ghost predicate Distinct(s: seq<nat>) { forall i, j :: 0 <= i < j < |s| ==> s[i] != s[j] }

  lemma {:induction false} WithoutAt(s: seq<nat>, x: nat, k: nat)
    requires k < |s| && s[k] == x && forall j :: 0 <= j < k ==> s[j] != x
    ensures Without(s, x) == s[..k] + s[k + 1..]
  {
    if k > 0 {
      WithoutAt(s[1..], x, k - 1);
      assert s[..k] == [s[0]] + s[1..][..k - 1] && s[1..][k - 1 + 1..] == s[k + 1..];
    }
  }

  lemma {:induction false} WithoutNone(s: seq<nat>, x: nat)
    requires x !in s
    ensures Without(s, x) == s
  {
    if s != [] {
      WithoutNone(s[1..], x);
    }
  }

  lemma AheadDistinct(x: nat, s: seq<nat>)
    requires Distinct(s) && x !in s
    ensures Distinct([x] + s)
  {
  }

  lemma {:induction false} WithoutMembers(s: seq<nat>, x: nat)
    requires Distinct(s)
    ensures Distinct(Without(s, x)) && forall y :: y in Without(s, x) <==> y in s && y != x
  {
    if s != [] {
      WithoutMembers(s[1..], x);
      assert s[0] !in s[1..];
      if s[0] != x {
        AheadDistinct(s[0], Without(s[1..], x));
      }
    }
  }

  lemma {:induction false} RecentDistinct(h: seq<nat>, set_: nat, sets: nat)
    requires sets > 0
    ensures Distinct(Recent(h, set_, sets))
    ensures forall x :: x in Recent(h, set_, sets) <==> x in h && x % sets == set_
  {
    if h != [] {
      var n := |h| - 1;
      RecentDistinct(h[..n], set_, sets);
      assert h == h[..n] + [h[n]];
      WithoutMembers(Recent(h[..n], set_, sets), h[n]);
      hide Without;
      AheadDistinct(h[n], Without(Recent(h[..n], set_, sets), h[n]));
    }
  }

  /** A line before another moved to the front leaves the other in its place; one from further on
      moves it down one. */
  lemma MovedFront(r: seq<nat>, k: nat, x: nat)
    requires Distinct(r) && k < |r| && r[k] != x
    ensures var m := [x] + Without(r, x);
            if x in r[..k] then k < |m| && m[k] == r[k] && forall y :: y in m[..k] <==> y in r[..k]
            else k + 1 < |m| && m[k + 1] == r[k] && m[..k + 1] == [x] + r[..k]
  {
    if x in r {
      var j :| 0 <= j < |r| && r[j] == x;
      WithoutAt(r, x, j);
      MovedFrom(r, k, j);
    } else {
      WithoutNone(r, x);
    }
  }

  lemma MovedFrom(r: seq<nat>, k: nat, j: nat)
    requires Distinct(r) && k < |r| && j < |r| && j != k
    ensures var m := [r[j]] + (r[..j] + r[j + 1..]);
            if j < k then m[k] == r[k] && r[j] in r[..k] && forall y :: y in m[..k] <==> y in r[..k]
            else k + 1 < |m| && r[j] !in r[..k] && m[k + 1] == r[k] && m[..k + 1] == [r[j]] + r[..k]
  {
    var m := [r[j]] + (r[..j] + r[j + 1..]);
    if j < k {
      assert m[..k] == [r[j]] + (r[..j] + r[j + 1..k]);
      assert r[..k] == r[..j] + [r[j]] + r[j + 1..k];
    }
  }

  /** The place after another line of the set is read. */
  lemma PlaceAfter(r: seq<nat>, since: set<nat>, line: nat, x: nat)
    requires Distinct(r) && |since| < |r| && r[|since|] == line != x
    requires forall y :: y in since <==> y in r[..|since|]
    ensures var m := [x] + Without(r, x);
            var k := |since + {x}|;
            k < |m| && m[k] == line && forall y :: y in since + {x} <==> y in m[..k]
  {
    hide Without;
    MovedFront(r, |since|, x);
    if x in since {
      assert since + {x} == since;
    }
  }

  /** A line's place in its set is how many others of the set have been read since. */
  lemma {:induction false} PlaceIsDistance(h: seq<nat>, line: nat, sets: nat)
    requires sets > 0 && line in h
    ensures var r := Recent(h, line % sets, sets);
            var k := |Since(h, line, sets)|;
            k < |r| && r[k] == line && forall x :: x in Since(h, line, sets) <==> x in r[..k]
  {
    hide Without, Distinct;
    var s := line % sets;
    var n := |h| - 1;
    var last := h[n];
    assert h == h[..n] + [last];
    if last != line {
      PlaceIsDistance(h[..n], line, sets);
      var was := Recent(h[..n], s, sets);
      var since := Since(h[..n], line, sets);
      if last % sets == s {
        RecentDistinct(h[..n], s, sets);
        PlaceAfter(was, since, line, last);
      }
    }
  }

  /** A read hits exactly when its line has been read before and fewer other lines of its set than
      there are ways have been read since. */
  lemma HitsExactly(h: seq<nat>, line: nat, sets: nat, ways: nat)
    requires sets > 0
    ensures line in Cut(Recent(h, line % sets, sets), ways) <==> line in h && |Since(h, line, sets)| < ways
  {
    var r := Recent(h, line % sets, sets);
    RecentDistinct(h, line % sets, sets);
    if line in h {
      PlaceIsDistance(h, line, sets);
      var k := |Since(h, line, sets)|;
      if k < ways {
        assert Cut(r, ways)[k] == line;
      }
    }
  }

  /** With as many sets, more ways never lose a hit. */
  lemma MoreWaysHit(h: seq<nat>, line: nat, sets: nat, ways: nat, more: nat)
    requires sets > 0 && ways <= more
    ensures line in Cut(Recent(h, line % sets, sets), ways) ==> line in Cut(Recent(h, line % sets, sets), more)
  {
    var r := Recent(h, line % sets, sets);
    if line in Cut(r, ways) {
      var k :| 0 <= k < |Cut(r, ways)| && Cut(r, ways)[k] == line;
      assert Cut(r, more)[k] == line;
    }
  }

  lemma InCut(r: seq<nat>, j: nat, n: nat)
    requires j < |r|
    ensures j < n ==> r[j] in Cut(r, n)
  {
    if j < n {
      assert Cut(r, n)[j] == r[j];
    }
  }

  /** A line moved to the front, or put there and the set cut, is the set as it should be. */
  lemma CutUpdated(r: seq<nat>, line: nat, ways: nat, k: nat)
    requires Distinct(r) && ways > 0
    requires if k < |Cut(r, ways)| then Cut(r, ways)[k] == line else line !in Cut(r, ways)
    ensures var s := Cut(r, ways);
            Cut([line] + Without(r, line), ways) == if k < |s| then [line] + (s[..k] + s[k + 1..]) else Cut([line] + s, ways)
  {
    if k < |Cut(r, ways)| {
      WithoutAt(r, line, k);
      CutMoved(r, k, ways);
    } else if line in r {
      var j :| 0 <= j < |r| && r[j] == line;
      InCut(r, j, ways);
      WithoutAt(r, line, j);
      CutBeyond(r, line, j, ways);
    } else {
      WithoutNone(r, line);
      CutNew(r, line, ways);
    }
    hide Without, Cut, Distinct;
  }

  lemma CutNew(r: seq<nat>, x: nat, ways: nat)
    requires ways > 0
    ensures Cut([x] + r, ways) == Cut([x] + Cut(r, ways), ways)
  {
  }

  lemma CutBeyond(r: seq<nat>, x: nat, j: nat, ways: nat)
    requires 0 < ways <= j < |r|
    ensures Cut([x] + (r[..j] + r[j + 1..]), ways) == Cut([x] + Cut(r, ways), ways)
  {
    assert ([x] + (r[..j] + r[j + 1..]))[..ways] == [x] + r[..ways - 1];
    assert ([x] + r[..ways])[..ways] == [x] + r[..ways - 1];
  }

  lemma CutMoved(r: seq<nat>, k: nat, ways: nat)
    requires ways > 0 && k < |Cut(r, ways)|
    ensures var s := Cut(r, ways);
            Cut([r[k]] + (r[..k] + r[k + 1..]), ways) == [r[k]] + (s[..k] + s[k + 1..])
  {
    if |r| > ways {
      var s := r[..ways];
      var a, b := [r[k]] + (r[..k] + r[k + 1..]), [r[k]] + (s[..k] + s[k + 1..]);
      assert |a| == |r| && |b| == ways;
      forall i | 0 <= i < ways
        ensures a[..ways][i] == b[i]
      {
        MovedAt(r, k, i);
        MovedAt(s, k, i);
      }
      hide Cut;
    }
  }

  lemma MovedAt(r: seq<nat>, k: nat, i: nat)
    requires k < |r| && i < |r|
    ensures ([r[k]] + (r[..k] + r[k + 1..]))[i] == if i == 0 then r[k] else if i <= k then r[i - 1] else r[i]
  {
  }

  // ---- The cache ----

  class Cache {
    const config: CacheConfig
    var sets: seq<seq<nat>>
    var hits: nat
    var misses: nat
    /** The lines read since everything was last dropped. */
    ghost var history: seq<nat>

    ghost predicate Valid()
      reads this
    {
      && config.Check() && config.Sets() > 0 && config.lineWords > 0 && config.ways > 0
      && |sets| == config.Sets()
      && forall s :: 0 <= s < |sets| ==> sets[s] == Cut(Recent(history, s, config.Sets()), config.ways)
    }

    constructor (config: CacheConfig)
      requires config.Check()
      ensures Valid() && this.config == config && history == [] && hits == 0 && misses == 0
    {
      SetsHoldWords(config);
      this.config, sets, hits, misses, history := config, seq(config.Sets(), _ => []), 0, 0, [];
    }

    /** Whether a word's read hit: its line was read before, and fewer others of its set than there
        are ways since. */
    method Read(phys: nat) returns (hit: bool)
      requires Valid()
      modifies this
      ensures Valid() && history == old(history) + [phys / config.lineWords]
      ensures var line := phys / config.lineWords;
              hit <==> line in old(history) && |Since(old(history), line, config.Sets())| < config.ways
      ensures hits == old(hits) + (if hit then 1 else 0) && misses == old(misses) + if hit then 0 else 1
    {
      hide Recent, Without, Since, Cut, PowerOfTwo;
      var line := phys / config.lineWords;
      var n := config.Sets();
      var set_ := line % n;
      var s := sets[set_];
      ghost var was, r := sets, Recent(history, set_, n);
      RecentDistinct(history, set_, n);
      HitsExactly(history, line, n, config.ways);
      var k := Position(s, line);
      CutUpdated(r, line, config.ways, k);
      hit := k < |s|;
      if hit {
        sets := sets[set_ := [line] + (s[..k] + s[k + 1..])];
        hits := hits + 1;
      } else {
        sets := sets[set_ := Cut([line] + s, config.ways)];
        misses := misses + 1;
      }
      ghost var h := history;
      history := history + [line];
      forall j | 0 <= j < |sets|
        ensures sets[j] == Cut(Recent(history, j, n), config.ways)
      {
        RecentRead(h, line, j, n);
      }
    }

    method Holds(phys: nat) returns (held: bool)
      requires Valid()
      ensures var line := phys / config.lineWords;
              held <==> line in history && |Since(history, line, config.Sets())| < config.ways
    {
      var line := phys / config.lineWords;
      HitsExactly(history, line, config.Sets(), config.ways);
      hide Recent, Since, Cut, PowerOfTwo;
      var s := sets[line % config.Sets()];
      var k := Position(s, line);
      held := k < |s|;
    }

    method Invalidate()
      requires Valid()
      modifies this
      ensures Valid() && history == [] && hits == old(hits) && misses == old(misses)
    {
      var cleared := sets;
      for k := 0 to |cleared|
        invariant |cleared| == |sets|
        invariant forall j :: 0 <= j < k ==> cleared[j] == []
      {
        cleared := cleared[k := []];
      }
      sets, history := cleared, [];
    }
  }

  /** Where a line is in a set, or the set's length. */
  method Position(s: seq<nat>, line: nat) returns (k: nat)
    ensures k <= |s| && (if k < |s| then s[k] == line else line !in s)
    ensures forall j :: 0 <= j < k ==> s[j] != line
  {
    k := 0;
    while k < |s| && s[k] != line
      invariant k <= |s| && forall j :: 0 <= j < k ==> s[j] != line
    {
      k := k + 1;
    }
  }

  lemma RecentRead(h: seq<nat>, line: nat, set_: nat, sets: nat)
    requires sets > 0
    ensures Recent(h + [line], set_, sets) ==
              if line % sets == set_ then [line] + Without(Recent(h, set_, sets), line) else Recent(h, set_, sets)
  {
    assert (h + [line])[..|h|] == h;
  }
}
