/** The gate evaluator, which looks again only where something may have changed. */
module Chip {
  import opened Netlist
  import opened Levelize
  import opened SweepOrder

  // ---- Counting flags ----

  function Count(s: seq<bool>): nat {
    if s == [] then 0 else (if s[0] then 1 else 0) + Count(s[1..])
  }

  lemma {:induction false} CountUpdate(s: seq<bool>, i: nat, v: bool)
    requires i < |s|
    ensures Count(s[i := v]) == Count(s) - (if s[i] then 1 else 0) + (if v then 1 else 0)
  {
    if i == 0 {
      assert s[i := v][1..] == s[1..];
    } else {
      assert s[i := v][1..] == s[1..][i - 1 := v];
      CountUpdate(s[1..], i - 1, v);
    }
  }

  lemma {:induction false} CountZero(s: seq<bool>)
    ensures Count(s) == 0 <==> forall i :: 0 <= i < |s| ==> !s[i]
  {
    if s != [] {
      CountZero(s[1..]);
      assert (forall i :: 0 <= i < |s| ==> !s[i]) <==> !s[0] && forall i :: 0 <= i < |s[1..]| ==> !s[1..][i];
    }
  }

  // ---- What the incremental machinery keeps ----

  /** A clean placed gate's cached level is what it evaluates to, if its net is one the
      evaluator resolves: on a rail or an unwired pin the gate is never evaluated. */
  ghost predicate CleanLevels<S>(b: Board<S>, dirty: seq<bool>, lv: seq<Level>, nets: seq<Level>, held: seq<S>)
    requires b.WellFormed() && |nets| == b.Nets() && |held| == b.parts && |dirty| == |lv| == |b.gates|
  {
    forall f: nat :: f < |b.gates| && !dirty[f] && b.gates[f].Placed()
      && b.gates[f].out.Some? && b.supplies[b.gates[f].out.value] == Z
      ==> lv[f] == b.Eval(f, nets, held)
  }

  /** A net whose drivers are all placed and clean. */
  ghost predicate Quiet<S>(b: Board<S>, dirty: seq<bool>, n: nat)
    requires b.WellFormed() && |dirty| == |b.gates| && n < b.Nets()
  {
    b.drivers[n] != [] && b.AllPlaced(n) && forall f: nat :: f in b.drivers[n] ==> !dirty[f]
  }

  /** A quiet net, `but` apart, is at its level. */
  ghost predicate Coherent<S>(b: Board<S>, dirty: seq<bool>, nets: seq<Level>, external: seq<Option<Driver>>,
                              held: seq<S>, but: set<nat>)
    requires b.WellFormed() && |nets| == |external| == b.Nets() && |held| == b.parts && |dirty| == |b.gates|
  {
    forall n: nat :: n < b.Nets() && n !in but && Quiet(b, dirty, n) ==> nets[n] == b.NetLevel(n, nets, external, held)
  }

  /** Moving a net keeps both, when every placed gate reading it has been marked. */
  lemma NetMoved<S>(b: Board<S>, dirty: seq<bool>, dirty': seq<bool>, lv: seq<Level>, nets: seq<Level>,
                    external: seq<Option<Driver>>, held: seq<S>, n: nat, l: Level, but: set<nat>)
    requires b.WellFormed() && |nets| == |external| == b.Nets() && |held| == b.parts
    requires |dirty| == |dirty'| == |lv| == |b.gates| && n < b.Nets()
    requires forall f :: 0 <= f < |dirty| && dirty[f] ==> dirty'[f]
    requires nets[n] == l || forall f: nat :: f < |b.gates| && b.Reads(f, n) && b.gates[f].Placed() ==> dirty'[f]
    requires CleanLevels(b, dirty, lv, nets, held)
    requires Coherent(b, dirty, nets, external, held, but)
    ensures CleanLevels(b, dirty', lv, nets[n := l], held)
    ensures Coherent(b, dirty', nets[n := l], external, held, but + {n})
  {
    if nets[n] == l {
      assert nets[n := l] == nets;
    }
    forall f: nat | f < |b.gates| && !dirty'[f] && b.gates[f].Placed()
      ensures b.Eval(f, nets[n := l], held) == b.Eval(f, nets, held)
    {
      if nets[n] != l {
        EvalAgrees(b, f, nets[n := l], nets, held);
      }
    }
    forall m: nat | m < b.Nets() && m !in but + {n} && Quiet(b, dirty', m)
      ensures nets[n := l][m] == b.NetLevel(m, nets[n := l], external, held)
    {
      assert Quiet(b, dirty, m);
      if nets[n] != l {
        NetLevelUnmoved(b, m, nets, n, l, external, held);
      }
    }
  }

  /** A placed gate's net put at its level, the gate cleaned and its readers marked. */
  lemma Resolved<S>(b: Board<S>, dirty: seq<bool>, dirty': seq<bool>, lv: seq<Level>, nets: seq<Level>,
                    external: seq<Option<Driver>>, held: seq<S>, f: nat, net: nat)
    requires b.WellFormed() && |nets| == |external| == b.Nets() && |held| == b.parts
    requires |dirty| == |dirty'| == |lv| == |b.gates| && net < b.Nets() && f < |b.gates|
    requires b.gates[f].Placed() && b.gates[f].out == Some(net)
    requires forall g :: 0 <= g < |dirty| && dirty[g] && g != f ==> dirty'[g]
    requires nets[net] == b.NetLevel(net, nets, external, held)
      || forall g: nat :: g < |b.gates| && b.Reads(g, net) && b.gates[g].Placed() ==> dirty'[g]
    requires b.supplies[net] == Z ==> lv[f] == b.Eval(f, nets, held)
    requires CleanLevels(b, dirty, lv, nets, held)
    requires Coherent(b, dirty, nets, external, held, {})
    ensures CleanLevels(b, dirty', lv, nets[net := b.NetLevel(net, nets, external, held)], held)
    ensures Coherent(b, dirty', nets[net := b.NetLevel(net, nets, external, held)], external, held, {})
  {
    var l := b.NetLevel(net, nets, external, held);
    var cleaned := dirty[f := false];
    forall n: nat | n < b.Nets() && n !in {net} && Quiet(b, cleaned, n)
      ensures nets[n] == b.NetLevel(n, nets, external, held)
    {
      assert f !in b.drivers[n];
      assert Quiet(b, dirty, n);
    }
    NetMoved(b, cleaned, dirty', lv, nets, external, held, net, l, {net});
    if Quiet(b, dirty', net) {
      if nets[net] == l {
        assert nets[net := l] == nets;
      } else {
        NetLevelUnmoved(b, net, nets, net, l, external, held);
      }
    }
  }

  /** A gate wired to no net is trusted for nothing, so it is simply cleaned. */
  lemma Unwired<S>(b: Board<S>, dirty: seq<bool>, lv: seq<Level>, nets: seq<Level>,
                   external: seq<Option<Driver>>, held: seq<S>, f: nat)
    requires b.WellFormed() && |nets| == |external| == b.Nets() && |held| == b.parts
    requires |dirty| == |lv| == |b.gates| && f < |b.gates| && b.gates[f].out == None
    requires CleanLevels(b, dirty, lv, nets, held) && Coherent(b, dirty, nets, external, held, {})
    ensures CleanLevels(b, dirty[f := false], lv, nets, held)
    ensures Coherent(b, dirty[f := false], nets, external, held, {})
  {
    forall n: nat | n < b.Nets() && Quiet(b, dirty[f := false], n)
      ensures Quiet(b, dirty, n)
    {
      assert f !in b.drivers[n];
    }
  }

  /** The lowest set bit of a word from bit `i` up. */
  function TrailingZeros(word: set<nat>, i: nat): (x: nat)
    requires exists y :: y in word && i <= y < 64
    ensures i <= x < 64 && x in word && forall y :: y in word && i <= y ==> x <= y
    decreases 64 - i
  {
    if i in word then i else TrailingZeros(word, i + 1)
  }

  function BitsBelow(n: nat): (s: set<nat>)
    ensures forall bit: nat :: bit in s <==> bit < n
  {
    if n == 0 then {} else BitsBelow(n - 1) + {n - 1}
  }

  /** With every placed gate dirty there is nothing to be wrong. */
  lemma NothingTrusted<S>(b: Board<S>, dirty: seq<bool>, lv: seq<Level>, nets: seq<Level>,
                          external: seq<Option<Driver>>, held: seq<S>)
    requires b.WellFormed() && |nets| == |external| == b.Nets() && |held| == b.parts
    requires |dirty| == |lv| == |b.gates|
    requires forall f: nat :: f < |dirty| && b.gates[f].Placed() ==> dirty[f]
    ensures CleanLevels(b, dirty, lv, nets, held) && Coherent(b, dirty, nets, external, held, {})
  {
    forall n: nat | n < b.Nets() && b.drivers[n] != []
      ensures !Quiet(b, dirty, n)
    {
      assert b.drivers[n][0] in b.drivers[n];
    }
  }

  // ---- The evaluator ----

  const SWEEP_LIMIT: nat := 64

  class Chip<S(!new)> {
    const board: Board<S>
    const order: seq<seq<nat>>
    /** The group each placed gate is in. */
    const groupOf: seq<nat>

    var nets: seq<Level>
    /** What the cables drive onto the board. */
    var external: seq<Option<Driver>>
    /** What each part holds. */
    var held: seq<S>
    var dirty: seq<bool>
    var dirtyCount: nat
    var gateLevel: seq<Level>
    /** Which groups hold a dirty gate: a 64-bit word as the set of its bits. */
    var groupDirty: seq<set<nat>>
    var unsettled: Option<seq<nat>>
    var sweeps: nat

    ghost predicate Shape()
      reads this
    {
      && board.WellFormed() && GroupIndex(board, order, groupOf)
      && |nets| == |external| == board.Nets() && |held| == board.parts
      && |dirty| == |gateLevel| == |groupOf| == |board.gates|
      && |groupDirty| == (|order| + 63) / 64
      && (forall w: nat, bit: nat :: w < |groupDirty| && bit in groupDirty[w] ==> bit < 64)
      && dirtyCount == Count(dirty)
      && (forall f: nat :: f < |dirty| && dirty[f] ==>
            board.gates[f].Placed() && groupOf[f] < |order| && f in order[groupOf[f]])
    }

    /** What a clean gate and a quiet net are trusted for. */
    ghost predicate Current(but: set<nat>)
      requires Shape()
      reads this
    {
      CleanLevels(board, dirty, gateLevel, nets, held) && Coherent(board, dirty, nets, external, held, but)
    }

    /** The gate's group has its bit set. */
    ghost predicate Flagged(f: nat)
      requires f < |groupOf| && |groupDirty| == (|order| + 63) / 64
      requires groupOf[f] < |order|
      reads this
    {
      groupOf[f] % 64 in groupDirty[groupOf[f] / 64]
    }

    ghost predicate Valid()
      reads this
    {
      && Shape()
      && (forall f: nat :: f < |dirty| && dirty[f] ==> Flagged(f))
      && Current({})
    }
    /** The chip as wired, every net unknown and every gate to be evaluated. */
    constructor (b: Board<S>, held0: seq<S>)
      requires b.WellFormed() && |held0| == b.parts
      ensures Valid() && board == b && held == held0
      ensures Levelization(board, order)
      ensures external == seq(b.Nets(), _ => None) && nets == seq(b.Nets(), _ => X)
      ensures forall f: nat :: f < |dirty| ==> (dirty[f] <==> board.gates[f].Placed())
    {
      var levels := LevelOrder(b);
      var numbers := GroupNumbers(b, levels);
      board, order, groupOf, held := b, levels, numbers, held0;
      nets, external := seq(b.Nets(), _ => X), seq(b.Nets(), _ => None);
      dirty, dirtyCount := seq(|b.gates|, _ => true), 0;
      gateLevel := seq(|b.gates|, _ => Z);
      groupDirty := seq((|levels| + 63) / 64, _ => {});
      unsettled, sweeps := None, 0;
      new;
      MarkEveryGate();
    }

    /** Marks a gate for evaluation. */
    method Soil(f: nat)
      requires Shape() && f < |board.gates|
      modifies `dirty, `dirtyCount, `groupDirty
      ensures Shape()
      ensures dirty == old(dirty)[f := old(dirty[f]) || board.gates[f].Placed()]
      ensures dirty[f] && !old(dirty[f]) ==> Flagged(f)
      ensures forall j :: 0 <= j < |groupDirty| ==> old(groupDirty[j]) <= groupDirty[j]
    {
      if !dirty[f] && board.gates[f].Placed() {
        CountUpdate(dirty, f, true);
        dirty := dirty[f := true];
        dirtyCount := dirtyCount + 1;
        var g := groupOf[f];
        groupDirty := groupDirty[g / 64 := groupDirty[g / 64] + {g % 64}];
      }
    }

    /** A gate evaluated, no longer waiting to be. */
    method CleanGate(f: nat)
      requires Shape() && f < |board.gates|
      modifies `dirty, `dirtyCount
      ensures Shape()
      ensures dirty == old(dirty)[f := false]
    {
      if dirty[f] {
        CountUpdate(dirty, f, false);
        assert 0 < dirtyCount by { CountZero(dirty); }
        dirty := dirty[f := false];
        dirtyCount := dirtyCount - 1;
      }
    }

    /** A net's level is new: whatever reads it waits to be evaluated. */
    method MarkReaders(net: nat)
      requires Shape() && net < board.Nets()
      modifies `dirty, `dirtyCount, `groupDirty
      ensures Shape()
      ensures forall f: nat :: f < |board.gates| ==>
                (dirty[f] <==> old(dirty[f]) || (board.Reads(f, net) && board.gates[f].Placed()))
      ensures forall f: nat :: f < |board.gates| && dirty[f] && !old(dirty[f]) ==> Flagged(f)
      ensures forall j :: 0 <= j < |groupDirty| ==> old(groupDirty[j]) <= groupDirty[j]
    {
      var rs := board.readers[net];
      for k := 0 to |rs|
        invariant Shape()
        invariant forall f: nat :: f < |board.gates| ==>
                    (dirty[f] <==> old(dirty[f]) || (f in rs[..k] && board.gates[f].Placed()))
        invariant forall f: nat :: f < |board.gates| && dirty[f] && !old(dirty[f]) ==> Flagged(f)
        invariant forall j :: 0 <= j < |groupDirty| ==> old(groupDirty[j]) <= groupDirty[j]
      {
        assert rs[k] in rs;
        assert rs[..k + 1] == rs[..k] + [rs[k]];
        Soil(rs[k]);
      }
      assert rs[..|rs|] == rs;
    }

    /** A net's level found again. A driver that is clean is taken at the level kept for it, and any other
        is evaluated and what it comes to kept. */
    method ResolveNet(net: nat)
      requires Shape() && net < board.Nets()
      requires CleanLevels(board, dirty, gateLevel, nets, held)
      modifies `nets, `gateLevel
      ensures Shape()
      ensures nets == old(nets)[net := board.NetLevel(net, old(nets), external, held)]
      ensures forall f: nat :: f < |board.gates| ==>
                gateLevel[f] == if board.supplies[net] == Z && f in board.drivers[net]
                                then board.Eval(f, old(nets), held) else old(gateLevel[f])
      ensures CleanLevels(board, dirty, gateLevel, old(nets), held)
    {
      hide Coherent, Quiet, GroupIndex, Feeds, Board.Eval;
      if board.supplies[net] != Z {
        nets := nets[net := board.supplies[net]];
        return;
      }
      var fs := board.drivers[net];
      var onIt: seq<Driver> := [];
      for k := 0 to |fs|
        invariant Shape() && nets == old(nets)
        invariant forall f: nat :: f < |board.gates| ==>
                    gateLevel[f] == if f in fs[..k] then board.Eval(f, nets, held) else old(gateLevel[f])
        invariant CleanLevels(board, dirty, gateLevel, nets, held)
        invariant onIt == board.Driven(fs, nets, held)[..k]
      {
        var f := fs[k];
        assert f in fs;
        assert fs[..k + 1] == fs[..k] + [f];
        var level;
        if board.gates[f].Placed() && !dirty[f] {
          level := gateLevel[f];
        } else {
          level := board.Eval(f, nets, held);
          gateLevel := gateLevel[f := level];
        }
        onIt := onIt + [Driver(level, board.gates[f].drive)];
      }
      assert fs[..|fs|] == fs;
      assert onIt == onIt + [] == board.Driven(fs, nets, held);
      if external[net].Some? {
        onIt := onIt + [external[net].value];
      }
      nets := nets[net := board.resolve(onIt)];
    }

    /** What evaluating one dirty gate leaves: `Valid` but for the flag of a gate that was
        flagged already, and only its readers marked. */
    twostate predicate Evaluated(f: nat)
      requires old(Shape()) && f < |board.gates|
      reads this
    {
      && Shape() && Current({})
      && external == old(external) && held == old(held)
      && (forall g: nat :: g < |dirty| && dirty[g] ==> (old(dirty[g]) && g != f) || Flagged(g))
      && (forall g: nat :: g < |dirty| && dirty[g] && g != f ==> old(dirty[g]) || Feeds(board, f, g))
      && (forall j :: 0 <= j < |groupDirty| ==> old(groupDirty[j]) <= groupDirty[j])
      && (forall n: nat :: n < board.Nets() && board.drivers[n] == [] ==> nets[n] == old(nets[n]))
      && (old(board.AtRest(nets, external, held)) ==> nets == old(nets) && dirty == old(dirty)[f := false])
    }

    /** Evaluating a gate moves no net but its own and cleans no gate but it. */
    twostate predicate OnlyOf(f: nat)
      requires old(Shape()) && Shape() && f < |board.gates|
      reads this
    {
      && (forall g: nat :: g < |dirty| && g != f && old(dirty[g]) ==> dirty[g])
      && (forall n: nat :: n < board.Nets() && nets[n] != old(nets[n]) ==> board.gates[f].out == Some(n))
    }

    /** The gate's net resolved and the gate cleaned, its readers not yet told. */
    method Recompute(f: nat, net: nat)
      requires Shape() && Current({}) && f < |dirty| && dirty[f] && board.gates[f].out == Some(net)
      modifies `nets, `gateLevel, `dirty, `dirtyCount
      ensures Shape() && dirty == old(dirty)[f := false]
      ensures net < |nets| == |old(nets)|
      ensures nets == old(nets)[net := board.NetLevel(net, old(nets), external, held)]
      ensures CleanLevels(board, old(dirty), gateLevel, old(nets), held)
      ensures board.supplies[net] == Z ==> gateLevel[f] == board.Eval(f, old(nets), held)
      ensures board.drivers[net] != []
      ensures old(board.AtRest(nets, external, held)) ==> nets == old(nets)
    {
      assert f in board.drivers[net];
      ResolveNet(net);
      CleanGate(f);
    }

    /** A dirty gate alone in its group, as `settle` takes it. */
    method EvaluateAlone(f: nat)
      requires Shape() && Current({}) && f < |dirty| && dirty[f]
      modifies `nets, `gateLevel, `dirty, `dirtyCount, `groupDirty
      ensures Evaluated(f) && OnlyOf(f)
      ensures dirty[f] <==> Feeds(board, f, f) && nets != old(nets)
    {
      hide CleanLevels, Coherent, Board.AtRest, Quiet, GroupIndex, Board.NetLevel, Board.Eval, Flagged;
      if board.gates[f].out == None {
        CleanGate(f);
        assert Current({}) by { Unwired(board, old(dirty), gateLevel, nets, external, held, f); }
        return;
      }
      var net := board.gates[f].out.value;
      var before := nets[net];
      Recompute(f, net);
      assert nets[net] == before ==> nets == old(nets);
      if nets[net] != before {
        MarkReaders(net);
      }
      assert Current({}) by {
        Resolved(board, old(dirty), dirty, gateLevel, old(nets), external, held, f, net);
      }
    }

    /** A dirty gate of a feedback group, as a sweep takes it: a new unknown holds the net's
        previous level and leaves the gate to the next sweep. */
    method SweepGate(f: nat) returns (changed: bool)
      requires Shape() && Current({}) && f < |dirty| && dirty[f]
      modifies `nets, `gateLevel, `dirty, `dirtyCount, `groupDirty
      ensures Evaluated(f) && OnlyOf(f)
      ensures !changed ==> nets == old(nets) && dirty == old(dirty)[f := false]
      ensures old(board.AtRest(nets, external, held)) ==> !changed
    {
      hide CleanLevels, Coherent, Board.AtRest, Quiet, GroupIndex, Board.NetLevel, Board.Eval, Flagged;
      if board.gates[f].out == None {
        CleanGate(f);
        assert Current({}) by { Unwired(board, old(dirty), gateLevel, nets, external, held, f); }
        return false;
      }
      var net := board.gates[f].out.value;
      var before := nets[net];
      Recompute(f, net);
      if nets[net] == X && before != X {
        nets := nets[net := before];
        assert nets == old(nets);
        Soil(f);
        assert dirty == old(dirty);
        return true;
      }
      changed := nets[net] != before;
      if changed {
        MarkReaders(net);
      } else {
        assert nets == old(nets);
      }
      assert Current({}) by {
        Resolved(board, old(dirty), dirty, gateLevel, old(nets), external, held, f, net);
      }
    }

    // ---- Settling ----

    ghost predicate Built() { board.WellFormed() && GroupIndex(board, order, groupOf) }

    /** A gate alone in its group that reads its own output. */
    ghost predicate FeedsItselfAlone(f: nat)
      requires Built() && f < |board.gates|
    {
      board.gates[f].Placed() && |order[groupOf[f]]| == 1 && Feeds(board, f, f)
    }

    /** The net of every such gate is at its level. */
    ghost predicate SelfFedRest()
      requires Shape()
      reads this
    {
      forall f: nat :: f < |board.gates| && FeedsItselfAlone(f) ==>
        var net := board.gates[f].out.value;
        nets[net] == board.NetLevel(net, nets, external, held)
    }

    /** Such a gate with its net to itself. */
    ghost predicate Ring(f: nat)
      requires Built() && f < |board.gates|
    {
      FeedsItselfAlone(f) && board.drivers[board.gates[f].out.value] == [f]
    }

    /** What passing groups `lo` to `hi` does to the rings, flags and nets being `d0` and `n0` and
        then `d1` and `n1`: those passed are dirty exactly when their nets moved, those before are
        as they were, and those after have their nets yet. */
    ghost predicate RingsPassed(lo: nat, hi: nat, d0: seq<bool>, n0: seq<Level>, d1: seq<bool>, n1: seq<Level>)
      requires Built() && |d0| == |d1| == |board.gates| && |n0| == |n1| == board.Nets()
    {
      forall f: nat :: f < |board.gates| && Ring(f) ==>
        var net := board.gates[f].out.value;
        if groupOf[f] < lo then d1[f] == d0[f] && n1[net] == n0[net]
        else if groupOf[f] < hi then d1[f] <==> n1[net] != n0[net]
        else n1[net] == n0[net]
    }

    lemma RingsCompose(lo: nat, mid: nat, hi: nat, d0: seq<bool>, n0: seq<Level>, d1: seq<bool>, n1: seq<Level>, d2: seq<bool>, n2: seq<Level>)
      requires Built() && |d0| == |d1| == |d2| == |board.gates| && |n0| == |n1| == |n2| == board.Nets() && lo <= mid <= hi
      requires RingsPassed(lo, mid, d0, n0, d1, n1) && RingsPassed(mid, hi, d1, n1, d2, n2)
      ensures RingsPassed(lo, hi, d0, n0, d2, n2)
    {
      hide Ring;
    }

    /** Groups past the last, or with nothing dirty, passed by with nothing done. */
    lemma RingsQuiet(lo: nat, hi: nat, d: seq<bool>, n: seq<Level>)
      requires Built() && |d| == |board.gates| && |n| == board.Nets()
      requires forall f: nat :: f < |board.gates| && d[f] && groupOf[f] < hi ==> groupOf[f] < lo
      ensures RingsPassed(lo, hi, d, n, d, n)
    {
      hide Ring;
    }

    /** Groups with nothing dirty, passed by. */
    lemma RingsSkipped(lo: nat, k: nat, d0: seq<bool>, n0: seq<Level>, d1: seq<bool>, n1: seq<Level>)
      requires Built() && |d0| == |d1| == |board.gates| && |n0| == |n1| == board.Nets() && lo <= k
      requires RingsPassed(k, k + 1, d0, n0, d1, n1)
      requires forall f: nat :: f < |board.gates| && d0[f] && groupOf[f] < k ==> groupOf[f] < lo
      ensures RingsPassed(lo, k + 1, d0, n0, d1, n1)
    {
      hide Ring;
    }

    /** Nothing done to rings of other groups than `k` but marking later ones. */
    ghost predicate RingsApart(k: nat, d0: seq<bool>, n0: seq<Level>, d1: seq<bool>, n1: seq<Level>)
      requires Built() && |d0| == |d1| == |board.gates| && |n0| == |n1| == board.Nets()
    {
      forall f: nat :: f < |board.gates| && Ring(f) && groupOf[f] != k ==>
        && n1[board.gates[f].out.value] == n0[board.gates[f].out.value]
        && (groupOf[f] < k ==> d1[f] == d0[f])
    }

    /** The only gate of group `k`, evaluated or passed by. */
    lemma RingAlone(k: nat, f: nat, d0: seq<bool>, n0: seq<Level>, d1: seq<bool>, n1: seq<Level>)
      requires Built() && |d0| == |d1| == |board.gates| && |n0| == |n1| == board.Nets()
      requires k < |order| && order[k] == [f] && f < |board.gates| && RingsApart(k, d0, n0, d1, n1)
      requires d1[f] <==> d0[f] && Feeds(board, f, f) && n1 != n0
      requires !d0[f] ==> n1 == n0
      requires forall n: nat :: n < board.Nets() && n1[n] != n0[n] ==> board.gates[f].out == Some(n)
      ensures RingsPassed(k, k + 1, d0, n0, d1, n1)
    {
      assert f in order[k];
      forall g: nat | g < |board.gates| && Ring(g) && groupOf[g] == k
        ensures g == f
      {
        assert g in order[k];
      }
    }

    /** A gate of group `k` evaluated leaves the other groups' rings be. */
    twostate lemma EvaluatedApart(f: nat)
      requires old(Shape()) && f < |board.gates| && board.gates[f].Placed() && Evaluated(f) && OnlyOf(f)
      ensures RingsApart(groupOf[f], old(dirty), old(nets), dirty, nets)
    {
      hide Current;
      forall g: nat | g < |board.gates| && Ring(g) && groupOf[g] != groupOf[f]
        ensures nets[board.gates[g].out.value] == old(nets[board.gates[g].out.value])
        ensures groupOf[g] < groupOf[f] ==> dirty[g] == old(dirty[g])
      {
        assert f in board.drivers[board.gates[g].out.value] ==> f == g;
      }
    }

    /** The gate is in the group reported unsettled, or a later one. */
    ghost predicate AfterUnsettled(f: nat)
      requires Shape() && f < |board.gates|
      reads this
    {
      unsettled.Some? && exists k :: 0 <= k <= groupOf[f] && k < |order| && unsettled == Some(order[k])
    }

    /** Every group before `pos` is at rest, but from one that did not settle on, and but for a
        gate that feeds itself. */
    ghost predicate Passed(pos: nat)
      requires Shape()
      reads this
    {
      forall f: nat :: f < |dirty| && dirty[f] && groupOf[f] < pos ==> AfterUnsettled(f) || FeedsItselfAlone(f)
    }

    /** What visiting group `k` keeps: only gates from it on are marked, and an undriven net
        never moves. */
    twostate predicate Visited(k: nat)
      requires old(Shape())
      reads this
    {
      && Shape() && Current({})
      && external == old(external) && held == old(held)
      && (forall f: nat :: f < |dirty| && dirty[f] && !old(dirty[f]) ==> groupOf[f] >= k)
      && (forall n: nat :: n < board.Nets() && board.drivers[n] == [] ==> nets[n] == old(nets[n]))
      && (old(board.AtRest(nets, external, held)) ==>
            nets == old(nets) && forall f: nat :: f < |dirty| && dirty[f] ==> old(dirty[f]))
    }

    /** Every dirty gate is flagged, or is one of `rest`. */
    ghost predicate FlaggedBut(rest: seq<nat>)
      requires Shape()
      reads this
    {
      forall f: nat :: f < |dirty| && dirty[f] ==> Flagged(f) || f in rest
    }

    /** A gate of feedback group `k`, taken if it is dirty; `rest` are those that may be unflagged yet. */
    method SweepMember(k: nat, f: nat, ghost rest: seq<nat>) returns (changed: bool)
      requires Shape() && Current({}) && k < |order| && f in order[k] && f < |dirty| && FlaggedBut([f] + rest)
      modifies `nets, `gateLevel, `dirty, `dirtyCount, `groupDirty
      ensures Visited(k) && FlaggedBut(rest) && RingsApart(k, old(dirty), old(nets), dirty, nets)
      ensures !changed ==> nets == old(nets) && dirty == old(dirty)[f := false]
      ensures old(board.AtRest(nets, external, held)) ==> !changed
    {
      hide CleanLevels, Coherent, Board.AtRest, Ring;
      changed := false;
      if dirty[f] {
        changed := SweepGate(f);
        EvaluatedApart(f);
      }
    }

    /** One sweep of feedback group `k`; `unflagged` on the first, whose gates may have lost
        their group's bit. */
    method SweepOnce(k: nat, ghost unflagged: bool) returns (changed: bool)
      requires Shape() && Current({}) && k < |order|
      requires FlaggedBut(if unflagged then order[k] else [])
      modifies `nets, `gateLevel, `dirty, `dirtyCount, `groupDirty
      ensures Visited(k) && FlaggedBut([]) && RingsApart(k, old(dirty), old(nets), dirty, nets)
      ensures !changed ==> forall f: nat :: f < |dirty| && dirty[f] ==> groupOf[f] != k
      ensures old(board.AtRest(nets, external, held)) ==> !changed
    {
      hide CleanLevels, Coherent, Board.AtRest, Ring;
      var group := order[k];
      changed := false;
      for i := 0 to |group|
        invariant Visited(k) && RingsApart(k, old(dirty), old(nets), dirty, nets)
        invariant FlaggedBut(if unflagged then group[i..] else [])
        invariant !changed ==> forall f: nat :: f < |dirty| && dirty[f] ==> f !in group[..i]
        invariant old(board.AtRest(nets, external, held)) ==> !changed
      {
        var f := group[i];
        assert f in order[k] && f < |board.gates|;
        assert group[i..] == [f] + group[i + 1..];
        assert group[..i + 1] == group[..i] + [f];
        var moved := SweepMember(k, f, if unflagged then group[i + 1..] else []);
        changed := changed || moved;
      }
      assert group[..|group|] == group;
    }

    /** Sweeps feedback group `k` until a sweep moves nothing; whether one did. */
    method Sweep(k: nat) returns (settled: bool)
      requires Shape() && Current({}) && k < |order| && FlaggedBut(order[k])
      modifies `nets, `gateLevel, `dirty, `dirtyCount, `groupDirty, `sweeps
      ensures Visited(k) && FlaggedBut([]) && RingsApart(k, old(dirty), old(nets), dirty, nets)
      ensures settled ==> forall f: nat :: f < |dirty| && dirty[f] ==> groupOf[f] != k
      ensures old(board.AtRest(nets, external, held)) ==> settled
      ensures old(sweeps) <= sweeps && (old(sweeps) <= SWEEP_LIMIT ==> sweeps <= SWEEP_LIMIT)
      ensures !settled ==> sweeps >= SWEEP_LIMIT
    {
      hide CleanLevels, Coherent, Board.AtRest, Board.WellFormed, GroupIndex, Quiet, Ring;
      settled := false;
      for sweep := 1 to SWEEP_LIMIT + 1
        invariant Visited(k) && FlaggedBut(if sweep == 1 then order[k] else []) && RingsApart(k, old(dirty), old(nets), dirty, nets)
        invariant old(sweeps) <= sweeps && sweep - 1 <= sweeps && (old(sweeps) <= SWEEP_LIMIT ==> sweeps <= SWEEP_LIMIT)
        invariant old(board.AtRest(nets, external, held)) ==> sweep == 1
      {
        sweeps := if sweeps < sweep then sweep else sweeps;
        var changed := SweepOnce(k, sweep == 1);
        if !changed {
          settled := true;
          break;
        }
      }
    }

    /** A feedback group, swept if it holds a dirty gate. */
    method VisitFeedback(k: nat)
      requires Shape() && Current({}) && k < |order| && |order[k]| != 1 && FlaggedBut(order[k]) && sweeps <= SWEEP_LIMIT
      requires ReportsFeedback(k)
      modifies `nets, `gateLevel, `dirty, `dirtyCount, `groupDirty, `sweeps, `unsettled
      ensures Visited(k) && FlaggedBut([]) && RingsApart(k, old(dirty), old(nets), dirty, nets) && sweeps <= SWEEP_LIMIT
      ensures ReportsFeedback(k + 1)
      ensures forall f: nat :: f < |dirty| && dirty[f] && groupOf[f] == k ==> AfterUnsettled(f)
      ensures old(unsettled.Some?) ==> unsettled == old(unsettled)
      ensures old(board.AtRest(nets, external, held)) ==>
                unsettled == old(unsettled) && forall f: nat :: f < |dirty| && dirty[f] ==> groupOf[f] != k
    {
      hide CleanLevels, Coherent, Board.AtRest, Quiet;
      if !exists i :: 0 <= i < |order[k]| && order[k][i] < |dirty| && dirty[order[k][i]] {
        assert forall f: nat :: f in order[k] ==> f < |dirty| && !dirty[f];
        return;
      }
      var settled := Sweep(k);
      if settled {
        groupDirty := groupDirty[k / 64 := groupDirty[k / 64] - {k % 64}];
      } else if unsettled.None? {
        unsettled := Some(order[k]);
      }
    }

    /** A gate alone in its group, evaluated if it is dirty. */
    method VisitAlone(k: nat)
      requires Shape() && Current({}) && k < |order| && |order[k]| == 1 && FlaggedBut(order[k])
      modifies `nets, `gateLevel, `dirty, `dirtyCount, `groupDirty
      ensures Visited(k) && FlaggedBut([]) && RingsPassed(k, k + 1, old(dirty), old(nets), dirty, nets)
      ensures forall f: nat :: f < |dirty| && dirty[f] && groupOf[f] == k ==> FeedsItselfAlone(f)
      ensures old(board.AtRest(nets, external, held)) ==> forall f: nat :: f < |dirty| && dirty[f] ==> groupOf[f] != k
    {
      hide CleanLevels, Coherent, Board.AtRest, Quiet, Ring, RingsPassed;
      var f := order[k][0];
      assert f in order[k] && order[k] == [f];
      if dirty[f] {
        EvaluateAlone(f);
        EvaluatedApart(f);
      }
      RingAlone(k, f, old(dirty), old(nets), dirty, nets);
    }

    /** Group `k`, whose bit `settle` has just cleared. */
    method Visit(k: nat)
      requires Shape() && Current({}) && k < |order| && FlaggedBut(order[k]) && sweeps <= SWEEP_LIMIT
      modifies `nets, `gateLevel, `dirty, `dirtyCount, `groupDirty, `sweeps, `unsettled
      ensures sweeps <= SWEEP_LIMIT
      ensures Visited(k) && FlaggedBut([]) && RingsPassed(k, k + 1, old(dirty), old(nets), dirty, nets)
      requires ReportsFeedback(k)
      ensures ReportsFeedback(k + 1)
      ensures forall f: nat :: f < |dirty| && dirty[f] && groupOf[f] == k ==> AfterUnsettled(f) || FeedsItselfAlone(f)
      ensures old(unsettled.Some?) ==> unsettled == old(unsettled)
      ensures old(board.AtRest(nets, external, held)) ==>
                unsettled == old(unsettled) && forall f: nat :: f < |dirty| && dirty[f] ==> groupOf[f] != k
    {
      hide CleanLevels, Coherent, Board.AtRest, Quiet, RingsPassed, RingsApart;
      if |order[k]| == 1 {
        VisitAlone(k);
      } else {
        VisitFeedback(k);
        NoRings(k, old(dirty), old(nets), dirty, nets);
      }
    }

    /** A feedback group holds no ring. */
    lemma NoRings(k: nat, d0: seq<bool>, n0: seq<Level>, d1: seq<bool>, n1: seq<Level>)
      requires Built() && |d0| == |d1| == |board.gates| && |n0| == |n1| == board.Nets()
      requires k < |order| && |order[k]| != 1 && RingsApart(k, d0, n0, d1, n1)
      ensures RingsPassed(k, k + 1, d0, n0, d1, n1)
    {
      assert forall g: nat :: g < |board.gates| && Ring(g) ==> groupOf[g] != k;
    }

    /** Bits not set below `bit` are groups with nothing dirty. */
    lemma NoneBelow(w: nat, passed: nat, bit: nat)
      requires Shape() && FlaggedBut([]) && w < |groupDirty| && passed <= bit <= 64
      requires forall b :: b in groupDirty[w] ==> !(passed <= b < bit)
      ensures forall f: nat :: f < |dirty| && dirty[f] && groupOf[f] < w * 64 + bit ==> groupOf[f] < w * 64 + passed
    {
      forall f: nat | f < |dirty| && dirty[f] && w * 64 + passed <= groupOf[f]
        ensures w * 64 + bit <= groupOf[f]
      {
        assert Flagged(f);
      }
    }

    /** What is reported unsettled: a feedback group visited, every sweep allowed it having
        moved a net. */
    ghost predicate ReportsFeedback(pos: nat)
      reads this
    {
      unsettled.Some? ==> sweeps == SWEEP_LIMIT && exists k :: 0 <= k < pos && k < |order| && |order[k]| > 1 && unsettled == Some(order[k])
    }

    /** Flagged group `w * 64 + bit`, the next one on, its bit cleared and the group visited. */
    method VisitBit(w: nat, passed: nat, bit: nat) returns (beyond: bool)
      requires Shape() && Current({}) && FlaggedBut([]) && Passed(w * 64 + passed) && ReportsFeedback(w * 64 + passed)
      requires w < |groupDirty| && passed <= bit < 64 && sweeps <= SWEEP_LIMIT && bit in groupDirty[w]
      requires forall f: nat :: f < |dirty| && dirty[f] && groupOf[f] < w * 64 + bit ==> groupOf[f] < w * 64 + passed
      modifies `nets, `gateLevel, `dirty, `dirtyCount, `groupDirty, `sweeps, `unsettled
      ensures sweeps <= SWEEP_LIMIT
      ensures Visited(w * 64 + bit) && FlaggedBut([]) && Passed(w * 64 + bit + 1) && ReportsFeedback(w * 64 + bit + 1)
      ensures RingsPassed(w * 64 + passed, w * 64 + bit + 1, old(dirty), old(nets), dirty, nets)
      ensures beyond ==> |order| <= w * 64 + bit + 1
      ensures old(board.AtRest(nets, external, held)) ==>
                && unsettled == old(unsettled)
                && forall f: nat :: f < |dirty| && dirty[f] && groupOf[f] < w * 64 + bit + 1 ==> groupOf[f] < w * 64 + passed
    {
      hide CleanLevels, Coherent, Board.AtRest, Board.WellFormed, Quiet, GroupIndex, RingsPassed;
      groupDirty := groupDirty[w := groupDirty[w] - {bit}];
      var k := w * 64 + bit;
      beyond := k >= |order|;
      if beyond {
        RingsQuiet(w * 64 + passed, k + 1, dirty, nets);
      } else {
        Visit(k);
        RingsSkipped(w * 64 + passed, k, old(dirty), old(nets), dirty, nets);
      }
    }

    /** The next flagged group at or after bit `passed` of word `w`, visited; or the word left
        behind when it has none. */
    method VisitNext(w: nat, passed: nat) returns (w': nat, passed': nat, beyond: bool)
      requires Shape() && Current({}) && FlaggedBut([]) && Passed(w * 64 + passed) && ReportsFeedback(w * 64 + passed)
      requires w < |groupDirty| && passed <= 64 && sweeps <= SWEEP_LIMIT
      ensures sweeps <= SWEEP_LIMIT
      modifies `nets, `gateLevel, `dirty, `dirtyCount, `groupDirty, `sweeps, `unsettled
      ensures Visited(0) && FlaggedBut([]) && Passed(w' * 64 + passed') && ReportsFeedback(w' * 64 + passed')
      ensures RingsPassed(w * 64 + passed, w' * 64 + passed', old(dirty), old(nets), dirty, nets)
      ensures (w' == w && passed < passed' <= 64) || (w' == w + 1 && passed' == 0)
      ensures beyond ==> |order| <= w' * 64 + passed'
      ensures old(board.AtRest(nets, external, held)) ==>
                && unsettled == old(unsettled)
                && forall f: nat :: f < |dirty| && dirty[f] && groupOf[f] < w' * 64 + passed'
                     ==> groupOf[f] < w * 64 + passed
    {
      hide CleanLevels, Coherent, Board.AtRest, Board.WellFormed, Quiet, GroupIndex, RingsPassed, Ring, FlaggedBut, Current, Flagged, AfterUnsettled, FeedsItselfAlone;
      var word := set bit | bit in groupDirty[w] && bit >= passed;
      assert forall b :: b in groupDirty[w] && b >= passed ==> b in word;
      if word == {} {
        NoneBelow(w, passed, 64);
        RingsQuiet(w * 64 + passed, (w + 1) * 64, dirty, nets);
        return w + 1, 0, false;
      }
      var bit := TrailingZeros(word, 0);
      NoneBelow(w, passed, bit);
      w', passed' := w, bit + 1;
      beyond := VisitBit(w, passed, bit);
    }

    /** Each ring is dirty exactly when its net is not as it was. */
    ghost predicate RingsLeft(n0: seq<Level>)
      requires Shape() && |n0| == board.Nets()
      reads this
    {
      forall f: nat :: f < |board.gates| && Ring(f) ==> (dirty[f] <==> nets[board.gates[f].out.value] != n0[board.gates[f].out.value])
    }

    /** A pass over every group done: which rings it left dirty, and when that is rest. */
    ghost predicate Settled(n0: seq<Level>)
      requires Shape() && |n0| == board.Nets()
      reads this
    {
      && RingsLeft(n0)
      && (forall f: nat :: f < |dirty| && dirty[f] ==> AfterUnsettled(f) || FeedsItselfAlone(f))
      && (unsettled.None? && (forall n: nat :: n < board.Nets() ==> board.AllPlaced(n)) ==>
            (board.AtRest(nets, external, held) <==> SelfFedRest()))
    }

    /** With nothing reported, a net not at its level has a gate on it left dirty, and that is one
        that feeds itself alone. */
    lemma RestsExactly()
      requires Valid() && forall n: nat :: n < board.Nets() ==> board.AllPlaced(n)
      requires forall f: nat :: f < |dirty| && dirty[f] ==> FeedsItselfAlone(f)
      ensures board.AtRest(nets, external, held) <==> SelfFedRest()
    {
      if SelfFedRest() {
        forall n: nat | n < board.Nets() && board.drivers[n] != []
          ensures nets[n] == board.NetLevel(n, nets, external, held)
        {
          if !Quiet(board, dirty, n) {
            assert board.AllPlaced(n);
            var f: nat :| f in board.drivers[n] && dirty[f];
            assert FeedsItselfAlone(f) && board.gates[f].out == Some(n);
          }
        }
      } else {
        forall f: nat | f < |board.gates| && FeedsItselfAlone(f)
          ensures board.drivers[board.gates[f].out.value] != []
        {
          assert f in board.drivers[board.gates[f].out.value];
        }
      }
    }

    /** Brings every net to rest: the flagged groups, a word at a time, lowest bit first. */
    method Settle()
      requires Valid()
      modifies this
      ensures Valid() && external == old(external) && held == old(held)
      ensures forall n: nat :: n < board.Nets() && board.drivers[n] == [] ==> nets[n] == old(nets[n])
      ensures Settled(old(nets)) && ReportsFeedback(|order|)
      ensures old(board.AtRest(nets, external, held)) ==> nets == old(nets) && unsettled.None? && dirtyCount == 0
    {
      hide CleanLevels, Coherent, Board.AtRest, Board.WellFormed, Board.AllPlaced, Quiet, GroupIndex, RingsPassed, RingsLeft, SelfFedRest, Feeds;
      unsettled := None;
      sweeps := 0;
      ghost var pos := PassGroups();
      CountZero(dirty);
      AllPassed(pos, old(dirty), old(nets));
      if unsettled.None? && forall n: nat :: n < board.Nets() ==> board.AllPlaced(n) {
        RestsExactly();
      }
    }

    /** The loop over the flagged groups, until nothing is dirty or flagged past `pos`. */
    method PassGroups() returns (ghost pos: nat)
      requires Shape() && Current({}) && FlaggedBut([]) && unsettled.None? && sweeps == 0
      modifies `nets, `gateLevel, `dirty, `dirtyCount, `groupDirty, `sweeps, `unsettled
      ensures Visited(0) && FlaggedBut([]) && Passed(pos) && ReportsFeedback(pos)
      ensures RingsPassed(0, pos, old(dirty), old(nets), dirty, nets)
      ensures |order| <= pos || dirtyCount == 0
      ensures old(board.AtRest(nets, external, held)) ==> unsettled.None? && forall f: nat :: f < |dirty| && dirty[f] ==> groupOf[f] >= pos
    {
      hide CleanLevels, Coherent, Board.AtRest, Board.WellFormed, Quiet, GroupIndex, RingsPassed, Current, FlaggedBut, Flagged, Feeds;
      var w, passed, beyond := 0, 0, false;
      pos := 0;
      RingsQuiet(0, 0, dirty, nets);
      while w < |groupDirty| && dirtyCount > 0 && !beyond
        invariant w <= |groupDirty| && passed <= 64 && sweeps <= SWEEP_LIMIT && pos == w * 64 + passed
        invariant Visited(0) && FlaggedBut([]) && Passed(pos) && ReportsFeedback(pos)
        invariant RingsPassed(0, pos, old(dirty), old(nets), dirty, nets)
        invariant beyond ==> |order| <= pos
        invariant old(board.AtRest(nets, external, held)) ==>
                    unsettled.None? && forall f: nat :: f < |dirty| && dirty[f] ==> groupOf[f] >= pos
        decreases |groupDirty| - w, 64 - passed
      {
        ghost var d, n, was := dirty, nets, pos;
        w, passed, beyond := VisitNext(w, passed);
        pos := w * 64 + passed;
        RingsCompose(0, was, pos, old(dirty), old(nets), d, n, dirty, nets);
      }
    }

    /** The pass over: every group passed, or nothing dirty left to pass. */
    lemma AllPassed(pos: nat, d0: seq<bool>, n0: seq<Level>)
      requires Shape() && |d0| == |board.gates| && |n0| == board.Nets()
      requires RingsPassed(0, pos, d0, n0, dirty, nets)
      requires |order| <= pos || forall f: nat :: f < |dirty| ==> !dirty[f]
      ensures RingsLeft(n0)
    {
      assert forall f: nat :: f < |board.gates| && Ring(f) ==> groupOf[f] < |order|;
    }

    // ---- What moves the board between settles ----

    lemma LastWord(n: nat)
      ensures var words := (n + 63) / 64;
              if n % 64 == 0 then words * 64 == n else words > 0 && (words - 1) * 64 + n % 64 == n
    {
    }

    method FlagEveryGroup()
      requires |groupDirty| == (|order| + 63) / 64
      modifies `groupDirty
      ensures |groupDirty| == (|order| + 63) / 64
      ensures forall w: nat, bit: nat :: w < |groupDirty| ==> (bit in groupDirty[w] <==> bit < 64 && w * 64 + bit < |order|)
    {
      var words := |groupDirty|;
      LastWord(|order|);
      groupDirty := seq(words, _ => BitsBelow(64));
      if |order| % 64 != 0 {
        groupDirty := groupDirty[words - 1 := BitsBelow(|order| % 64)];
      }
    }

    /** All of them wait to be evaluated, the count and the groups' bits to match: whatever the nets
        hold, nothing is then trusted. */
    method MarkEveryGate()
      requires board.WellFormed() && GroupIndex(board, order, groupOf)
      requires |nets| == |external| == board.Nets() && |held| == board.parts
      requires |dirty| == |gateLevel| == |board.gates| && |groupDirty| == (|order| + 63) / 64
      modifies `dirty, `dirtyCount, `groupDirty
      ensures Valid()
      ensures forall f: nat :: f < |dirty| ==> (dirty[f] <==> board.gates[f].Placed())
    {
      hide CleanLevels, Coherent, Quiet, Board.WellFormed;
      for f := 0 to |dirty|
        invariant |dirty| == |board.gates| && groupDirty == old(groupDirty)
        invariant forall g: nat :: g < f ==> (dirty[g] <==> board.gates[g].Placed())
      {
        dirty := dirty[f := board.gates[f].Placed()];
      }
      dirtyCount := CountOf(dirty);
      FlagEveryGroup();
      NothingTrusted(board, dirty, gateLevel, nets, external, held);
    }

    /** Settles from scratch, every placed gate evaluated. */
    method SettleAll()
      requires Valid()
      modifies this
      ensures Valid() && external == old(external) && held == old(held)
      ensures forall n: nat :: n < board.Nets() && board.drivers[n] == [] ==> nets[n] == old(nets[n])
      ensures Settled(old(nets)) && ReportsFeedback(|order|)
      ensures old(board.AtRest(nets, external, held)) ==> nets == old(nets) && unsettled.None? && dirtyCount == 0
    {
      hide CleanLevels, Coherent, Board.AtRest, Board.WellFormed, Board.AllPlaced, Quiet, GroupIndex, RingsPassed, SelfFedRest;
      MarkEveryGate();
      Settle();
    }

    /** What the cables put on a net changes, or lets go: the net is resolved again and
        everything reading it marked. */
    method Drive(net: nat, d: Option<Driver>)
      requires Valid() && net < board.Nets()
      modifies `external, `nets, `gateLevel, `dirty, `dirtyCount, `groupDirty
      ensures Valid() && external == old(external)[net := d]
      ensures forall n: nat :: n < board.Nets() && n != net ==> nets[n] == old(nets[n])
      ensures d != old(external[net]) ==> nets[net] == board.NetLevel(net, old(nets), external, held)
    {
      if external[net] != d {
        external := external[net := d];
        assert Coherent(board, dirty, nets, external, held, {net});
        ResolveNet(net);
        MarkReaders(net);
        NetMoved(board, old(dirty), dirty, gateLevel, old(nets), external, held, net, nets[net], {net});
        if Quiet(board, dirty, net) {
          NetLevelUnmoved(board, net, old(nets), net, nets[net], external, held);
        }
      }
    }

    /** Forces a net.  One no gate drives keeps the level; a driven one holds it only until
        its drivers are next resolved. */
    method SetNet(net: nat, level: Level)
      requires Valid() && net < board.Nets()
      modifies `nets, `dirty, `dirtyCount, `groupDirty
      ensures Shape() && FlaggedBut([]) && nets == old(nets)[net := level]
      ensures Current(if board.drivers[net] == [] then {} else {net})
    {
      if nets[net] != level {
        nets := nets[net := level];
        MarkReaders(net);
        NetMoved(board, old(dirty), dirty, gateLevel, old(nets), external, held, net, level, {});
      }
    }

    /** A part now holds `value`: every gate of it is marked. */
    method UpdatePart(i: nat, value: S)
      requires Valid() && i < board.parts
      modifies `held, `dirty, `dirtyCount, `groupDirty
      ensures Valid() && held == old(held)[i := value]
    {
      hide CleanLevels, Coherent, Quiet, GroupIndex, Feeds;
      held := held[i := value];
      for f := 0 to |board.gates|
        invariant Shape() && FlaggedBut([]) && held == old(held)[i := value]
        invariant forall g: nat :: g < |dirty| && old(dirty[g]) ==> dirty[g]
        invariant forall g: nat :: g < f && board.gates[g].part == i && board.gates[g].Placed() ==> dirty[g]
      {
        if board.gates[f].part == i {
          Soil(f);
        }
      }
      PartMoved(board, old(dirty), dirty, gateLevel, nets, external, old(held), i, value);
    }
  }

  method CountOf(s: seq<bool>) returns (c: nat)
    ensures c == Count(s)
  {
    c := 0;
    for i := 0 to |s|
      invariant c + Count(s[i..]) == Count(s)
    {
      if s[i] { c := c + 1; }
    }
  }

  /** Clean gates are of other parts, and put on a net what they did. */
  lemma PartApart<S>(b: Board<S>, dirty: seq<bool>, fs: seq<nat>, nets: seq<Level>, held: seq<S>, i: nat, value: S)
    requires b.WellFormed() && |nets| == b.Nets() && |held| == b.parts && i < b.parts && |dirty| == |b.gates|
    requires forall f: nat :: f < |b.gates| && b.gates[f].part == i && b.gates[f].Placed() ==> dirty[f]
    requires forall f: nat :: f in fs ==> f < |b.gates| && b.gates[f].Placed() && !dirty[f]
    ensures b.Driven(fs, nets, held) == b.Driven(fs, nets, held[i := value])
  {
    forall k | 0 <= k < |fs|
      ensures b.Driven(fs, nets, held)[k] == b.Driven(fs, nets, held[i := value])[k]
    {
      assert fs[k] in fs;
    }
  }

  /** What a part holds changing keeps both, when every placed gate of it has been marked. */
  lemma PartMoved<S>(b: Board<S>, dirty: seq<bool>, dirty': seq<bool>, lv: seq<Level>, nets: seq<Level>,
                     external: seq<Option<Driver>>, held: seq<S>, i: nat, value: S)
    requires b.WellFormed() && |nets| == |external| == b.Nets() && |held| == b.parts && i < b.parts
    requires |dirty| == |dirty'| == |lv| == |b.gates|
    requires forall f :: 0 <= f < |dirty| && dirty[f] ==> dirty'[f]
    requires forall f: nat :: f < |b.gates| && b.gates[f].part == i && b.gates[f].Placed() ==> dirty'[f]
    requires CleanLevels(b, dirty, lv, nets, held) && Coherent(b, dirty, nets, external, held, {})
    ensures CleanLevels(b, dirty', lv, nets, held[i := value])
    ensures Coherent(b, dirty', nets, external, held[i := value], {})
  {
    forall n: nat | n < b.Nets() && Quiet(b, dirty', n)
      ensures nets[n] == b.NetLevel(n, nets, external, held[i := value])
    {
      assert Quiet(b, dirty, n);
      PartApart(b, dirty', b.drivers[n], nets, held, i, value);
    }
  }

  // ---- Rest ----

  /** A settled board with no gate left dirty is at rest, and every cached level is current. */
  lemma CleanIsAtRest<S(!new)>(c: Chip<S>)
    requires c.Valid() && c.dirtyCount == 0
    ensures forall n: nat :: n < c.board.Nets() && c.board.drivers[n] != [] && c.board.AllPlaced(n)
              ==> c.nets[n] == c.board.NetLevel(n, c.nets, c.external, c.held)
    ensures forall f: nat :: f < |c.board.gates| && c.board.gates[f].Placed()
              && c.board.gates[f].out.Some? && c.board.supplies[c.board.gates[f].out.value] == Z
              ==> c.gateLevel[f] == c.board.Eval(f, c.nets, c.held)
  {
    CountZero(c.dirty);
    forall n: nat | n < c.board.Nets() && c.board.drivers[n] != [] && c.board.AllPlaced(n)
      ensures Quiet(c.board, c.dirty, n)
    {
    }
  }

  /** A board with no feedback, every gate that drives a net one the evaluator places. */
  ghost predicate Acyclic<S>(b: Board<S>)
    requires b.WellFormed()
  {
    NoFeedback(b) && forall n: nat :: n < b.Nets() ==> b.AllPlaced(n)
  }

  /** With one gate to a group the gates of the first `k` groups evaluate alike in any two states
      at rest that agree on the nets no gate drives. */
  lemma {:induction false} SameLevels<S>(b: Board<S>, order: seq<seq<nat>>, groupOf: seq<nat>, k: nat,
                      n1: seq<Level>, n2: seq<Level>, external: seq<Option<Driver>>, held: seq<S>)
    requires b.WellFormed() && GroupIndex(b, order, groupOf) && Singles(b, order) && k <= |order|
    requires forall n: nat :: n < b.Nets() ==> b.AllPlaced(n)
    requires |n1| == |n2| == |external| == b.Nets() && |held| == b.parts
    requires b.AtRest(n1, external, held) && b.AtRest(n2, external, held)
    requires forall n: nat :: n < b.Nets() && b.drivers[n] == [] ==> n1[n] == n2[n]
    ensures forall f: nat :: f < |b.gates| && b.gates[f].Placed() && groupOf[f] < k
              ==> b.Eval(f, n1, held) == b.Eval(f, n2, held)
  {
    if k > 0 {
      SameLevels(b, order, groupOf, k - 1, n1, n2, external, held);
      forall f: nat | f < |b.gates| && b.gates[f].Placed() && groupOf[f] == k - 1
        ensures b.Eval(f, n1, held) == b.Eval(f, n2, held)
      {
        forall n: nat | b.Reads(f, n)
          ensures n < b.Nets() && n1[n] == n2[n]
        {
          assert b.AllPlaced(n);
          forall g: nat | g in b.drivers[n]
            ensures b.Eval(g, n1, held) == b.Eval(g, n2, held)
          {
            assert Feeds(b, g, f);
            assert g in order[groupOf[g]] && f in order[groupOf[f]] && |order[k - 1]| == 1;
          }
          assert b.Driven(b.drivers[n], n1, held) == b.Driven(b.drivers[n], n2, held);
        }
        EvalAgrees(b, f, n1, n2, held);
      }
    }
  }

  lemma SingleRest<S>(b: Board<S>, order: seq<seq<nat>>, groupOf: seq<nat>,
                      n1: seq<Level>, n2: seq<Level>, external: seq<Option<Driver>>, held: seq<S>)
    requires b.WellFormed() && GroupIndex(b, order, groupOf) && Singles(b, order)
    requires forall n: nat :: n < b.Nets() ==> b.AllPlaced(n)
    requires |n1| == |n2| == |external| == b.Nets() && |held| == b.parts
    requires b.AtRest(n1, external, held) && b.AtRest(n2, external, held)
    requires forall n: nat :: n < b.Nets() && b.drivers[n] == [] ==> n1[n] == n2[n]
    ensures n1 == n2
  {
    SameLevels(b, order, groupOf, |order|, n1, n2, external, held);
    forall n: nat | n < b.Nets()
      ensures n1[n] == n2[n]
    {
      if b.drivers[n] != [] {
        assert b.AllPlaced(n);
        forall g: nat | g in b.drivers[n]
          ensures b.Eval(g, n1, held) == b.Eval(g, n2, held)
        {
          assert g in order[groupOf[g]];
        }
        assert b.Driven(b.drivers[n], n1, held) == b.Driven(b.drivers[n], n2, held);
      }
    }
  }

  /** With no feedback the rest is unique: two resting states of a board, driven alike, are one. */
  lemma RestIsUnique<S>(b: Board<S>, order: seq<seq<nat>>, groupOf: seq<nat>,
                        n1: seq<Level>, n2: seq<Level>, external: seq<Option<Driver>>, held: seq<S>)
    requires b.WellFormed() && Levelization(b, order) && GroupIndex(b, order, groupOf) && Acyclic(b)
    requires |n1| == |n2| == |external| == b.Nets() && |held| == b.parts
    requires b.AtRest(n1, external, held) && b.AtRest(n2, external, held)
    requires forall n: nat :: n < b.Nets() && b.drivers[n] == [] ==> n1[n] == n2[n]
    ensures n1 == n2
  {
    NoFeedbackIsSingles(b, order, groupOf);
    hide Levelization, NoFeedback;
    SingleRest(b, order, groupOf, n1, n2, external, held);
  }

  /** With no feedback a pass leaves nothing dirty and nothing reported. */
  lemma AcyclicSettles<S(!new)>(c: Chip<S>, n0: seq<Level>)
    requires c.Valid() && Levelization(c.board, c.order) && Acyclic(c.board) && c.ReportsFeedback(|c.order|)
    requires |n0| == c.board.Nets() && c.Settled(n0)
    ensures c.dirtyCount == 0 && c.unsettled.None? && c.board.AtRest(c.nets, c.external, c.held)
  {
    NoFeedbackIsSingles(c.board, c.order, c.groupOf);
    CountZero(c.dirty);
    CleanIsAtRest(c);
  }

  /** The two settles agree: with no feedback, an incremental settle and one from scratch take
      two chips built of the same board, driven alike, to the same nets, wherever each started. */
  method SettlesAgree<S(!new)>(c: Chip<S>, d: Chip<S>)
    requires c != d && c.Valid() && d.Valid()
    requires c.board == d.board && Levelization(c.board, c.order) && Levelization(d.board, d.order) && Acyclic(c.board)
    requires c.external == d.external && c.held == d.held
    requires forall n: nat :: n < c.board.Nets() && c.board.drivers[n] == [] ==> c.nets[n] == d.nets[n]
    modifies c, d
    ensures c.Valid() && d.Valid() && c.nets == d.nets
    ensures c.dirtyCount == d.dirtyCount == 0 && c.unsettled.None? && d.unsettled.None?
    ensures c.board.AtRest(c.nets, c.external, c.held)
  {
    hide Acyclic, Levelization, Board.AtRest;
    c.Settle();
    AcyclicSettles(c, old(c.nets));
    d.SettleAll();
    AcyclicSettles(d, old(d.nets));
    RestIsUnique(c.board, c.order, c.groupOf, c.nets, d.nets, c.external, c.held);
  }

  /** Feedback or not: a settle that reports nothing has brought the board to rest exactly when
      each gate that feeds itself alone has its net at its level, and then a full settle moves no
      net and leaves nothing dirty. `settled` are the nets between the two. Where each such gate has
      its net to itself, a full settle that reports nothing and moves no net says as much; a second
      driver of the net can move it there and the gate move it back. */
  method FullSettleMovesNothing<S(!new)>(c: Chip<S>) returns (reported: bool, ghost settled: seq<Level>, ghost selfFedRest: bool)
    requires c.Valid() && forall n: nat :: n < c.board.Nets() ==> c.board.AllPlaced(n)
    modifies c
    ensures c.Valid() && |settled| == c.board.Nets()
    ensures selfFedRest <==> forall f: nat :: f < |c.board.gates| && c.FeedsItselfAlone(f) ==>
              settled[c.board.gates[f].out.value] == c.board.NetLevel(c.board.gates[f].out.value, settled, c.external, c.held)
    ensures !reported ==> (selfFedRest <==> c.board.AtRest(settled, c.external, c.held))
    ensures !reported && selfFedRest ==> c.nets == settled && c.dirtyCount == 0 && c.unsettled.None?
    ensures c.unsettled.None? && c.nets == settled && (forall f: nat :: f < |c.board.gates| && c.FeedsItselfAlone(f) ==> c.Ring(f)) ==>
              selfFedRest
  {
    c.Settle();
    reported, settled, selfFedRest := c.unsettled.Some?, c.nets, c.SelfFedRest();
    hide Board.AtRest;
    c.SettleAll();
    if c.unsettled.None? && c.nets == settled && forall f: nat :: f < |c.board.gates| && c.FeedsItselfAlone(f) ==> c.Ring(f) {
      UnmovedIsAtRest(c);
    }
  }

  /** A full settle that reports nothing and moves no ring's net leaves nothing dirty, if every gate
      that feeds itself alone is one. */
  lemma UnmovedIsAtRest<S(!new)>(c: Chip<S>)
    requires c.Valid() && (forall n: nat :: n < c.board.Nets() ==> c.board.AllPlaced(n)) && c.unsettled.None? && c.Settled(c.nets)
    requires forall f: nat :: f < |c.board.gates| && c.FeedsItselfAlone(f) ==> c.Ring(f)
    ensures c.SelfFedRest()
  {
    CountZero(c.dirty);
    CleanIsAtRest(c);
  }

  // ---- A gate that feeds itself ----

  function Inverted(pins: seq<Level>): Level { if pins == [Low] then High else Low }

  function FirstLevel(ds: seq<Driver>): Level { if ds == [] then Z else ds[0].level }

  /** One inverter on a net of its own, reading anything but low as a one. */
  function InverterRing(): Board<int> {
    var inverter: Gate<int> := Gate(0, [Some(0)], Some(0), Totem, false, false, (pins: seq<Level>, held: int) => Inverted(pins));
    Board(1, [inverter], [Z], [[0]], [[0]], FirstLevel)
  }

  lemma RingWired()
    ensures InverterRing().WellFormed() && InverterRing().AllPlaced(0) && Feeds(InverterRing(), 0, 0)
  {
    var b := InverterRing();
    assert b.gates[0].ins == [Some(0)] && b.Reads(0, 0);
  }

  lemma RingNeverRests(nets: seq<Level>, external: seq<Option<Driver>>, held: seq<int>)
    requires |nets| == |external| == 1 && |held| == 1
    ensures InverterRing().WellFormed() && InverterRing().NetLevel(0, nets, external, held) != nets[0]
  {
    RingWired();
    var b := InverterRing();
    assert b.Pins(0, nets) == [nets[0]];
    var ds := b.Driven(b.drivers[0], nets, held);
    assert ds == [Driver(Inverted([nets[0]]), Totem)];
  }

  /** However it is settled, the ring's gate is left dirty, nothing is reported, and its net has
      moved. */
  lemma RingMoves(c: Chip<int>, n0: seq<Level>)
    requires c.Valid() && c.board == InverterRing() && Levelization(c.board, c.order) && c.ReportsFeedback(|c.order|)
    requires |n0| == 1 && c.Settled(n0)
    ensures c.unsettled.None? && c.dirtyCount > 0 && c.nets[0] != n0[0]
  {
    RingWired();
    RingAloneInGroup(c.board, c.order, c.groupOf);
    RingNeverRests(c.nets, c.external, c.held);
    hide Levelization;
    assert c.Ring(0);
    if c.dirtyCount == 0 {
      CleanIsAtRest(c);
    }
    CountZero(c.dirty);
  }

  lemma RingAloneInGroup(b: Board<int>, order: seq<seq<nat>>, groupOf: seq<nat>)
    requires b == InverterRing() && b.WellFormed() && Levelization(b, order) && GroupIndex(b, order, groupOf)
    ensures forall k :: 0 <= k < |order| ==> order[k] == [0]
  {
    hide Swept, GroupsAreComponents, Feeds;
    forall k | 0 <= k < |order|
      ensures order[k] == [0]
    {
      var group := order[k];
      assert group != [] && Distinct(group);
      assert group[0] in order[k] && group[|group| - 1] in order[k];
    }
  }

  /** A settle that reports nothing unsettled can leave a gate dirty, one alone in its group that
      reads its own output, and a full settle then moves its net. */
  method RingStaysDirty() returns (reported: bool, left: nat, settled: seq<Level>, again: seq<Level>)
    ensures !reported && left > 0 && |settled| == |again| == 1 && settled[0] != again[0]
  {
    RingWired();
    var c := new Chip<int>(InverterRing(), [0]);
    ghost var wired := c.nets;
    hide Levelization, GroupIndex, CleanLevels, Coherent, Board.AtRest, Board.WellFormed, InverterRing;
    c.Settle();
    RingMoves(c, wired);
    reported, left, settled := c.unsettled.Some?, c.dirtyCount, c.nets;
    c.SettleAll();
    RingMoves(c, settled);
    again := c.nets;
  }
}
