/** A board as `Chip::new` wires it: its gates, the nets between them, and what a
    net's level must be for the board to be at rest.

    What a gate computes and how several drivers of one net resolve are parameters:
    every result holds whatever the parts do. */
module Netlist {
  datatype Option<+T> = None | Some(value: T)

  datatype Level = Z | X | Low | High

  datatype Drive = Totem | OpenCollector | OpenEmitter | TriState | PullUp | Passive

  /** What one pin puts on a net. */
  datatype Driver = Driver(level: Level, drive: Drive)

  /** One gate of one package: the nets on the pins it reads (a pin may be unwired), the
      net it drives, and its function of those pins and of what its part holds.  A
      `replaced` gate is one the clock model stands in for and a `delayed` one is run by a
      delay line; the evaluator places neither. */
  datatype Gate<!S> = Gate(part: nat, ins: seq<Option<nat>>, out: Option<nat>, drive: Drive,
                           replaced: bool, delayed: bool, eval: (seq<Level>, S) -> Level)
  {
    predicate Placed() { !replaced && !delayed }
  }

  datatype Board<!S> = Board(parts: nat, gates: seq<Gate<S>>, supplies: seq<Level>,
                             drivers: seq<seq<nat>>, readers: seq<seq<nat>>,
                             resolve: seq<Driver> -> Level)
  {
    function Nets(): nat { |supplies| }

    predicate Reads(f: nat, n: nat)
      requires f < |gates|
    {
      Some(n) in gates[f].ins
    }

    /** The wiring tables are the gates' own pins: `drivers` has every gate driving a net but
        the delayed ones, `readers` every gate reading it. */
    ghost predicate WellFormed() {
      && |drivers| == |readers| == Nets()
      && (forall f :: 0 <= f < |gates| ==>
            && gates[f].part < parts
            && (gates[f].out.Some? ==> gates[f].out.value < Nets())
            && forall n: nat :: Some(n) in gates[f].ins ==> n < Nets())
      && (forall n: nat, f: nat {:trigger f in drivers[n]} :: n < Nets() ==>
            (f in drivers[n] <==> f < |gates| && gates[f].out == Some(n) && !gates[f].delayed))
      && (forall n: nat, f: nat {:trigger f in readers[n]} :: n < Nets() ==> (f in readers[n] <==> f < |gates| && Reads(f, n)))
    }

    /** The levels on the pins a gate reads: an unwired pin reads high impedance. */
    function Pins(f: nat, nets: seq<Level>): seq<Level>
      requires WellFormed() && |nets| == Nets() && f < |gates|
    {
      var ins := gates[f].ins;
      seq(|ins|, i requires 0 <= i < |ins| =>
        if ins[i].Some? then assert ins[i] in ins; nets[ins[i].value] else Z)
    }

    /** A gate evaluated from the nets as they stand. */
    function Eval(f: nat, nets: seq<Level>, held: seq<S>): Level
      requires WellFormed() && |nets| == Nets() && |held| == parts && f < |gates|
    {
      gates[f].eval(Pins(f, nets), held[gates[f].part])
    }

    /** What the gates on a net put on it. */
    function Driven(fs: seq<nat>, nets: seq<Level>, held: seq<S>): seq<Driver>
      requires WellFormed() && |nets| == Nets() && |held| == parts
      requires forall f: nat :: f in fs ==> f < |gates|
    {
      seq(|fs|, i requires 0 <= i < |fs| => assert fs[i] in fs; Driver(Eval(fs[i], nets, held), gates[fs[i]].drive))
    }

    /** The level a net should be at, every gate driving it evaluated from `nets`: a rail is a
        rail, and anything else resolves its gates and what the cables put on it. */
    function NetLevel(n: nat, nets: seq<Level>, external: seq<Option<Driver>>, held: seq<S>): Level
      requires WellFormed() && |nets| == |external| == Nets() && |held| == parts && n < Nets()
    {
      if supplies[n] != Z then supplies[n]
      else resolve(Driven(drivers[n], nets, held) +
                   (if external[n].Some? then [external[n].value] else []))
    }

    /** The board at rest: every net a gate drives is at the level its drivers make. */
    ghost predicate AtRest(nets: seq<Level>, external: seq<Option<Driver>>, held: seq<S>)
      requires WellFormed() && |nets| == |external| == Nets() && |held| == parts
    {
      forall n :: 0 <= n < Nets() && drivers[n] != [] ==> nets[n] == NetLevel(n, nets, external, held)
    }

    /** Every gate driving the net is one the evaluator places. */
    ghost predicate AllPlaced(n: nat)
      requires WellFormed() && n < Nets()
    {
      forall f: nat :: f in drivers[n] ==> gates[f].Placed()
    }
  }

  /** A gate evaluates alike wherever the nets it reads agree. */
  lemma EvalAgrees<S>(b: Board<S>, f: nat, n1: seq<Level>, n2: seq<Level>, held: seq<S>)
    requires b.WellFormed() && |n1| == |n2| == b.Nets() && |held| == b.parts && f < |b.gates|
    requires forall n: nat :: b.Reads(f, n) ==> n1[n] == n2[n]
    ensures b.Eval(f, n1, held) == b.Eval(f, n2, held)
  {
    var ins := b.gates[f].ins;
    forall i | 0 <= i < |ins| && ins[i].Some?
      ensures n1[ins[i].value] == n2[ins[i].value]
    {
      assert ins[i] in ins;
      assert b.Reads(f, ins[i].value);
    }
    assert b.Pins(f, n1) == b.Pins(f, n2);
  }

  /** Moving one net changes the level only of nets whose drivers read it. */
  lemma NetLevelUnmoved<S>(b: Board<S>, m: nat, nets: seq<Level>, n: nat, l: Level,
                           external: seq<Option<Driver>>, held: seq<S>)
    requires b.WellFormed() && |nets| == |external| == b.Nets() && |held| == b.parts && m < b.Nets() && n < b.Nets()
    requires forall f: nat :: f in b.drivers[m] ==> !b.Reads(f, n)
    ensures b.NetLevel(m, nets[n := l], external, held) == b.NetLevel(m, nets, external, held)
  {
    forall f: nat | f in b.drivers[m]
      ensures b.Eval(f, nets[n := l], held) == b.Eval(f, nets, held)
    {
      EvalAgrees(b, f, nets[n := l], nets, held);
    }
    assert b.Driven(b.drivers[m], nets[n := l], held) == b.Driven(b.drivers[m], nets, held);
  }
}
