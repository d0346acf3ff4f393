/** The memory boards on the Xbus, clocked only when an edge can change one. */
module Backplane {
  import opened Arithmetic
  import opened Timing
  import opened MemoryTwin

  // ---- Every board at every edge ----

  /** What befalls the boards. */
  datatype Event = Edge(now: nat) | Request(k: nat, rq: nat) | Released(k: nat, at: nat) | Reset(now: nat, on: bool)

  function ClockedAll(m: seq<Twin>, now: nat): (r: seq<Twin>)
    ensures |r| == |m|
  {
    seq(|m|, i requires 0 <= i < |m| => Clocked(m[i], now))
  }

  function ResetAll(m: seq<Twin>, now: nat, on: bool): (r: seq<Twin>)
    ensures |r| == |m|
  {
    seq(|m|, i requires 0 <= i < |m| => MemoryTwin.Reset(m[i], now, on))
  }

  ghost predicate Happens(m: seq<Twin>, e: Event) {
    match e
    case Edge(now) => now < NEVER
    case Request(k, _) => k < |m|
    case Released(k, _) => k < |m|
    case Reset(_, _) => true
  }

  /** The boards after it, and when a request is acknowledged. */
  function Step(m: seq<Twin>, e: Event): (r: (seq<Twin>, nat))
    requires Happens(m, e)
    ensures |r.0| == |m|
  {
    match e
    case Edge(now) => (ClockedAll(m, now), 0)
    case Request(k, rq) => (m[k := Requested(m[k], rq).0], Requested(m[k], rq).1)
    case Released(k, at) => (m[k := m[k].(releaseAt := at)], 0)
    case Reset(now, on) => (ResetAll(m, now, on), 0)
  }

  // ---- Only the boards an edge can change ----

  /** No board changes before `next`, and no synchronizer is past its second stage. */
  ghost predicate Foretold(m: seq<Twin>, next: nat) {
    && (forall i :: 0 <= i < |m| ==> m[i].refreshStage <= 2)
    && (forall i :: 0 <= i < |m| ==> next <= NextChange(m[i]))
  }

  lemma StagesKept(b: Twin, now: nat, rq: nat, on: bool)
    requires b.refreshStage <= 2
    ensures Clocked(b, now).refreshStage <= 2 && Requested(b, rq).0.refreshStage <= 2 && MemoryTwin.Reset(b, now, on).refreshStage <= 2
  {
    hide RefreshTaken, MemoryTwin.Edge, EdgeAfter;
  }

  /** An edge before it changes nothing. */
  lemma NothingBefore(m: seq<Twin>, next: nat, now: nat)
    requires Foretold(m, next) && now < next && now < NEVER
    ensures ClockedAll(m, now) == m
  {
    hide Clocked, NextChange;
    forall i | 0 <= i < |m|
      ensures Clocked(m[i], now) == m[i]
    {
      ChangesFrom(m[i], now);
    }
  }

  function LeastChange(m: seq<Twin>): (least: nat)
    ensures forall i :: 0 <= i < |m| ==> least <= NextChange(m[i])
  {
    if m == [] then NEVER else Min(LeastChange(m[..|m| - 1]), NextChange(m[|m| - 1]))
  }

  /** The boards, the instant kept for them, and when a request is acknowledged. */
  function LazyStep(m: seq<Twin>, next: nat, e: Event): (r: (seq<Twin>, nat, nat))
    requires Happens(m, e)
    ensures |r.0| == |m|
  {
    match e
    case Edge(now) =>
      if now < next then (m, next, 0) else var r := ClockedAll(m, now); (r, LeastChange(r), 0)
    case Request(k, rq) =>
      var (b, at) := Requested(m[k], rq);
      (m[k := b], Min(next, NextChange(b)), at)
    case Released(k, at) =>
      var b := m[k].(releaseAt := at);
      (m[k := b], Min(next, NextChange(b)), 0)
    case Reset(now, on) => var r := ResetAll(m, now, on); (r, LeastChange(r), 0)
  }

  /** Whatever befalls them, boards clocked only when one can change stay as they would be clocked
      at every edge, and answer when they would. */
  lemma LazyIsEager(m: seq<Twin>, next: nat, e: Event)
    requires Foretold(m, next) && Happens(m, e)
    ensures var (r, n, at) := LazyStep(m, next, e);
            Foretold(r, n) && (r, at) == Step(m, e)
  {
    hide NextChange, Clocked, Requested, MemoryTwin.Reset;
    match e
    case Edge(now) =>
      if now < next {
        NothingBefore(m, next, now);
      } else {
        forall i | 0 <= i < |m|
          ensures Clocked(m[i], now).refreshStage <= 2
        {
          StagesKept(m[i], now, 0, false);
        }
      }
    case Request(k, rq) =>
      StagesKept(m[k], 0, rq, false);
    case Released(k, at) =>
    case Reset(now, on) =>
      forall i | 0 <= i < |m|
        ensures MemoryTwin.Reset(m[i], now, on).refreshStage <= 2
      {
        StagesKept(m[i], now, 0, on);
      }
  }

  // ---- Whole runs ----

  ghost predicate AllHappen(n: nat, run: seq<Event>) {
    forall i {:trigger run[i]} :: 0 <= i < |run| ==>
      match run[i]
      case Edge(now) => now < NEVER
      case Request(k, _) => k < n
      case Released(k, _) => k < n
      case Reset(_, _) => true
  }

  /** The boards after a run, and its acknowledgements. */
  function Run(m: seq<Twin>, run: seq<Event>): (r: (seq<Twin>, seq<nat>))
    requires AllHappen(|m|, run)
    ensures |r.0| == |m|
    decreases |run|
  {
    if run == [] then (m, [])
    else
      var (r, at) := Step(m, run[0]);
      var (rest, ats) := Run(r, run[1..]);
      (rest, [at] + ats)
  }

  function LazyRun(m: seq<Twin>, next: nat, run: seq<Event>): (r: (seq<Twin>, seq<nat>))
    requires AllHappen(|m|, run)
    decreases |run|
  {
    if run == [] then (m, [])
    else
      var (r, n, at) := LazyStep(m, next, run[0]);
      var (rest, ats) := LazyRun(r, n, run[1..]);
      (rest, [at] + ats)
  }

  lemma {:induction false} LazyRunsAsEager(m: seq<Twin>, next: nat, run: seq<Event>)
    requires Foretold(m, next) && AllHappen(|m|, run)
    ensures LazyRun(m, next, run) == Run(m, run)
    decreases |run|
  {
    hide Foretold, LazyStep, Step;
    if run != [] {
      LazyIsEager(m, next, run[0]);
      var (r, n, _) := LazyStep(m, next, run[0]);
      LazyRunsAsEager(r, n, run[1..]);
    }
  }

  // ---- The boards ----

  class Boards {
    var memory: seq<Twin>
    var next: nat

    ghost predicate Valid()
      reads this
    {
      Foretold(memory, next)
    }

    constructor (n: nat, model: TimingModel)
      ensures Valid() && memory == seq(n, _ => PowerOn(model))
    {
      hide RisingEdge;
      memory, next := seq(n, _ => PowerOn(model)), NextChange(PowerOn(model));
    }

    method Least() returns (least: nat)
      ensures least == LeastChange(memory)
    {
      hide NextChange;
      least := NEVER;
      for k := 0 to |memory|
        invariant least == LeastChange(memory[..k])
      {
        if NextChange(memory[k]) < least {
          least := NextChange(memory[k]);
        }
        assert memory[..k + 1][..k] == memory[..k];
      }
      assert memory[..|memory|] == memory;
    }

    /** A master clock edge: the boards are left alone until one can change. */
    method MclkEdge(now: nat)
      requires Valid() && now < NEVER
      modifies this
      ensures (memory, next, 0) == LazyStep(old(memory), old(next), Edge(now))
      ensures Valid() && memory == Step(old(memory), Edge(now)).0
    {
      hide Clocked, NextChange, Foretold, LeastChange;
      ghost var was := memory;
      LazyIsEager(memory, next, Edge(now));
      if now >= next {
        for k := 0 to |memory|
          invariant |memory| == |was|
          invariant forall i :: 0 <= i < k ==> memory[i] == Clocked(was[i], now)
          invariant forall i :: k <= i < |memory| ==> memory[i] == was[i]
        {
          memory := memory[k := Clocked(memory[k], now)];
        }
        assert memory == ClockedAll(was, now);
        next := Least();
      }
    }

    method Request(k: nat, rq: nat) returns (ack: nat)
      requires Valid() && k < |memory|
      modifies this
      ensures (memory, next, ack) == LazyStep(old(memory), old(next), Event.Request(k, rq))
      ensures Valid() && (memory, ack) == Step(old(memory), Event.Request(k, rq))
    {
      hide Requested, NextChange, Foretold;
      LazyIsEager(memory, next, Event.Request(k, rq));
      var (b, at) := Requested(memory[k], rq);
      memory := memory[k := b];
      next := Min(next, NextChange(memory[k]));
      return at;
    }

    method Released(k: nat, at: nat)
      requires Valid() && k < |memory|
      modifies this
      ensures (memory, next, 0) == LazyStep(old(memory), old(next), Event.Released(k, at))
      ensures Valid() && memory == Step(old(memory), Event.Released(k, at)).0
    {
      hide NextChange, Foretold;
      LazyIsEager(memory, next, Event.Released(k, at));
      memory := memory[k := memory[k].(releaseAt := at)];
      next := Min(next, NextChange(memory[k]));
    }

    method UnibusReset(now: nat, on: bool)
      requires Valid()
      modifies this
      ensures (memory, next, 0) == LazyStep(old(memory), old(next), Event.Reset(now, on))
      ensures Valid() && memory == Step(old(memory), Event.Reset(now, on)).0
    {
      hide MemoryTwin.Reset, NextChange, Foretold, LeastChange;
      ghost var was := memory;
      LazyIsEager(memory, next, Event.Reset(now, on));
      for k := 0 to |memory|
        invariant |memory| == |was|
        invariant forall i :: 0 <= i < k ==> memory[i] == MemoryTwin.Reset(was[i], now, on)
        invariant forall i :: k <= i < |memory| ==> memory[i] == was[i]
      {
        memory := memory[k := MemoryTwin.Reset(memory[k], now, on)];
      }
      assert memory == ResetAll(was, now, on);
      next := Least();
    }
  }
}
