/** The memory boards' timing twins: each board's cycles and its refresh, on its own crystal. */
module MemoryTwin {
  import opened Arithmetic
  import opened Oscillator
  import opened Timing

  const CYCLE_STAGES: nat := 11
  const BUSY_STAGES: nat := 12
  const REFRESH_NS: nat := 12033
  const REFRESH_TRIGGER_STAGES: nat := 1
  const RELEASE_STAGES: nat := 10
  const POWER_ON_EDGE: nat := 22

  /** The crystal's `j`-th rising edge. */
  function RisingEdge(j: nat): nat { ToggleAt(DIP_PERIOD, 2 * j) }

  /** Which rising edge is the next past `t`. */
  function EdgeAfter(t: nat): nat { (Due(DIP_PERIOD, t) + 2) / 2 }

  lemma EdgeAt(j: nat)
    ensures RisingEdge(j) == j * 125 / 3
  {
    assert 2 * j * 125 == 2 * (j * 125);
  }

  lemma EdgeAfterExactly(t: nat, j: nat)
    ensures RisingEdge(j) <= t <==> j < EdgeAfter(t)
  {
    DueExactly(DIP_PERIOD, t, 2 * j);
    hide ToggleAt, Due;
  }

  method RisingEdgeAfter(t: nat) returns (j: nat)
    ensures j == EdgeAfter(t) && RisingEdge(j) > t
    ensures forall i: nat :: i < j ==> RisingEdge(i) <= t
  {
    hide ToggleAt, Due;
    j := t * DIP_PERIOD.den / DIP_PERIOD.num;
    ghost var guess := j;
    while RisingEdge(j) <= t
      invariant j >= guess && (j > guess ==> RisingEdge(j - 1) <= t)
      decreases EdgeAfter(t) - j
    {
      EdgeAfterExactly(t, j);
      j := j + 1;
    }
    while j > 0 && RisingEdge(j - 1) > t
      invariant RisingEdge(j) > t
    {
      j := j - 1;
    }
    EdgeAfterExactly(t, j);
    if j > 0 {
      EdgeAfterExactly(t, j - 1);
    }
    forall i: nat
      ensures RisingEdge(i) <= t <==> i < j
    {
      EdgeAfterExactly(t, i);
    }
  }

  /** A board: when it is idle again, when the request of its cycle lifts, when the refresh
      one-shot's pulse ends and when the time for refresh last fell, the two-stage synchronizer and
      when its request came up, and the reset. */
  datatype Twin = Twin(idleAt: nat, releaseAt: nat, refreshTimeAt: nat, timeOffAt: nat, refreshStage: nat,
                       refreshRqAt: nat, inReset: bool, timing: TimingModel)

  /** The board's edge as the twin takes it. */
  function Edge(b: Twin, j: nat): nat { b.timing.Tick(RisingEdge(j)) }

  function PowerOn(m: TimingModel): Twin {
    var off := m.Tick(RisingEdge(POWER_ON_EDGE + REFRESH_TRIGGER_STAGES));
    Twin(m.Tick(RisingEdge(POWER_ON_EDGE + BUSY_STAGES)), 0, off + m.Tick(REFRESH_NS), off, 0, 0, false, m)
  }

  // ---- Refresh ----

  /** Which edge a refresh asked for begins at: the next past its asking, with nothing else under way. */
  function RefreshTaken(b: Twin): nat { EdgeAfter(Max(b.refreshRqAt, Max(b.idleAt, b.releaseAt))) }

  /** A refresh asked for whose edge comes before `before`. */
  predicate RefreshRuns(b: Twin, before: nat) {
    b.refreshStage == 2 && !b.inReset && b.releaseAt != NEVER && Edge(b, RefreshTaken(b)) < before
  }

  function Refreshed(b: Twin): Twin {
    var taken := RefreshTaken(b);
    var off := Edge(b, taken + REFRESH_TRIGGER_STAGES);
    b.(idleAt := Edge(b, taken + BUSY_STAGES), timeOffAt := off, refreshTimeAt := off + b.timing.Tick(REFRESH_NS), refreshStage := 0)
  }

  function RefreshedBefore(b: Twin, before: nat): Twin { if RefreshRuns(b, before) then Refreshed(b) else b }

  /** An Xbus clock edge. */
  function Clocked(b: Twin, now: nat): Twin {
    var r := RefreshedBefore(b, now);
    if r.refreshStage < 2 && now > r.refreshTimeAt then
      r.(refreshStage := r.refreshStage + 1, refreshRqAt := if r.refreshStage == 1 then now else r.refreshRqAt)
    else r
  }

  /** Up to when clocking the board does nothing. */
  function NextChange(b: Twin): nat {
    if b.refreshStage < 2 then Later(b.refreshTimeAt, 1)
    else if b.inReset || b.releaseAt == NEVER then NEVER
    else Later(Edge(b, RefreshTaken(b)), 1)
  }

  /** An edge changes the board exactly from the instant it foretells. */
  lemma ChangesFrom(b: Twin, now: nat)
    requires b.refreshStage <= 2 && now < NEVER
    ensures Clocked(b, now) != b <==> NextChange(b) <= now
  {
    hide RefreshTaken, Edge;
  }

  // ---- A request ----

  /** The cycle's own edge, once no refresh goes first: the board busy, idle not before a release
      that is yet to be told, and the acknowledgement. */
  function Taken(b: Twin, rq: nat): (r: (Twin, nat)) {
    var taken := EdgeAfter(Max(rq, b.idleAt));
    (b.(idleAt := Edge(b, taken + BUSY_STAGES), releaseAt := NEVER), Edge(b, taken + CYCLE_STAGES))
  }

  /** A request: a refresh already up at its edge goes first. */
  function Requested(b: Twin, rq: nat): (Twin, nat) {
    Taken(RefreshedBefore(b, Edge(b, EdgeAfter(Max(rq, b.idleAt))) + 1), rq)
  }

  lemma EdgesGrow(b: Twin, i: nat, j: nat)
    ensures i <= j ==> Edge(b, i) <= Edge(b, j)
    ensures i < j ==> RisingEdge(i) + 41 <= RisingEdge(j) && Edge(b, i) < RisingEdge(j)
  {
    EdgeAt(i);
    EdgeAt(j);
    hide RisingEdge;
    if i <= j {
      TickGrows(b.timing, RisingEdge(i), RisingEdge(j));
    }
  }

  lemma EdgesOn(j: nat)
    ensures RisingEdge(j + 24) == RisingEdge(j) + 1000
    ensures j > 0 ==> RisingEdge(j) <= RisingEdge(j - 1) + 42
  {
    EdgeAt(j + 24);
    EdgeAt(j);
    if j > 0 {
      EdgeAt(j - 1);
    }
    hide RisingEdge;
  }

  /** The edge after a board's own edge is the next. */
  lemma NextEdge(b: Twin, j: nat)
    ensures EdgeAfter(Edge(b, j)) == j + 1
  {
    EdgeAfterExactly(Edge(b, j), j);
    EdgeAfterExactly(Edge(b, j), j + 1);
    EdgesGrow(b, j, j + 1);
    hide RisingEdge, EdgeAfter;
  }

  lemma EdgeAfterGrows(s: nat, t: nat)
    requires s <= t
    ensures EdgeAfter(s) <= EdgeAfter(t)
  {
    if EdgeAfter(t) < EdgeAfter(s) {
      EdgeAfterExactly(s, EdgeAfter(t));
      EdgeAfterExactly(t, EdgeAfter(t));
    }
  }

  /** The edge that takes a request: the first past it and the board's idle, or up to thirteen
      later when a refresh goes first. */
  lemma TakenWithin(b: Twin, rq: nat)
    ensures var first := EdgeAfter(Max(rq, b.idleAt));
            var r := RefreshedBefore(b, Edge(b, first) + 1);
            && first <= EdgeAfter(Max(rq, r.idleAt)) <= first + 13 && r.timing == b.timing
            && (r == b || RefreshRuns(b, Edge(b, first) + 1))
  {
    var first := EdgeAfter(Max(rq, b.idleAt));
    if RefreshRuns(b, Edge(b, first) + 1) {
      var k := RefreshTaken(b);
      EdgesGrow(b, first, k);
      EdgesOrdered(b, first, k);
      NextEdge(b, k + BUSY_STAGES);
      EdgeAfterGrows(rq, Max(rq, b.idleAt));
      EdgeAfterGrows(b.idleAt, Max(b.refreshRqAt, Max(b.idleAt, b.releaseAt)));
      EdgeAfterGrows(rq, Max(rq, Edge(b, k + BUSY_STAGES)));
      hide RisingEdge, EdgeAfter, Edge;
    }
  }

  lemma EdgesOrdered(b: Twin, i: nat, j: nat)
    requires Edge(b, j) <= Edge(b, i)
    ensures j <= i
  {
    EdgesGrow(b, i, j);
    hide RisingEdge;
  }

  /** A request is acknowledged eleven edges after the first past it and the board's idle, or at most
      thirteen later when a refresh goes first; so within 1052 ns of both. */
  lemma AcknowledgedWithin(b: Twin, rq: nat)
    ensures var from := Max(rq, b.idleAt);
            var first := EdgeAfter(from);
            && Edge(b, first + CYCLE_STAGES) <= Requested(b, rq).1 <= Edge(b, first + 13 + CYCLE_STAGES)
            && from < Requested(b, rq).1 <= from + 1052
            && (!RefreshRuns(b, Edge(b, first) + 1) ==> Requested(b, rq).1 == Edge(b, first + CYCLE_STAGES))
  {
    hide RisingEdge, EdgeAfter, RefreshRuns, Refreshed;
    var from := Max(rq, b.idleAt);
    var first := EdgeAfter(from);
    TakenWithin(b, rq);
    var second := EdgeAfter(Max(rq, RefreshedBefore(b, Edge(b, first) + 1).idleAt));
    EdgeAfterExactly(from, first);
    if first > 0 {
      EdgeAfterExactly(from, first - 1);
    }
    EdgesOn(first);
    EdgesGrow(b, first, first + CYCLE_STAGES);
    EdgesGrow(b, first + CYCLE_STAGES, second + CYCLE_STAGES);
    EdgesGrow(b, second + CYCLE_STAGES, first + 24);
    EdgeAt(0);
  }

  // ---- The board ----

  class MemoryBoard {
    var idleAt: nat
    var releaseAt: nat
    var refreshTimeAt: nat
    var timeOffAt: nat
    var refreshStage: nat
    var refreshRqAt: nat
    var inReset: bool
    const timing: TimingModel

    function State(): Twin
      reads this
    {
      Twin(idleAt, releaseAt, refreshTimeAt, timeOffAt, refreshStage, refreshRqAt, inReset, timing)
    }

    constructor (m: TimingModel)
      ensures State() == PowerOn(m)
    {
      hide RisingEdge;
      idleAt := m.Tick(RisingEdge(POWER_ON_EDGE + BUSY_STAGES));
      timeOffAt := m.Tick(RisingEdge(POWER_ON_EDGE + REFRESH_TRIGGER_STAGES));
      refreshTimeAt := m.Tick(RisingEdge(POWER_ON_EDGE + REFRESH_TRIGGER_STAGES)) + m.Tick(REFRESH_NS);
      releaseAt, refreshStage, refreshRqAt, inReset, timing := 0, 0, 0, false, m;
    }

    /** Runs the refresh cycle asked for, if its edge comes before `before`. */
    method RefreshBefore(before: nat) returns (ran: bool)
      modifies this
      ensures ran == RefreshRuns(old(State()), before) && State() == RefreshedBefore(old(State()), before)
      ensures before < NEVER ==> (ran <==> old(refreshStage) == 2 && NextChange(old(State())) <= before)
      ensures ran ==> forall later: nat :: !RefreshRuns(State(), later)
    {
      hide RisingEdge, EdgeAfter;
      if before < NEVER {
        ForetoldRuns(State(), before);
      }
      NoneAsked(Refreshed(State()));
      if refreshStage != 2 || inReset || releaseAt == NEVER {
        return false;
      }
      var idle := Max(idleAt, releaseAt);
      var taken := EdgeAfter(Max(refreshRqAt, idle));
      if timing.Tick(RisingEdge(taken)) >= before {
        return false;
      }
      idleAt := timing.Tick(RisingEdge(taken + BUSY_STAGES));
      timeOffAt := timing.Tick(RisingEdge(taken + REFRESH_TRIGGER_STAGES));
      refreshTimeAt := timeOffAt + timing.Tick(REFRESH_NS);
      refreshStage := 0;
      return true;
    }

    method XbusClock(now: nat)
      modifies this
      ensures State() == Clocked(old(State()), now)
      ensures old(refreshStage) <= 2 && now < NEVER ==> (State() != old(State()) <==> NextChange(old(State())) <= now)
    {
      if refreshStage <= 2 && now < NEVER {
        ChangesFrom(State(), now);
      }
      hide RefreshRuns, Refreshed, NextChange, RefreshTaken, Edge;
      var _ := RefreshBefore(now);
      if refreshStage < 2 && now > refreshTimeAt {
        refreshStage := refreshStage + 1;
        if refreshStage == 2 {
          refreshRqAt := now;
        }
      }
    }

    method Released(at: nat)
      modifies this
      ensures State() == old(State()).(releaseAt := at)
    {
      releaseAt := at;
    }

    method UnibusReset(now: nat, on: bool)
      modifies this
      ensures State() == Reset(old(State()), now, on)
      ensures on ==> forall before: nat :: !RefreshRuns(State(), before)
      ensures !on && old(refreshStage) == 2 ==>
                now + 416 < idleAt < now + 42 + 418 + GRID_NS && refreshStage == 0 && now + REFRESH_NS <= refreshTimeAt
    {
      ResetEnds(State(), now);
      hide RisingEdge, EdgeAfter;
      inReset := on;
      if !on && refreshStage == 2 {
        idleAt := timing.Tick(RisingEdge(EdgeAfter(now) + RELEASE_STAGES));
        timeOffAt := now;
        refreshTimeAt := now + timing.Tick(REFRESH_NS);
        refreshStage := 0;
      }
    }

    /** At most one refresh goes first: the second turn, if there is one, is the last. */
    method Request(rq: nat) returns (ack: nat)
      modifies this
      ensures (State(), ack) == Requested(old(State()), rq)
    {
      hide RisingEdge, EdgeAfter, RefreshRuns, Refreshed;
      RanOnce(State());
      ghost var turns := 0;
      ghost var b := State();
      while true
        invariant turns <= 1
        invariant State() == if turns == 0 then b else RefreshedBefore(b, Edge(b, EdgeAfter(Max(rq, b.idleAt))) + 1)
        invariant turns == 1 ==> refreshStage == 0
        decreases 1 - turns
      {
        NotAsked(State());
        var taken := EdgeAfter(Max(rq, idleAt));
        var ran := RefreshBefore(timing.Tick(RisingEdge(taken)) + 1);
        if ran {
          turns := turns + 1;
          continue;
        }
        taken := EdgeAfter(Max(rq, idleAt));
        idleAt := timing.Tick(RisingEdge(taken + BUSY_STAGES));
        releaseAt := NEVER;
        return timing.Tick(RisingEdge(taken + CYCLE_STAGES));
      }
    }
  }

  lemma RanOnce(b: Twin)
    ensures Refreshed(b).refreshStage == 0
    ensures forall before: nat :: RefreshRuns(b, before) ==> b.refreshStage == 2
  {
  }

  lemma NoneAsked(b: Twin)
    requires b.refreshStage != 2
    ensures forall later: nat :: !RefreshRuns(b, later)
  {
  }

  /** A refresh asked for runs from the instant foretold. */
  lemma ForetoldRuns(b: Twin, before: nat)
    requires before < NEVER
    ensures RefreshRuns(b, before) <==> b.refreshStage == 2 && NextChange(b) <= before
  {
    hide RefreshTaken, Edge;
  }

  /** A refresh the reset had stuck ends ten edges after the first past the release. */
  lemma ResetEnds(b: Twin, now: nat)
    ensures var idle := Edge(b, EdgeAfter(now) + RELEASE_STAGES);
            now + 416 < idle < now + 42 + 418 + GRID_NS
  {
    var j := EdgeAfter(now);
    EdgeAfterExactly(now, j);
    if j > 0 {
      EdgeAfterExactly(now, j - 1);
    }
    EdgeAt(j);
    EdgeAt(j + RELEASE_STAGES);
    EdgesOn(j);
    hide RisingEdge, EdgeAfter;
    EdgeAt(0);
  }

  lemma NotAsked(b: Twin)
    ensures b.refreshStage == 0 ==> forall before: nat :: !RefreshRuns(b, before)
  {
  }

  /** The processor's Unibus reset: a refresh it had stuck ends as it lifts. */
  function Reset(b: Twin, now: nat, on: bool): Twin {
    if on || b.refreshStage != 2 then b.(inReset := on)
    else b.(inReset := false, idleAt := Edge(b, EdgeAfter(now) + RELEASE_STAGES), timeOffAt := now,
            refreshTimeAt := now + b.timing.Tick(REFRESH_NS), refreshStage := 0)
  }
}
