/** The processor's clock generator, as an event scheduler. */
module ClockGenerator {
  import opened Netlist
  import opened Timing

  datatype Speed = Fast | Normal | Slow | ExtraSlow {
    /** How long the read phase is. */
    function ReadPhase(ilong: bool): nat {
      match this
      case Fast => if ilong then 115 else 75
      case Normal => if ilong then 125 else 85
      case Slow => if ilong then 140 else 100
      case ExtraSlow => 160
    }
  }

  const TSE_OFF: nat := 5
  const TSE_ON: nat := 25
  const TPR60: nat := 60
  const TPR_PULSE: nat := 40
  const SELECT: nat := 65
  const WP_ON: nat := 30
  const WP_OFF: nat := 70
  const WPIRAM_OFF: nat := 45
  const RESTART_AFTER_READ: nat := 60

  datatype Ev = CycleStart | TseOn | TseOff | ReadEnd | WpIramOff | WpOn | WpOff | TprOn | TprOff | Select

  datatype Outputs = Outputs(tpclk: bool, tpwp: bool, tptse: bool, tpwpiram: bool)

  datatype Inputs = Inputs(speed: Speed, ilong: bool, hang: bool, reset: bool)

  type Due = (nat, Ev)

  datatype Gen = Gen(time: nat, cycleStart: nat, readNs: nat, out: Outputs, pending: seq<Due>)

  const LOW := Outputs(false, false, false, false)

  /** An event put after every other due by its instant. */
  function Scheduled(p: seq<Due>, at: nat, ev: Ev): (r: seq<Due>)
    ensures |r| == |p| + 1
  {
    if p == [] then [(at, ev)] else if p[0].0 <= at then [p[0]] + Scheduled(p[1..], at, ev) else [(at, ev)] + p
  }

  function CycleStarted(p: seq<Due>, t: nat): seq<Due> {
    Scheduled(Scheduled(Scheduled(Scheduled(Scheduled(p, t + TSE_OFF, TseOff), t + TSE_ON, TseOn), t + TPR60, TprOn), t + SELECT, Ev.Select),
              t + TPR60 + TPR_PULSE, TprOff)
  }

  function TapPicked(p: seq<Due>, t: nat, r: nat): seq<Due> {
    Scheduled(Scheduled(Scheduled(Scheduled(Scheduled(p, t + r, ReadEnd), t + r + WPIRAM_OFF, WpIramOff), t + r + WP_ON, WpOn),
                        t + r + if WP_OFF < RESTART_AFTER_READ then WP_OFF else RESTART_AFTER_READ, WpOff),
              t + r + RESTART_AFTER_READ, CycleStart)
  }

  predicate Read(p: seq<Due>) { exists k :: 0 <= k < |p| && p[k].1 == ReadEnd }

  /** What a transition does to the generator its event has been taken from. */
  function Happened(g: Gen, ev: Ev, i: Inputs): Gen {
    match ev
    case CycleStart => g.(out := g.out.(tpclk := true), cycleStart := g.time, pending := CycleStarted(g.pending, g.time))
    case TseOn => g.(out := g.out.(tptse := true))
    case TseOff => g.(out := g.out.(tptse := false))
    case TprOn => g
    case TprOff => g
    case Select =>
      var r := i.speed.ReadPhase(i.ilong);
      if Read(g.pending) then g else g.(readNs := r, pending := TapPicked(g.pending, g.cycleStart, r))
    case ReadEnd => g.(out := g.out.(tpclk := false, tpwpiram := true))
    case WpIramOff => g.(out := g.out.(tpwpiram := false))
    case WpOn => g.(out := g.out.(tpwp := true))
    case WpOff => g.(out := g.out.(tpwp := false))
  }

  /** The next of the events to come, made. */
  function Advanced(g: Gen, i: Inputs): Gen {
    if i.reset then g.(out := LOW, pending := [(g.time, CycleStart)])
    else if g.pending == [] || (i.hang && g.pending[0].1 == CycleStart) then g
    else Happened(g.(time := g.pending[0].0, pending := g.pending[1..]), g.pending[0].1, i)
  }

  function Moved(p: seq<Due>, dt: nat): (r: seq<Due>)
    ensures |r| == |p|
  {
    seq(|p|, k requires 0 <= k < |p| => (p[k].0 + dt, p[k].1))
  }

  function Passed(g: Gen, until: nat, held: bool): Gen
    requires g.time <= until
  {
    g.(time := until, pending := if held then Moved(g.pending, until - g.time) else g.pending)
  }

  const POWER_ON := Gen(0, 0, 0, LOW, [(0, CycleStart)])

  // ---- Where in a cycle it can stand ----

  /** The event that is `n`-th from the start of a cycle begun at `c`, before its tap is chosen. */
  function EarlyDue(n: nat, c: nat): Due {
    if n <= 1 then (c + 5, TseOff) else if n == 2 then (c + 25, TseOn) else if n == 3 then (c + 60, TprOn)
    else if n == 4 then (c + 65, Ev.Select) else (c + 100, TprOff)
  }

  /** The `m`-th of those the tap schedules, its read phase `r`. */
  function LateDue(m: nat, c: nat, r: nat): Due {
    if m == 0 then (c + r, ReadEnd) else if m == 1 then (c + r + 30, WpOn) else if m == 2 then (c + r + 45, WpIramOff)
    else if m == 3 then (c + r + 60, WpOff) else (c + r + 60, CycleStart)
  }

  ghost predicate IsPhase(r: nat) { r == 75 || r == 85 || r == 100 || 115 <= r <= 160 }

  /** How far a cycle has come, and how long it has been held in it: waiting to begin one; `n` events
      into one, held for `d`; or its tap chosen after `d` held, `m` of the tap's events made, TPR's end
      before the `j`-th of the rest if it is still to come, and held for `e` since. */
  datatype Spot = Waiting | Early(n: nat, d: nat) | Late(m: nat, j: Option<nat>, d: nat, e: nat)

  /** The `k`-th to come once the tap is chosen, the cycle begun at `c` as held since. */
  function LatePending(k: nat, m: nat, j: Option<nat>, d: nat, c: nat, r: nat): Due {
    if j == None || k < j.value then LateDue(m + k, c, r) else if k == j.value then (c + d + 100, TprOff) else LateDue(m + k - 1, c, r)
  }

  /** TPR's end in its place among the tap's events. */
  ghost predicate InPlace(m: nat, j: nat, d: nat, r: nat) {
    m + j <= 2 && d + 100 <= LateDue(m + j, 0, r).0 && (j > 0 ==> LateDue(m + j - 1, 0, r).0 < d + 100)
  }

  function EarlyOut(n: nat, tse: bool): Outputs { Outputs(true, false, if n == 2 then false else n >= 3 || tse, false) }

  function LateOut(m: nat): Outputs { Outputs(m == 0, m == 2 || m == 3, true, m == 1 || m == 2) }

  /** Where it stands, TPTSE having been `tse` as the cycle began: those to come, the outputs, and time
      between the last and the next. */
  ghost predicate Stands(g: Gen, s: Spot, tse: bool) {
    var c, r := g.cycleStart, g.readNs;
    match s
    case Waiting => |g.pending| == 1 && g.pending[0].1 == CycleStart && g.time <= g.pending[0].0 && g.out == Outputs(false, false, tse, false)
    case Early(n, d) =>
      && 1 <= n <= 4 && |g.pending| == 6 - n && (forall k :: 0 <= k < |g.pending| ==> g.pending[k] == EarlyDue(n + k, c + d))
      && g.out == EarlyOut(n, tse) && (if n == 1 then c + d else EarlyDue(n - 1, c + d).0) <= g.time <= g.pending[0].0
    case Late(m, j, d, e) =>
      && m <= 4 && IsPhase(r) && SELECT + d <= r && (j.Some? ==> InPlace(m, j.value, d, r))
      && |g.pending| == (5 - m) + (if j.Some? then 1 else 0)
      && (forall k :: 0 <= k < |g.pending| ==> g.pending[k] == LatePending(k, m, j, d, c + e, r))
      && g.out == LateOut(m) && (if m == 0 then c + e + d + SELECT else LateDue(m - 1, c + e, r).0) <= g.time <= g.pending[0].0
  }

  lemma StandsAtPowerOn()
    ensures Stands(POWER_ON, Waiting, false)
  {
  }

  // ---- Every step keeps it there ----

  /** An event goes after what is due by its instant and before what is due later. */
  lemma {:induction false} Inserted(p: seq<Due>, k: nat, at: nat, ev: Ev)
    requires k <= |p|
    requires forall j :: 0 <= j < k ==> p[j].0 <= at
    requires k < |p| ==> at < p[k].0
    ensures Scheduled(p, at, ev) == p[..k] + [(at, ev)] + p[k..]
  {
    if k == 0 {
      assert p[..0] + [(at, ev)] + p[0..] == [(at, ev)] + p;
    } else {
      Inserted(p[1..], k - 1, at, ev);
      assert p[..k] == [p[0]] + p[1..][..k - 1] && p[k..] == p[1..][k - 1..];
    }
  }

  lemma AtEnd(p: seq<Due>, at: nat, ev: Ev)
    requires forall j :: 0 <= j < |p| ==> p[j].0 <= at
    ensures Scheduled(p, at, ev) == p + [(at, ev)]
  {
    Inserted(p, |p|, at, ev);
    assert p[..|p|] == p && p[|p|..] == [];
  }

  lemma EarlyScheduled(c: nat)
    ensures |CycleStarted([], c)| == 5
    ensures forall k :: 0 <= k < 5 ==> CycleStarted([], c)[k] == EarlyDue(k + 1, c)
  {
    var a0: seq<Due> := [];
    var a1 := a0 + [(c + TSE_OFF, TseOff)];
    var a2 := a1 + [(c + TSE_ON, TseOn)];
    var a3 := a2 + [(c + TPR60, TprOn)];
    var a4 := a3 + [(c + SELECT, Ev.Select)];
    AtEnd(a0, c + TSE_OFF, TseOff);
    AtEnd(a1, c + TSE_ON, TseOn);
    AtEnd(a2, c + TPR60, TprOn);
    AtEnd(a3, c + SELECT, Ev.Select);
    AtEnd(a4, c + TPR60 + TPR_PULSE, TprOff);
    hide Scheduled;
  }

  /** How many of the tap's events come before TPR's end. */
  function TprPlace(d: nat, r: nat): nat { if d + 100 <= r then 0 else if d + 100 <= r + 30 then 1 else 2 }

  /** The read phase's end goes before or after what is left of the cycle's beginning. */
  lemma ReadScheduled(c: nat, r: nat, d: nat)
    ensures Scheduled([(c + d + 100, TprOff)], c + r, ReadEnd)
         == if TprPlace(d, r) == 0 then [(c + d + 100, TprOff), (c + r, ReadEnd)] else [(c + r, ReadEnd), (c + d + 100, TprOff)]
  {
    var q := [(c + d + 100, TprOff)];
    if d + 100 <= r {
      AtEnd(q, c + r, ReadEnd);
    } else {
      Inserted(q, 0, c + r, ReadEnd);
    }
  }

  /** The write pulse begins before the write enable's end, and was scheduled after it. */
  lemma PulseScheduled(q: seq<Due>, at: nat, off: nat)
    requires |q| == 2 && q[0].0 <= at && q[1].0 <= off && at < off
    ensures Scheduled(Scheduled(q, off, WpIramOff), at, WpOn)
         == if q[1].0 <= at then q + [(at, WpOn), (off, WpIramOff)] else [q[0], (at, WpOn), q[1], (off, WpIramOff)]
  {
    AtEnd(q, off, WpIramOff);
    var p := q + [(off, WpIramOff)];
    Inserted(p, if q[1].0 <= at then 2 else 1, at, WpOn);
    hide Scheduled;
    assert p[..2] == q && p[2..] == [(off, WpIramOff)] && p[..1] == [q[0]] && p[1..] == [q[1], (off, WpIramOff)];
  }

  /** Chosen in time, the tap's events fall in order, TPR's end in its place among them. */
  lemma LateScheduled(c: nat, r: nat, d: nat)
    requires IsPhase(r) && SELECT + d <= r
    ensures InPlace(0, TprPlace(d, r), d, r) && |TapPicked([(c + d + 100, TprOff)], c, r)| == 6
    ensures forall k :: 0 <= k < 6 ==> TapPicked([(c + d + 100, TprOff)], c, r)[k] == LatePending(k, 0, Some(TprPlace(d, r)), d, c, r)
  {
    hide Scheduled;
    ReadScheduled(c, r, d);
    var q := [(c + d + 100, TprOff)];
    var b1 := Scheduled(q, c + r, ReadEnd);
    PulseScheduled(b1, c + r + WP_ON, c + r + WPIRAM_OFF);
    var b3 := Scheduled(Scheduled(b1, c + r + WPIRAM_OFF, WpIramOff), c + r + WP_ON, WpOn);
    AtEnd(b3, c + r + 60, WpOff);
    AtEnd(b3 + [(c + r + 60, WpOff)], c + r + 60, CycleStart);
  }

  /** Chosen late, it schedules the end of a read phase that is over. */
  lemma ScheduledHolds(p: seq<Due>, at: nat, ev: Ev, d: Due)
    requires d in p || d == (at, ev)
    ensures d in Scheduled(p, at, ev)
  {
  }

  lemma LateHolds(q: seq<Due>, c: nat, r: nat)
    ensures (c + r, ReadEnd) in TapPicked(q, c, r)
  {
    hide Scheduled;
    var d := (c + r, ReadEnd);
    var p1 := Scheduled(q, c + r, ReadEnd);
    var p2 := Scheduled(p1, c + r + WPIRAM_OFF, WpIramOff);
    var p3 := Scheduled(p2, c + r + WP_ON, WpOn);
    var p4 := Scheduled(p3, c + r + 60, WpOff);
    ScheduledHolds(q, c + r, ReadEnd, d);
    ScheduledHolds(p1, c + r + WPIRAM_OFF, WpIramOff, d);
    ScheduledHolds(p2, c + r + WP_ON, WpOn, d);
    ScheduledHolds(p3, c + r + 60, WpOff, d);
    ScheduledHolds(p4, c + r + 60, CycleStart, d);
  }

  // ---- Runs ----

  datatype Event = Advance(i: Inputs) | Pass(until: nat, held: bool)

  /** Time does not run backwards, or past a transition unless the generator is held. */
  ghost predicate Happens(g: Gen, e: Event) {
    match e
    case Advance(_) => true
    case Pass(until, held) => g.time <= until && (held || g.pending == [] || until <= g.pending[0].0)
  }

  function Step(g: Gen, e: Event): Gen
    requires Happens(g, e)
  {
    match e
    case Advance(i) => Advanced(g, i)
    case Pass(until, held) => Passed(g, until, held)
  }

  function Onward(s: Spot, i: Inputs): Spot {
    match s
    case Waiting => if i.hang then Waiting else Early(1, 0)
    case Early(n, d) => if n < 4 then Early(n + 1, d) else Late(0, Some(TprPlace(d, i.speed.ReadPhase(i.ilong))), d, 0)
    case Late(m, j, d, e) =>
      if j == Some(0) then Late(m, None, d, e)
      else if m == 4 then (if i.hang then s else Early(1, 0))
      else Late(m + 1, if j.Some? then Some(j.value - 1) else None, d, e)
  }

  function HeldFor(s: Spot, dt: nat): Spot {
    match s
    case Waiting => Waiting
    case Early(n, d) => Early(n, d + dt)
    case Late(m, j, d, e) => Late(m, j, d, e + dt)
  }

  /** Where a step leaves it, and whether TPTSE was high as its cycle began. */
  function Place(g: Gen, s: Spot, tse: bool, e: Event): (Spot, bool)
    requires Happens(g, e)
  {
    match e
    case Advance(i) => if i.reset then (Waiting, false) else (Onward(s, i), tse || s.Late?)
    case Pass(until, held) => (if held then HeldFor(s, until - g.time) else s, tse)
  }

  /** A tap about to be chosen is chosen before the read phase it chooses is over: what the cycle has been
      held is no more than what is left of it. */
  predicate TapInTime(s: Spot, e: Event) {
    e.Advance? && !e.i.reset && s.Early? && s.n == 4 ==> SELECT + s.d <= e.i.speed.ReadPhase(e.i.ilong)
  }

  lemma EarlyAdvance(g: Gen, s: Spot, tse: bool, i: Inputs)
    requires Stands(g, s, tse) && s.Early? && s.n < 4 && !i.reset
    ensures Stands(Advanced(g, i), Onward(s, i), tse) && Advanced(g, i).cycleStart == g.cycleStart && Advanced(g, i).readNs == g.readNs
  {
    hide TapPicked, CycleStarted, Read;
  }

  lemma SelectAdvance(g: Gen, s: Spot, tse: bool, i: Inputs)
    requires Stands(g, s, tse) && s.Early? && s.n == 4 && !i.reset && TapInTime(s, Advance(i))
    ensures Stands(Advanced(g, i), Onward(s, i), tse) && Advanced(g, i).cycleStart == g.cycleStart
    ensures Advanced(g, i).readNs == i.speed.ReadPhase(i.ilong)
  {
    hide TapPicked, CycleStarted;
    assert g.pending[1..] == [(g.cycleStart + s.d + 100, TprOff)];
    LateScheduled(g.cycleStart, i.speed.ReadPhase(i.ilong), s.d);
  }

  /** TPR's end. */
  lemma TprAdvance(g: Gen, s: Spot, tse: bool, i: Inputs)
    requires Stands(g, s, tse) && s.Late? && s.j == Some(0) && !i.reset
    ensures Stands(Advanced(g, i), Onward(s, i), true) && Advanced(g, i).cycleStart == g.cycleStart && Advanced(g, i).readNs == g.readNs
  {
    hide TapPicked, CycleStarted, Read, IsPhase;
  }

  /** The next of the tap's events, TPR's end still to come. */
  lemma TapAdvance(g: Gen, s: Spot, tse: bool, i: Inputs)
    requires Stands(g, s, tse) && s.Late? && s.j.Some? && s.j.value > 0 && !i.reset
    ensures Stands(Advanced(g, i), Onward(s, i), true) && Advanced(g, i).cycleStart == g.cycleStart && Advanced(g, i).readNs == g.readNs
  {
    hide TapPicked, CycleStarted, Read, IsPhase;
  }

  /** And with that past. */
  lemma LastAdvance(g: Gen, s: Spot, tse: bool, i: Inputs)
    requires Stands(g, s, tse) && s.Late? && s.m < 4 && s.j == None && !i.reset
    ensures Stands(Advanced(g, i), Onward(s, i), true) && Advanced(g, i).cycleStart == g.cycleStart && Advanced(g, i).readNs == g.readNs
  {
    hide TapPicked, CycleStarted, Read, IsPhase;
  }

  lemma LateAdvance(g: Gen, s: Spot, tse: bool, i: Inputs)
    requires Stands(g, s, tse) && s.Late? && (s.m < 4 || s.j.Some?) && !i.reset
    ensures Stands(Advanced(g, i), Onward(s, i), true) && Advanced(g, i).cycleStart == g.cycleStart && Advanced(g, i).readNs == g.readNs
  {
    hide Stands, Advanced, Onward;
    if s.j == None {
      LastAdvance(g, s, tse, i);
    } else if s.j.value == 0 {
      TprAdvance(g, s, tse, i);
    } else {
      TapAdvance(g, s, tse, i);
    }
  }

  /** From the end of a cycle the next begins, at the instant it was due. */
  lemma StartAdvance(g: Gen, s: Spot, tse: bool, i: Inputs)
    requires Stands(g, s, tse) && (s.Waiting? || (s.Late? && s.m == 4 && s.j == None)) && !i.reset && !i.hang
    ensures Stands(Advanced(g, i), Early(1, 0), tse || s.Late?)
    ensures Advanced(g, i).time == Advanced(g, i).cycleStart == g.pending[0].0
  {
    EarlyScheduled(g.pending[0].0);
    hide CycleStarted;
    assert g.pending[1..] == [];
  }

  lemma EarlyShift(n: nat, c: nat, dt: nat)
    ensures EarlyDue(n, c + dt) == (EarlyDue(n, c).0 + dt, EarlyDue(n, c).1)
  {
  }

  lemma LateShift(k: nat, m: nat, j: Option<nat>, d: nat, c: nat, r: nat, dt: nat)
    ensures LatePending(k, m, j, d, c + dt, r) == (LatePending(k, m, j, d, c, r).0 + dt, LatePending(k, m, j, d, c, r).1)
    ensures LateDue(m, c + dt, r).0 == LateDue(m, c, r).0 + dt
  {
  }

  lemma EarlyHeld(g: Gen, n: nat, d: nat, tse: bool, dt: nat)
    requires Stands(g, Early(n, d), tse)
    ensures Stands(Passed(g, g.time + dt, true), Early(n, d + dt), tse)
  {
    hide EarlyDue;
    var p, c := Moved(g.pending, dt), g.cycleStart;
    forall k | 0 <= k < |p|
      ensures p[k] == EarlyDue(n + k, c + (d + dt))
    {
      EarlyShift(n + k, c + d, dt);
      assert g.pending[k] == EarlyDue(n + k, c + d);
    }
    if n > 1 {
      EarlyShift(n - 1, c + d, dt);
    }
  }

  lemma LateHeld(g: Gen, m: nat, j: Option<nat>, d: nat, e: nat, tse: bool, dt: nat)
    requires Stands(g, Late(m, j, d, e), tse)
    ensures Stands(Passed(g, g.time + dt, true), Late(m, j, d, e + dt), tse)
  {
    hide InPlace, IsPhase, LatePending, LateDue;
    var p, c, r := Moved(g.pending, dt), g.cycleStart, g.readNs;
    forall k | 0 <= k < |p|
      ensures p[k] == LatePending(k, m, j, d, c + (e + dt), r)
    {
      LateShift(k, m, j, d, c + e, r, dt);
      assert g.pending[k] == LatePending(k, m, j, d, c + e, r);
    }
    if m > 0 {
      LateShift(0, m - 1, j, d, c + e, r, dt);
    }
  }

  lemma PassUnheld(g: Gen, s: Spot, tse: bool, until: nat)
    requires Stands(g, s, tse) && Happens(g, Pass(until, false))
    ensures Stands(Passed(g, until, false), s, tse)
  {
    hide EarlyDue, LatePending, InPlace, IsPhase;
  }

  lemma PassStands(g: Gen, s: Spot, tse: bool, until: nat, held: bool)
    requires Stands(g, s, tse) && Happens(g, Pass(until, held))
    ensures Stands(Passed(g, until, held), if held then HeldFor(s, until - g.time) else s, tse)
  {
    if !held {
      PassUnheld(g, s, tse, until);
    } else {
      match s
      case Waiting =>
      case Early(n, d) =>
        EarlyHeld(g, n, d, tse, until - g.time);
        hide Stands, Passed;
      case Late(m, j, d, e) =>
        LateHeld(g, m, j, d, e, tse, until - g.time);
        hide Stands, Passed;
    }
  }

  /** Whatever its inputs, its hangs and its resets, and wherever in a cycle it is held, it stands
      somewhere in a cycle, as long as each tap is chosen in time. */
  lemma StepStands(g: Gen, s: Spot, tse: bool, e: Event)
    requires Stands(g, s, tse) && Happens(g, e) && TapInTime(s, e)
    ensures Stands(Step(g, e), Place(g, s, tse, e).0, Place(g, s, tse, e).1)
  {
    hide Advanced, Stands, Passed, IsPhase, InPlace;
    match e
    case Advance(i) =>
      EarlyOrLate(g, s, tse);
      if i.reset {
        ResetWaits(g, i);
      } else {
        if s.Early? {
          if s.n < 4 { EarlyAdvance(g, s, tse, i); } else { SelectAdvance(g, s, tse, i); }
        } else if s.Late? && (s.m < 4 || s.j.Some?) {
          LateAdvance(g, s, tse, i);
        } else if i.hang {
          Hung(g, s, tse, i);
        } else {
          StartAdvance(g, s, tse, i);
        }
      }
    case Pass(until, held) =>
      PassStands(g, s, tse, until, held);
  }

  lemma ResetWaits(g: Gen, i: Inputs)
    requires i.reset
    ensures Stands(Advanced(g, i), Waiting, false)
  {
  }

  lemma EarlyOrLate(g: Gen, s: Spot, tse: bool)
    requires Stands(g, s, tse)
    ensures (s.Early? ==> 1 <= s.n <= 4) && (s.Late? ==> s.m <= 4 && (s.m == 4 ==> s.j == None))
  {
  }

  lemma Hung(g: Gen, s: Spot, tse: bool, i: Inputs)
    requires Stands(g, s, tse) && (s.Waiting? || (s.Late? && s.m == 4 && s.j == None)) && !i.reset && i.hang
    ensures Advanced(g, i) == g && (s.Late? ==> Stands(g, s, true))
  {
    hide CycleStarted, TapPicked;
  }

  // ---- Order ----

  /** Those to come are in order, none before the time. */
  ghost predicate InOrder(g: Gen) { forall j, k :: 0 <= j <= k < |g.pending| ==> g.time <= g.pending[j].0 <= g.pending[k].0 }

  lemma LateGrow(k: nat, l: nat, m: nat, j: Option<nat>, d: nat, c: nat, r: nat)
    requires k <= l && m <= 4 && (j.Some? ==> InPlace(m, j.value, d, r))
    ensures LatePending(k, m, j, d, c, r).0 <= LatePending(l, m, j, d, c, r).0
  {
  }

  lemma StandsInOrder(g: Gen, s: Spot, tse: bool)
    requires Stands(g, s, tse)
    ensures InOrder(g)
  {
    if s.Late? {
      LateInOrder(g, s, tse);
    }
    hide LatePending, LateDue, InPlace, IsPhase;
  }

  lemma LateInOrder(g: Gen, s: Spot, tse: bool)
    requires Stands(g, s, tse) && s.Late?
    ensures InOrder(g)
  {
    hide InPlace, LatePending, LateDue, IsPhase;
    forall k: nat, l: nat | k <= l < |g.pending|
      ensures g.pending[0].0 <= g.pending[k].0 <= g.pending[l].0
    {
      LateGrow(0, k, s.m, s.j, s.d, g.cycleStart + s.e, g.readNs);
      LateGrow(k, l, s.m, s.j, s.d, g.cycleStart + s.e, g.readNs);
    }
  }

  /** A tap chosen late leaves an event behind the time. */
  lemma ChosenLate(g: Gen, s: Spot, tse: bool, e: Event)
    requires Stands(g, s, tse) && Happens(g, e) && !TapInTime(s, e)
    ensures !InOrder(Step(g, e))
  {
    var r := e.i.speed.ReadPhase(e.i.ilong);
    assert g.pending[1..] == [(g.cycleStart + s.d + 100, TprOff)];
    LateHolds(g.pending[1..], g.cycleStart, r);
    hide TapPicked, CycleStarted;
    var h := Step(g, e);
    assert h.pending == TapPicked(g.pending[1..], g.cycleStart, r) && h.time == g.cycleStart + s.d + SELECT;
    var k :| 0 <= k < |h.pending| && h.pending[k] == (g.cycleStart + r, ReadEnd);
    assert h.pending[k].0 < h.time;
  }

  ghost predicate RunHappens(g: Gen, run: seq<Event>)
    decreases |run|
  {
    run == [] || (Happens(g, run[0]) && RunHappens(Step(g, run[0]), run[1..]))
  }

  /** In order throughout a run. */
  ghost predicate StaysInOrder(g: Gen, run: seq<Event>)
    requires RunHappens(g, run)
    decreases |run|
  {
    InOrder(g) && (run == [] || StaysInOrder(Step(g, run[0]), run[1..]))
  }

  /** Every tap of a run chosen in time. */
  ghost predicate TapsInTime(g: Gen, s: Spot, tse: bool, run: seq<Event>)
    requires RunHappens(g, run)
    decreases |run|
  {
    run == [] || (TapInTime(s, run[0]) && TapsInTime(Step(g, run[0]), Place(g, s, tse, run[0]).0, Place(g, s, tse, run[0]).1, run[1..]))
  }

  /** Over every run the events to come stay in order, none before the time, exactly when each tap is
      chosen in time. */
  lemma {:induction false} OrderExactly(g: Gen, s: Spot, tse: bool, run: seq<Event>)
    requires Stands(g, s, tse) && RunHappens(g, run)
    ensures StaysInOrder(g, run) <==> TapsInTime(g, s, tse, run)
    decreases |run|
  {
    hide Stands, Step, Place, InOrder, TapInTime, Happens;
    StandsInOrder(g, s, tse);
    if run != [] {
      var e := run[0];
      var h := Step(g, e);
      if TapInTime(s, e) {
        StepStands(g, s, tse, e);
        OrderExactly(h, Place(g, s, tse, e).0, Place(g, s, tse, e).1, run[1..]);
      } else {
        ChosenLate(g, s, tse, e);
        assert !StaysInOrder(h, run[1..]);
      }
    }
  }

  function Ran(g: Gen, run: seq<Event>): Gen
    requires RunHappens(g, run)
    decreases |run|
  {
    if run == [] then g else Ran(Step(g, run[0]), run[1..])
  }

  /** Where a run leaves it. */
  function Ends(g: Gen, s: Spot, tse: bool, run: seq<Event>): (Spot, bool)
    requires RunHappens(g, run)
    decreases |run|
  {
    if run == [] then (s, tse) else Ends(Step(g, run[0]), Place(g, s, tse, run[0]).0, Place(g, s, tse, run[0]).1, run[1..])
  }

  /** So over every run it stands somewhere in a cycle. */
  lemma {:induction false} RunStands(g: Gen, s: Spot, tse: bool, run: seq<Event>)
    requires Stands(g, s, tse) && RunHappens(g, run) && TapsInTime(g, s, tse, run)
    ensures Stands(Ran(g, run), Ends(g, s, tse, run).0, Ends(g, s, tse, run).1)
    decreases |run|
  {
    hide Stands, Step, Place, TapInTime, Happens;
    if run != [] {
      StepStands(g, s, tse, run[0]);
      RunStands(Step(g, run[0]), Place(g, s, tse, run[0]).0, Place(g, s, tse, run[0]).1, run[1..]);
    }
  }

  /** Held for 15 ns in its first cycle, before a tap of 75 is chosen: the read phase's end is due
      5 ns ago. */
  lemma HeldTooLong()
    ensures var fast := Advance(Inputs(Fast, false, false, false));
            var run := [fast, Pass(15, true), fast, fast, fast, fast];
            && RunHappens(POWER_ON, run)
            && Ran(POWER_ON, run).time == 80 && (75, ReadEnd) in Ran(POWER_ON, run).pending && !InOrder(Ran(POWER_ON, run))
  {
    var i := Inputs(Fast, false, false, false);
    var fast := Advance(i);
    StandsAtPowerOn();
    StartAdvance(POWER_ON, Waiting, false, i);
    var g1 := Advanced(POWER_ON, i);
    var g2 := Passed(g1, 15, true);
    PassStands(g1, Early(1, 0), false, 15, true);
    hide Advanced, Passed, Stands;
    HeldOn(g2, i);
    RunOfSix(POWER_ON, fast, Pass(15, true));
  }

  /** The rest of that cycle to the choice of its tap. */
  lemma HeldOn(g: Gen, i: Inputs)
    requires Stands(g, Early(1, 15), false) && g.cycleStart == 0 && i == Inputs(Fast, false, false, false)
    ensures var h := Advanced(Advanced(Advanced(Advanced(g, i), i), i), i);
            h.time == 80 && (75, ReadEnd) in h.pending && !InOrder(h)
  {
    EarlyAdvance(g, Early(1, 15), false, i);
    var g3 := Advanced(g, i);
    EarlyAdvance(g3, Early(2, 15), false, i);
    var g4 := Advanced(g3, i);
    EarlyAdvance(g4, Early(3, 15), false, i);
    var g5 := Advanced(g4, i);
    hide Stands;
    ChosenLate(g5, Early(4, 15), false, Advance(i));
    BehindTime(g5, i);
  }

  lemma BehindTime(g: Gen, i: Inputs)
    requires Stands(g, Early(4, 15), false) && g.cycleStart == 0 && i == Inputs(Fast, false, false, false)
    ensures Advanced(g, i).time == 80 && (75, ReadEnd) in Advanced(g, i).pending
  {
    assert g.pending[1..] == [(115, TprOff)];
    LateHolds(g.pending[1..], 0, 75);
    hide TapPicked, CycleStarted;
  }

  lemma RunOn(g: Gen, e: Event, rest: seq<Event>)
    requires Happens(g, e) && RunHappens(Step(g, e), rest)
    ensures RunHappens(g, [e] + rest) && Ran(g, [e] + rest) == Ran(Step(g, e), rest)
  {
    assert ([e] + rest)[1..] == rest;
  }

  lemma RunOfSix(g: Gen, a: Event, p: Event)
    requires a.Advance? && Happens(Step(g, a), p)
    ensures RunHappens(g, [a, p, a, a, a, a])
    ensures Ran(g, [a, p, a, a, a, a]) == Step(Step(Step(Step(Step(Step(g, a), p), a), a), a), a)
  {
    var g2 := Step(Step(g, a), p);
    var g3 := Step(g2, a);
    var g4 := Step(g3, a);
    var g5 := Step(g4, a);
    RunOn(g5, a, []);
    RunOn(g4, a, [a]);
    RunOn(g3, a, [a, a]);
    RunOn(g2, a, [a, a, a]);
    RunOn(Step(g, a), p, [a, a, a, a]);
    RunOn(g, a, [p, a, a, a, a]);
    hide Step, RunHappens;
    assert [a] + [] == [a] && [a] + [a] == [a, a] && [a] + [a, a] == [a, a, a] && [a] + [a, a, a] == [a, a, a, a];
    assert [p] + [a, a, a, a] == [p, a, a, a, a] && [a] + [p, a, a, a, a] == [a, p, a, a, a, a];
  }

  // ---- What a cycle is ----

  /** With no transition due, the outputs are told by how far into the cycle it is, what it has been
      held in it not counted: before the tap is chosen TPTSE is down from 5 to 25 unless it began low, and
      after, the write pulse is up from 30 to 60 ns past the read phase. */
  lemma Windows(g: Gen, s: Spot, tse: bool)
    requires Stands(g, s, tse) && !s.Waiting? && g.time < g.pending[0].0
    ensures s.Early? ==>
              var at := g.time - g.cycleStart - s.d;
              && 0 <= at < SELECT && g.out.tpclk && !g.out.tpwp && !g.out.tpwpiram
              && (g.out.tptse <==> if at < TSE_OFF then tse else at >= TSE_ON)
    ensures s.Late? ==>
              var at, r := g.time - g.cycleStart - s.e, g.readNs;
              && SELECT + s.d <= at && g.out.tptse && (g.out.tpclk <==> at < r)
              && (g.out.tpwp <==> r + WP_ON <= at < r + RESTART_AFTER_READ)
              && (g.out.tpwpiram <==> r <= at < r + WPIRAM_OFF)
  {
  }

  /** Waiting to begin a cycle, nothing is up but TPTSE. */
  lemma WaitsLow(g: Gen, s: Spot, tse: bool)
    requires Stands(g, s, tse) && (s.Waiting? || (s.Late? && s.m == 4))
    ensures g.out == Outputs(false, false, tse || s.Late?, false)
  {
  }

  // ---- A cycle held ----

  /** When an output's transition is due in the cycle begun at `c`, its read phase `r`; TPR's are not outputs. */
  function OwnInstant(ev: Ev, c: nat, r: nat): Option<nat> {
    match ev
    case TseOff => Some(c + TSE_OFF)
    case TseOn => Some(c + TSE_ON)
    case ReadEnd => Some(c + r)
    case WpOn => Some(c + r + WP_ON)
    case WpIramOff => Some(c + r + WPIRAM_OFF)
    case WpOff => Some(c + r + RESTART_AFTER_READ)
    case _ => None
  }

  /** How many transitions are left before a cycle's end. */
  function Left(s: Spot): nat {
    match s
    case Waiting => 0
    case Early(n, _) => if n <= 10 then 10 - n else 0
    case Late(m, j, _, _) => (if m <= 4 then 4 - m else 0) + if j.Some? then 1 else 0
  }

  /** The transitions `i` makes come in order, each output's at its own instant. */
  ghost predicate OnTime(g: Gen, i: seq<Inputs>)
    decreases |i|
  {
    i == [] || (&& g.pending != [] && InOrder(Advanced(g, i[0])) && OnTime(Advanced(g, i[0]), i[1..])
                && var own := OwnInstant(g.pending[0].1, g.cycleStart, g.readNs); own.Some? ==> g.pending[0].0 == own.value)
  }

  /** What a cycle can be held without being told: nothing while an output it has been held before is still
      to move, and before the tap is chosen no more than is left of the read phase it chooses. */
  predicate Bears(s: Spot, i: seq<Inputs>)
    requires |i| == Left(s)
  {
    match s
    case Waiting => true
    case Early(n, d) => (n <= 2 ==> d == 0) && (1 <= n <= 4 ==> SELECT + d <= i[4 - n].speed.ReadPhase(i[4 - n].ilong))
    case Late(m, _, _, e) => m <= 3 ==> e == 0
  }

  /** The rest of a cycle is on time exactly when it bears what it has been held. */
  lemma {:induction false} OnTimeExactly(g: Gen, s: Spot, tse: bool, i: seq<Inputs>)
    requires Stands(g, s, tse) && |i| == Left(s) && forall k :: 0 <= k < |i| ==> !i[k].reset
    ensures OnTime(g, i) <==> Bears(s, i)
    decreases |i|
  {
    hide Advanced, InOrder;
    if i != [] {
      var e := Advance(i[0]);
      NextTransition(g, s, tse, i[0]);
      if TapInTime(s, e) {
        StepStands(g, s, tse, e);
        StandsInOrder(Advanced(g, i[0]), Onward(s, i[0]), tse || s.Late?);
        hide Stands;
        OnTimeExactly(Advanced(g, i[0]), Onward(s, i[0]), tse || s.Late?, i[1..]);
      } else {
        ChosenLate(g, s, tse, e);
      }
    }
  }

  lemma NextTransition(g: Gen, s: Spot, tse: bool, i: Inputs)
    requires Stands(g, s, tse) && Left(s) > 0
    ensures g.pending != [] && Left(Onward(s, i)) == Left(s) - 1
    ensures var own := OwnInstant(g.pending[0].1, g.cycleStart, g.readNs);
            match s
            case Early(n, d) => (own.Some? <==> n <= 2) && (own.Some? ==> (g.pending[0].0 == own.value <==> d == 0))
            case Late(m, j, _, e) => (own.Some? <==> j != Some(0)) && (own.Some? ==> m <= 3 && (g.pending[0].0 == own.value <==> e == 0))
            case Waiting => true
  {
  }

  /** One hold in a cycle not held before: the rest of it is in order, every output at its own instant,
      exactly when the hold falls with no output left to move, or past TPTSE's with the tap not chosen and
      is no longer than what is then left of the read phase. */
  lemma HoldExactly(g: Gen, s: Spot, tse: bool, dt: nat, i: seq<Inputs>)
    requires Stands(g, s, tse) && (s.Early? ==> s.d == 0) && (s.Late? ==> s.d == s.e == 0) && dt > 0
    requires |i| == Left(s) && forall k :: 0 <= k < |i| ==> !i[k].reset
    ensures OnTime(Passed(g, g.time + dt, true), i) <==>
              match s
              case Waiting => true
              case Early(n, _) => n >= 3 && SELECT + dt <= i[4 - n].speed.ReadPhase(i[4 - n].ilong)
              case Late(m, _, _, _) => m == 4
  {
    PassStands(g, s, tse, g.time + dt, true);
    hide Passed;
    OnTimeExactly(Passed(g, g.time + dt, true), HeldFor(s, dt), tse, i);
  }

  function AdvancedAll(g: Gen, i: seq<Inputs>): Gen {
    if i == [] then g else Advanced(AdvancedAll(g, i[..|i| - 1]), i[|i| - 1])
  }

  /** How far `k` transitions of an unheld cycle bring it. */
  function SpotAt(k: nat, r: nat): Spot {
    if k <= 3 then Early(k + 1, 0)
    else if r < 100 then (if k == 4 then Late(0, Some(1), 0, 0) else if k == 5 then Late(1, Some(0), 0, 0) else Late(k - 5, None, 0, 0))
    else if k == 4 then Late(0, Some(0), 0, 0) else Late(k - 5, None, 0, 0)
  }

  /** Within a cycle, `k` transitions bring it `k` on, the tenth last. */
  lemma {:induction false} WithinCycle(g: Gen, tse: bool, i: seq<Inputs>)
    requires Stands(g, Early(1, 0), tse) && |i| <= 9 && forall k :: 0 <= k < |i| ==> !i[k].reset
    ensures var r := if |i| >= 4 then i[3].speed.ReadPhase(i[3].ilong) else 0;
            && Stands(AdvancedAll(g, i), SpotAt(|i|, r), tse || |i| >= 5) && AdvancedAll(g, i).cycleStart == g.cycleStart
            && (|i| >= 4 ==> AdvancedAll(g, i).readNs == r)
    ensures i != [] ==> AdvancedAll(g, i).time > g.cycleStart
  {
    hide Advanced;
    if i != [] {
      var n := |i| - 1;
      WithinCycle(g, tse, i[..n]);
      WithinNext(AdvancedAll(g, i[..n]), tse || n >= 5, n, if n >= 4 then i[3].speed.ReadPhase(i[3].ilong) else 0, i[n]);
    }
  }

  lemma WithinNext(g: Gen, tse: bool, n: nat, r: nat, i: Inputs)
    requires Stands(g, SpotAt(n, r), tse) && n <= 8 && !i.reset && (n >= 4 ==> g.readNs == r && r >= 75)
    ensures var q := if n == 3 then i.speed.ReadPhase(i.ilong) else r;
            && Stands(Advanced(g, i), SpotAt(n + 1, q), tse || n >= 4) && Advanced(g, i).cycleStart == g.cycleStart
            && (n >= 3 ==> Advanced(g, i).readNs == q) && Advanced(g, i).time > g.cycleStart
  {
    hide Stands, Advanced, IsPhase, InPlace;
    var s := SpotAt(n, r);
    TimeOn(g, s, tse, i);
    if n < 3 {
      EarlyAdvance(g, s, tse, i);
    } else if n == 3 {
      SelectAdvance(g, s, tse, i);
    } else {
      LateAdvance(g, s, tse, i);
    }
  }

  lemma TimeOn(g: Gen, s: Spot, tse: bool, i: Inputs)
    requires Stands(g, s, tse) && !s.Waiting? && Left(s) > 0 && !i.reset
    ensures Advanced(g, i).time > g.cycleStart
  {
    hide CycleStarted, TapPicked;
  }

  /** Not held, a cycle is ten transitions, the tenth the first at its start again; it lasts the read
      phase that stood when the tap was chosen and 60 ns more. */
  lemma TenTransitions(g: Gen, tse: bool, i: seq<Inputs>)
    requires Stands(g, Early(1, 0), tse) && g.time == g.cycleStart && |i| == 10
    requires (forall k :: 0 <= k < 10 ==> !i[k].reset) && !i[9].hang
    ensures forall k :: 0 < k < 10 ==> AdvancedAll(g, i[..k]).time != AdvancedAll(g, i[..k]).cycleStart
    ensures var e := AdvancedAll(g, i);
            && Stands(e, Early(1, 0), true)
            && e.time == e.cycleStart == g.cycleStart + i[3].speed.ReadPhase(i[3].ilong) + RESTART_AFTER_READ
  {
    hide Advanced;
    forall k | 0 < k < 10
      ensures AdvancedAll(g, i[..k]).time != AdvancedAll(g, i[..k]).cycleStart
    {
      WithinCycle(g, tse, i[..k]);
    }
    WithinCycle(g, tse, i[..9]);
    var f := AdvancedAll(g, i[..9]);
    StartAdvance(f, Late(4, None, 0, 0), true, i[9]);
  }

  // ---- The generator ----

  class Behavioral {
    var time: nat
    var cycleStart: nat
    var readNs: nat
    var out: Outputs
    var pending: seq<Due>

    function State(): Gen
      reads this
    {
      Gen(time, cycleStart, readNs, out, pending)
    }

    constructor ()
      ensures State() == POWER_ON && Stands(State(), Waiting, false)
    {
      time, cycleStart, readNs, out, pending := 0, 0, 0, LOW, [(0, CycleStart)];
    }

    method Schedule(at: nat, ev: Ev)
      modifies this`pending
      ensures pending == Scheduled(old(pending), at, ev)
    {
      var i := 0;
      while i < |pending| && pending[i].0 <= at
        invariant i <= |pending|
        invariant forall j :: 0 <= j < i ==> pending[j].0 <= at
      {
        i := i + 1;
      }
      Inserted(pending, i, at, ev);
      pending := pending[..i] + [(at, ev)] + pending[i..];
    }

    method StartCycle()
      modifies this
      ensures State() == old(State()).(cycleStart := old(time), pending := CycleStarted(old(pending), old(time)))
    {
      hide Scheduled;
      var t := time;
      cycleStart := t;
      Schedule(t + TSE_OFF, TseOff);
      Schedule(t + TSE_ON, TseOn);
      Schedule(t + TPR60, TprOn);
      Schedule(t + SELECT, Ev.Select);
      Schedule(t + TPR60 + TPR_PULSE, TprOff);
    }

    method PickTap(inputs: Inputs)
      modifies this
      ensures var r := inputs.speed.ReadPhase(inputs.ilong);
              State() == old(State()).(readNs := r, pending := TapPicked(old(pending), old(cycleStart), r))
    {
      hide Scheduled;
      readNs := inputs.speed.ReadPhase(inputs.ilong);
      var t, r := cycleStart, readNs;
      Schedule(t + r, ReadEnd);
      Schedule(t + r + WPIRAM_OFF, WpIramOff);
      Schedule(t + r + WP_ON, WpOn);
      // At the restart's own nanosecond, so that the pulse ends before the clock edge.
      Schedule(t + r + if WP_OFF < RESTART_AFTER_READ then WP_OFF else RESTART_AFTER_READ, WpOff);
      Schedule(t + r + RESTART_AFTER_READ, CycleStart);
    }

    /** To the next transition: how long it took, and the outputs. */
    method AdvanceClock(inputs: Inputs, ghost s: Spot, ghost tse: bool) returns (dt: nat, o: Outputs)
      requires InOrder(State())
      modifies this
      ensures State() == Advanced(old(State()), inputs) && o == out && time == old(time) + dt
      ensures old(Stands(State(), s, tse)) ==>
                (InOrder(State()) <==> TapInTime(s, Advance(inputs)))
                && (InOrder(State()) ==> Stands(State(), Place(old(State()), s, tse, Advance(inputs)).0, Place(old(State()), s, tse, Advance(inputs)).1))
    {
      hide CycleStarted, TapPicked, Stands, Onward;
      if Stands(State(), s, tse) {
        if TapInTime(s, Advance(inputs)) {
          StepStands(State(), s, tse, Advance(inputs));
          StandsInOrder(Advanced(State(), inputs), Place(State(), s, tse, Advance(inputs)).0, Place(State(), s, tse, Advance(inputs)).1);
        } else {
          ChosenLate(State(), s, tse, Advance(inputs));
        }
      }
      if inputs.reset {
        out, pending := LOW, [(time, CycleStart)];
        return 0, out;
      }
      if pending == [] {
        return 0, out;
      }
      var (at, ev) := pending[0];
      if inputs.hang && ev == CycleStart {
        return 0, out;
      }
      pending := pending[1..];
      dt := at - time;
      time := at;
      match ev {
        case CycleStart =>
          out := out.(tpclk := true);
          StartCycle();
        case TseOn => out := out.(tptse := true);
        case TseOff => out := out.(tptse := false);
        case TprOn =>
        case TprOff =>
        case Select =>
          var scheduled := HasRead();
          if !scheduled {
            PickTap(inputs);
          }
        case ReadEnd => out := out.(tpclk := false, tpwpiram := true);
        case WpIramOff => out := out.(tpwpiram := false);
        case WpOn => out := out.(tpwp := true);
        case WpOff => out := out.(tpwp := false);
      }
      o := out;
    }

    method HasRead() returns (found: bool)
      ensures found == Read(pending)
    {
      for k := 0 to |pending|
        invariant forall j :: 0 <= j < k ==> pending[j].1 != ReadEnd
      {
        if pending[k].1 == ReadEnd {
          return true;
        }
      }
      return false;
    }

    /** Time passes with no transition: held, the next moves with it. */
    method PassTime(until: nat, held: bool, ghost s: Spot, ghost tse: bool)
      requires Happens(State(), Pass(until, held))
      modifies this
      ensures State() == Passed(old(State()), until, held)
      ensures old(Stands(State(), s, tse)) ==> Stands(State(), if held then HeldFor(s, until - old(time)) else s, tse)
    {
      hide Stands;
      if Stands(State(), s, tse) {
        PassStands(State(), s, tse, until, held);
      }
      if held {
        var dt := until - time;
        var moved := pending;
        for k := 0 to |moved|
          invariant |moved| == |pending|
          invariant forall j :: 0 <= j < k ==> moved[j] == (pending[j].0 + dt, pending[j].1)
          invariant forall j :: k <= j < |moved| ==> moved[j] == pending[j]
        {
          moved := moved[k := (moved[k].0 + dt, moved[k].1)];
        }
        assert moved == Moved(pending, dt);
        pending := moved;
      }
      time := until;
    }
  }
}
