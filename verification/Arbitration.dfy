/** What every run of the bus interface keeps: one master of the Unibus, one grant out, the
    processor's mastership to the end of its cycle, and what it promised the other machine. */
module Arbitration {
  import opened Netlist
  import opened Oscillator
  import opened Timing
  import opened Unibus

  datatype Event =
    | Edge(now: nat, r: Responder, s: Slaves)
    | Ask(write: bool)
    | Poll(now: nat)
    | Finish
    | DebugAsk(at: nat, req: DebugRequest, r: Responder, s: Slaves)
    | DebugRelease(at: nat)
    | DebugAdvance(now: nat, s: Slaves)
    | Answer(ackAt: nat)
    | TakeOut
    | AttachCable

  /** A cycle is asked for when none is running, and not let go while it waits on the cable. */
  ghost predicate Happens(b: Bus, e: Event) {
    match e
    case Ask(_) => b.phase.Idle?
    case Finish => !b.dbgout.pending
    case Poll(now) => now < NEVER
    case _ => true
  }

  function Step(b: Bus, e: Event): Bus {
    match e
    case Edge(now, r, s) => Edged(b, now, r, s)
    case Ask(write) => b.(phase := Requested, write := write)
    case Poll(now) => Polled(b, now)
    case Finish => Finished(b)
    case DebugAsk(at, req, r, s) => DebugAsked(b, at, req, r, s)
    case DebugRelease(at) => DebugReleased(b, at)
    case DebugAdvance(now, s) => DebugAdvanced(b, now, s)
    case Answer(ackAt) => Answered(b, ackAt)
    case TakeOut => b.(dbgout := b.dbgout.(event := None))
    case AttachCable => b.(dbgout := b.dbgout.(cable := true))
  }

  // ---- One master, one grant ----

  ghost predicate Safe(b: Bus) {
    // The debug master has the bus alone.
    && (IsMaster(b.dbgin.state) ==> !b.unibusMaster)
    // One grant is out.
    && !(LmGrantOut(b.phase) && GrantOut(b.dbgin.state))
    // Whatever is on the cable is there to be served.
    && (!b.dbgin.state.Off? ==> b.dbgin.request.Some?)
    && (b.dbgin.state.DebugGranted? ==> b.dbgin.state.sackAt == b.dbgin.sackAt)
    // A cycle on the cable waits for its answer.
    && (b.dbgout.pending ==> b.phase == Granted(NEVER, NEVER, NEVER, false) && b.dbgout.cable)
    && (b.phase.Arbitrating? ==> 1 <= b.phase.stage <= 5 || b.phase.stage == 7)
  }

  /** What the debug master's own events leave as they find. */
  ghost predicate Advances(b: Bus, r: Bus) {
    && (r.phase == b.phase || (b.phase.Granted? && r.phase.Granted? && !b.dbgout.pending))
    && r.dbgout == b.dbgout && r.timing == b.timing && r.dbgin.sackAt == b.dbgin.sackAt
    && (r.unibusMaster == b.unibusMaster || (!r.unibusMaster && b.memrqUpAt.Some? && b.memrqUpAt.value >= b.dbgin.sackAt && GrantOut(b.dbgin.state)))
    && (r.memrqUpAt == b.memrqUpAt || r.memrqUpAt == None)
    && (GrantOut(r.dbgin.state) ==> r.dbgin.state == b.dbgin.state)
  }

  lemma LatchedSafe(b: Bus)
    requires Safe(b)
    ensures Safe(Latched(b)) && Advances(b, Latched(b))
  {
    hide GatedRise, RiseAfter;
  }

  lemma SetMasterSafe(b: Bus, now: nat, s: Slaves)
    requires Safe(b) && !b.unibusMaster && !b.dbgin.state.Off?
    ensures var r := DebugSetMaster(b, now, s);
            && Safe(r) && r.dbgin.state.Master? && r.dbgin.sackAt == b.dbgin.sackAt
            && r == b.(dbgin := r.dbgin, grantHold := r.grantHold)
  {
    hide DebugAnswer;
  }

  lemma TakenSafe(b: Bus, now: nat, s: Slaves)
    requires Safe(b)
    ensures Safe(Taken(b, now, s)) && Advances(b, Taken(b, now, s))
  {
    hide DebugSetMaster;
    if TakesOver(b, now) {
      var at := b.memrqUpAt.value + if b.dbgin.state.Selected? then 0 else GRANT_WITHDRAW_NS;
      SetMasterSafe(b.(unibusMaster := false, lmNeedUb := false, memrqUpAt := None), at, s);
    }
  }

  lemma SettledSafe(b: Bus, now: nat)
    requires Safe(b)
    ensures Safe(Settled(b, now)) && Advances(b, Settled(b, now))
    ensures Settled(b, now).dbgin.state.Releasing? ==> now < Settled(b, now).dbgin.state.until
    ensures Settled(b, now).unibusMaster == b.unibusMaster && Settled(b, now).memrqUpAt == b.memrqUpAt
  {
    LatchedSafe(b);
    LatchedFacts(b);
    hide Latched;
  }

  lemma LatchedFacts(b: Bus)
    ensures Latched(b).dbgin.state.Off? && Latched(b).unibusMaster == b.unibusMaster && Latched(b).memrqUpAt == b.memrqUpAt
  {
    hide GatedRise, RiseAfter;
  }

  lemma AdvancesTwice(a: Bus, b: Bus, c: Bus)
    requires Advances(a, b) && Advances(b, c) && c.unibusMaster == b.unibusMaster && c.memrqUpAt == b.memrqUpAt
    ensures Advances(a, c)
  {
  }

  lemma AdvancedSafe(b: Bus, now: nat, s: Slaves)
    requires Safe(b)
    ensures Safe(DebugAdvanced(b, now, s)) && Advances(b, DebugAdvanced(b, now, s))
    ensures DebugAdvanced(b, now, s).dbgin.state.Releasing? ==> now < DebugAdvanced(b, now, s).dbgin.state.until
  {
    TakenSafe(b, now, s);
    SettledSafe(Taken(b, now, s), now);
    hide Taken, Settled, Safe;
    AdvancesTwice(b, Taken(b, now, s), Settled(Taken(b, now, s), now));
  }

  /** What the debug master's step at an edge leaves as it finds. */
  ghost predicate DebugSteps(b: Bus, r: Bus, now: nat) {
    && r.unibusMaster == b.unibusMaster && r.memrqUpAt == b.memrqUpAt && r.dbgout == b.dbgout && r.timing == b.timing
    && (r.phase == b.phase || (b.phase.Arbitrating? && b.phase.stage == 3 && r.phase == Arbitrating(2, NEVER)))
    && (GrantOut(r.dbgin.state) ==> (GrantOut(b.dbgin.state) && r.dbgin.sackAt == b.dbgin.sackAt) || r.dbgin.sackAt == now + DEBUG_SELECT_NS)
  }

  lemma DebugEdgeSafe(b: Bus, now: nat, s: Slaves)
    requires Safe(b)
    ensures Safe(DebugEdge(b, now, s)) && DebugSteps(b, DebugEdge(b, now, s), now)
  {
    hide DebugSetMaster, DebugXbusEdge;
    if b.dbgin.state.Master? {
      XbusEdgeKeeps(b.dbgin, Running(b.phase), now, s);
    } else if GrantOut(b.dbgin.state) && !b.unibusMaster {
      SetMasterSafe(b, now, s);
    }
  }

  lemma XbusEdgeKeeps(d: Dbgin, running: bool, now: nat, s: Slaves)
    requires d.state.Master?
    ensures DebugXbusEdge(d, running, now, s).state.Master? && DebugXbusEdge(d, running, now, s).request == d.request
  {
  }

  lemma UnibusGrantedSafe(b: Bus, now: nat, r: Responder, s: Slaves)
    requires Safe(b) && b.phase.Arbitrating?
    ensures var g := UnibusGranted(b, now, r, s);
            && Safe(g) && g == b.(phase := g.phase, grantedAt := g.grantedAt, dbgout := g.dbgout) && g.phase.Granted?
            && (g.dbgout == b.dbgout
                || (r.DebugBlock? && g.dbgout == Dbgout(true, Some(Asked(now + UNIBUS_ADDRESS_NS + DEBUG_OUT_REQUEST_NS, r.strobe)), true, b.timing.Tick(DebugTimeoutAt(now)))))
  {
    hide NxmTimeoutAt, DebugTimeoutAt;
  }

  lemma ArbitrationSafe(b: Bus, now: nat, r: Responder, s: Slaves)
    requires Safe(b) && b.phase.Arbitrating? && (b.dbgin.state.Releasing? ==> now < b.dbgin.state.until)
    ensures Safe(ArbitrationEdge(b, now, r, s))
  {
    hide UnibusGranted;
    if b.phase.stage == 5 {
      UnibusGrantedSafe(b, now, r, s);
      hide Safe;
    }
  }

  lemma SampledSafe(b: Bus, now: nat, s: Slaves)
    requires Safe(b)
    ensures Safe(Sampled(b, now, s)) && (Sampled(b, now, s).dbgin.state.Releasing? ==> now < Sampled(b, now, s).dbgin.state.until)
  {
    hide DebugAdvanced;
    AdvancedSafe(b.(msynDownBeforeEdge := Running(b.phase)), now, s);
  }

  lemma XbusGrantedSafe(b: Bus, now: nat, r: Responder, s: Slaves)
    requires Safe(b) && !b.dbgout.pending
    ensures var g := XbusGranted(b, now, r, s);
            Safe(g) && g.phase.Granted? && g == b.(phase := g.phase, grantedAt := g.grantedAt)
  {
    hide NxmTimeoutAt;
  }

  lemma EdgedSafe(b: Bus, now: nat, r: Responder, s: Slaves)
    requires Safe(b)
    ensures Safe(Edged(b, now, r, s))
  {
    hide Sampled, ArbitrationEdge, XbusGranted, DebugEdge;
    SampledSafe(b, now, s);
    var c := Sampled(b, now, s);
    if c.phase.Requested? {
      if r.OnUnibus() {
        DebugEdgeSafe(c.(phase := Arbitrating(if c.unibusMaster then 4 else 1, NEVER)), now, s);
      } else if !(r.Memory? && s.quick.Some?) {
        XbusGrantedSafe(c, now, r, s);
        DebugEdgeSafe(XbusGranted(c, now, r, s), now, s);
      }
    } else if c.phase.Arbitrating? {
      ArbitrationSafe(c, now, r, s);
      DebugEdgeSafe(ArbitrationEdge(c, now, r, s), now, s);
    } else {
      DebugEdgeSafe(c, now, s);
    }
  }

  lemma ReleasedSafe(b: Bus, at: nat)
    requires Safe(b)
    ensures Safe(DebugReleased(b, at))
  {
    LatchedSafe(b);
    hide Latched;
  }

  /** Whatever befalls it, in whatever order and at whatever instants, the debug master never has
      the bus while the processor does, one grant is out, and a master is always serving a request. */
  lemma StepSafe(b: Bus, e: Event)
    requires Safe(b) && Happens(b, e)
    ensures Safe(Step(b, e))
  {
    hide Edged, DebugAdvanced, DebugReleased;
    match e
    case Edge(now, r, s) => EdgedSafe(b, now, r, s);
    case DebugAsk(at, req, r, s) => AdvancedSafe(b, at, s);
    case DebugRelease(at) => ReleasedSafe(b, at);
    case DebugAdvance(now, s) => AdvancedSafe(b, now, s);
    case _ =>
  }

  // ---- What a step at an edge gives, and to whom ----

  /** The processor's own step. */
  ghost predicate ProcessorGives(b: Bus, r: Bus, now: nat)
    requires b.phase.Arbitrating?
  {
    // Mastership comes past its SACK, or once selected, of a bus the debug master does not hold.
    && (r.unibusMaster && !b.unibusMaster ==>
          ((b.phase.stage == 3 && b.phase.sackAt < now) || b.phase.stage == 7) && !HoldsBbsy(b.dbgin.state, now))
    // A grant goes out with the priority logic not held off, no grant of the debug master's out, and none asked for.
    && (LmGrantOut(r.phase) && !LmGrantOut(b.phase) ==> b.grantHold == 0 && !GrantOut(b.dbgin.state) && !b.dbgin.state.Nprd?)
    // A cycle goes out only from the stage past its mastership.
    && (Running(r.phase) ==> b.phase.stage != 4 && !LmGrantOut(b.phase) && r.unibusMaster == b.unibusMaster)
  }

  lemma ArbitrationGives(b: Bus, now: nat, r: Responder, s: Slaves)
    requires b.phase.Arbitrating?
    ensures ProcessorGives(b, ArbitrationEdge(b, now, r, s), now)
  {
    GrantRuns(b, now, r, s);
    hide UnibusGranted;
  }

  lemma GrantRuns(b: Bus, now: nat, r: Responder, s: Slaves)
    ensures UnibusGranted(b, now, r, s).unibusMaster == b.unibusMaster && UnibusGranted(b, now, r, s).phase.Granted?
  {
    hide UnibusAnswer, DebugTimeoutAt;
  }

  /** The debug master's. */
  ghost predicate DebugGives(b: Bus, r: Bus, now: nat) {
    // It is master only of a bus let go: selected, or its SACK before this edge with no cycle of the processor's running.
    && (r.dbgin.state.Master? && !b.dbgin.state.Master? ==>
          !r.unibusMaster && (b.dbgin.state.Selected? || (b.dbgin.state.DebugGranted? && b.dbgin.sackAt < now && !b.msynDownBeforeEdge)))
    // A grant goes to it with none of the processor's out, or taken from the processor before its SACK.
    && (GrantOut(r.dbgin.state) && !GrantOut(b.dbgin.state) ==>
          !LmGrantOut(r.phase) && r.dbgin.sackAt == now + DEBUG_SELECT_NS
          && (LmGrantOut(b.phase) ==> b.phase.stage == 3 && now <= b.phase.sackAt))
  }

  lemma DebugEdgeGives(b: Bus, now: nat, s: Slaves)
    requires Safe(b)
    ensures DebugGives(b, DebugEdge(b, now, s), now)
  {
    if b.dbgin.state.Master? {
      XbusEdgeKeeps(b.dbgin, Running(b.phase), now, s);
    } else if GrantOut(b.dbgin.state) && !b.unibusMaster {
      SetMasterSafe(b, now, s);
    }
    hide DebugSetMaster, DebugXbusEdge;
  }

  // ---- Time ----

  /** When the last edge was, how far time has come, and whether the cycle running is the Unibus's. */
  datatype Watch = Watch(lastEdge: nat, time: nat, onUnibus: bool)

  /** Edges come in order, `gap` apart, and the bus is not looked at before the time it is. */
  ghost predicate InTime(w: Watch, e: Event, gap: nat) {
    match e
    case Edge(now, _, _) => w.time <= now && w.lastEdge + gap <= now
    case Poll(now) => w.time <= now
    case _ => true
  }

  function Watched(w: Watch, b: Bus, e: Event): Watch {
    match e
    case Edge(now, r, s) => Watch(now, now, if b.phase.Requested? then false else if b.phase.Arbitrating? then true else w.onUnibus)
    case Poll(now) => w.(time := now)
    case _ => w
  }

  // ---- The processor keeps the bus to the end of its cycle ----

  /** Its arbitration won, to its end. */
  ghost predicate HasWon(p: Phase, onUnibus: bool) {
    if p.Arbitrating? then p.stage == 4 || p.stage == 5 else Running(p) && onUnibus
  }

  ghost predicate Kept(b: Bus, w: Watch) {
    && w.lastEdge <= w.time
    && (HasWon(b.phase, w.onUnibus) ==> b.unibusMaster)
    && (GrantOut(b.dbgin.state) ==> b.dbgin.sackAt <= w.lastEdge + DEBUG_SELECT_NS)
    && (b.memrqUpAt.Some? ==> b.memrqUpAt.value <= w.time + MFINISHD_NS)
    && (b.phase.Acked? ==> b.phase.at <= w.time)
    // No cycle of its own is over since the debug master's SACK went up, while one is running.
    && (b.unibusMaster && GrantOut(b.dbgin.state) && b.memrqUpAt.Some? && Busy(b.phase) ==> b.memrqUpAt.value < b.dbgin.sackAt)
  }

  lemma KeptAdvances(b: Bus, r: Bus, w: Watch)
    requires Kept(b, w) && Advances(b, r)
    ensures Kept(r, w)
  {
  }

  lemma KeptSampled(b: Bus, w: Watch, now: nat, s: Slaves)
    requires Safe(b) && Kept(b, w) && w.time <= now && w.lastEdge + DEBUG_SELECT_NS <= now
    ensures var c := Sampled(b, now, s);
            && Kept(c, w.(time := now)) && (c.phase == b.phase || (b.phase.Granted? && c.phase.Granted?))
            && (!Busy(c.phase) && GrantOut(c.dbgin.state) ==> !c.unibusMaster)
  {
    hide DebugAdvanced, Safe;
    var p := b.(msynDownBeforeEdge := Running(b.phase));
    assert Safe(p) by { SafeMsyn(b); }
    AdvancedSafe(p, now, s);
    KeptAdvances(p, DebugAdvanced(p, now, s), w);
    assert Safe(DebugAdvanced(p, now, s));
    SackAgrees(DebugAdvanced(p, now, s));
  }

  lemma SafeMsyn(b: Bus)
    requires Safe(b)
    ensures Safe(b.(msynDownBeforeEdge := Running(b.phase)))
  {
  }

  lemma SackAgrees(b: Bus)
    requires Safe(b)
    ensures b.dbgin.state.DebugGranted? ==> b.dbgin.state.sackAt == b.dbgin.sackAt
    ensures LmGrantOut(b.phase) ==> !GrantOut(b.dbgin.state)
    ensures b.phase.Arbitrating? ==> 1 <= b.phase.stage <= 5 || b.phase.stage == 7
    ensures b.dbgout.pending ==> b.phase == Granted(NEVER, NEVER, NEVER, false) && b.dbgout.cable
  {
  }

  /** The debug master's step at an edge, the processor's own taken. */
  lemma KeptDebugEdge(b: Bus, w: Watch, now: nat, s: Slaves)
    requires Safe(b) && Kept(b, w) && w.time == now && w.lastEdge <= now
    ensures Kept(DebugEdge(b, now, s), w.(lastEdge := now))
  {
    hide DebugEdge, Safe;
    DebugEdgeSafe(b, now, s);
  }

  lemma KeptArbitration(b: Bus, w: Watch, now: nat, r: Responder, s: Slaves)
    requires Safe(b) && Kept(b, w) && b.phase.Arbitrating? && w.time == now
    ensures Kept(ArbitrationEdge(b, now, r, s), w.(onUnibus := true))
  {
    hide UnibusGranted, Safe;
    SackAgrees(b);
    if b.phase.stage == 5 {
      UnibusGrantedSafe(b, now, r, s);
    }
  }

  lemma KeptEdge(b: Bus, w: Watch, now: nat, r: Responder, s: Slaves)
    requires Safe(b) && Kept(b, w) && w.time <= now && w.lastEdge + DEBUG_SELECT_NS <= now
    ensures Kept(Edged(b, now, r, s), Watched(w, b, Edge(now, r, s)))
  {
    hide Sampled, ArbitrationEdge, XbusGranted, DebugEdge, Safe;
    SampledSafe(b, now, s);
    KeptSampled(b, w, now, s);
    var c := Sampled(b, now, s);
    var v := w.(time := now);
    if c.phase.Requested? {
      if r.OnUnibus() {
        var d := c.(phase := Arbitrating(if c.unibusMaster then 4 else 1, NEVER));
        RequestedSafe(c);
        KeptDebugEdge(d, v.(onUnibus := false), now, s);
      } else if !(r.Memory? && s.quick.Some?) {
        RequestedSafe(c);
        XbusGrantedSafe(c, now, r, s);
        KeptDebugEdge(XbusGranted(c, now, r, s), v.(onUnibus := false), now, s);
      }
    } else if c.phase.Arbitrating? {
      ArbitrationSafe(c, now, r, s);
      KeptArbitration(c, v, now, r, s);
      KeptDebugEdge(ArbitrationEdge(c, now, r, s), v.(onUnibus := true), now, s);
    } else {
      KeptDebugEdge(c, v, now, s);
    }
  }

  lemma RequestedSafe(b: Bus)
    requires Safe(b) && b.phase.Requested?
    ensures !b.dbgout.pending && Safe(b.(phase := Arbitrating(if b.unibusMaster then 4 else 1, NEVER)))
  {
  }

  /** With edges at least 100 ns apart and time running forward, the processor has the Unibus from
      the edge that gives it to the end of its cycle, whatever the debug master asks meanwhile. */
  lemma MastershipKept(b: Bus, w: Watch, e: Event)
    requires Safe(b) && Kept(b, w) && Happens(b, e) && InTime(w, e, DEBUG_SELECT_NS)
    ensures Kept(Step(b, e), Watched(w, b, e))
  {
    hide Edged, DebugAdvanced, DebugReleased, Latched, Safe, Advances, Kept, Polled, DebugAsked;
    match e
    case Edge(now, r, s) => KeptEdge(b, w, now, r, s);
    case DebugAsk(at, req, r, s) =>
      AdvancedSafe(b, at, s);
      KeptAdvances(b, DebugAdvanced(b, at, s), w);
      KeptAsked(b, w, at, req, r, s);
    case DebugRelease(at) =>
      LatchedSafe(b);
      KeptAdvances(b, Latched(b), w);
      KeptReleased(b, w, at);
    case DebugAdvance(now, s) =>
      AdvancedSafe(b, now, s);
      KeptAdvances(b, DebugAdvanced(b, now, s), w);
    case Poll(now) =>
      SackAgrees(b);
      KeptPolled(b, w, now);
    case _ =>
      SackAgrees(b);
      KeptOtherwise(b, w, e);
  }

  lemma KeptAsked(b: Bus, w: Watch, at: nat, req: DebugRequest, r: Responder, s: Slaves)
    requires Kept(DebugAdvanced(b, at, s), w)
    ensures Kept(DebugAsked(b, at, req, r, s), w)
  {
    hide DebugAdvanced;
  }

  lemma KeptReleased(b: Bus, w: Watch, at: nat)
    requires Kept(b, w) && Kept(Latched(b), w)
    ensures Kept(DebugReleased(b, at), w)
  {
    hide Latched;
  }

  lemma KeptPolled(b: Bus, w: Watch, now: nat)
    requires Kept(b, w) && w.time <= now && (b.dbgout.pending ==> b.phase == Granted(NEVER, NEVER, NEVER, false) && b.dbgout.cable)
    ensures Kept(Polled(b, now), w.(time := now))
  {
  }

  lemma KeptOtherwise(b: Bus, w: Watch, e: Event)
    requires Kept(b, w) && Happens(b, e) && (e.Ask? || e.Finish? || e.Answer? || e.TakeOut? || e.AttachCable?)
    requires b.dbgout.pending ==> b.phase == Granted(NEVER, NEVER, NEVER, false) && b.dbgout.cable
    ensures Kept(Step(b, e), w)
  {
  }

  // ---- What the other machine is promised ----

  /** The event a step puts on the cable, if it puts one. */
  function Made(b: Bus, e: Event): Option<DebugOut> {
    match e
    case Edge(now, r, s) => (if Step(b, e).dbgout == b.dbgout then None else Step(b, e).dbgout.event)
    case Poll(now) => if b.dbgout.pending && now >= b.dbgout.timeoutAt then Step(b, e).dbgout.event else None
    case _ => None
  }

  function MadeAt(o: DebugOut): nat { o.at }

  /** How many edges away the one that could grant a debug cycle is, at the least. */
  function EdgesOff(p: Phase): nat {
    if p.Arbitrating? && p.stage == 5 then 1 else if p.Arbitrating? && (p.stage == 4 || p.stage == 7) then 2 else 3
  }

  /** The earliest a new request can be dated. */
  function Soonest(b: Bus, w: Watch): nat {
    var next := if w.lastEdge + FAST_CYCLE_NS < w.time then w.time else w.lastEdge + FAST_CYCLE_NS;
    next + FAST_CYCLE_NS * (EdgesOff(b.phase) - 1) + UNIBUS_ADDRESS_NS + DEBUG_OUT_REQUEST_NS
  }

  /** The release at the timeout of a request out. */
  function ReleasedAt(b: Bus): nat { b.dbgout.timeoutAt + UNIBUS_STROBE_NS }

  /** The earliest a new event can be dated, a request out not being answered. */
  function Earliest(b: Bus, w: Watch): nat { if b.dbgout.pending then ReleasedAt(b) else Soonest(b, w) }

  /** No event can be dated before `l`, answered or not. */
  ghost predicate NoSooner(b: Bus, w: Watch, l: nat) { l <= Soonest(b, w) && (b.dbgout.pending ==> l <= ReleasedAt(b)) }

  /** The steps of a processor's cycle at an edge, and what it puts on the cable. */
  ghost predicate StepsOn(b: Bus, r: Bus, now: nat) {
    && r.timing == b.timing
    && (r.dbgout == b.dbgout ==> r.dbgout.pending || EdgesOff(b.phase) <= EdgesOff(r.phase) + 1)
    && (r.dbgout != b.dbgout ==>
          && EdgesOff(b.phase) == 1 && !b.dbgout.pending && r.dbgout.pending
          && r.dbgout.event.Some? && MadeAt(r.dbgout.event.value) == now + UNIBUS_ADDRESS_NS + DEBUG_OUT_REQUEST_NS
          && r.dbgout.timeoutAt >= now + 13 * VCO_NS)
  }

  lemma ArbitrationSteps(b: Bus, now: nat, r: Responder, s: Slaves)
    requires Safe(b) && b.phase.Arbitrating?
    ensures StepsOn(b, ArbitrationEdge(b, now, r, s), now)
  {
    SackAgrees(b);
    if b.phase.stage == 5 {
      UnibusGrantedSafe(b, now, r, s);
      TimeoutWithin(now);
      PendingGranted(b, now, r, s);
    }
    hide UnibusGranted, Safe, DebugTimeoutAt;
  }

  lemma PendingGranted(b: Bus, now: nat, r: Responder, s: Slaves)
    ensures UnibusGranted(b, now, r, s).timing == b.timing
  {
    hide DebugTimeoutAt, UnibusAnswer;
  }

  lemma EdgeSteps(b: Bus, now: nat, r: Responder, s: Slaves)
    requires Safe(b)
    ensures StepsOn(b, Edged(b, now, r, s), now)
  {
    hide Sampled, ArbitrationEdge, XbusGranted, DebugEdge, Safe;
    SampledSafe(b, now, s);
    SampledSteps(b, now, s);
    SackAgrees(b);
    var c := Sampled(b, now, s);
    SackAgrees(c);
    if c.phase.Requested? {
      if r.OnUnibus() {
        RequestedSafe(c);
        DebugEdgeSafe(c.(phase := Arbitrating(if c.unibusMaster then 4 else 1, NEVER)), now, s);
      } else if !(r.Memory? && s.quick.Some?) {
        RequestedSafe(c);
        XbusGrantedSafe(c, now, r, s);
        DebugEdgeSafe(XbusGranted(c, now, r, s), now, s);
      }
    } else if c.phase.Arbitrating? {
      ArbitrationSafe(c, now, r, s);
      ArbitrationSteps(c, now, r, s);
      DebugEdgeSafe(ArbitrationEdge(c, now, r, s), now, s);
    } else {
      DebugEdgeSafe(c, now, s);
    }
  }

  lemma SampledSteps(b: Bus, now: nat, s: Slaves)
    requires Safe(b)
    ensures var c := Sampled(b, now, s);
            && (c.phase == b.phase || (b.phase.Granted? && c.phase.Granted?)) && c.dbgout == b.dbgout && c.timing == b.timing
  {
    hide DebugAdvanced, Safe;
    SafeMsyn(b);
    AdvancedSafe(b.(msynDownBeforeEdge := Running(b.phase)), now, s);
  }

  lemma EarliestEdge(b: Bus, w: Watch, now: nat, r: Responder, s: Slaves)
    requires Safe(b) && w.time <= now && w.lastEdge + FAST_CYCLE_NS <= now
    ensures var e := Edge(now, r, s);
            && (Made(b, e).Some? ==> MadeAt(Made(b, e).value) >= Earliest(b, w))
            && Earliest(Step(b, e), Watched(w, b, e)) >= Earliest(b, w)
  {
    hide Edged, Safe;
    SackAgrees(b);
    EdgeSteps(b, now, r, s);
  }

  lemma EarliestPoll(b: Bus, w: Watch, now: nat)
    requires Safe(b) && w.time <= now && now < NEVER
    ensures Made(b, Poll(now)).Some? ==> MadeAt(Made(b, Poll(now)).value) >= Earliest(b, w)
    ensures Earliest(Step(b, Poll(now)), Watched(w, b, Poll(now))) >= Earliest(b, w)
  {
    hide Safe, Edged;
    SackAgrees(b);
  }

  /** Nothing else makes an event, or brings one nearer. */
  lemma EarliestAdvances(b: Bus, r: Bus, w: Watch)
    requires Safe(b) && Advances(b, r)
    ensures Earliest(r, w) >= Earliest(b, w)
  {
    SackAgrees(b);
    hide Safe;
  }

  lemma NoSoonerEdge(b: Bus, w: Watch, l: nat, now: nat, r: Responder, s: Slaves)
    requires Safe(b) && w.time <= now && w.lastEdge + FAST_CYCLE_NS <= now && NoSooner(b, w, l)
    ensures var e := Edge(now, r, s);
            (Made(b, e).Some? ==> l <= MadeAt(Made(b, e).value)) && NoSooner(Step(b, e), Watched(w, b, e), l)
  {
    hide Edged, Safe;
    SackAgrees(b);
    EdgedSafe(b, now, r, s);
    SackAgrees(Edged(b, now, r, s));
    EdgeSteps(b, now, r, s);
  }

  /** Whatever a step is, an answer taken among them, it makes no event sooner than could be, and
      none can be sooner after it. */
  lemma NoSoonerHolds(b: Bus, w: Watch, l: nat, e: Event)
    requires Safe(b) && Happens(b, e) && InTime(w, e, FAST_CYCLE_NS) && w.lastEdge <= w.time && NoSooner(b, w, l)
    ensures Made(b, e).Some? ==> l <= MadeAt(Made(b, e).value)
    ensures NoSooner(Step(b, e), Watched(w, b, e), l)
  {
    hide Edged, Safe, NoSooner, Step, Made, Watched;
    match e
    case Edge(now, r, s) => NoSoonerEdge(b, w, l, now, r, s);
    case Poll(now) => NoSoonerPoll(b, w, l, now);
    case DebugAsk(_, _, _, _) => NoSoonerDebug(b, w, l, e);
    case DebugRelease(_) => NoSoonerDebug(b, w, l, e);
    case DebugAdvance(_, _) => NoSoonerDebug(b, w, l, e);
    case _ => NoSoonerOther(b, w, l, e);
  }

  /** The debug master's events. */
  lemma NoSoonerDebug(b: Bus, w: Watch, l: nat, e: Event)
    requires Safe(b) && Happens(b, e) && InTime(w, e, FAST_CYCLE_NS) && w.lastEdge <= w.time && NoSooner(b, w, l)
    requires e.DebugAsk? || e.DebugRelease? || e.DebugAdvance?
    ensures Made(b, e) == None && NoSooner(Step(b, e), Watched(w, b, e), l)
  {
    hide Edged, DebugAdvanced, Latched, Safe, Advances;
    match e
    case DebugAsk(at, req, r, s) =>
      AdvancedSafe(b, at, s);
      NoSoonerAdvances(b, DebugAdvanced(b, at, s), w, l);
    case DebugRelease(at) =>
      LatchedSafe(b);
      NoSoonerAdvances(b, Latched(b), w, l);
    case DebugAdvance(now, s) =>
      AdvancedSafe(b, now, s);
      NoSoonerAdvances(b, DebugAdvanced(b, now, s), w, l);
  }

  lemma NoSoonerOther(b: Bus, w: Watch, l: nat, e: Event)
    requires Safe(b) && Happens(b, e) && InTime(w, e, FAST_CYCLE_NS) && w.lastEdge <= w.time && NoSooner(b, w, l)
    requires !e.Edge? && !e.Poll? && !e.DebugAsk? && !e.DebugRelease? && !e.DebugAdvance?
    ensures Made(b, e) == None && NoSooner(Step(b, e), Watched(w, b, e), l)
  {
    hide Safe;
    SackAgrees(b);
  }

  lemma NoSoonerPoll(b: Bus, w: Watch, l: nat, now: nat)
    requires Safe(b) && now < NEVER && w.time <= now && NoSooner(b, w, l)
    ensures Made(b, Poll(now)).Some? ==> l <= MadeAt(Made(b, Poll(now)).value)
    ensures NoSooner(Step(b, Poll(now)), Watched(w, b, Poll(now)), l)
  {
    hide Safe, Edged;
    SackAgrees(b);
  }

  lemma NoSoonerAdvances(b: Bus, r: Bus, w: Watch, l: nat)
    requires Safe(b) && Advances(b, r) && NoSooner(b, w, l)
    ensures NoSooner(r, w, l)
  {
  }

  /** Until an answer is taken, every event a step makes is dated no earlier than the earliest it
      could be, and that never falls. */
  lemma EarliestHolds(b: Bus, w: Watch, e: Event)
    requires Safe(b) && Happens(b, e) && InTime(w, e, FAST_CYCLE_NS) && w.lastEdge <= w.time
    requires !(e.Answer? && AnswerTaken(b, e.ackAt))
    ensures Made(b, e).Some? ==> MadeAt(Made(b, e).value) >= Earliest(b, w)
    ensures Earliest(Step(b, e), Watched(w, b, e)) >= Earliest(b, w)
  {
    hide Edged, Safe, Earliest, Step, Made, Watched;
    match e
    case Edge(now, r, s) => EarliestEdge(b, w, now, r, s);
    case Poll(now) => EarliestPoll(b, w, now);
    case DebugAsk(_, _, _, _) => EarliestDebug(b, w, e);
    case DebugRelease(_) => EarliestDebug(b, w, e);
    case DebugAdvance(_, _) => EarliestDebug(b, w, e);
    case _ => EarliestOther(b, w, e);
  }

  lemma EarliestDebug(b: Bus, w: Watch, e: Event)
    requires Safe(b) && Happens(b, e) && InTime(w, e, FAST_CYCLE_NS) && w.lastEdge <= w.time
    requires e.DebugAsk? || e.DebugRelease? || e.DebugAdvance?
    ensures Made(b, e) == None && Earliest(Step(b, e), Watched(w, b, e)) >= Earliest(b, w)
  {
    hide Edged, DebugAdvanced, Latched, Safe, Advances;
    match e
    case DebugAsk(at, req, r, s) =>
      AdvancedSafe(b, at, s);
      EarliestAdvances(b, DebugAdvanced(b, at, s), w);
    case DebugRelease(at) =>
      LatchedSafe(b);
      EarliestAdvances(b, Latched(b), w);
    case DebugAdvance(now, s) =>
      AdvancedSafe(b, now, s);
      EarliestAdvances(b, DebugAdvanced(b, now, s), w);
  }

  lemma EarliestOther(b: Bus, w: Watch, e: Event)
    requires Safe(b) && Happens(b, e) && InTime(w, e, FAST_CYCLE_NS) && w.lastEdge <= w.time
    requires !e.Edge? && !e.Poll? && !e.DebugAsk? && !e.DebugRelease? && !e.DebugAdvance?
    requires !(e.Answer? && AnswerTaken(b, e.ackAt))
    ensures Made(b, e) == None && Earliest(Step(b, e), Watched(w, b, e)) >= Earliest(b, w)
  {
    hide Safe;
    SackAgrees(b);
  }

  /** Asked at an edge already taken, the promise is no later than the earliest. */
  lemma PromiseIsEarly(b: Bus, w: Watch)
    requires w.time == w.lastEdge
    ensures Promise(b, w.lastEdge) <= Earliest(b, w)
  {
  }

  // ---- Whole runs ----

  ghost predicate RunHappens(b: Bus, w: Watch, run: seq<Event>, gap: nat)
    decreases |run|
  {
    run == [] || (Happens(b, run[0]) && InTime(w, run[0], gap) && RunHappens(Step(b, run[0]), Watched(w, b, run[0]), run[1..], gap))
  }

  /** A request out at the start is not answered, but may be given up on; others may be. */
  ghost predicate Unanswered(b: Bus, run: seq<Event>)
    decreases |run|
  {
    !b.dbgout.pending || run == [] || (!(run[0].Answer? && AnswerTaken(b, run[0].ackAt)) && Unanswered(Step(b, run[0]), run[1..]))
  }

  /** The dates of the events a run puts on the cable. */
  function Dates(b: Bus, run: seq<Event>): seq<nat>
    decreases |run|
  {
    if run == [] then []
    else
      var rest := Dates(Step(b, run[0]), run[1..]);
      match Made(b, run[0])
      case Some(o) => [MadeAt(o)] + rest
      case None => rest
  }

  ghost predicate AllFrom(l: nat, dates: seq<nat>) { forall i :: 0 <= i < |dates| ==> l <= dates[i] }

  /** Whatever follows an edge at which the promise is asked, with edges at least 135 ns apart, no
      event is dated before it; a request out then is not answered, but any after it may be. */
  lemma PromiseKept(b: Bus, w: Watch, run: seq<Event>)
    requires Safe(b) && w.time == w.lastEdge && RunHappens(b, w, run, FAST_CYCLE_NS)
    requires b.dbgout.pending ==> Unanswered(b, run)
    ensures AllFrom(Promise(b, w.lastEdge), Dates(b, run))
  {
    PromiseIsEarly(b, w);
    DatesUnanswered(b, w, Promise(b, w.lastEdge), run);
  }

  /** A request out, nothing of it answered. */
  lemma {:induction false} DatesUnanswered(b: Bus, w: Watch, l: nat, run: seq<Event>)
    requires Safe(b) && w.lastEdge <= w.time && RunHappens(b, w, run, FAST_CYCLE_NS) && Unanswered(b, run) && l <= Earliest(b, w)
    ensures AllFrom(l, Dates(b, run))
    decreases |run|
  {
    hide Safe, Step, Soonest, Made, Happens, AnswerTaken;
    if !b.dbgout.pending {
      DatesNoSooner(b, w, l, run);
    } else if run != [] {
      EarliestHolds(b, w, run[0]);
      StepSafe(b, run[0]);
      WatchMoves(b, w, run[0]);
      DatesUnanswered(Step(b, run[0]), Watched(w, b, run[0]), l, run[1..]);
    }
  }

  lemma WatchMoves(b: Bus, w: Watch, e: Event)
    requires w.lastEdge <= w.time && InTime(w, e, FAST_CYCLE_NS)
    ensures Watched(w, b, e).lastEdge <= Watched(w, b, e).time
  {
  }

  lemma {:induction false} DatesNoSooner(b: Bus, w: Watch, l: nat, run: seq<Event>)
    requires Safe(b) && w.lastEdge <= w.time && RunHappens(b, w, run, FAST_CYCLE_NS) && NoSooner(b, w, l)
    ensures AllFrom(l, Dates(b, run))
    decreases |run|
  {
    hide Safe, Step, NoSooner, Made, Happens;
    if run != [] {
      NoSoonerHolds(b, w, l, run[0]);
      StepSafe(b, run[0]);
      WatchMoves(b, w, run[0]);
      DatesNoSooner(Step(b, run[0]), Watched(w, b, run[0]), l, run[1..]);
    }
  }

  // ---- A request out, answered ----

  /** Slaves of no concern to a debug cycle. */
  function NoSlaves(): Slaves { Slaves((u, write, msyn) => None, (r, at) => at, None) }

  /** The request out answered as soon as it can be, its cycle ended at the next edge, and the next
      debug cycle asked for and granted at the fastest. */
  function AnsweredRun(w: Watch): seq<Event>
    requires UNIBUS_ACK_NS <= w.lastEdge
  {
    var e := w.lastEdge + FAST_CYCLE_NS;
    [Answer(e - UNIBUS_ACK_NS), Poll(e), Finish, Ask(false),
     Edge(e, DebugBlock(0), NoSlaves()), Edge(e + FAST_CYCLE_NS, DebugBlock(0), NoSlaves()),
     Edge(e + 2 * FAST_CYCLE_NS, DebugBlock(0), NoSlaves())]
  }

  lemma OneStep(b: Bus, w: Watch, run: seq<Event>, gap: nat)
    requires run != [] && Happens(b, run[0]) && InTime(w, run[0], gap)
    ensures RunHappens(Step(b, run[0]), Watched(w, b, run[0]), run[1..], gap) ==> RunHappens(b, w, run, gap)
    ensures var rest := Dates(Step(b, run[0]), run[1..]);
            Dates(b, run) == (match Made(b, run[0]) case Some(o) => [MadeAt(o)] case None => []) + rest
  {
  }

  /** The processor has the bus, nothing of the other machine's on it, and a debug cycle of its own
      waits on the cable. */
  ghost predicate WaitsAlone(b: Bus, w: Watch) {
    && Safe(b) && Kept(b, w) && b.dbgout.pending && w.onUnibus && b.dbgin.state.Off?
    && w.time == w.lastEdge && UNIBUS_ACK_NS <= w.lastEdge && b.dbgout.timeoutAt < NEVER - UNIBUS_STROBE_NS
  }

  /** An edge takes an asking cycle on, when nothing of the other machine's is on the bus. */
  lemma EdgeAlone(b: Bus, now: nat, s: Slaves)
    requires Safe(b) && b.dbgin.state.Off? && b.unibusMaster
    requires b.phase.Requested? || (b.phase.Arbitrating? && (b.phase.stage == 4 || b.phase.stage == 5))
    ensures var r := Edged(b, now, DebugBlock(0), s);
            && r.dbgin.state.Off? && r.unibusMaster
            && (b.phase.Requested? ==> r.phase == Arbitrating(4, NEVER) && r.dbgout == b.dbgout)
            && (b.phase.Arbitrating? && b.phase.stage == 4 ==> r.phase == Arbitrating(5, b.phase.sackAt) && r.dbgout == b.dbgout)
            && (b.phase.Arbitrating? && b.phase.stage == 5 && b.dbgout.cable ==>
                  r.dbgout.pending && r.dbgout.event == Some(Asked(now + UNIBUS_ADDRESS_NS + DEBUG_OUT_REQUEST_NS, 0)))
  {
    hide NxmTimeoutAt, DebugTimeoutAt;
  }

  /** That run's one event is dated a cycle and two edges on. */
  lemma AnsweredDates(b: Bus, w: Watch)
    requires WaitsAlone(b, w) && w.lastEdge + FAST_CYCLE_NS < b.dbgout.timeoutAt
    ensures RunHappens(b, w, AnsweredRun(w), FAST_CYCLE_NS)
    ensures Dates(b, AnsweredRun(w)) == [Soonest(b, w)]
  {
    hide Step, Made, Watched, Happens, InTime, Soonest, Safe, Kept, Dates, RunHappens, AnsweredRun;
    AnsweredIs(w);
    AnsweredCycle(b, w);
    var run := AnsweredRun(w);
    var b1, w1 := Step(b, run[0]), Watched(w, b, run[0]);
    var b2, w2 := Step(b1, run[1]), Watched(w1, b1, run[1]);
    var b3, w3 := Step(b2, run[2]), Watched(w2, b2, run[2]);
    SilentStep(b, w, run[0], run[1..], FAST_CYCLE_NS);
    SilentStep(b1, w1, run[1], run[2..], FAST_CYCLE_NS);
    SilentStep(b2, w2, run[2], run[3..], FAST_CYCLE_NS);
    SilentStep(b3, w3, run[3], run[4..], FAST_CYCLE_NS);
    AskedDates(Step(b3, run[3]), Watched(w3, b3, run[3]), run[4..], w.lastEdge + FAST_CYCLE_NS);
  }

  lemma AnsweredIs(w: Watch)
    requires UNIBUS_ACK_NS <= w.lastEdge
    ensures var run, e := AnsweredRun(w), w.lastEdge + FAST_CYCLE_NS;
            && |run| == 7 && run == [run[0]] + run[1..] && run[1..] == [run[1]] + run[2..]
            && run[2..] == [run[2]] + run[3..] && run[3..] == [run[3]] + run[4..]
            && run[4..] == [Edge(e, DebugBlock(0), NoSlaves()), Edge(e + FAST_CYCLE_NS, DebugBlock(0), NoSlaves()),
                            Edge(e + 2 * FAST_CYCLE_NS, DebugBlock(0), NoSlaves())]
  {
  }

  /** A step that makes nothing of the promised, first in a run. */
  lemma SilentStep(b: Bus, w: Watch, e: Event, rest: seq<Event>, gap: nat)
    requires Happens(b, e) && InTime(w, e, gap) && Made(b, e) == None
    ensures RunHappens(Step(b, e), Watched(w, b, e), rest, gap) ==> RunHappens(b, w, [e] + rest, gap)
    ensures Dates(b, [e] + rest) == Dates(Step(b, e), rest)
  {
    hide Step, Made, Watched, Happens, InTime;
    assert ([e] + rest)[1..] == rest;
    OneStep(b, w, [e] + rest, gap);
  }

  /** The answer, the end of the cycle it answers, and the next asked for. */
  lemma AnsweredCycle(b: Bus, w: Watch)
    requires WaitsAlone(b, w) && w.lastEdge + FAST_CYCLE_NS < b.dbgout.timeoutAt
    ensures var run, g := AnsweredRun(w), FAST_CYCLE_NS;
            var b1, w1 := Step(b, run[0]), Watched(w, b, run[0]);
            var b2, w2 := Step(b1, run[1]), Watched(w1, b1, run[1]);
            var b3, w3 := Step(b2, run[2]), Watched(w2, b2, run[2]);
            var b4, w4 := Step(b3, run[3]), Watched(w3, b3, run[3]);
            && Happens(b, run[0]) && InTime(w, run[0], g) && Made(b, run[0]) == None
            && Happens(b1, run[1]) && InTime(w1, run[1], g) && Made(b1, run[1]) == None
            && Happens(b2, run[2]) && InTime(w2, run[2], g) && Made(b2, run[2]) == None
            && Happens(b3, run[3]) && InTime(w3, run[3], g) && Made(b3, run[3]) == None
            && Safe(b4) && b4.phase.Requested? && b4.unibusMaster && b4.dbgin.state.Off? && b4.dbgout.cable && !b4.dbgout.pending
            && w4.time == w4.lastEdge + g == w.lastEdge + g
            && Soonest(b, w) == w.lastEdge + 3 * g + UNIBUS_ADDRESS_NS + DEBUG_OUT_REQUEST_NS
  {
    hide Edged, Safe;
    SackAgrees(b);
    AnsweredSafe(b, AnsweredRun(w));
  }

  lemma AnsweredSafe(b: Bus, run: seq<Event>)
    requires Safe(b) && |run| >= 4 && run[0].Answer? && run[1].Poll? && run[1].now < NEVER && run[2].Finish? && run[3].Ask?
    requires AnswerTaken(b, run[0].ackAt)
    ensures Safe(Step(Step(Step(Step(b, run[0]), run[1]), run[2]), run[3]))
  {
  }

  /** A debug cycle asked for, granted at the third edge on. */
  lemma AskedDates(b: Bus, w: Watch, run: seq<Event>, e: nat)
    requires Safe(b) && b.phase.Requested? && b.unibusMaster && b.dbgin.state.Off? && b.dbgout.cable && !b.dbgout.pending
    requires w.time <= e && w.lastEdge + FAST_CYCLE_NS <= e
    requires run == [Edge(e, DebugBlock(0), NoSlaves()), Edge(e + FAST_CYCLE_NS, DebugBlock(0), NoSlaves()),
                     Edge(e + 2 * FAST_CYCLE_NS, DebugBlock(0), NoSlaves())]
    ensures RunHappens(b, w, run, FAST_CYCLE_NS)
    ensures Dates(b, run) == [e + 2 * FAST_CYCLE_NS + UNIBUS_ADDRESS_NS + DEBUG_OUT_REQUEST_NS]
  {
    hide Edged, Safe;
    var s := NoSlaves();
    OneStep(b, w, run, FAST_CYCLE_NS);
    EdgeAlone(b, e, s);
    StepSafe(b, run[0]);
    var b1, w1, r1 := Step(b, run[0]), Watched(w, b, run[0]), run[1..];
    OneStep(b1, w1, r1, FAST_CYCLE_NS);
    EdgeAlone(b1, r1[0].now, s);
    StepSafe(b1, r1[0]);
    var b2, w2, r2 := Step(b1, r1[0]), Watched(w1, b1, r1[0]), r1[1..];
    OneStep(b2, w2, r2, FAST_CYCLE_NS);
    EdgeAlone(b2, r2[0].now, s);
    assert r2[1..] == [];
  }

  /** A promise asked with a request out holds over every run, answers and all, exactly when the
      request's release is no later than a next request could be, had this one been answered. */
  lemma PromiseOutExactly(b: Bus, w: Watch)
    requires WaitsAlone(b, w)
    ensures (forall run :: RunHappens(b, w, run, FAST_CYCLE_NS) ==> AllFrom(Promise(b, w.lastEdge), Dates(b, run)))
       <==> ReleasedAt(b) <= w.lastEdge + 3 * FAST_CYCLE_NS + UNIBUS_ADDRESS_NS + DEBUG_OUT_REQUEST_NS
  {
    SackAgrees(b);
    assert Promise(b, w.lastEdge) == ReleasedAt(b) && Soonest(b, w) == w.lastEdge + 3 * FAST_CYCLE_NS + UNIBUS_ADDRESS_NS + DEBUG_OUT_REQUEST_NS;
    if ReleasedAt(b) <= Soonest(b, w) {
      forall run | RunHappens(b, w, run, FAST_CYCLE_NS)
        ensures AllFrom(Promise(b, w.lastEdge), Dates(b, run))
      {
        DatesNoSooner(b, w, Promise(b, w.lastEdge), run);
      }
    } else {
      AnsweredDates(b, w);
      assert Dates(b, AnsweredRun(w))[0] < Promise(b, w.lastEdge);
    }
  }

  /** From power on, a cable plugged in, the processor's first debug cycle asked for and granted. */
  function FirstCycle(): seq<Event> { [AttachCable, Ask(false)] + FirstEdges(0) }

  function FirstEdges(k: nat): seq<Event>
    decreases 6 - k
  {
    if k >= 6 then [] else [Edge(1000 + 400 * k, DebugBlock(0), NoSlaves())] + FirstEdges(k + 1)
  }

  lemma Onward(b: Bus, w: Watch, e: Event, rest: seq<Event>)
    requires Safe(b) && Kept(b, w) && Happens(b, e) && InTime(w, e, FAST_CYCLE_NS)
    ensures Safe(Step(b, e)) && Kept(Step(b, e), Watched(w, b, e))
    ensures RunHappens(Step(b, e), Watched(w, b, e), rest, FAST_CYCLE_NS) ==> RunHappens(b, w, [e] + rest, FAST_CYCLE_NS)
    ensures Ran(b, [e] + rest) == Ran(Step(b, e), rest) && Seen(w, b, [e] + rest) == Seen(Watched(w, b, e), Step(b, e), rest)
  {
    StepSafe(b, e);
    MastershipKept(b, w, e);
    assert ([e] + rest)[1..] == rest;
    hide Safe, Step, Kept, Watched;
  }

  /** Where the first cycle is before edge `k`. */
  ghost predicate FirstAt(b: Bus, w: Watch, k: nat, m: TimingModel) {
    && Safe(b) && Kept(b, w) && b.dbgin.state.Off? && b.dbgout.cable && b.timing == m
    && w.lastEdge == w.time && w.time <= 600 + 400 * k && (k > 0 ==> w.time == 600 + 400 * k)
    && (k < 4 ==> b.grantHold == 0 && !b.unibusMaster)
    && (4 <= k ==> b.unibusMaster && w.onUnibus)
    && (k < 6 ==> !b.dbgout.pending)
    && (match k
        case 0 => b.phase.Requested?
        case 1 => b.phase == Arbitrating(1, NEVER)
        case 2 => b.phase == Arbitrating(2, NEVER)
        case 3 => b.phase == Arbitrating(3, 2000)
        case 4 => b.phase == Arbitrating(4, 2000)
        case 5 => b.phase == Arbitrating(5, 2000)
        case _ => b.dbgout.pending && b.dbgout.timeoutAt == m.Tick(DebugTimeoutAt(3000)))
  }

  lemma FirstEdge(b: Bus, w: Watch, k: nat, m: TimingModel)
    requires k < 6 && FirstAt(b, w, k, m)
    ensures var e := Edge(1000 + 400 * k, DebugBlock(0), NoSlaves());
            Happens(b, e) && InTime(w, e, FAST_CYCLE_NS) && FirstAt(Step(b, e), Watched(w, b, e), k + 1, m)
  {
    var e := Edge(1000 + 400 * k, DebugBlock(0), NoSlaves());
    StepSafe(b, e);
    MastershipKept(b, w, e);
    hide NxmTimeoutAt, DebugTimeoutAt, Safe, Kept;
  }

  lemma {:induction false} FirstRuns(b: Bus, w: Watch, k: nat, m: TimingModel)
    requires k <= 6 && FirstAt(b, w, k, m)
    ensures RunHappens(b, w, FirstEdges(k), FAST_CYCLE_NS)
    ensures FirstAt(Ran(b, FirstEdges(k)), Seen(w, b, FirstEdges(k)), 6, m)
    decreases 6 - k
  {
    if k < 6 {
      hide FirstAt, Step, Watched, Happens, InTime, RunHappens, Ran, Seen, Safe, Kept;
      FirstEdge(b, w, k, m);
      var e := Edge(1000 + 400 * k, DebugBlock(0), NoSlaves());
      assert Safe(b) && Kept(b, w) by { FirstIsKept(b, w, k, m); }
      Onward(b, w, e, FirstEdges(k + 1));
      FirstRuns(Step(b, e), Watched(w, b, e), k + 1, m);
    }
  }

  lemma FirstIsKept(b: Bus, w: Watch, k: nat, m: TimingModel)
    requires FirstAt(b, w, k, m)
    ensures Safe(b) && Kept(b, w)
  {
  }

  lemma FirstWaits(b: Bus, w: Watch, m: TimingModel)
    requires FirstAt(b, w, 6, m)
    ensures WaitsAlone(b, w) && Soonest(b, w) < Promise(b, w.lastEdge)
  {
    TimeoutWithin(3000);
    SackAgrees(b);
    hide DebugTimeoutAt, Safe, Kept;
  }

  lemma FirstStarts(m: TimingModel)
    ensures var b, w := PowerOn(m), Watch(0, 0, false);
            && Safe(b) && Kept(b, w) && Happens(Step(b, AttachCable), Ask(false))
            && FirstAt(Step(Step(b, AttachCable), Ask(false)), w, 0, m)
  {
  }

  /** Its grant puts a request out whose promise, asked there and then, an answer outlives. */
  lemma FirstPromiseOutlived(m: TimingModel)
    ensures var b, w := Ran(PowerOn(m), FirstCycle()), Seen(Watch(0, 0, false), PowerOn(m), FirstCycle());
            && RunHappens(PowerOn(m), Watch(0, 0, false), FirstCycle(), FAST_CYCLE_NS)
            && WaitsAlone(b, w) && Soonest(b, w) < Promise(b, w.lastEdge)
  {
    var w := Watch(0, 0, false);
    var b := PowerOn(m);
    FirstStarts(m);
    assert FirstCycle() == [AttachCable] + ([Ask(false)] + FirstEdges(0));
    hide FirstAt, FirstCycle, FirstEdges, WaitsAlone, Safe, Kept, Promise, PowerOn, Edged;
    var b1 := Step(b, AttachCable);
    Onward(b, w, AttachCable, [Ask(false)] + FirstEdges(0));
    Onward(b1, w, Ask(false), FirstEdges(0));
    FirstRuns(Step(b1, Ask(false)), w, 0, m);
    FirstWaits(Ran(Step(b1, Ask(false)), FirstEdges(0)), Seen(w, Step(b1, Ask(false)), FirstEdges(0)), m);
  }

  function Ran(b: Bus, run: seq<Event>): Bus
    decreases |run|
  {
    if run == [] then b else Ran(Step(b, run[0]), run[1..])
  }

  function Seen(w: Watch, b: Bus, run: seq<Event>): Watch
    decreases |run|
  {
    if run == [] then w else Seen(Watched(w, b, run[0]), Step(b, run[0]), run[1..])
  }

  /** Every run with its edges in time keeps one master and one grant, and the processor its bus. */
  lemma {:induction false} RunKept(b: Bus, w: Watch, run: seq<Event>)
    requires Safe(b) && Kept(b, w) && RunHappens(b, w, run, DEBUG_SELECT_NS)
    ensures Safe(Ran(b, run)) && Kept(Ran(b, run), Seen(w, b, run))
    decreases |run|
  {
    hide Safe, Step, Happens, Kept;
    if run != [] {
      StepSafe(b, run[0]);
      MastershipKept(b, w, run[0]);
      RunKept(Step(b, run[0]), Watched(w, b, run[0]), run[1..]);
    }
  }
}
