/** The bus interface's arbitration of the Unibus: the processor's cycles, and the debug master's
    that another machine asks for over the cable. */
module Unibus {
  import opened Netlist
  import opened Oscillator
  import opened Timing

  const SETUP_NS: nat := 80
  const XBUS_ACK_NS: nat := 60
  const UNIBUS_SELECT_NS: nat := 200
  const UNIBUS_ADDRESS_NS: nat := 100
  const UNIBUS_ACK_NS: nat := 150
  const UNIBUS_STROBE_NS: nat := 100
  const UB_XBUS_REQUEST_NS: nat := 100
  const UB_XBUS_READ_ACK_NS: nat := 100
  const UB_MD_ACK_NS: nat := 100
  const MFINISHD_NS: nat := 30
  const IDLE_OUT_PROMISE_NS: nat := 440
  const GRANT_WITHDRAW_NS: nat := 110
  const DIAGNOSTIC_NS: nat := 250
  const REGISTER_STROBE_NS: nat := 150
  const DEBUG_SELECT_NS: nat := 100
  const DEBUG_MSYN_NS: nat := 100
  const DEBUG_RELEASE_NS: nat := 100
  const DEBUG_OUT_REQUEST_NS: nat := 100
  const FAST_CYCLE_NS: nat := 135
  const DEBUG_CYCLE: nat := 0
  const DEBUG_MODIFIER: nat := 2
  const DEBUG_ADDRESS: nat := 3

  /** What answers at an address. */
  datatype Responder =
    | Memory(board: nat) | Device | Interface | IoBoard(uaddr: nat) | DebugBlock(strobe: nat) | MapBuffer
    | MapXbus(phys: nat) | MapRefused | MapMd | NoXbus | NoUnibus
  {
    predicate OnUnibus() { !(Memory? || Device? || NoXbus?) }
  }

  /** When the slaves answer: the I/O board's acknowledgement and its word for a register, if it has
      one; an Xbus slave, or a mapped access's, from its request; and QUUX's cache, its own memory
      or its write buffer, if one of them takes a memory cycle off the Xbus. */
  datatype Slaves = Slaves(io: (nat, bool, nat) -> Option<(nat, nat)>, xbus: (Responder, nat) -> nat, quick: Option<nat>)

  /** Where the processor's cycle has got to. */
  datatype Phase =
    | Idle
    | Requested
    | Arbitrating(stage: nat, sackAt: nat)
    | Granted(ack: nat, loadmd: nat, answered: nat, timedOut: bool)
    | Acked(at: nat, loadmd: nat, answered: nat, timedOut: bool)

  datatype DebugRequest = DebugRequest(strobe: nat, write: bool, dbd: nat, hold: nat)

  /** How far the other machine's request has come. */
  datatype Debug =
    | Off
    | Strobe(until: nat)
    | NeedUb
    | Nprd
    | DebugGranted(sackAt: nat)
    | Selected
    | Master(since: nat, msyn: nat, ack: nat, answered: nat, until: nat, xbus: nat)
    | Releasing(until: nat)

  /** What this machine's own cycles put on its debug cable. */
  datatype DebugOut = Asked(at: nat, strobe: nat) | LetGo(at: nat)

  /** DBGIN, this machine as the debuggee: the debug master, the request it serves and when it came,
      what answers it, the latches, when the bus was last let go, the acknowledgement and the word,
      and when its SACK last went up. */
  datatype Dbgin = Dbgin(state: Debug, request: Option<DebugRequest>, requestedAt: nat, responder: Responder, address: nat,
                         modifier: nat, freedAt: nat, ack: nat, answered: nat, sackAt: nat)

  /** DBGOUT, this machine as the debugger: whether a cable is plugged in, the event on it not yet
      carried, and the request unanswered and when it is given up on. */
  datatype Dbgout = Dbgout(cable: bool, event: Option<DebugOut>, pending: bool, timeoutAt: nat)

  datatype Bus = Bus(phase: Phase, write: bool, unibusMaster: bool, memrqUpAt: Option<nat>, msynDownBeforeEdge: bool,
                     lmNeedUb: bool, grantHold: nat, grantedAt: nat, dbgin: Dbgin, dbgout: Dbgout, timing: TimingModel)

  function PowerOn(timing: TimingModel): Bus {
    Bus(Idle, false, false, None, false, false, 0, 0, Dbgin(Off, None, 0, NoUnibus, 0, 0, 0, NEVER, NEVER, NEVER),
        Dbgout(false, None, false, NEVER), timing)
  }

  // ---- Signals ----

  predicate GrantOut(d: Debug) { d.DebugGranted? || d.Selected? }

  /** SACK from the debug master. */
  predicate SackUp(d: Debug, now: nat) { d.Selected? || (d.DebugGranted? && now >= d.sackAt) }

  /** BBSY held by the debug master. */
  predicate HoldsBbsy(d: Debug, now: nat) { d.Master? || (d.Releasing? && now < d.until) }

  predicate IsMaster(d: Debug) { d.Master? || d.Releasing? }

  /** The processor is granted the bus or selected for it, and is not yet its master. */
  predicate LmGrantOut(p: Phase) { p.Arbitrating? && (p.stage == 3 || p.stage == 7) }

  predicate Inhibited(modifier: nat) { modifier / 4 % 2 == 1 }

  predicate Running(p: Phase) { p.Granted? || p.Acked? }

  /** A cycle past its request. */
  predicate Busy(p: Phase) { !p.Idle? && !p.Requested? }

  /** How many edges the priority logic holds off once a SACK drops at `at`. */
  function SackOff(now: nat, at: nat): nat { if at < now then 1 else 2 }

  /** When a cycle granted now is given up on. */
  function GivenUpAt(b: Bus, now: nat): nat {
    if Inhibited(b.dbgin.modifier) then NEVER else b.timing.Tick(NxmTimeoutAt(now))
  }

  // ---- The debug master ----

  function TheRequest(d: Dbgin): DebugRequest {
    match d.request
    case Some(req) => req
    case None => DebugRequest(0, false, 0, 0)
  }

  /** The debug master's answer and the instant of its word, its MSYN at `msyn`. */
  function DebugAnswer(d: Dbgin, msyn: nat, s: Slaves): (nat, nat) {
    var write := TheRequest(d).write;
    match d.responder
    case Interface => (msyn + DIAGNOSTIC_NS, if write then msyn + REGISTER_STROBE_NS else msyn + DIAGNOSTIC_NS)
    case MapBuffer => (msyn + DIAGNOSTIC_NS, if write then msyn + REGISTER_STROBE_NS else msyn + DIAGNOSTIC_NS)
    case IoBoard(u) => (match s.io(u, write, msyn) case Some(r) => r case None => (NEVER, NEVER))
    case MapRefused => (NEVER, msyn + UB_XBUS_REQUEST_NS)
    case _ => (NEVER, NEVER)
  }

  function Mastered(d: Dbgin, now: nat, s: Slaves): Dbgin {
    var msyn := now + DEBUG_MSYN_NS;
    var (ack, answered) := DebugAnswer(d, msyn, s);
    d.(state := Master(now, msyn, ack, answered, Later(ack, TheRequest(d).hold), 0), ack := ack, answered := answered)
  }

  function DebugSetMaster(b: Bus, now: nat, s: Slaves): Bus {
    b.(dbgin := Mastered(b.dbgin, now, s), grantHold := SackOff(now, now))
  }

  /** A strobe's latch, and the timeout counter let go as its inhibit lifts. */
  function LatchedIn(d: Dbgin): Dbgin {
    match d.request
    case None => d
    case Some(req) =>
      if req.strobe == DEBUG_ADDRESS then d.(address := req.dbd)
      else if req.strobe == DEBUG_MODIFIER then d.(modifier := req.dbd % 8)
      else d
  }

  function LetCount(b: Bus): Phase {
    var d := b.dbgin;
    if Inhibited(d.modifier) && !Inhibited(LatchedIn(d).modifier) && b.phase.Granted? && b.phase.timedOut && b.phase.ack == NEVER then
      var lift := Later(d.requestedAt, TheRequest(d).hold);
      var from := if lift < b.grantedAt then b.grantedAt else lift;
      var nxm := b.timing.Tick(GatedRise(VCO_PERIOD, b.grantedAt, RiseAfter(VCO_PERIOD, b.grantedAt, from))) + TIMEOUT_NS;
      Granted(nxm + UNIBUS_ACK_NS, nxm + UNIBUS_STROBE_NS, nxm, true)
    else b.phase
  }

  function Latched(b: Bus): Bus { b.(phase := LetCount(b), dbgin := LatchedIn(b.dbgin).(state := Off)) }

  /** The processor lets go of the bus to a debug master already selected for it. */
  predicate TakesOver(b: Bus, now: nat) {
    && b.unibusMaster && GrantOut(b.dbgin.state)
    && b.memrqUpAt.Some? && b.memrqUpAt.value >= b.dbgin.sackAt && now >= b.memrqUpAt.value
  }

  function Taken(b: Bus, now: nat, s: Slaves): Bus {
    if TakesOver(b, now) then
      var at := b.memrqUpAt.value + if b.dbgin.state.Selected? then 0 else GRANT_WITHDRAW_NS;
      DebugSetMaster(b.(unibusMaster := false, lmNeedUb := false, memrqUpAt := None), at, s)
    else b
  }

  /** A master's request lifted after its acknowledgement, and the bus let go after that. */
  function LetGoIn(d: Dbgin, now: nat): Dbgin {
    var r := if d.state.Master? && now >= d.state.until then
               d.(freedAt := d.state.until + DEBUG_RELEASE_NS, state := Releasing(d.state.until + DEBUG_RELEASE_NS))
             else d;
    if r.state.Releasing? && now >= r.state.until then r.(state := Off) else r
  }

  /** Every step of the debug master's whose instant has come. */
  function Settled(b: Bus, now: nat): (r: Bus) {
    if b.dbgin.state.Strobe? then if now >= b.dbgin.state.until then Latched(b) else b
    else b.(dbgin := LetGoIn(b.dbgin, now))
  }

  function DebugAdvanced(b: Bus, now: nat, s: Slaves): Bus {
    if b.dbgin.state.Off? then b else Settled(Taken(b, now, s), now)
  }

  function DebugGrant(d: Dbgin, now: nat): Dbgin {
    d.(sackAt := now + DEBUG_SELECT_NS, state := DebugGranted(now + DEBUG_SELECT_NS))
  }

  /** A mapped access goes on to the Xbus, once no cycle of the processor's is `running` there. */
  function DebugXbusEdge(d: Dbgin, running: bool, now: nat, s: Slaves): Dbgin
    requires d.state.Master?
  {
    var req := TheRequest(d);
    if !d.responder.MapXbus? && !d.responder.MapMd? then d
    else if d.state.xbus == 0 then
      if now > d.state.msyn + UB_XBUS_REQUEST_NS then d.(state := d.state.(ack := NEVER, answered := NEVER, xbus := 1)) else d
    else if d.state.xbus == 1 && !running then
      var (answered, ack) :=
        if d.responder.MapMd? then (now, now + UB_MD_ACK_NS)
        else
          var at := s.xbus(d.responder, now + SETUP_NS);
          (at, if req.write then at else at + XBUS_ACK_NS + UB_XBUS_READ_ACK_NS);
      d.(state := d.state.(ack := ack, answered := answered, until := Later(ack, req.hold), xbus := 2), ack := ack, answered := answered)
    else d
  }

  /** The debug master's synchronous step at an edge. */
  function DebugEdge(b: Bus, now: nat, s: Slaves): Bus {
    var d := b.dbgin;
    match d.state
    case NeedUb =>
      if now <= d.requestedAt then b
      else if b.phase.Arbitrating? && b.phase.stage == 3 && now <= b.phase.sackAt then b.(phase := Arbitrating(2, NEVER), dbgin := DebugGrant(d, now))
      else b.(dbgin := d.(state := Nprd))
    case Nprd => if b.grantHold == 0 && !LmGrantOut(b.phase) then b.(dbgin := DebugGrant(d, now)) else b
    case DebugGranted(sackAt) =>
      if now <= sackAt || b.msynDownBeforeEdge then b
      else if b.unibusMaster then b.(dbgin := d.(state := Selected))
      else DebugSetMaster(b, now, s)
    case Selected => if !b.unibusMaster then DebugSetMaster(b, now, s) else b
    case Master(_, _, _, _, _, _) => b.(dbgin := DebugXbusEdge(d, Running(b.phase), now, s))
    case _ => b
  }

  // ---- The processor's cycle ----

  /** LMUB GRANT at an edge: when the slave answers, its word, and whether the cycle is given up. */
  function UnibusAnswer(b: Bus, now: nat, r: Responder, s: Slaves): (nat, nat, bool) {
    var msyn := now + UNIBUS_ADDRESS_NS;
    var never := (GivenUpAt(b, now), GivenUpAt(b, now), true);
    match r
    case Interface => (msyn + DIAGNOSTIC_NS, if b.write then msyn + REGISTER_STROBE_NS else msyn + DIAGNOSTIC_NS, false)
    case IoBoard(u) => (match s.io(u, b.write, msyn) case Some((ssyn, made)) => (ssyn, made, false) case None => never)
    case DebugBlock(_) => if b.dbgout.cable then (NEVER, NEVER, false) else (msyn, msyn, false)
    case _ => never
  }

  function UnibusGranted(b: Bus, now: nat, r: Responder, s: Slaves): Bus {
    var (ssyn, answered, timedOut) := UnibusAnswer(b, now, r, s);
    var g := b.(phase := Granted(Later(ssyn, UNIBUS_ACK_NS), Later(ssyn, UNIBUS_STROBE_NS), answered, timedOut),
                grantedAt := if timedOut then now else b.grantedAt);
    if r.DebugBlock? && b.dbgout.cable then
      g.(dbgout := Dbgout(true, Some(Asked(now + UNIBUS_ADDRESS_NS + DEBUG_OUT_REQUEST_NS, r.strobe)), true, b.timing.Tick(DebugTimeoutAt(now))))
    else g
  }

  /** A step of the processor's Unibus arbitration. */
  function ArbitrationEdge(b: Bus, now: nat, r: Responder, s: Slaves): Bus
    requires b.phase.Arbitrating?
  {
    var stage, sackAt := b.phase.stage, b.phase.sackAt;
    if stage == 1 then b.(phase := Arbitrating(2, sackAt))
    else if stage == 2 then
      if b.grantHold == 0 && !GrantOut(b.dbgin.state) && !b.dbgin.state.Nprd? then b.(phase := Arbitrating(3, now + UNIBUS_SELECT_NS)) else b
    else if stage == 3 then
      if now <= sackAt then b
      else if HoldsBbsy(b.dbgin.state, now) then b.(phase := Arbitrating(7, sackAt))
      else b.(unibusMaster := true, phase := Arbitrating(4, sackAt), grantHold := SackOff(now, now))
    else if stage == 4 then b.(phase := Arbitrating(5, sackAt))
    else if stage == 7 then
      if HoldsBbsy(b.dbgin.state, now) then b
      else
        var freed := b.dbgin.freedAt;
        b.(unibusMaster := true, phase := Arbitrating(if freed < now then 5 else 4, sackAt), grantHold := SackOff(now, freed))
    else UnibusGranted(b, now, r, s)
  }

  /** A cycle granted at an edge on the Xbus. */
  function XbusGranted(b: Bus, now: nat, r: Responder, s: Slaves): Bus {
    var answered := s.xbus(r, now + SETUP_NS);
    if r.NoXbus? then
      b.(grantedAt := now, phase := Granted(GivenUpAt(b, now), GivenUpAt(b, now), answered, true))
    else
      var ack := if b.write then answered else answered + XBUS_ACK_NS;
      b.(phase := Granted(ack, ack, answered, false))
  }

  /** What an edge finds before the processor takes its own step: the debug master come as far as it can,
      and the bus let go to it if the processor is idle and it is selected. */
  function Sampled(b: Bus, now: nat, s: Slaves): Bus {
    var a := DebugAdvanced(b.(msynDownBeforeEdge := Running(b.phase)), now, s);
    a.(grantHold := if a.grantHold == 0 then 0 else a.grantHold - 1, lmNeedUb := Busy(a.phase),
       unibusMaster := a.unibusMaster && (Busy(a.phase) || !SackUp(a.dbgin.state, now)))
  }

  /** A master clock edge. A memory cycle taken off the Xbus ends it there. */
  function Edged(b: Bus, now: nat, r: Responder, s: Slaves): Bus {
    var c := Sampled(b, now, s);
    match c.phase
    case Requested =>
      if r.OnUnibus() then DebugEdge(c.(phase := Arbitrating(if c.unibusMaster then 4 else 1, NEVER)), now, s)
      else if r.Memory? && s.quick.Some? then c.(phase := Granted(s.quick.value, s.quick.value, s.quick.value, false))
      else DebugEdge(XbusGranted(c, now, r, s), now, s)
    case Arbitrating(_, _) => DebugEdge(ArbitrationEdge(c, now, r, s), now, s)
    case _ => DebugEdge(c, now, s)
  }

  // ---- What else befalls it ----

  function TimedOut(b: Bus, now: nat): Bus {
    if b.dbgout.pending && now >= b.dbgout.timeoutAt then
      var at := b.dbgout.timeoutAt;
      b.(dbgout := b.dbgout.(pending := false, event := Some(LetGo(at + UNIBUS_STROBE_NS))),
         phase := Granted(at + UNIBUS_ACK_NS, at + UNIBUS_STROBE_NS, at, true))
    else b
  }

  function Polled(b: Bus, now: nat): Bus {
    var t := TimedOut(b, now);
    if t.phase.Granted? && now >= t.phase.ack then t.(phase := Acked(t.phase.ack, t.phase.loadmd, t.phase.answered, t.phase.timedOut)) else t
  }

  function Finished(b: Bus): Bus {
    b.(memrqUpAt := if b.phase.Acked? then Some(b.phase.at + MFINISHD_NS) else b.memrqUpAt, phase := Idle)
  }

  /** The other machine's acknowledgement; one after this side's timeout is nothing. */
  predicate AnswerTaken(b: Bus, ackAt: nat) {
    b.dbgout.pending && ackAt < b.dbgout.timeoutAt && b.phase.Granted? && b.phase.ack == NEVER
  }

  function Answered(b: Bus, ackAt: nat): Bus {
    if AnswerTaken(b, ackAt) then
      b.(dbgout := b.dbgout.(pending := false), phase := Granted(ackAt + UNIBUS_ACK_NS, ackAt + UNIBUS_STROBE_NS, ackAt, false))
    else b
  }

  function AskedIn(d: Dbgin, at: nat, req: DebugRequest, r: Responder): Dbgin {
    var q := d.(request := Some(req), requestedAt := at, responder := r, answered := NEVER);
    if req.strobe == DEBUG_CYCLE then q.(ack := NEVER, state := NeedUb) else q.(ack := at, state := Strobe(Later(at, req.hold)))
  }

  /** A request put on the cable; one already there is over first, or refuses it. */
  function DebugAsked(b: Bus, at: nat, req: DebugRequest, r: Responder, s: Slaves): Bus {
    var a := DebugAdvanced(b, at, s);
    if a.dbgin.state.Off? then a.(dbgin := AskedIn(a.dbgin, at, req, r)) else a
  }

  function DebugReleased(b: Bus, at: nat): Bus {
    var d := b.dbgin;
    match d.state
    case Off => b
    case Releasing(_) => b
    case Strobe(_) => Latched(b)
    case Master(_, _, ack, answered, _, _) =>
      b.(dbgin := d.(ack := if at < ack then NEVER else d.ack, answered := if at < answered then NEVER else d.answered,
                     freedAt := at + DEBUG_RELEASE_NS, state := Releasing(at + DEBUG_RELEASE_NS)))
    case _ => b.(dbgin := d.(state := Off))
  }

  /** What this side promises: the earliest instant a new event can appear on its cable. */
  function Promise(b: Bus, now: nat): nat {
    if b.dbgout.pending then Later(b.dbgout.timeoutAt, UNIBUS_STROBE_NS)
    else if !Busy(b.phase) then now + IDLE_OUT_PROMISE_NS
    else now + FAST_CYCLE_NS + UNIBUS_ADDRESS_NS + DEBUG_OUT_REQUEST_NS
  }
}
