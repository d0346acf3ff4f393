/** The memory bus between the processor and the bus interface, its fields stepped in place. */
module BusInterface {
  import opened Netlist
  import opened Oscillator
  import opened Timing
  import opened Unibus
  import opened Arbitration

  class Busint {
    var state: Phase
    var write: bool
    var unibusMaster: bool
    var memrqUpAt: Option<nat>
    var msynDownBeforeEdge: bool
    var lmNeedUb: bool
    var grantHold: nat
    var grantedAt: nat
    var dbgin: Dbgin
    var dbgout: Dbgout
    const timing: TimingModel

    function State(): Bus
      reads this
    {
      Bus(state, write, unibusMaster, memrqUpAt, msynDownBeforeEdge, lmNeedUb, grantHold, grantedAt, dbgin, dbgout, timing)
    }

    constructor (model: TimingModel)
      ensures State() == PowerOn(model) && Safe(State())
    {
      state, write, unibusMaster, memrqUpAt, msynDownBeforeEdge, lmNeedUb, grantHold, grantedAt := Idle, false, false, None, false, false, 0, 0;
      dbgin := Dbgin(Off, None, 0, NoUnibus, 0, 0, 0, NEVER, NEVER, NEVER);
      dbgout := Dbgout(false, None, false, NEVER);
      timing := model;
    }

    method RequestCycle(writing: bool)
      requires state.Idle? && Safe(State())
      modifies this
      ensures State() == old(State()).(phase := Requested, write := writing) && Safe(State())
    {
      StepSafe(State(), Ask(writing));
      state, write := Requested, writing;
    }

    // ---- The debug master ----

    /** When a cycle of the debug master's is answered, and its word made, its MSYN at `msyn`. */
    method AnswerDebug(msyn: nat, s: Slaves) returns (ack: nat, answered: nat)
      requires dbgin.request.Some?
      ensures (ack, answered) == DebugAnswer(dbgin, msyn, s)
    {
      var req := dbgin.request.value;
      match dbgin.responder {
        case Interface =>
          return msyn + DIAGNOSTIC_NS, if req.write then msyn + REGISTER_STROBE_NS else msyn + DIAGNOSTIC_NS;
        case IoBoard(u) =>
          var r := s.io(u, req.write, msyn);
          if r.Some? {
            return r.value.0, r.value.1;
          }
        case MapBuffer =>
          return msyn + DIAGNOSTIC_NS, if req.write then msyn + REGISTER_STROBE_NS else msyn + DIAGNOSTIC_NS;
        case MapRefused => return NEVER, msyn + UB_XBUS_REQUEST_NS;
        case _ =>
      }
      return NEVER, NEVER;
    }

    /** The debug master set over a bus the processor has let go: they are never both its master. */
    method SetMaster(now: nat, s: Slaves)
      requires dbgin.request.Some?
      modifies this
      ensures State() == DebugSetMaster(old(State()), now, s)
      ensures old(Safe(State())) && !unibusMaster && !old(dbgin.state.Off?) ==> Safe(State()) && dbgin.state.Master?
    {
      hide Safe, DebugAnswer;
      if Safe(State()) && !unibusMaster && !dbgin.state.Off? {
        SetMasterSafe(State(), now, s);
      }
      var msyn := now + DEBUG_MSYN_NS;
      var ack, answered := AnswerDebug(msyn, s);
      var until := Later(ack, dbgin.request.value.hold);
      dbgin := dbgin.(state := Master(now, msyn, ack, answered, until, 0), ack := ack, answered := answered);
      grantHold := SackOff(now, now);
    }

    /** A strobe over, its register loaded. */
    method Latch()
      requires dbgin.state.Strobe?
      modifies this
      ensures State() == Latched(old(State())) && dbgin.state.Off?
    {
      hide GatedRise, RiseAfter;
      dbgin := dbgin.(state := Off);
      if dbgin.request == None {
        return;
      }
      var req := dbgin.request.value;
      if req.strobe == DEBUG_ADDRESS {
        dbgin := dbgin.(address := req.dbd);
      } else if req.strobe == DEBUG_MODIFIER {
        var was := dbgin.modifier;
        dbgin := dbgin.(modifier := req.dbd % 8);
        if Inhibited(was) && !Inhibited(dbgin.modifier) && state.Granted? && state.timedOut && state.ack == NEVER {
          var lift := Later(dbgin.requestedAt, req.hold);
          var edge := GatedRiseAfter(VCO_PERIOD, grantedAt, if lift < grantedAt then grantedAt else lift);
          var nxm := timing.Tick(edge) + TIMEOUT_NS;
          state := Granted(nxm + UNIBUS_ACK_NS, nxm + UNIBUS_STROBE_NS, nxm, true);
        }
      }
    }

    /** All that has fallen to the debug master without a clock by `now`. */
    method Advance(now: nat, s: Slaves)
      requires Safe(State())
      modifies this
      ensures State() == DebugAdvanced(old(State()), now, s) && Safe(State())
    {
      hide Safe, Latched, DebugSetMaster;
      ghost var b := State();
      AdvancedSafe(b, now, s);
      if dbgin.state.Off? {
        return;
      }
      OnTheCable(b);
      if unibusMaster && memrqUpAt.Some? && memrqUpAt.value >= dbgin.sackAt && now >= memrqUpAt.value && GrantOut(dbgin.state) {
        var took := memrqUpAt.value + if dbgin.state.Selected? then 0 else GRANT_WITHDRAW_NS;
        unibusMaster, lmNeedUb, memrqUpAt := false, false, None;
        SetMaster(took, s);
      }
      assert State() == Taken(b, now, s);
      ghost var t := State();
      Settle(now);
    }

    method Settle(now: nat)
      modifies this
      ensures State() == Settled(old(State()), now)
    {
      hide Latched;
      ghost var b := State();
      while true
        invariant Settled(State(), now) == Settled(b, now)
        decreases Rank(dbgin.state)
      {
        match dbgin.state {
          case Strobe(until) =>
            if now < until { break; }
            Latch();
          case Master(_, _, _, _, until, _) =>
            if now < until { break; }
            dbgin := dbgin.(freedAt := until + DEBUG_RELEASE_NS, state := Releasing(until + DEBUG_RELEASE_NS));
          case Releasing(until) =>
            if now < until { break; }
            dbgin := dbgin.(state := Off);
          case _ => break;
        }
      }
    }

    method RequestDebug(at: nat, req: DebugRequest, responder: Responder, s: Slaves) returns (taken: bool)
      requires Safe(State())
      modifies this
      ensures State() == DebugAsked(old(State()), at, req, responder, s) && Safe(State())
      ensures taken == DebugAdvanced(old(State()), at, s).dbgin.state.Off?
    {
      hide Safe, DebugAdvanced;
      ghost var b := State();
      Advance(at, s);
      ghost var a := State();
      AskedSafe(a, at, req, responder);
      if !dbgin.state.Off? {
        return false;
      }
      dbgin := dbgin.(request := Some(req), requestedAt := at, responder := responder, answered := NEVER);
      if req.strobe == DEBUG_CYCLE {
        dbgin := dbgin.(ack := NEVER, state := NeedUb);
      } else {
        dbgin := dbgin.(ack := at, state := Strobe(Later(at, req.hold)));
      }
      return true;
    }

    method ReleaseDebug(at: nat)
      requires Safe(State())
      modifies this
      ensures State() == DebugReleased(old(State()), at) && Safe(State())
    {
      hide Safe, Latched;
      ReleasedSafe(State(), at);
      match dbgin.state {
        case Off =>
        case Releasing(_) =>
        case Strobe(_) => Latch();
        case Master(_, _, ack, answered, _, _) =>
          // Given up on early, neither the answer nor the word is there to be had.
          if at < ack {
            dbgin := dbgin.(ack := NEVER);
          }
          if at < answered {
            dbgin := dbgin.(answered := NEVER);
          }
          dbgin := dbgin.(freedAt := at + DEBUG_RELEASE_NS, state := Releasing(at + DEBUG_RELEASE_NS));
        case _ => dbgin := dbgin.(state := Off);
      }
    }

    method XbusEdge(now: nat, s: Slaves)
      requires dbgin.state.Master? && dbgin.request.Some?
      modifies this
      ensures State() == old(State()).(dbgin := DebugXbusEdge(old(dbgin), Running(old(state)), now, s))
    {
      var m := dbgin.state;
      if !dbgin.responder.MapXbus? && !dbgin.responder.MapMd? {
        return;
      }
      if m.xbus == 0 && now > m.msyn + UB_XBUS_REQUEST_NS {
        dbgin := dbgin.(state := m.(ack := NEVER, answered := NEVER, xbus := 1));
      } else if m.xbus == 1 && !Running(state) {
        var req := dbgin.request.value;
        var answered, ack := now, now + UB_MD_ACK_NS;
        if !dbgin.responder.MapMd? {
          answered := s.xbus(dbgin.responder, now + SETUP_NS);
          ack := if req.write then answered else answered + XBUS_ACK_NS + UB_XBUS_READ_ACK_NS;
        }
        dbgin := dbgin.(state := m.(ack := ack, answered := answered, until := Later(ack, req.hold), xbus := 2), ack := ack, answered := answered);
      }
    }

    /** The debug master's synchronous step. */
    method StepDebug(now: nat, s: Slaves)
      requires Safe(State())
      modifies this
      ensures State() == DebugEdge(old(State()), now, s) && Safe(State()) && DebugGives(old(State()), State(), now)
    {
      DebugEdgeSafe(State(), now, s);
      DebugEdgeGives(State(), now, s);
      hide Safe, DebugSetMaster, DebugXbusEdge, DebugGives, DebugSteps;
      OnTheCable(State());
      match dbgin.state {
        case NeedUb =>
          if now > dbgin.requestedAt {
            if state.Arbitrating? && state.stage == 3 && now <= state.sackAt {
              state := Arbitrating(2, NEVER);
              dbgin := dbgin.(sackAt := now + DEBUG_SELECT_NS, state := DebugGranted(now + DEBUG_SELECT_NS));
            } else {
              dbgin := dbgin.(state := Nprd);
            }
          }
        case Nprd =>
          if grantHold == 0 && !LmGrantOut(state) {
            dbgin := dbgin.(sackAt := now + DEBUG_SELECT_NS, state := DebugGranted(now + DEBUG_SELECT_NS));
          }
        case DebugGranted(sackAt) =>
          if now > sackAt && !msynDownBeforeEdge {
            if unibusMaster {
              dbgin := dbgin.(state := Selected);
            } else {
              SetMaster(now, s);
            }
          }
        case Selected =>
          if !unibusMaster {
            SetMaster(now, s);
          }
        case Master(_, _, _, _, _, _) => XbusEdge(now, s);
        case _ =>
      }
    }

    // ---- The processor's cycle ----

    method Timeout(now: nat) returns (at: nat)
      modifies this`grantedAt
      ensures grantedAt == now && at == GivenUpAt(old(State()), now)
    {
      hide NxmTimeoutAt;
      grantedAt := now;
      if Inhibited(dbgin.modifier) {
        return NEVER;
      }
      return timing.Tick(NxmTimeoutAt(now));
    }

    /** When the slave answers a cycle granted at this edge. */
    method AnswerUnibus(now: nat, r: Responder, s: Slaves) returns (ssyn: nat, answered: nat, timedOut: bool)
      modifies this`grantedAt
      ensures (ssyn, answered, timedOut) == UnibusAnswer(old(State()), now, r, s)
      ensures grantedAt == if timedOut then now else old(grantedAt)
    {
      hide GivenUpAt;
      var msyn := now + UNIBUS_ADDRESS_NS;
      match r {
        case Interface =>
          return msyn + DIAGNOSTIC_NS, if write then msyn + REGISTER_STROBE_NS else msyn + DIAGNOSTIC_NS, false;
        case IoBoard(u) =>
          var a := s.io(u, write, msyn);
          if a.Some? {
            return a.value.0, a.value.1, false;
          }
        case DebugBlock(_) =>
          if dbgout.cable {
            return NEVER, NEVER, false;
          }
          return msyn, msyn, false;
        case _ =>
      }
      ssyn := Timeout(now);
      answered, timedOut := ssyn, true;
    }

    method GrantUnibus(now: nat, r: Responder, s: Slaves)
      requires state.Arbitrating?
      modifies this
      ensures State() == UnibusGranted(old(State()), now, r, s)
    {
      hide UnibusAnswer, DebugTimeoutAt;
      var ssyn, answered, timedOut := AnswerUnibus(now, r, s);
      if r.DebugBlock? && dbgout.cable {
        dbgout := dbgout.(event := Some(Asked(now + UNIBUS_ADDRESS_NS + DEBUG_OUT_REQUEST_NS, r.strobe)), pending := true,
                          timeoutAt := timing.Tick(DebugTimeoutAt(now)));
      }
      state := Granted(Later(ssyn, UNIBUS_ACK_NS), Later(ssyn, UNIBUS_STROBE_NS), answered, timedOut);
    }

    method Arbitrate(now: nat, r: Responder, s: Slaves)
      requires state.Arbitrating?
      modifies this
      ensures State() == ArbitrationEdge(old(State()), now, r, s) && ProcessorGives(old(State()), State(), now)
    {
      ArbitrationGives(State(), now, r, s);
      hide UnibusGranted, ProcessorGives;
      var stage, sackAt := state.stage, state.sackAt;
      if stage == 1 {
        state := Arbitrating(2, sackAt);
      } else if stage == 2 {
        if grantHold == 0 && !GrantOut(dbgin.state) && !dbgin.state.Nprd? {
          state := Arbitrating(3, now + UNIBUS_SELECT_NS);
        }
      } else if stage == 3 {
        if now > sackAt {
          if HoldsBbsy(dbgin.state, now) {
            state := Arbitrating(7, sackAt);
          } else {
            unibusMaster := true;
            grantHold := SackOff(now, now);
            state := Arbitrating(4, sackAt);
          }
        }
      } else if stage == 4 {
        state := Arbitrating(5, sackAt);
      } else if stage == 7 {
        if !HoldsBbsy(dbgin.state, now) {
          unibusMaster := true;
          grantHold := SackOff(now, dbgin.freedAt);
          state := Arbitrating(if dbgin.freedAt < now then 5 else 4, sackAt);
        }
      } else {
        GrantUnibus(now, r, s);
      }
    }

    method GrantXbus(now: nat, r: Responder, s: Slaves)
      modifies this
      ensures State() == XbusGranted(old(State()), now, r, s)
    {
      hide GivenUpAt;
      var answered := s.xbus(r, now + SETUP_NS);
      if r.NoXbus? {
        var ack := Timeout(now);
        state := Granted(ack, ack, answered, true);
      } else {
        var ack := if write then answered else answered + XBUS_ACK_NS;
        state := Granted(ack, ack, answered, false);
      }
    }

    /** A master clock edge up to the processor's own step. */
    method Sample(now: nat, s: Slaves)
      requires Safe(State())
      modifies this
      ensures State() == Sampled(old(State()), now, s) && Safe(State())
    {
      hide Safe, DebugAdvanced;
      ghost var b := State();
      SampledSafe(b, now, s);
      SafeMsyn(b);
      msynDownBeforeEdge := Running(state);
      assert State() == b.(msynDownBeforeEdge := Running(b.phase));
      Advance(now, s);
      grantHold := if grantHold == 0 then 0 else grantHold - 1;
      lmNeedUb := Busy(state);
      if unibusMaster && !lmNeedUb && SackUp(dbgin.state, now) {
        unibusMaster := false;
      }
    }

    /** A master clock edge. */
    method MclkEdge(now: nat, r: Responder, s: Slaves)
      requires Safe(State())
      modifies this
      ensures State() == Edged(old(State()), now, r, s) && Safe(State())
    {
      hide Safe, Sampled, DebugEdge, ArbitrationEdge, XbusGranted;
      EdgedSafe(State(), now, r, s);
      SampledSafe(State(), now, s);
      Sample(now, s);
      ghost var c := State();
      if state.Requested? {
        RequestedSafe(c);
        if r.OnUnibus() {
          state := Arbitrating(if unibusMaster then 4 else 1, NEVER);
          assert State() == c.(phase := Arbitrating(if c.unibusMaster then 4 else 1, NEVER));
        } else if r.Memory? && s.quick.Some? {
          state := Granted(s.quick.value, s.quick.value, s.quick.value, false);
          return;
        } else {
          XbusGrantedSafe(c, now, r, s);
          GrantXbus(now, r, s);
        }
      } else if state.Arbitrating? {
        ArbitrationSafe(c, now, r, s);
        Arbitrate(now, r, s);
      }
      StepDebug(now, s);
    }

    // ---- What else befalls it ----

    /** The acknowledgement, if it has risen by `now`: its instant, and whether nothing answered. */
    method PollAck(now: nat) returns (ack: Option<(nat, bool)>)
      requires Safe(State()) && now < NEVER
      modifies this
      ensures State() == Polled(old(State()), now) && Safe(State())
      ensures ack == if state.Acked? then Some((state.at, state.timedOut)) else None
    {
      StepSafe(State(), Poll(now));
      hide Safe;
      if dbgout.pending && now >= dbgout.timeoutAt {
        var at := dbgout.timeoutAt;
        dbgout := dbgout.(pending := false, event := Some(LetGo(at + UNIBUS_STROBE_NS)));
        state := Granted(at + UNIBUS_ACK_NS, at + UNIBUS_STROBE_NS, at, true);
      }
      if state.Granted? && now >= state.ack {
        state := Acked(state.ack, state.loadmd, state.answered, state.timedOut);
      }
      return if state.Acked? then Some((state.at, state.timedOut)) else None;
    }

    method FinishCycle()
      requires Safe(State())
      modifies this
      ensures State() == Finished(old(State())) && (!dbgout.pending ==> Safe(State()))
    {
      if !dbgout.pending {
        StepSafe(State(), Finish);
      }
      hide Safe;
      if state.Acked? {
        memrqUpAt := Some(state.at + MFINISHD_NS);
      }
      state := Idle;
    }

    method DebugOutAnswer(ackAt: nat) returns (taken: bool)
      requires Safe(State())
      modifies this
      ensures taken == AnswerTaken(old(State()), ackAt)
      ensures State() == Answered(old(State()), ackAt) && Safe(State())
    {
      StepSafe(State(), Answer(ackAt));
      hide Safe;
      if !dbgout.pending || ackAt >= dbgout.timeoutAt {
        return false;
      }
      if !(state.Granted? && state.ack == NEVER) {
        return false;
      }
      dbgout := dbgout.(pending := false);
      state := Granted(ackAt + UNIBUS_ACK_NS, ackAt + UNIBUS_STROBE_NS, ackAt, false);
      return true;
    }

    /** What no event to come is dated before, asked at an edge just taken. */
    method DebugOutPromise(now: nat) returns (at: nat)
      ensures at == Promise(State(), now)
      ensures forall onUnibus: bool :: at <= Earliest(State(), Watch(now, now, onUnibus))
    {
      forall onUnibus: bool
        ensures Promise(State(), now) <= Earliest(State(), Watch(now, now, onUnibus))
      {
        PromiseIsEarly(State(), Watch(now, now, onUnibus));
      }
      if dbgout.pending {
        return Later(dbgout.timeoutAt, UNIBUS_STROBE_NS);
      }
      if state.Idle? || state.Requested? {
        return now + IDLE_OUT_PROMISE_NS;
      }
      return now + FAST_CYCLE_NS + UNIBUS_ADDRESS_NS + DEBUG_OUT_REQUEST_NS;
    }
  }

  lemma OnTheCable(b: Bus)
    requires Safe(b)
    ensures !b.dbgin.state.Off? ==> b.dbgin.request.Some?
  {
  }

  lemma AskedSafe(b: Bus, at: nat, req: DebugRequest, r: Responder)
    requires Safe(b)
    ensures b.dbgin.state.Off? ==> Safe(b.(dbgin := AskedIn(b.dbgin, at, req, r)))
  {
  }

  function Rank(d: Debug): nat { if d.Off? then 0 else if d.Releasing? then 1 else 2 }
}
