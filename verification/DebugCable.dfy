/** A netlist machine on the far end of a debug cable: what it keeps of the debugger's until its own
    time has come to it. */
module DebugCable {
  import opened Netlist
  import opened Timing
  import Unibus

  type DebugRequest = Unibus.DebugRequest

  datatype Held = Asks(at: nat, request: DebugRequest) | LetsGo(at: nat)

  /** The connector: the request on it and when it went on, the acknowledgement and its word, when
      the debugger lifts the request, what is held in the order it came, and the cycles taken. */
  datatype Cable = Cable(now: nat, due: seq<Held>, pending: Option<(nat, DebugRequest)>, answer: Option<(nat, Option<nat>)>,
                         liftAt: Option<nat>, cycles: nat)

  /** DEBUG IN ACK at an instant for the request on the connector, and the word with it: the board
      is not part of this. */
  type Wires = (nat, DebugRequest) -> Option<Option<nat>>

  const QUANTUM: nat := 220

  predicate HoldsRequest(due: seq<Held>) { exists k :: 0 <= k < |due| && due[k].Asks? }

  predicate HoldsRelease(due: seq<Held>) { exists k :: 0 <= k < |due| && due[k].LetsGo? }

  // ---- On the connector ----

  function Observed(c: Cable, wires: Wires): Cable {
    if c.pending.Some? && c.liftAt == None then
      match wires(c.now, c.pending.value.1)
      case Some(word) => c.(answer := Some((c.now, word)), liftAt := Some(Later(c.now, c.pending.value.1.hold)))
      case None => c
    else c
  }

  function Lifted(c: Cable): Cable { c.(pending := None, liftAt := None) }

  /** A request put on a connector, and the acknowledgement looked for there and then. */
  function Placed(c: Cable, request: DebugRequest, wires: Wires): Cable {
    Observed(c.(cycles := c.cycles + (if request.strobe == Unibus.DEBUG_CYCLE then 1 else 0), pending := Some((c.now, request)), answer := None, liftAt := None), wires)
  }

  function LiftedIfDue(c: Cable): Cable { if c.liftAt.Some? && c.now >= c.liftAt.value then Lifted(c) else c }

  /** What the front of the queue does at its instant. */
  function Made(c: Cable, wires: Wires): Cable
    requires c.due != []
  {
    var rest := c.(due := c.due[1..]);
    match c.due[0]
    case Asks(_, request) => Placed(rest, request, wires)
    case LetsGo(_) => Lifted(rest).(answer := None)
  }

  /** Whatever has fallen due, in order. */
  function Settled(c: Cable, wires: Wires): Cable
    decreases |c.due|
  {
    var l := LiftedIfDue(c);
    if l.due != [] && l.due[0].at <= l.now then
      Settled(Made(l, wires), wires)
    else l
  }

  function NextDue(c: Cable): nat {
    var lift := if c.liftAt.Some? then c.liftAt.value else NEVER;
    if c.due != [] && c.due[0].at < lift then c.due[0].at else lift
  }

  function LastDue(c: Cable): nat { if c.due == [] then c.now else c.due[|c.due| - 1].at }

  /** An instant in the past by less than a slack is taken as now, and one further back refused. */
  predicate Recent(c: Cable, at: nat) { Later(at, QUANTUM) >= c.now }

  function AsOfNow(c: Cable, at: nat): nat { if at < c.now then c.now else at }

  // ---- From the wire ----

  /** One request out at a time: none held, and the one on the connector released or to be lifted by
      then; and nothing dated behind what came before it. */
  predicate Accepts(c: Cable, at: nat) {
    && Recent(c, at) && !HoldsRequest(c.due)
    && (c.pending.Some? ==> HoldsRelease(c.due) || (c.liftAt.Some? && c.liftAt.value <= AsOfNow(c, at)))
    && LastDue(c) <= AsOfNow(c, at)
  }

  function Asked(c: Cable, at: nat, request: DebugRequest, wires: Wires): Cable {
    if Accepts(c, at) then Settled(c.(due := c.due + [Asks(AsOfNow(c, at), request)], answer := None), wires) else c
  }

  predicate Outstanding(c: Cable) { if c.due == [] then c.pending.Some? else c.due[|c.due| - 1].Asks? }

  predicate ReleaseAccepted(c: Cable, at: nat) { Recent(c, at) && (Outstanding(c) ==> LastDue(c) <= AsOfNow(c, at)) }

  function Released(c: Cable, at: nat, wires: Wires): Cable {
    if ReleaseAccepted(c, at) && Outstanding(c) then Settled(c.(due := c.due + [LetsGo(AsOfNow(c, at))]), wires) else c
  }

  function Unplugged(c: Cable, wires: Wires): Cable { Released(c.(due := []), c.now, wires) }

  // ---- What the protocol bounds ----

  /** A release, a request and the release of that request, each or none. */
  ghost predicate Shape(due: seq<Held>) {
    match |due|
    case 0 => true
    case 1 => true
    case 2 => due[0].Asks? != due[1].Asks?
    case 3 => due[0].LetsGo? && due[1].Asks? && due[2].LetsGo?
    case _ => false
  }

  ghost predicate InOrder(c: Cable) {
    && (forall i, j :: 0 <= i <= j < |c.due| ==> c.due[i].at <= c.due[j].at)
    && (forall i :: 0 <= i < |c.due| ==> c.now <= c.due[i].at)
  }

  /** The order and the shape; a request at the front of the queue waits for a connector free by its
      instant; a lift is for a request acknowledged; and an acknowledgement while a request is held
      is the one's before it, whose release is still to come. */
  ghost predicate Valid(c: Cable) {
    && Shape(c.due) && InOrder(c) && c.now <= NEVER
    && (c.liftAt.Some? ==> c.pending.Some? && c.now <= c.liftAt.value)
    && (c.due != [] && c.due[0].Asks? && c.pending.Some? ==> c.liftAt.Some? && c.liftAt.value <= c.due[0].at)
    && (c.answer.Some? && HoldsRequest(c.due) ==> c.due[0].LetsGo?)
    && (c.pending.Some? ==> c.pending.value.0 <= c.now)
  }

  /** Nothing left that is due now. */
  ghost predicate Future(c: Cable) {
    && (forall i :: 0 <= i < |c.due| ==> c.now < c.due[i].at)
    && (c.liftAt.Some? ==> c.now < c.liftAt.value)
  }

  lemma LiftedValid(c: Cable)
    requires Valid(c)
    ensures Valid(LiftedIfDue(c)) && (LiftedIfDue(c).liftAt.Some? ==> c.now < LiftedIfDue(c).liftAt.value)
    ensures LiftedIfDue(c).due == c.due && LiftedIfDue(c).now == c.now
    ensures LiftedIfDue(c).cycles == c.cycles && LiftedIfDue(c).answer == c.answer
  {
  }

  /** A request goes on a free connector, at its own instant. */
  lemma MadeValid(c: Cable, wires: Wires)
    requires Valid(c) && c.due != [] && c.due[0].at <= c.now && (c.liftAt.Some? ==> c.now < c.liftAt.value)
    ensures Valid(Made(c, wires)) && Made(c, wires).now == c.now
    ensures c.due[0].at == c.now && (c.due[0].Asks? ==> c.pending == None)
    ensures c.due[0].Asks? ==> Made(c, wires).pending == Some((c.due[0].at, c.due[0].request))
    ensures c.due[0].LetsGo? ==> Made(c, wires).pending == None && Made(c, wires).answer == None
  {
    var r := c.(due := c.due[1..]);
    assert Shape(r.due) && InOrder(r);
    if c.due[0].Asks? {
      assert !HoldsRequest(r.due);
    } else if HoldsRequest(r.due) {
      assert r.due[0].Asks?;
    }
  }

  /** The queue settles with everything in it still to come. */
  lemma {:induction false} SettledValid(c: Cable, wires: Wires)
    requires Valid(c)
    ensures Valid(Settled(c, wires)) && Future(Settled(c, wires)) && Settled(c, wires).now == c.now
    decreases |c.due|
  {
    hide Valid, Made;
    LiftedValid(c);
    var l := LiftedIfDue(c);
    ValidOrder(l);
    hide LiftedIfDue;
    if l.due != [] && l.due[0].at <= l.now {
      MadeValid(l, wires);
      MadeShorter(l, wires);
      SettledValid(Made(l, wires), wires);
    }
  }

  lemma ValidOrder(c: Cable)
    requires Valid(c)
    ensures InOrder(c)
  {
  }

  lemma MadeShorter(c: Cable, wires: Wires)
    requires c.due != []
    ensures |Made(c, wires).due| == |c.due| - 1
  {
  }

  lemma TwoHeld(due: seq<Held>)
    ensures Shape(due) && |due| >= 2 ==> HoldsRequest(due)
  {
    if |due| >= 2 && Shape(due) {
      assert due[0].Asks? || due[1].Asks?;
    }
  }

  /** Time moved on to no later than what is next, and the acknowledgement looked at. */
  lemma MovedValid(c: Cable, at: nat, wires: Wires)
    requires Valid(c) && Future(c) && c.now <= at <= NextDue(c) && at <= NEVER
    ensures Valid(Observed(c.(now := at), wires)) && Observed(c.(now := at), wires).now == at
  {
  }

  lemma NextIsAhead(c: Cable)
    requires Future(c) && c.now < NEVER
    ensures c.now < NextDue(c)
  {
  }

  lemma AskedQueued(c: Cable, at: nat, request: DebugRequest)
    requires Valid(c) && Accepts(c, at)
    ensures Valid(c.(due := c.due + [Asks(AsOfNow(c, at), request)], answer := None))
  {
    TwoHeld(c.due);
  }

  lemma ReleaseQueued(c: Cable, at: nat)
    requires Valid(c) && ReleaseAccepted(c, at) && Outstanding(c)
    ensures Valid(c.(due := c.due + [LetsGo(AsOfNow(c, at))]))
  {
    var q := c.(due := c.due + [LetsGo(AsOfNow(c, at))]);
    if HoldsRequest(q.due) {
      assert HoldsRequest(c.due);
    }
  }

  lemma AskedValid(c: Cable, at: nat, request: DebugRequest, wires: Wires)
    requires Valid(c) && Future(c)
    ensures Valid(Asked(c, at, request, wires)) && Future(Asked(c, at, request, wires)) && Asked(c, at, request, wires).now == c.now
  {
    hide Settled;
    if Accepts(c, at) {
      var q := c.(due := c.due + [Asks(AsOfNow(c, at), request)], answer := None);
      AskedQueued(c, at, request);
      SettledValid(q, wires);
    }
  }

  lemma ReleasedValid(c: Cable, at: nat, wires: Wires)
    requires Valid(c)
    ensures Valid(Released(c, at, wires)) && Released(c, at, wires).now == c.now
    ensures Future(c) ==> Future(Released(c, at, wires))
  {
    hide Settled;
    if ReleaseAccepted(c, at) && Outstanding(c) {
      var q := c.(due := c.due + [LetsGo(AsOfNow(c, at))]);
      ReleaseQueued(c, at);
      SettledValid(q, wires);
    }
  }

  /** The cable pulled, nothing is held and the connector is free. */
  lemma UnpluggedFree(c: Cable, wires: Wires)
    requires Valid(c) && Future(c)
    ensures Unplugged(c, wires).due == [] && Unplugged(c, wires).pending == None && Valid(Unplugged(c, wires)) && Future(Unplugged(c, wires))
  {
    hide Valid, Future, Settled, Released;
    var e := c.(due := []);
    EmptiedValid(c);
    ReleasedValid(e, c.now, wires);
    ReleasedNow(e, wires);
    if e.pending.Some? {
      LetGoNow(e, wires);
    }
  }

  lemma EmptiedValid(c: Cable)
    requires Valid(c) && Future(c)
    ensures var e := c.(due := []);
            Valid(e) && Future(e) && e.now <= NEVER && (e.liftAt.Some? ==> e.now < e.liftAt.value)
  {
  }

  lemma ReleasedNow(e: Cable, wires: Wires)
    requires e.due == [] && e.now <= NEVER
    ensures Released(e, e.now, wires) == if e.pending.Some? then Settled(e.(due := [LetsGo(e.now)]), wires) else e
  {
    hide Settled;
    assert e.due + [LetsGo(e.now)] == [LetsGo(e.now)];
  }

  lemma LetGoNow(e: Cable, wires: Wires)
    requires e.due == [] && e.pending.Some? && (e.liftAt.Some? ==> e.now < e.liftAt.value)
    ensures Settled(e.(due := [LetsGo(e.now)]), wires) == e.(pending := None, answer := None, liftAt := None)
  {
    var q := e.(due := [LetsGo(e.now)]);
    assert LiftedIfDue(q) == q;
    var m := Made(q, wires);
    assert m.due == [];
    assert Settled(m, wires) == m;
  }

  // ---- Whole runs ----

  /** What befalls the connector: the boards' time moved on to an event of theirs or to what is next,
      and the acknowledgement looked at; the wire's requests and releases; and the cable pulled. */
  datatype Happening = Moves(at: nat) | Requests(at: nat, request: DebugRequest) | Releases(at: nat) | Unplugs

  predicate Can(c: Cable, h: Happening) { h.Moves? ==> c.now <= h.at <= NextDue(c) && h.at <= NEVER }

  function Next(c: Cable, h: Happening, wires: Wires): Cable {
    match h
    case Moves(at) => Settled(Observed(c.(now := at), wires), wires)
    case Requests(at, request) => Asked(c, at, request, wires)
    case Releases(at) => Released(c, at, wires)
    case Unplugs => Unplugged(c, wires)
  }

  ghost predicate Runs(c: Cable, run: seq<Happening>, wires: Wires)
    decreases |run|
  {
    run == [] || (Can(c, run[0]) && Runs(Next(c, run[0], wires), run[1..], wires))
  }

  function After(c: Cable, run: seq<Happening>, wires: Wires): Cable
    decreases |run|
  {
    if run == [] then c else After(Next(c, run[0], wires), run[1..], wires)
  }

  lemma NextValid(c: Cable, h: Happening, wires: Wires)
    requires Valid(c) && Future(c) && Can(c, h)
    ensures Valid(Next(c, h, wires)) && Future(Next(c, h, wires))
  {
    hide Valid, Future, Settled, Asked, Released, Observed, NextDue;
    match h
    case Moves(at) =>
      MovedValid(c, at, wires);
      SettledValid(Observed(c.(now := at), wires), wires);
    case Requests(at, request) => AskedValid(c, at, request, wires);
    case Releases(at) => ReleasedValid(c, at, wires);
    case Unplugs => UnpluggedFree(c, wires);
  }

  /** Over every run the queue keeps its shape, so never more than three held, and its order, with
      all of it to come. */
  lemma {:induction false} RunsValid(c: Cable, run: seq<Happening>, wires: Wires)
    requires Valid(c) && Future(c) && Runs(c, run, wires)
    ensures Valid(After(c, run, wires)) && Future(After(c, run, wires)) && |After(c, run, wires).due| <= 3
    decreases |run|
  {
    hide Valid, Future, Next, Can;
    Bounded(c);
    if run != [] {
      NextValid(c, run[0], wires);
      RunsValid(Next(c, run[0], wires), run[1..], wires);
    }
  }

  // ---- Whose the answer is ----

  /** A run all through which a request is held. */
  ghost predicate HeldThrough(c: Cable, run: seq<Happening>, wires: Wires)
    decreases |run|
  {
    HoldsRequest(c.due) && (run == [] || (Can(c, run[0]) && HeldThrough(Next(c, run[0], wires), run[1..], wires)))
  }

  /** The request on the connector unanswered yet, so that an answer to it may still come. */
  predicate Unanswered(c: Cable) { c.pending.Some? && c.liftAt == None }

  /** Nothing to be answered before the request held. */
  ghost predicate Quiet(c: Cable) { Valid(c) && Future(c) && HoldsRequest(c.due) && c.answer == None && !Unanswered(c) }

  /** What falls due before the request held leaves nothing to answer. */
  lemma {:induction false} SettledQuiet(c: Cable, wires: Wires)
    requires Valid(c) && c.answer == None && !Unanswered(c) && HoldsRequest(Settled(c, wires).due)
    ensures Settled(c, wires).answer == None && !Unanswered(Settled(c, wires))
    decreases |c.due|
  {
    LiftedValid(c);
    var l := LiftedIfDue(c);
    hide LiftedIfDue, Observed;
    assert l.answer == None && !Unanswered(l) by { LiftedQuiet(c); }
    if l.due != [] && l.due[0].at <= l.now {
      MadeValid(l, wires);
      if l.due[0].Asks? {
        OneHeld(l);
        SettledHolds(Made(l, wires), wires);
      } else {
        SettledQuiet(Made(l, wires), wires);
      }
    }
  }

  lemma LiftedQuiet(c: Cable)
    requires c.answer == None && !Unanswered(c)
    ensures LiftedIfDue(c).answer == None && !Unanswered(LiftedIfDue(c))
  {
  }

  lemma OneHeld(c: Cable)
    requires Valid(c) && c.due != [] && c.due[0].Asks?
    ensures !HoldsRequest(c.due[1..])
  {
  }

  /** Settling holds no request that was not held. */
  lemma {:induction false} SettledHolds(c: Cable, wires: Wires)
    ensures HoldsRequest(Settled(c, wires).due) ==> HoldsRequest(c.due)
    decreases |c.due|
  {
    var l := LiftedIfDue(c);
    if l.due != [] && l.due[0].at <= l.now {
      MadeShorter(l, wires);
      SettledHolds(Made(l, wires), wires);
      assert Made(l, wires).due == c.due[1..];
      if HoldsRequest(c.due[1..]) {
        var k :| 0 <= k < |c.due[1..]| && c.due[1..][k].Asks?;
        assert c.due[k + 1].Asks?;
      }
    }
  }

  lemma NextQuiet(c: Cable, h: Happening, wires: Wires)
    requires Quiet(c) && Can(c, h) && HoldsRequest(Next(c, h, wires).due)
    ensures Quiet(Next(c, h, wires))
  {
    NextValid(c, h, wires);
    match h
    case Moves(at) =>
      MovedValid(c, at, wires);
      hide Settled, Valid, Future;
      SettledQuiet(Observed(c.(now := at), wires), wires);
    case Requests(at, request) =>
    case Releases(at) =>
      hide Settled, Future;
      if ReleaseAccepted(c, at) && Outstanding(c) {
        ReleaseQueued(c, at);
        hide Valid;
        SettledQuiet(c.(due := c.due + [LetsGo(AsOfNow(c, at))]), wires);
      }
    case Unplugs => UnpluggedFree(c, wires);
  }

  lemma {:induction false} StaysQuiet(c: Cable, run: seq<Happening>, wires: Wires)
    requires Quiet(c) && HeldThrough(c, run, wires)
    ensures After(c, run, wires).answer == None
    decreases |run|
  {
    if run != [] {
      assert HoldsRequest(Next(c, run[0], wires).due);
      NextQuiet(c, run[0], wires);
      hide Quiet, Next, HoldsRequest;
      StaysQuiet(Next(c, run[0], wires), run[1..], wires);
    }
  }

  /** With nothing unanswered when it is taken, a request held sees no answer till it goes on. */
  lemma NoEarlierAnswer(c: Cable, at: nat, request: DebugRequest, run: seq<Happening>, wires: Wires)
    requires Valid(c) && Future(c) && Accepts(c, at) && !Unanswered(c)
    requires HeldThrough(Asked(c, at, request, wires), run, wires)
    ensures After(Asked(c, at, request, wires), run, wires).answer == None
  {
    var q := c.(due := c.due + [Asks(AsOfNow(c, at), request)], answer := None);
    AskedQueued(c, at, request);
    AskedValid(c, at, request, wires);
    hide Settled, Valid, Future;
    SettledQuiet(q, wires);
    StaysQuiet(Asked(c, at, request, wires), run, wires);
  }

  /** The board acknowledging whatever is asked of it at one instant. */
  function AcksAt(t: nat): Wires { (at: nat, r: DebugRequest) => if at == t then Some(Some(0)) else None }

  /** With the request on the connector unanswered, it can be answered while the next is held. */
  lemma EarlierAnswer(c: Cable, at: nat, request: DebugRequest)
    requires Valid(c) && Future(c) && Accepts(c, at) && Unanswered(c)
    ensures var a := Asked(c, at, request, AcksAt(c.now));
            HeldThrough(a, [Moves(c.now)], AcksAt(c.now)) && After(a, [Moves(c.now)], AcksAt(c.now)).answer == Some((c.now, Some(0)))
  {
    var wires := AcksAt(c.now);
    var q := c.(due := c.due + [Asks(AsOfNow(c, at), request)], answer := None);
    AskedQueued(c, at, request);
    assert HoldsRequest(q.due) by { assert q.due[|c.due|].Asks?; }
    assert forall k :: 0 <= k < |q.due| ==> q.due[k].at > c.now by {
      assert c.due != [] && c.now < c.due[|c.due| - 1].at <= AsOfNow(c, at);
    }
    NothingDue(q, wires);
    var o := Observed(q, wires);
    assert o == q.(answer := Some((c.now, Some(0))), liftAt := Some(Later(c.now, c.pending.value.1.hold)));
    SettledKeeps(o, wires);
  }

  lemma NothingDue(c: Cable, wires: Wires)
    requires c.liftAt == None && c.due != [] && c.now < c.due[0].at
    ensures Settled(c, wires) == c
  {
  }

  /** What is to come is left alone, whatever is lifted. */
  lemma SettledKeeps(c: Cable, wires: Wires)
    requires c.due != [] && c.now < c.due[0].at
    ensures Settled(c, wires).due == c.due && Settled(c, wires).answer == c.answer
  {
  }

  /** A run from the taking of a request, all through which it is held, that ends with an answer up. */
  ghost predicate SeesAnswer(c: Cable, at: nat, request: DebugRequest, wires: Wires, run: seq<Happening>) {
    HeldThrough(Asked(c, at, request, wires), run, wires) && After(Asked(c, at, request, wires), run, wires).answer.Some?
  }

  /** An answer can be seen while a request taken is held, and so before it is on the connector,
      exactly when the request it was taken behind was unanswered then. */
  lemma EarlierAnswerExactly(c: Cable, at: nat, request: DebugRequest)
    requires Valid(c) && Future(c) && Accepts(c, at)
    ensures (exists wires: Wires, run: seq<Happening> :: SeesAnswer(c, at, request, wires, run)) <==> Unanswered(c)
  {
    if Unanswered(c) {
      EarlierAnswer(c, at, request);
      assert SeesAnswer(c, at, request, AcksAt(c.now), [Moves(c.now)]);
    } else {
      forall wires: Wires, run: seq<Happening>
        ensures !SeesAnswer(c, at, request, wires, run)
      {
        if HeldThrough(Asked(c, at, request, wires), run, wires) {
          NoEarlierAnswer(c, at, request, run, wires);
        }
      }
    }
  }

  /** From a connector just plugged in: a request goes on at 50 and is given up on, its release dated
      200; the next is taken, dated 250; and the first one's answer is seen at 150. */
  lemma EarlierAnswerSeen(req: DebugRequest, next: DebugRequest)
    ensures var plugged := Cable(0, [], None, None, None, 0);
            var run := [Requests(50, req), Moves(50), Releases(200), Requests(250, next), Moves(150)];
            var c := After(plugged, run, AcksAt(150));
            && Runs(plugged, run, AcksAt(150))
            && c.due == [LetsGo(200), Asks(250, next)] && c.answer == Some((150, Some(0)))
  {
    var wires := AcksAt(150);
    var c0 := Cable(0, [], None, None, None, 0);
    var c1 := c0.(due := [Asks(50, req)]);
    assert [] + [Asks(50, req)] == c1.due;
    assert Next(c0, Requests(50, req), wires) == c1;
    var cycles := if req.strobe == Unibus.DEBUG_CYCLE then 1 else 0;
    var c2 := Cable(50, [], Some((50, req)), None, None, cycles);
    assert Made(c1.(now := 50), wires) == c2;
    assert Settled(c2, wires) == c2;
    assert Next(c1, Moves(50), wires) == c2;
    Queued(c2, next, wires);
    var run := [Requests(50, req), Moves(50), Releases(200), Requests(250, next), Moves(150)];
    assert run[1..] == [Moves(50), Releases(200), Requests(250, next), Moves(150)];
    assert run[2..] == [Releases(200), Requests(250, next), Moves(150)];
    hide Next, Can;
  }

  lemma Queued(c: Cable, next: DebugRequest, wires: Wires)
    requires c.now == 50 && c.due == [] && c.pending.Some? && c.answer == None && c.liftAt == None && wires == AcksAt(150)
    ensures Runs(c, [Releases(200), Requests(250, next), Moves(150)], wires)
    ensures var e := After(c, [Releases(200), Requests(250, next), Moves(150)], wires);
            e.due == [LetsGo(200), Asks(250, next)] && e.answer == Some((150, Some(0)))
  {
    var c3 := c.(due := [LetsGo(200)]);
    assert [] + [LetsGo(200)] == c3.due;
    assert Next(c, Releases(200), wires) == c3;
    var c4 := c3.(due := [LetsGo(200), Asks(250, next)]);
    assert [LetsGo(200)] + [Asks(250, next)] == c4.due;
    assert c3.due[0].LetsGo?;
    assert Next(c3, Requests(250, next), wires) == c4;
    var o := Observed(c4.(now := 150), wires);
    assert o.answer == Some((150, Some(0))) && o.due == c4.due;
    SettledKeeps(o, wires);
    var c5 := Next(c4, Moves(150), wires);
    hide Next;
    LastOf(c4, Moves(150), wires);
    var two := [Requests(250, next), Moves(150)];
    assert two[1..] == [Moves(150)];
    assert Runs(c3, two, wires) && After(c3, two, wires) == c5;
    assert [Releases(200), Requests(250, next), Moves(150)][1..] == two;
  }

  lemma LastOf(c: Cable, h: Happening, wires: Wires)
    requires Can(c, h)
    ensures Runs(c, [h], wires) && After(c, [h], wires) == Next(c, h, wires)
  {
    assert [h][1..] == [];
    hide Next;
  }

  // ---- The cable end ----

  class DebugIn {
    var now: nat
    var due: seq<Held>
    var pending: Option<(nat, DebugRequest)>
    var answer: Option<(nat, Option<nat>)>
    var liftAt: Option<nat>
    var cycles: nat

    function State(): Cable
      reads this
    {
      Cable(now, due, pending, answer, liftAt, cycles)
    }

    constructor (now: nat)
      requires now <= NEVER
      ensures State() == Cable(now, [], None, None, None, 0) && Valid(State()) && Future(State())
    {
      this.now, due, pending, answer, liftAt, cycles := now, [], None, None, None, 0;
    }

    method Observe(wires: Wires)
      modifies this
      ensures State() == Observed(old(State()), wires) && due == old(due)
    {
      if pending.Some? && liftAt == None {
        var ack := wires(now, pending.value.1);
        if ack.Some? {
          answer := Some((now, ack.value));
          liftAt := Some(Later(now, pending.value.1.hold));
        }
      }
    }

    method Lift()
      modifies this
      ensures State() == Lifted(old(State()))
    {
      pending, liftAt := None, None;
    }

    /** Onto a free connector. */
    method Place(request: DebugRequest, wires: Wires)
      requires pending == None
      modifies this
      ensures State() == Placed(old(State()), request, wires) && due == old(due)
    {
      if request.strobe == Unibus.DEBUG_CYCLE {
        cycles := cycles + 1;
      }
      pending, answer, liftAt := Some((now, request)), None, None;
      Observe(wires);
    }

    /** The front of the queue taken off it and made. */
    method Front(wires: Wires)
      requires due != [] && (due[0].Asks? ==> pending == None)
      modifies this
      ensures State() == Made(old(State()), wires) && due == old(due[1..])
    {
      var d := due[0];
      due := due[1..];
      match d {
        case Asks(_, request) => Place(request, wires);
        case LetsGo(_) =>
          Lift();
          answer := None;
      }
    }

    /** Whatever has fallen due: never more than three held, all of them to come once it is done. */
    method SettleDue(wires: Wires) returns (ghost made: seq<Held>)
      requires Valid(State())
      modifies this
      ensures State() == Settled(old(State()), wires)
      ensures made + due == old(due) && MadeNow(made, now)
      ensures Valid(State()) && Future(State()) && |due| <= 3 && now == old(now)
    {
      hide Valid, Future, Made, MadeNow;
      ghost var c := State();
      SettledValid(c, wires);
      made := [];
      NoneMade(now);
      while true
        invariant Valid(State()) && Settled(State(), wires) == Settled(c, wires) && now == old(now)
        invariant made + due == old(due) && MadeNow(made, now)
        decreases |due|
      {
        ghost var b := State();
        LiftedValid(b);
        if liftAt.Some? && now >= liftAt.value {
          Lift();
        }
        ghost var l := State();
        assert l == LiftedIfDue(b);
        if due == [] || due[0].at > now {
          break;
        }
        MadeValid(l, wires);
        MadeShorter(l, wires);
        OneMade(c.due, made, due, now);
        made := made + [due[0]];
        Front(wires);
      }
      Bounded(State());
    }

    method DebugRequestAt(at: nat, request: DebugRequest, wires: Wires) returns (ok: bool)
      requires Valid(State()) && Future(State())
      modifies this
      ensures ok == Accepts(old(State()), at) && State() == Asked(old(State()), at, request, wires)
      ensures Valid(State()) && Future(State())
    {
      hide Valid, Future, Settled;
      ghost var c := State();
      AskedValid(c, at, request, wires);
      if Later(at, QUANTUM) < now {
        return false;
      }
      var when := if at < now then now else at;
      if exists k :: 0 <= k < |due| && due[k].Asks? {
        return false;
      }
      if pending.Some? {
        var released := exists k :: 0 <= k < |due| && due[k].LetsGo?;
        var lifted := liftAt.Some? && liftAt.value <= when;
        if !released && !lifted {
          return false;
        }
      }
      if when < LastDue(State()) {
        return false;
      }
      AskedQueued(c, at, request);
      due := due + [Asks(when, request)];
      answer := None;
      var _ := SettleDue(wires);
      return true;
    }

    method DebugReleaseAt(at: nat, wires: Wires) returns (ok: bool)
      requires Valid(State())
      modifies this
      ensures ok == ReleaseAccepted(old(State()), at) && State() == Released(old(State()), at, wires)
      ensures Valid(State()) && (old(Future(State())) ==> Future(State()))
    {
      hide Valid, Future, Settled;
      ghost var c := State();
      ReleasedValid(c, at, wires);
      if Later(at, QUANTUM) < now {
        return false;
      }
      var when := if at < now then now else at;
      if !(if due == [] then pending.Some? else due[|due| - 1].Asks?) {
        return true;
      }
      if when < LastDue(State()) {
        return false;
      }
      ReleaseQueued(c, at);
      due := due + [LetsGo(when)];
      var _ := SettleDue(wires);
      return true;
    }

    method DebugUnplug(wires: Wires)
      requires Valid(State()) && Future(State())
      modifies this
      ensures State() == Unplugged(old(State()), wires)
      ensures due == [] && pending == None && Valid(State())
    {
      hide Settled;
      UnpluggedFree(State(), wires);
      due := [];
      assert Valid(State());
      var _ := DebugReleaseAt(now, wires);
    }

    /** The boards to `limit`, an event of theirs at a time: what is held is made in order, each at its
        own instant, and what is left is past the limit. */
    method RunTo(limit: nat, next: nat -> Option<nat>, wires: Wires) returns (ghost made: seq<Held>, ghost madeAt: seq<nat>)
      requires Valid(State())
      requires forall t: nat :: next(t).Some? ==> t < next(t).value
      requires limit < NEVER
      modifies this
      ensures Valid(State()) && Future(State()) && now == if old(now) < limit then limit else old(now)
      ensures made + due == old(due) && |madeAt| == |made| && forall i :: 0 <= i < |made| ==> madeAt[i] == made[i].at
    {
      hide Settled, Valid, Future, Observed, NextDue, MadeNow;
      ghost var all := due;
      made, madeAt := [], [];
      while true
        invariant Valid(State())
        invariant now <= limit || now == old(now)
        invariant made + due == all && |madeAt| == |made| && forall i :: 0 <= i < |made| ==> madeAt[i] == made[i].at
        decreases limit - now
      {
        ghost var before := due;
        ghost var more := SettleDue(wires);
        MoreMade(all, made, madeAt, before, more, due, now);
        made, madeAt := made + more, madeAt + Instants(|more|, now);
        if now >= limit {
          break;
        }
        var target := if limit < NextDue(State()) then limit else NextDue(State());
        var e := next(now);
        NextIsAhead(State());
        ghost var c := State();
        now := if e.Some? && e.value <= target then e.value else target;
        MovedValid(c, now, wires);
        assert State() == c.(now := now);
        Observe(wires);
      }
    }
  }

  ghost predicate MadeNow(made: seq<Held>, now: nat) { forall i :: 0 <= i < |made| ==> made[i].at == now }

  function Instants(n: nat, now: nat): seq<nat> { seq(n, _ => now) }

  lemma NoneMade(now: nat)
    ensures MadeNow([], now)
  {
  }

  lemma OneMade(all: seq<Held>, made: seq<Held>, due: seq<Held>, now: nat)
    requires made + due == all && due != [] && MadeNow(made, now) && due[0].at == now
    ensures made + [due[0]] + due[1..] == all && MadeNow(made + [due[0]], now)
  {
    assert due == [due[0]] + due[1..];
  }

  lemma MoreMade(all: seq<Held>, made: seq<Held>, madeAt: seq<nat>, before: seq<Held>, more: seq<Held>, due: seq<Held>, now: nat)
    requires made + before == all && more + due == before && MadeNow(more, now)
    requires |madeAt| == |made| && forall i :: 0 <= i < |made| ==> madeAt[i] == made[i].at
    ensures made + more + due == all && |madeAt + Instants(|more|, now)| == |made + more|
    ensures forall i :: 0 <= i < |made + more| ==> (madeAt + Instants(|more|, now))[i] == (made + more)[i].at
  {
  }

  lemma Bounded(c: Cable)
    requires Valid(c)
    ensures |c.due| <= 3
  {
  }
}
