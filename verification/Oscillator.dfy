/** Oscillators that run from an origin, high first, toggling every half of a rational period to the
    nanosecond below; a gated section's output follows its oscillator from the first fall after its
    enable. */
module Oscillator {
  import opened Arithmetic

  /** A period of `num / den` nanoseconds. */
  datatype Period = Period(num: nat, den: nat) {
    ghost predicate Runs() { num > 0 && den > 0 }
  }

  /** The oscillator of the bus interface's timeout counter, and the memory boards' crystal. */
  const VCO_PERIOD := Period(850, 1)
  const DIP_PERIOD := Period(125, 3)

  function ToggleAt(p: Period, k: nat): (t: nat)
    requires p.Runs()
  {
    Quotient(k * p.num, 2 * p.den)
  }

  /** A whole quotient, rounded down. */
  function Quotient(a: nat, b: nat): nat
    requires b > 0
  {
    a / b
  }

  /** How many toggles are due by `t`. */
  function Due(p: Period, t: nat): (k: nat)
    requires p.Runs()
  {
    Quotient((t + 1) * (2 * p.den) - 1, p.num)
  }

  lemma ProductAtMost(x: nat, p: nat, k: nat)
    requires p > 0
    ensures k * p <= x <==> k <= Quotient(x, p)
  {
    var q := x / p;
    assert x == q * p + x % p;
    if k <= q {
      MulAtMost(k, q, p);
    } else {
      MulAtMost(q + 1, k, p);
      assert (q + 1) * p == q * p + p;
    }
  }

  /** Exactly the toggles numbered up to `Due` have come by `t`. */
  lemma DueExactly(p: Period, t: nat, k: nat)
    requires p.Runs()
    ensures ToggleAt(p, k) <= t <==> k <= Due(p, t)
  {
    var d := 2 * p.den;
    QuotientAtMost(k * p.num, d, t);
    assert (t + 1) * d >= 1;
    ProductAtMost((t + 1) * d - 1, p.num, k);
  }

  // ---- The two loops that put a first guess right ----

  /** From any guess, the first toggle after `t`, no earlier than `first`. */
  method FirstAfter(p: Period, t: nat, first: nat, guess: nat) returns (k: nat)
    requires p.Runs() && first <= guess
    ensures first <= k && ToggleAt(p, k) > t
    ensures k > first ==> ToggleAt(p, k - 1) <= t
    ensures k == if Due(p, t) + 1 < first then first else Due(p, t) + 1
  {
    k := guess;
    while ToggleAt(p, k) <= t
      invariant k >= guess && (k > guess ==> ToggleAt(p, k - 1) <= t)
      decreases Due(p, t) + 1 - k
    {
      DueExactly(p, t, k);
      k := k + 1;
    }
    while k > first && ToggleAt(p, k - 1) > t
      invariant first <= k && ToggleAt(p, k) > t
    {
      k := k - 1;
    }
    DueExactly(p, t, k);
    if k > first {
      DueExactly(p, t, k - 1);
    }
  }

  /** The toggles made once an oscillator with `edges` of them behind it is caught up to `now`. */
  function CaughtUp(p: Period, origin: nat, edges: nat, now: nat): (due: nat)
    requires p.Runs()
  {
    if now < origin || Due(p, now - origin) <= edges then edges else Due(p, now - origin)
  }

  /** How many toggles have come by `now`, found from a guess. */
  method CatchUp(p: Period, origin: nat, edges: nat, now: nat) returns (due: nat)
    requires p.Runs()
    ensures due == CaughtUp(p, origin, edges, now)
    ensures due >= edges && origin + ToggleAt(p, due + 1) > now
    ensures due == edges || origin + ToggleAt(p, due) <= now
  {
    var since := if now < origin then 0 else now - origin;
    due := Quotient(since * 2 * p.den, p.num);
    if due < edges {
      due := edges;
    }
    ghost var guess := due;
    while origin + ToggleAt(p, due + 1) <= now
      invariant due >= guess && (due > guess ==> origin + ToggleAt(p, due) <= now)
      decreases if now < origin then 0 else Due(p, now - origin) + 1 - due
    {
      DueExactly(p, now - origin, due + 1);
      due := due + 1;
    }
    while due > edges && origin + ToggleAt(p, due) > now
      invariant edges <= due && origin + ToggleAt(p, due + 1) > now
    {
      due := due - 1;
    }
    if now >= origin {
      DueExactly(p, now - origin, due + 1);
      DueExactly(p, now - origin, due);
    }
  }

  /** Caught up at an instant between, it is as if it had not been. */
  lemma CatchUpBetween(p: Period, origin: nat, edges: nat, mid: nat, now: nat)
    requires p.Runs() && mid <= now
    ensures CaughtUp(p, origin, CaughtUp(p, origin, edges, mid), now) == CaughtUp(p, origin, edges, now)
  {
    if mid >= origin {
      var k := Due(p, mid - origin);
      DueExactly(p, mid - origin, k);
      DueExactly(p, now - origin, k);
    }
  }

  function CaughtUpAt(p: Period, origin: nat, edges: nat, at: seq<nat>): nat
    requires p.Runs()
  {
    if at == [] then edges else CaughtUp(p, origin, CaughtUpAt(p, origin, edges, at[..|at| - 1]), at[|at| - 1])
  }

  /** Caught up at any instants on the way, it ends with the toggles of one step to the last. */
  lemma {:induction false} CatchUpAnyhow(p: Period, origin: nat, edges: nat, at: seq<nat>)
    requires p.Runs() && at != [] && forall i, j :: 0 <= i <= j < |at| ==> at[i] <= at[j]
    ensures CaughtUpAt(p, origin, edges, at) == CaughtUp(p, origin, edges, at[|at| - 1])
  {
    var n := |at| - 1;
    if n > 0 {
      CatchUpAnyhow(p, origin, edges, at[..n]);
      CatchUpBetween(p, origin, edges, at[n - 1], at[n]);
    } else {
      assert at[..0] == [];
      assert CaughtUpAt(p, origin, edges, at[..0]) == edges;
    }
  }

  // ---- A gated section ----

  /** The number of the first fall strictly after `t`: the falls are the odd toggles. */
  function FallAfter(p: Period, t: nat): (k: nat)
    requires p.Runs()
    ensures k % 2 == 1
  {
    var k := Due(p, t) + 1;
    if k % 2 == 0 then k + 1 else k
  }

  method FirstFall(p: Period, t: nat) returns (k: nat)
    requires p.Runs()
    ensures k == FallAfter(p, t)
    ensures ToggleAt(p, k) > t && k % 2 == 1
    ensures forall j: nat :: j % 2 == 1 && j < k ==> ToggleAt(p, j) <= t
  {
    k := FirstAfter(p, t, 0, Quotient(t * 2 * p.den, p.num));
    if k % 2 == 0 {
      k := k + 1;
    }
    forall j: nat
      ensures ToggleAt(p, j) <= t <==> j <= Due(p, t)
    {
      DueExactly(p, t, j);
    }
  }

  /** The `k`-th rise, from 1, of the output of a section enabled at `since`. */
  function GatedRise(p: Period, since: nat, k: nat): (t: nat)
    requires p.Runs() && k > 0
  {
    ToggleAt(p, FallAfter(p, since) + 2 * k - 1)
  }

  /** The number of the first rise after `t`. */
  function RiseAfter(p: Period, since: nat, t: nat): (k: nat)
    requires p.Runs()
    ensures k > 0
  {
    var first, next := FallAfter(p, since) + 1, Due(p, t) + 1;
    if next <= first then 1 else (next - first + 1) / 2 + 1
  }

  lemma RiseAfterExactly(p: Period, since: nat, t: nat, j: nat)
    requires p.Runs() && j > 0
    ensures GatedRise(p, since, j) <= t <==> j < RiseAfter(p, since, t)
  {
    DueExactly(p, t, FallAfter(p, since) + 2 * j - 1);
    hide ToggleAt, Due;
  }

  /** The first of the output's rises after `t`, and no other before it is. */
  method GatedRiseAfter(p: Period, since: nat, t: nat) returns (at: nat)
    requires p.Runs()
    ensures at == GatedRise(p, since, RiseAfter(p, since, t)) > t
    ensures forall k: nat :: 0 < k < RiseAfter(p, since, t) ==> GatedRise(p, since, k) <= t
  {
    hide ToggleAt, Due, FallAfter, Quotient;
    var fall := FirstFall(p, since);
    var first := fall + 1;
    var guess := Quotient(t * 2 * p.den, p.num);
    var k := FirstAfter(p, t, first, if guess < first then first else guess);
    if k % 2 == 1 {
      k := k + 1;
    }
    assert k == FallAfter(p, since) + 2 * RiseAfter(p, since, t) - 1;
    forall j: nat | 0 < j
      ensures GatedRise(p, since, j) <= t <==> j < RiseAfter(p, since, t)
    {
      RiseAfterExactly(p, since, t, j);
    }
    return ToggleAt(p, k);
  }

  // ---- The timeout counter ----

  const VCO_NS: nat := 850
  const TIMEOUT_NS: nat := 5 * VCO_NS
  const DEBUG_TIMEOUT_NS: nat := 13 * VCO_NS

  function NxmTimeoutAt(granted: nat): nat { GatedRise(VCO_PERIOD, granted, 1) + TIMEOUT_NS }

  function DebugTimeoutAt(granted: nat): nat { GatedRise(VCO_PERIOD, granted, 1) + DEBUG_TIMEOUT_NS }

  /** A cycle nothing answers ends more than five and a half periods after its grant and at most
      six and a half; a debug cycle, more than thirteen and a half and at most fourteen and a half. */
  lemma TimeoutWithin(granted: nat)
    ensures 2 * granted + 11 * VCO_NS < 2 * NxmTimeoutAt(granted) <= 2 * granted + 13 * VCO_NS
    ensures 2 * granted + 27 * VCO_NS < 2 * DebugTimeoutAt(granted) <= 2 * granted + 29 * VCO_NS
  {
    var k := FallAfter(VCO_PERIOD, granted);
    DueExactly(VCO_PERIOD, granted, k);
    DueExactly(VCO_PERIOD, granted, k - 1);
    if k >= 2 {
      DueExactly(VCO_PERIOD, granted, k - 2);
    }
  }

  /** Both bounds are met with: a grant a nanosecond before a fall, and one at a fall. */
  lemma TimeoutBoundsMet()
    ensures 2 * NxmTimeoutAt(424) == 2 * 424 + 11 * VCO_NS + 2
    ensures 2 * NxmTimeoutAt(425) == 2 * 425 + 13 * VCO_NS
  {
  }
}
