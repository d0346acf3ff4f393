/** Whose time is kept: the board's own nanoseconds, or the ticks of a 10 ns grid. */
module Timing {
  const GRID_NS: nat := 10

  /** No instant at all: the greatest number of nanoseconds there is. */
  const NEVER: nat := 0xFFFF_FFFF_FFFF_FFFF

  /** A sum that stops at `NEVER`. */
  function Later(a: nat, b: nat): (c: nat) {
    if a + b > NEVER then NEVER else a + b
  }

  datatype TimingModel = Cadr | Fpga | Sync(cycleTicks: nat, ilongTicks: nat) {
    /** An instant as the model has it: put off to the grid, if there is one. */
    function Tick(ns: nat): (t: nat)
      ensures ns <= t < ns + GRID_NS
      ensures Cadr? ==> t == ns
    {
      if Cadr? then ns else (ns + GRID_NS - 1) / GRID_NS * GRID_NS
    }
  }

  lemma TickGrows(m: TimingModel, a: nat, b: nat)
    requires a <= b
    ensures m.Tick(a) <= m.Tick(b)
  {
  }
}
