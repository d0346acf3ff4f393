/** The order gates are evaluated in: groups of gates, every group after the ones feeding it. */
module Levelize {
  import opened Netlist
  import opened Components
  import opened SweepOrder

  /** Gate `f` drives a net gate `g` reads. */
  ghost predicate Feeds<S>(b: Board<S>, f: nat, g: nat) {
    f < |b.gates| && g < |b.gates| && b.gates[f].out.Some? && b.Reads(g, b.gates[f].out.value)
  }

  // ---- What the wiring says ----

  /** Gates, each feeding the next, all of them gates the evaluator places. */
  ghost predicate FeedPath<S>(b: Board<S>, p: seq<nat>) {
    && p != []
    && (forall i :: 0 <= i < |p| ==> p[i] < |b.gates| && b.gates[p[i]].Placed())
    && (forall i :: 0 <= i < |p| - 1 ==> Feeds(b, p[i], p[i + 1]))
  }

  /** Gate `f` feeds gate `g` through whatever gates, or is it. */
  ghost predicate FeedsThrough<S>(b: Board<S>, f: nat, g: nat) {
    exists p: seq<nat> :: FeedPath(b, p) && p[0] == f && p[|p| - 1] == g
  }

  /** No gate feeds itself, at once or through others. */
  ghost predicate NoFeedback<S>(b: Board<S>) {
    forall p: seq<nat> :: FeedPath(b, p) && |p| > 1 ==> p[0] != p[|p| - 1]
  }

  /** How often gate `f` is on what the first `n` pins of gate `g` read. */
  function PinsFed<S>(b: Board<S>, f: nat, g: nat, n: nat): nat
    requires b.WellFormed() && g < |b.gates| && n <= |b.gates[g].ins|
  {
    if n == 0 then 0
    else
      var pin := b.gates[g].ins[n - 1];
      PinsFed(b, f, g, n - 1) + match pin case None => 0 case Some(net) => assert pin in b.gates[g].ins; Occurs(b.drivers[net], f)
  }

  function EdgesOn<S>(b: Board<S>, f: nat, g: nat): nat
    requires b.WellFormed() && g < |b.gates|
  {
    PinsFed(b, f, g, |b.gates[g].ins|)
  }

  /** How often the first `n` of a group, those taken apart, are on the pins of gate `g`. */
  ghost function WaitsOn<S>(b: Board<S>, group: seq<nat>, taken: set<nat>, n: nat, g: nat): nat
    requires b.WellFormed() && n <= |group| && g < |b.gates|
  {
    if n == 0 then 0
    else WaitsOn(b, group, taken, n - 1, g) + if group[n - 1] in taken then 0 else EdgesOn(b, group[n - 1], g)
  }

  ghost predicate AreGates<S>(b: Board<S>, gates: seq<nat>) { forall i :: 0 <= i < |gates| ==> gates[i] < |b.gates| }

  /** A group in the order a sweep takes it: next always a gate that waits on as few of those
      left as any left does. */
  ghost predicate Swept<S>(b: Board<S>, out: seq<nat>)
    requires b.WellFormed()
  {
    && AreGates(b, out)
    && forall p, q :: 0 <= p <= q < |out| ==>
         WaitsOn(b, out, Elements(out[..p]), |out|, out[p]) <= WaitsOn(b, out, Elements(out[..p]), |out|, out[q])
  }

  /** `order` groups the placed gates, each once; no group reads what a later one drives; two
      gates share a group exactly when each feeds the other, through whatever gates; and each
      group is in its sweep order. */
  ghost predicate Levelization<S>(b: Board<S>, order: seq<seq<nat>>)
    requires b.WellFormed()
  {
    && (forall k, f: nat {:trigger f in order[k]} :: 0 <= k < |order| && f in order[k] ==> f < |b.gates| && b.gates[f].Placed())
    && (forall f: nat {:trigger InSome(order, f)} :: f < |b.gates| && b.gates[f].Placed() ==> InSome(order, f))
    && (forall k, m, f: nat {:trigger f in order[k], f in order[m]} ::
          0 <= k < |order| && 0 <= m < |order| && f in order[k] && f in order[m] ==> k == m)
    && (forall k :: 0 <= k < |order| ==> order[k] != [] && Distinct(order[k]))
    && (forall k, m, f: nat, g: nat {:trigger Feeds(b, f, g), f in order[k], g in order[m]} ::
          0 <= k < |order| && 0 <= m < |order| && f in order[k] && g in order[m] && Feeds(b, f, g) ==> k <= m)
    && GroupsAreComponents(b, order)
    && (forall k :: 0 <= k < |order| ==> Swept(b, order[k]))
  }

  ghost predicate GroupsAreComponents<S>(b: Board<S>, order: seq<seq<nat>>) {
    forall k, m, f: nat, g: nat {:trigger f in order[k], g in order[m]} ::
      0 <= k < |order| && 0 <= m < |order| && f in order[k] && g in order[m]
      ==> (k == m <==> FeedsThrough(b, f, g) && FeedsThrough(b, g, f))
  }

  /** The order by group number: what `settle` relies on. */
  ghost predicate GroupIndex<S>(b: Board<S>, order: seq<seq<nat>>, groupOf: seq<nat>)
    requires b.WellFormed()
  {
    && |groupOf| == |b.gates|
    && (forall f: nat :: f < |b.gates| && b.gates[f].Placed() ==> groupOf[f] < |order| && f in order[groupOf[f]])
    && (forall k: nat, f: nat {:trigger f in order[k]} ::
          k < |order| && f in order[k] ==> f < |b.gates| && b.gates[f].Placed() && groupOf[f] == k)
    && (forall f: nat, g: nat {:trigger Feeds(b, f, g)} ::
          Feeds(b, f, g) && b.gates[f].Placed() && b.gates[g].Placed() ==> groupOf[f] <= groupOf[g])
  }

  /** The gates the evaluator places, each once. */
  ghost predicate PlacedGates<S>(b: Board<S>, gates: seq<nat>) {
    && Distinct(gates)
    && forall f: nat {:trigger f in gates} :: f in gates <==> f < |b.gates| && b.gates[f].Placed()
  }

  method Gates<S>(b: Board<S>) returns (gates: seq<nat>, at: map<nat, nat>)
    ensures PlacedGates(b, gates)
    ensures forall f: nat :: f in at <==> f in gates
    ensures forall f: nat :: f in at ==> at[f] < |gates| && gates[at[f]] == f
  {
    gates, at := [], map[];
    for f := 0 to |b.gates|
      invariant Distinct(gates)
      invariant forall g: nat {:trigger g in gates} :: g in gates <==> g < f && b.gates[g].Placed()
      invariant forall g: nat :: g in at <==> g in gates
      invariant forall g: nat :: g in at ==> at[g] < |gates| && gates[at[g]] == g
    {
      if b.gates[f].Placed() {
        assert f !in gates;
        at := at[f := |gates|];
        gates := gates + [f];
      }
    }
  }

  /** Gate `k` reads a net these drive. */
  method FedBy(feeds: Graph, gates: seq<nat>, at: map<nat, nat>, ds: seq<nat>, k: nat) returns (feeds': Graph)
    requires |feeds| == |gates| && Distinct(gates)
    requires forall f: nat :: f in at <==> f in gates
    requires forall f: nat :: f in at ==> at[f] < |gates| && gates[at[f]] == f
    ensures |feeds'| == |feeds|
    ensures forall j, x: nat {:trigger Occurs(feeds'[j], x)} :: 0 <= j < |feeds| ==>
              Occurs(feeds'[j], x) == Occurs(feeds[j], x) + if x == k then Occurs(ds, gates[j]) else 0
  {
    feeds' := feeds;
    assert forall y :: Occurs(ds[..0], y) == 0;
    for i := 0 to |ds|
      invariant |feeds'| == |feeds|
      invariant forall j, x: nat {:trigger Occurs(feeds'[j], x)} :: 0 <= j < |feeds| ==>
                  Occurs(feeds'[j], x) == Occurs(feeds[j], x) + if x == k then Occurs(ds[..i], gates[j]) else 0
    {
      assert ds[..i + 1][..i] == ds[..i];
      assert forall j :: 0 <= j < |gates| ==> gates[j] in gates;
      if ds[i] in at {
        var j := at[ds[i]];
        assert (feeds'[j] + [k])[..|feeds'[j]|] == feeds'[j];
        assert forall m :: 0 <= m < |gates| ==> (gates[m] == ds[i] <==> m == j);
        feeds' := feeds'[j := feeds'[j] + [k]];
      }
    }
    assert ds[..|ds|] == ds;
  }

  /** `feeds[j]` are the gates, of the first `n`, that read what gate `j` drives, once for each
      pin that does. */
  ghost predicate Lists<S>(b: Board<S>, gates: seq<nat>, feeds: Graph, n: nat)
    requires b.WellFormed() && AreGates(b, gates) && n <= |gates|
  {
    && |feeds| == |gates|
    && forall j, x: nat {:trigger Occurs(feeds[j], x)} :: 0 <= j < |gates| ==>
         Occurs(feeds[j], x) == if x < n then EdgesOn(b, gates[j], gates[x]) else 0
  }

  lemma {:induction false} OccursIn(s: seq<nat>, x: nat)
    ensures x in s <==> Occurs(s, x) > 0
  {
    if s != [] {
      OccursIn(s[..|s| - 1], x);
      assert s == s[..|s| - 1] + [s[|s| - 1]];
    }
  }

  /** A placed gate is on another's pins exactly when it feeds it. */
  lemma {:induction false} PinsFedFeeds<S>(b: Board<S>, f: nat, g: nat, n: nat)
    requires b.WellFormed() && f < |b.gates| && b.gates[f].Placed() && g < |b.gates| && n <= |b.gates[g].ins|
    ensures PinsFed(b, f, g, n) > 0 <==> b.gates[f].out.Some? && b.gates[f].out in b.gates[g].ins[..n]
  {
    if n > 0 {
      PinsFedFeeds(b, f, g, n - 1);
      var ins := b.gates[g].ins;
      assert ins[..n] == ins[..n - 1] + [ins[n - 1]];
      if ins[n - 1].Some? {
        assert ins[n - 1] in ins;
        OccursIn(b.drivers[ins[n - 1].value], f);
      }
    }
  }

  lemma ListsFeed<S>(b: Board<S>, gates: seq<nat>, feeds: Graph, j: nat, x: nat)
    requires b.WellFormed() && PlacedGates(b, gates) && AreGates(b, gates) && Lists(b, gates, feeds, |gates|) && j < |gates|
    ensures x in feeds[j] <==> x < |gates| && Feeds(b, gates[j], gates[x])
  {
    OccursIn(feeds[j], x);
    if x < |gates| {
      assert gates[j] in gates && gates[x] in gates;
      var ins := b.gates[gates[x]].ins;
      PinsFedFeeds(b, gates[j], gates[x], |ins|);
      assert ins[..|ins|] == ins;
    }
  }

  /** Everything that feeds gate `k`, a pin at a time. */
  method FeedsOf<S>(b: Board<S>, gates: seq<nat>, at: map<nat, nat>, k: nat, feeds: Graph) returns (feeds': Graph)
    requires b.WellFormed() && AreGates(b, gates) && Distinct(gates) && k < |gates| && Lists(b, gates, feeds, k)
    requires forall f: nat :: f in at <==> f in gates
    requires forall f: nat :: f in at ==> at[f] < |gates| && gates[at[f]] == f
    ensures Lists(b, gates, feeds', k + 1)
  {
    hide Distinct;
    var ins := b.gates[gates[k]].ins;
    feeds' := feeds;
    assert forall j :: 0 <= j < |gates| ==> PinsFed(b, gates[j], gates[k], 0) == 0;
    for i := 0 to |ins|
      invariant |feeds'| == |gates|
      invariant forall j, x: nat {:trigger Occurs(feeds'[j], x)} :: 0 <= j < |gates| ==>
                  Occurs(feeds'[j], x) == Occurs(feeds[j], x) + if x == k then PinsFed(b, gates[j], gates[k], i) else 0
    {
      if ins[i].Some? {
        assert ins[i] in ins;
        feeds' := FedBy(feeds', gates, at, b.drivers[ins[i].value], k);
      }
    }
  }

  /** The gates' graph: its edges are the placed gates' pins. */
  method FeedGraph<S>(b: Board<S>) returns (gates: seq<nat>, feeds: Graph)
    requires b.WellFormed()
    ensures PlacedGates(b, gates) && AreGates(b, gates) && Lists(b, gates, feeds, |gates|) && Closed(feeds)
  {
    var at;
    gates, at := Gates(b);
    assert AreGates(b, gates) by { assert forall i :: 0 <= i < |gates| ==> gates[i] in gates; }
    feeds := seq(|gates|, _ => []);
    for k := 0 to |gates|
      invariant Lists(b, gates, feeds, k)
    {
      feeds := FeedsOf(b, gates, at, k, feeds);
    }
    forall u: nat, i: nat | u < |feeds| && i < |feeds[u]|
      ensures feeds[u][i] < |feeds|
    {
      OccursIn(feeds[u], feeds[u][i]);
    }
  }

  function Mapped(gates: seq<nat>, group: seq<nat>): (r: seq<nat>)
    requires Under(gates, group)
    ensures |r| == |group| && forall i :: 0 <= i < |group| ==> r[i] == gates[group[i]]
  {
    seq(|group|, i requires 0 <= i < |group| => gates[group[i]])
  }

  predicate Under(gates: seq<nat>, group: seq<nat>) { forall i :: 0 <= i < |group| ==> group[i] < |gates| }

  /** A group in the order a sweep takes it. */
  ghost predicate SweepSorted(feeds: Graph, out: seq<nat>) {
    Distinct(out) && exists group: seq<nat> :: multiset(group) == multiset(out) && Greedy(feeds, group, out)
  }

  lemma ComponentFacts(feeds: Graph, components: seq<seq<nat>>, c: nat)
    requires Emitted(feeds, components) && c < |components|
    ensures Inside(feeds, components[c]) && Distinct(components[c])
  {
    assert forall j :: 0 <= j < |components[c]| ==> components[c][j] in components[c];
  }

  /** The components reversed, so that producers come first, each in its sweep order. */
  method Groups(feeds: Graph) returns (order: seq<seq<nat>>, ghost components: seq<seq<nat>>)
    requires Closed(feeds)
    ensures Emitted(feeds, components) && Covers(feeds, components) && |order| == |components|
    ensures forall r :: 0 <= r < |order| ==>
              multiset(order[r]) == multiset(components[|order| - 1 - r]) && SweepSorted(feeds, order[r])
  {
    hide Emitted, Covers, Greedy, Inside, Distinct;
    var found := Tarjan(feeds);
    components := found;
    order := [];
    for i := |found| downto 0
      invariant |order| == |found| - i
      invariant forall r :: 0 <= r < |order| ==>
                  multiset(order[r]) == multiset(found[|found| - 1 - r]) && SweepSorted(feeds, order[r])
    {
      ComponentFacts(feeds, found, i);
      var group := OrderWithin(found[i], feeds);
      order := order + [group];
    }
  }

  /** The evaluation order of a board's gates. */
  method LevelOrder<S>(b: Board<S>) returns (order: seq<seq<nat>>)
    requires b.WellFormed()
    ensures Levelization(b, order)
  {
    var gates, feeds := FeedGraph(b);
    var groups;
    ghost var components;
    groups, components := Groups(feeds);
    order := [];
    for r := 0 to |groups|
      invariant |order| == r
      invariant forall k :: 0 <= k < r ==> Under(gates, groups[k]) && order[k] == Mapped(gates, groups[k])
    {
      SameMembers(groups[r], components[|groups| - 1 - r]);
      order := order + [Mapped(gates, groups[r])];
    }
    hide Greedy, Emitted, Covers, Lists, PlacedGates, AreGates, Swept;
    forall k, f: nat | 0 <= k < |order|
      ensures f in order[k] <==> exists j: nat :: j < |gates| && gates[j] == f && j in components[|order| - 1 - k]
    {
      MappedMembers(gates, groups[k], components[|order| - 1 - k], f);
    }
    forall k | 0 <= k < |order|
      ensures order[k] != [] && Distinct(order[k]) && Swept(b, order[k])
    {
      MappedDistinct(b, gates, feeds, components, groups[k], |order| - 1 - k);
      MappedSwept(b, gates, feeds, groups[k]);
    }
    ArrangedIsLevel(b, gates, feeds, components, order);
  }

  lemma MappedDistinct<S>(b: Board<S>, gates: seq<nat>, feeds: Graph, components: seq<seq<nat>>, group: seq<nat>, c: nat)
    requires PlacedGates(b, gates) && Emitted(feeds, components) && c < |components|
    requires Under(gates, group) && Distinct(group) && multiset(group) == multiset(components[c])
    ensures Mapped(gates, group) != [] && Distinct(Mapped(gates, group))
  {
    SameMembers(group, components[c]);
  }

  lemma ArrangedIsLevel<S>(b: Board<S>, gates: seq<nat>, feeds: Graph, components: seq<seq<nat>>, order: seq<seq<nat>>)
    requires b.WellFormed() && Arranged(b, gates, feeds, components, order)
    requires forall k :: 0 <= k < |order| ==> order[k] != [] && Distinct(order[k]) && Swept(b, order[k])
    ensures Levelization(b, order)
  {
    hide Emitted, Covers, Lists, PlacedGates, Arranged, Distinct, Feeds, Swept, FeedsThrough;
    forall k: nat, f: nat {:trigger f in order[k]} | k < |order| && f in order[k]
      ensures f < |b.gates| && b.gates[f].Placed()
    {
      MembersPlaced(b, gates, feeds, components, order, k, f);
    }
    forall f: nat {:trigger InSome(order, f)} | f < |b.gates| && b.gates[f].Placed()
      ensures InSome(order, f)
    {
      InSomeGroup(b, gates, feeds, components, order, f);
    }
    forall k: nat, m: nat, f: nat {:trigger f in order[k], f in order[m]} | k < |order| && m < |order| && f in order[k] && f in order[m]
      ensures k == m
    {
      InOneGroup(b, gates, feeds, components, order, k, m, f);
    }
    forall k: nat, m: nat, f: nat, g: nat {:trigger Feeds(b, f, g), f in order[k], g in order[m]} |
        k < |order| && m < |order| && f in order[k] && g in order[m] && Feeds(b, f, g)
      ensures k <= m
    {
      ForwardOnly(b, gates, feeds, components, order, k, m, f, g);
    }
    forall k: nat, m: nat, f: nat, g: nat {:trigger f in order[k], g in order[m]} | k < |order| && m < |order| && f in order[k] && g in order[m]
      ensures k == m <==> FeedsThrough(b, f, g) && FeedsThrough(b, g, f)
    {
      SharesExactly(b, gates, feeds, components, order, k, m, f, g);
    }
  }

  lemma SameMembers(a: seq<nat>, b: seq<nat>)
    requires multiset(a) == multiset(b)
    ensures forall x: nat :: x in a <==> x in b
    ensures forall i :: 0 <= i < |a| ==> a[i] in b
    ensures |a| == |b|
  {
    forall x: nat
      ensures x in a <==> x in b
    {
      assert x in a <==> x in multiset(a);
      assert x in b <==> x in multiset(b);
    }
    assert |a| == |multiset(a)| && |b| == |multiset(b)|;
  }

  /** What the graph's components in reverse are to the board. */
  ghost predicate Arranged<S>(b: Board<S>, gates: seq<nat>, feeds: Graph, components: seq<seq<nat>>, order: seq<seq<nat>>)
    requires b.WellFormed()
  {
    && PlacedGates(b, gates) && AreGates(b, gates) && Lists(b, gates, feeds, |gates|)
    && Emitted(feeds, components) && Covers(feeds, components) && |order| == |components|
    && (forall k, f: nat {:trigger f in order[k]} :: 0 <= k < |order| ==>
          (f in order[k] <==> exists j: nat :: j < |gates| && gates[j] == f && j in components[|order| - 1 - k]))
  }

  lemma MappedMembers(gates: seq<nat>, group: seq<nat>, component: seq<nat>, f: nat)
    requires Under(gates, group) && multiset(group) == multiset(component)
    ensures f in Mapped(gates, group) <==> exists j: nat :: j < |gates| && gates[j] == f && j in component
  {
    SameMembers(group, component);
    var m := Mapped(gates, group);
    if f in m {
      var i :| 0 <= i < |m| && m[i] == f;
      assert group[i] in component && gates[group[i]] == f;
    }
    if j: nat :| j < |gates| && gates[j] == f && j in component {
      var i :| 0 <= i < |group| && group[i] == j;
      assert m[i] == f;
    }
  }

  lemma MembersPlaced<S>(b: Board<S>, gates: seq<nat>, feeds: Graph, components: seq<seq<nat>>, order: seq<seq<nat>>, k: nat, f: nat)
    requires b.WellFormed() && Arranged(b, gates, feeds, components, order) && k < |order| && f in order[k]
    ensures f < |b.gates| && b.gates[f].Placed()
  {
    var j: nat :| j < |gates| && gates[j] == f;
    assert f in gates;
  }

  lemma InSomeGroup<S>(b: Board<S>, gates: seq<nat>, feeds: Graph, components: seq<seq<nat>>, order: seq<seq<nat>>, f: nat)
    requires b.WellFormed() && Arranged(b, gates, feeds, components, order) && f < |b.gates| && b.gates[f].Placed()
    ensures InSome(order, f)
  {
    assert f in gates;
    var j: nat :| j < |gates| && gates[j] == f;
    assert InSome(components, j);
    var k :| 0 <= k < |components| && j in components[k];
    assert f in order[|order| - 1 - k];
  }

  lemma InOneGroup<S>(b: Board<S>, gates: seq<nat>, feeds: Graph, components: seq<seq<nat>>, order: seq<seq<nat>>,
                      k: nat, m: nat, f: nat)
    requires b.WellFormed() && Arranged(b, gates, feeds, components, order)
    requires k < |order| && m < |order| && f in order[k] && f in order[m]
    ensures k == m
  {
    hide Emitted, Covers, Lists, PlacedGates, AreGates, Arranged;
    var i := PlaceIn(b, gates, feeds, components, order, k, f);
    var j := PlaceIn(b, gates, feeds, components, order, m, f);
    GraphFacts(b, gates, feeds, components, order);
    OnePlace(b, gates, i, j);
    OnlyOne(feeds, components, |order| - 1 - k, |order| - 1 - m, i);
  }

  lemma OnePlace<S>(b: Board<S>, gates: seq<nat>, i: nat, j: nat)
    requires PlacedGates(b, gates) && i < |gates| && j < |gates| && gates[i] == gates[j]
    ensures i == j
  {
  }

  lemma OnlyOne(feeds: Graph, components: seq<seq<nat>>, c: nat, d: nat, v: nat)
    requires Emitted(feeds, components) && c < |components| && d < |components| && v in components[c] && v in components[d]
    ensures c == d
  {
    hide Reach;
  }

  lemma ForwardOnly<S>(b: Board<S>, gates: seq<nat>, feeds: Graph, components: seq<seq<nat>>, order: seq<seq<nat>>,
                       k: nat, m: nat, f: nat, g: nat)
    requires b.WellFormed() && Arranged(b, gates, feeds, components, order)
    requires k < |order| && m < |order| && f in order[k] && g in order[m] && Feeds(b, f, g)
    ensures k <= m
  {
    hide Emitted, Covers, Lists, PlacedGates, AreGates, Feeds, Arranged;
    var j := PlaceIn(b, gates, feeds, components, order, k, f);
    var x := PlaceIn(b, gates, feeds, components, order, m, g);
    GraphFacts(b, gates, feeds, components, order);
    ListsFeed(b, gates, feeds, j, x);
    EdgeBackward(feeds, components, |order| - 1 - k, |order| - 1 - m, j, x);
  }

  lemma GraphFacts<S>(b: Board<S>, gates: seq<nat>, feeds: Graph, components: seq<seq<nat>>, order: seq<seq<nat>>)
    requires b.WellFormed() && Arranged(b, gates, feeds, components, order)
    ensures PlacedGates(b, gates) && AreGates(b, gates) && Lists(b, gates, feeds, |gates|)
    ensures Emitted(feeds, components) && Covers(feeds, components) && |order| == |components| && |feeds| == |gates|
  {
    hide Emitted, Covers, PlacedGates, AreGates;
  }

  /** A gate of a group is listed, and its place is in the component the group was made from. */
  lemma PlaceIn<S>(b: Board<S>, gates: seq<nat>, feeds: Graph, components: seq<seq<nat>>, order: seq<seq<nat>>, k: nat, f: nat)
    returns (j: nat)
    requires b.WellFormed() && Arranged(b, gates, feeds, components, order) && k < |order| && f in order[k]
    ensures |order| == |components| && j < |gates| && gates[j] == f && j in components[|order| - 1 - k]
  {
    hide Emitted, Covers, Lists, PlacedGates, AreGates;
    j :| j < |gates| && gates[j] == f && j in components[|order| - 1 - k];
  }

  /** No edge goes to a component emitted later. */
  lemma EdgeBackward(feeds: Graph, components: seq<seq<nat>>, c: nat, d: nat, u: nat, w: nat)
    requires Emitted(feeds, components) && c < |components| && d < |components| && u in components[c] && w in components[d]
    requires u < |feeds| && w in feeds[u]
    ensures d <= c
  {
    hide Reach;
    var e :| 0 <= e <= c && w in components[e];
  }

  // ---- Groups are what feeds itself ----

  /** A path of the graph is a path of the gates. */
  lemma PathFeeds<S>(b: Board<S>, gates: seq<nat>, feeds: Graph, p: seq<nat>)
    requires b.WellFormed() && PlacedGates(b, gates) && AreGates(b, gates) && Lists(b, gates, feeds, |gates|) && IsPath(feeds, p)
    ensures Under(gates, p) && FeedPath(b, Mapped(gates, p))
  {
    hide Feeds;
    forall i | 0 <= i < |p|
      ensures b.gates[gates[p[i]]].Placed() && (i < |p| - 1 ==> Feeds(b, gates[p[i]], gates[p[i + 1]]))
    {
      assert gates[p[i]] in gates;
      if i < |p| - 1 {
        ListsFeed(b, gates, feeds, p[i], p[i + 1]);
      }
    }
  }

  ghost function PlaceOf(gates: seq<nat>, f: nat): (j: nat)
    requires f in gates
    ensures j < |gates| && gates[j] == f
  {
    var j: nat :| j < |gates| && gates[j] == f;
    j
  }

  /** A path of the gates is a path of the graph. */
  lemma FeedsPath<S>(b: Board<S>, gates: seq<nat>, feeds: Graph, q: seq<nat>) returns (p: seq<nat>)
    requires b.WellFormed() && PlacedGates(b, gates) && AreGates(b, gates) && Lists(b, gates, feeds, |gates|) && FeedPath(b, q)
    ensures IsPath(feeds, p) && Under(gates, p) && Mapped(gates, p) == q
  {
    hide Feeds;
    p := seq(|q|, i requires 0 <= i < |q| => PlaceOf(gates, q[i]));
    forall i | 0 <= i < |p| - 1
      ensures p[i + 1] in feeds[p[i]]
    {
      ListsFeed(b, gates, feeds, p[i], p[i + 1]);
    }
  }

  lemma ThroughIsReach<S>(b: Board<S>, gates: seq<nat>, feeds: Graph, j: nat, x: nat)
    requires b.WellFormed() && PlacedGates(b, gates) && AreGates(b, gates) && Lists(b, gates, feeds, |gates|)
    requires j < |gates| && x < |gates|
    ensures FeedsThrough(b, gates[j], gates[x]) <==> Reach(feeds, j, x)
  {
    hide Lists, AreGates, Feeds;
    if FeedsThrough(b, gates[j], gates[x]) {
      var q: seq<nat> :| FeedPath(b, q) && q[0] == gates[j] && q[|q| - 1] == gates[x];
      var p := FeedsPath(b, gates, feeds, q);
      assert gates[p[0]] == q[0] && gates[p[|p| - 1]] == q[|q| - 1];
      assert p[0] == j && p[|p| - 1] == x;
    }
    if Reach(feeds, j, x) {
      var p: seq<nat> :| IsPath(feeds, p) && p[0] == j && p[|p| - 1] == x;
      PathFeeds(b, gates, feeds, p);
      var q := Mapped(gates, p);
      assert q[0] == gates[j] && q[|q| - 1] == gates[x];
    }
  }

  lemma SharesExactly<S>(b: Board<S>, gates: seq<nat>, feeds: Graph, components: seq<seq<nat>>, order: seq<seq<nat>>,
                         k: nat, m: nat, f: nat, g: nat)
    requires b.WellFormed() && Arranged(b, gates, feeds, components, order)
    requires k < |order| && m < |order| && f in order[k] && g in order[m]
    ensures k == m <==> FeedsThrough(b, f, g) && FeedsThrough(b, g, f)
  {
    hide Emitted, Covers, Lists, PlacedGates, AreGates, FeedsThrough, Reach, Arranged;
    var n := |order| - 1;
    var j := PlaceIn(b, gates, feeds, components, order, k, f);
    var x := PlaceIn(b, gates, feeds, components, order, m, g);
    GraphFacts(b, gates, feeds, components, order);
    ExactlyComponents(feeds, components, n - k, n - m, j, x);
    ThroughIsReach(b, gates, feeds, j, x);
    ThroughIsReach(b, gates, feeds, x, j);
  }

  // ---- Sweep order, on the board ----

  /** What gates of the graph wait on is what they wait on on the board. */
  lemma {:induction false} WaitsMapped<S>(b: Board<S>, gates: seq<nat>, feeds: Graph, out: seq<nat>, t: set<nat>, u: set<nat>, n: nat, x: nat)
    requires b.WellFormed() && AreGates(b, gates) && Lists(b, gates, feeds, |gates|) && Under(gates, out) && n <= |out| && x < |gates|
    requires forall i :: 0 <= i < |out| ==> (gates[out[i]] in t <==> out[i] in u)
    ensures WaitsOn(b, Mapped(gates, out), t, n, gates[x]) == Waits(feeds, out, u, n, x)
  {
    if n > 0 {
      WaitsMapped(b, gates, feeds, out, t, u, n - 1, x);
      assert Occurs(feeds[out[n - 1]], x) == EdgesOn(b, gates[out[n - 1]], gates[x]);
    }
  }

  lemma TakenMapped(gates: seq<nat>, out: seq<nat>, p: nat)
    requires Distinct(gates) && Under(gates, out) && p <= |out|
    ensures forall i :: 0 <= i < |out| ==> (gates[out[i]] in Elements(Mapped(gates, out)[..p]) <==> out[i] in Elements(out[..p]))
  {
    var m := Mapped(gates, out);
    forall i | 0 <= i < |out|
      ensures gates[out[i]] in m[..p] <==> out[i] in out[..p]
    {
      if gates[out[i]] in m[..p] {
        var k :| 0 <= k < p && m[k] == gates[out[i]];
        assert out[k] == out[i] && out[..p][k] == out[k];
      }
      if out[i] in out[..p] {
        var k :| 0 <= k < p && out[k] == out[i];
        assert m[..p][k] == gates[out[i]];
      }
    }
  }

  lemma MappedSwept<S>(b: Board<S>, gates: seq<nat>, feeds: Graph, out: seq<nat>)
    requires b.WellFormed() && Distinct(gates) && AreGates(b, gates) && Lists(b, gates, feeds, |gates|)
    requires Under(gates, out) && SweepSorted(feeds, out)
    ensures Swept(b, Mapped(gates, out))
  {
    var m := Mapped(gates, out);
    forall p, q | 0 <= p <= q < |out|
      ensures WaitsOn(b, m, Elements(m[..p]), |m|, m[p]) <= WaitsOn(b, m, Elements(m[..p]), |m|, m[q])
    {
      hide Lists, AreGates, Elements;
      TakenMapped(gates, out, p);
      WaitsMapped(b, gates, feeds, out, Elements(m[..p]), Elements(out[..p]), |m|, out[p]);
      WaitsMapped(b, gates, feeds, out, Elements(m[..p]), Elements(out[..p]), |m|, out[q]);
      FewestWait(feeds, out, p, q);
    }
  }

  lemma FewestWait(feeds: Graph, out: seq<nat>, p: nat, q: nat)
    requires SweepSorted(feeds, out) && p <= q < |out|
    ensures Waits(feeds, out, Elements(out[..p]), |out|, out[p]) <= Waits(feeds, out, Elements(out[..p]), |out|, out[q])
  {
    var group: seq<nat> :| multiset(group) == multiset(out) && Greedy(feeds, group, out);
    var taken := Elements(out[..p]);
    WaitsReordered(feeds, out, group, taken, out[p]);
    WaitsReordered(feeds, out, group, taken, out[q]);
    SameMembers(out, group);
    hide Waits, Elements;
    assert out[q] in group && out[q] !in out[..p];
  }

  // ---- A board with no feedback ----

  lemma ThroughJoins<S>(b: Board<S>, p: seq<nat>, q: seq<nat>) returns (r: seq<nat>)
    requires FeedPath(b, p) && FeedPath(b, q) && p[|p| - 1] == q[0]
    ensures FeedPath(b, r) && r[0] == p[0] && r[|r| - 1] == q[|q| - 1] && |r| == |p| + |q| - 1
  {
    hide Feeds;
    r := p + q[1..];
    forall i | 0 <= i < |r| - 1
      ensures Feeds(b, r[i], r[i + 1])
    {
      if i >= |p| - 1 {
        assert r[i] == q[i + 1 - |p|] && r[i + 1] == q[i + 2 - |p|];
      }
    }
  }

  lemma PathTail<S>(b: Board<S>, p: seq<nat>)
    requires FeedPath(b, p) && |p| > 1
    ensures FeedPath(b, p[1..]) && Feeds(b, p[0], p[1])
  {
    hide Feeds;
    var q := p[1..];
    forall i | 0 <= i < |q| - 1
      ensures Feeds(b, q[i], q[i + 1])
    {
      assert q[i] == p[i + 1] && q[i + 1] == p[i + 2];
    }
  }

  /** A path goes only forward through the groups. */
  lemma {:induction false} PathForward<S>(b: Board<S>, order: seq<seq<nat>>, groupOf: seq<nat>, p: seq<nat>)
    requires b.WellFormed() && GroupIndex(b, order, groupOf) && FeedPath(b, p)
    ensures groupOf[p[0]] <= groupOf[p[|p| - 1]]
    decreases |p|
  {
    if |p| > 1 {
      PathTail(b, p);
      PathForward(b, order, groupOf, p[1..]);
    }
  }

  ghost predicate Singles<S>(b: Board<S>, order: seq<seq<nat>>) {
    && (forall k :: 0 <= k < |order| ==> |order[k]| == 1)
    && (forall f: nat :: f < |b.gates| && b.gates[f].Placed() ==> !Feeds(b, f, f))
  }

  /** Two gates of one group feed themselves. */
  lemma MutualFeedback<S>(b: Board<S>, order: seq<seq<nat>>, k: nat)
    requires b.WellFormed() && Levelization(b, order) && k < |order| && |order[k]| > 1
    ensures !NoFeedback(b)
  {
    hide Feeds, Swept;
    var f, g := order[k][0], order[k][1];
    assert f in order[k] && g in order[k] && f != g;
    assert FeedsThrough(b, f, g) && FeedsThrough(b, g, f);
    var p: seq<nat> :| FeedPath(b, p) && p[0] == f && p[|p| - 1] == g;
    var q: seq<nat> :| FeedPath(b, q) && q[0] == g && q[|q| - 1] == f;
    var r := ThroughJoins(b, p, q);
  }

  /** With one gate to a group, a path back to where it began is a gate feeding itself. */
  lemma LoopIsShort<S>(b: Board<S>, order: seq<seq<nat>>, groupOf: seq<nat>, p: seq<nat>)
    requires b.WellFormed() && GroupIndex(b, order, groupOf) && FeedPath(b, p) && |p| > 1 && p[0] == p[|p| - 1]
    ensures !Singles(b, order)
  {
    PathTail(b, p);
    var k := groupOf[p[0]];
    PathForward(b, order, groupOf, p[1..]);
    hide Feeds;
    assert groupOf[p[1]] == k && p[0] in order[k] && p[1] in order[k];
  }

  /** Every group is one gate that does not read its own output exactly when no placed gate
      feeds itself, at once or through others. */
  lemma NoFeedbackIsSingles<S>(b: Board<S>, order: seq<seq<nat>>, groupOf: seq<nat>)
    requires b.WellFormed() && Levelization(b, order) && GroupIndex(b, order, groupOf)
    ensures NoFeedback(b) <==> Singles(b, order)
  {
    if NoFeedback(b) {
      assert forall k :: 0 <= k < |order| ==> order[k] != [];
      hide Levelization, GroupIndex, Feeds;
      forall k | 0 <= k < |order|
        ensures |order[k]| == 1
      {
        if |order[k]| > 1 {
          MutualFeedback(b, order, k);
        }
      }
      forall f: nat | f < |b.gates| && b.gates[f].Placed()
        ensures !Feeds(b, f, f)
      {
        assert Feeds(b, f, f) ==> FeedPath(b, [f, f]);
      }
    } else {
      hide Levelization, GroupIndex, Feeds, Singles;
      var p: seq<nat> :| FeedPath(b, p) && |p| > 1 && p[0] == p[|p| - 1];
      LoopIsShort(b, order, groupOf, p);
    }
  }

  const UNPLACED: nat := 0xFFFF_FFFF

  /** The group each placed gate is in. */
  method GroupNumbers<S>(b: Board<S>, order: seq<seq<nat>>) returns (groupOf: seq<nat>)
    requires b.WellFormed() && Levelization(b, order)
    ensures GroupIndex(b, order, groupOf)
  {
    groupOf := seq(|b.gates|, _ => UNPLACED);
    for k := 0 to |order|
      invariant |groupOf| == |b.gates|
      invariant forall m: nat, f: nat {:trigger f in order[m]} :: m < k && f in order[m] ==> f < |b.gates| && groupOf[f] == m
    {
      groupOf := NumberGroup(order[k], groupOf, k);
    }
    assert forall f: nat :: f < |b.gates| && b.gates[f].Placed() ==> InSome(order, f);
  }

  method NumberGroup(group: seq<nat>, groupOf: seq<nat>, k: nat) returns (groupOf': seq<nat>)
    requires forall f: nat :: f in group ==> f < |groupOf|
    ensures |groupOf'| == |groupOf|
    ensures forall f: nat :: f < |groupOf| ==> groupOf'[f] == if f in group then k else groupOf[f]
  {
    groupOf' := groupOf;
    for i := 0 to |group|
      invariant |groupOf'| == |groupOf|
      invariant forall f: nat :: f < |groupOf| ==> groupOf'[f] == if f in group[..i] then k else groupOf[f]
    {
      assert group[i] in group;
      assert group[..i + 1] == group[..i] + [group[i]];
      groupOf' := groupOf'[group[i] := k];
    }
    assert group[..|group|] == group;
  }
}
