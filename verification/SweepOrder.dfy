/** The order a sweep takes a feedback group in. */
module SweepOrder {
  import opened Components

  function Occurs(s: seq<nat>, x: nat): nat {
    if s == [] then 0 else (if s[|s| - 1] == x then 1 else 0) + Occurs(s[..|s| - 1], x)
  }

  ghost predicate Inside(feeds: Graph, group: seq<nat>) { forall i :: 0 <= i < |group| ==> group[i] < |feeds| }

  ghost predicate Distinct(group: seq<nat>) { forall i, j :: 0 <= i < j < |group| ==> group[i] != group[j] }

  function EdgesTo(feeds: Graph, x: nat, g: nat): nat { if x < |feeds| then Occurs(feeds[x], g) else 0 }

  /** How many edges into `g` come from the first `n` of the group not taken. */
  ghost function Waits(feeds: Graph, group: seq<nat>, taken: set<nat>, n: nat, g: nat): nat
    requires n <= |group|
  {
    if n == 0 then 0
    else Waits(feeds, group, taken, n - 1, g) + if group[n - 1] in taken then 0 else EdgesTo(feeds, group[n - 1], g)
  }

  /** Taking a gate lifts the edges from it and no others. */
  lemma {:induction false} TakingLifts(feeds: Graph, group: seq<nat>, taken: set<nat>, n: nat, g: nat, t: nat)
    requires n <= |group| && t < |group| && group[t] !in taken
    requires Distinct(group)
    ensures Waits(feeds, group, taken, n, g)
         == Waits(feeds, group, taken + {group[t]}, n, g) + if t < n then EdgesTo(feeds, group[t], g) else 0
  {
    if n > 0 {
      TakingLifts(feeds, group, taken, n - 1, g, t);
    }
  }

  /** The first `n` waited on are the same in any group that begins as this does. */
  lemma {:induction false} WaitsPrefix(feeds: Graph, a: seq<nat>, b: seq<nat>, taken: set<nat>, n: nat, g: nat)
    requires n <= |a| && n <= |b| && forall i :: 0 <= i < n ==> a[i] == b[i]
    ensures Waits(feeds, a, taken, n, g) == Waits(feeds, b, taken, n, g)
  {
    if n > 0 {
      WaitsPrefix(feeds, a, b, taken, n - 1, g);
    }
  }

  /** One gate of the group left out. */
  lemma {:induction false} WaitsWithout(feeds: Graph, a: seq<nat>, b: seq<nat>, taken: set<nat>, i: nat, n: nat, g: nat)
    requires i < n <= |a| && |b| == |a| - 1
    requires (forall j :: 0 <= j < i ==> a[j] == b[j]) && (forall j :: i <= j < |b| ==> b[j] == a[j + 1])
    ensures Waits(feeds, a, taken, n, g)
         == Waits(feeds, b, taken, n - 1, g) + if a[i] in taken then 0 else EdgesTo(feeds, a[i], g)
  {
    if n == i + 1 {
      WaitsPrefix(feeds, a, b, taken, i, g);
    } else {
      WaitsWithout(feeds, a, b, taken, i, n - 1, g);
    }
  }

  /** What is waited on does not depend on the group's own order. */
  lemma {:induction false} WaitsReordered(feeds: Graph, a: seq<nat>, b: seq<nat>, taken: set<nat>, g: nat)
    requires multiset(a) == multiset(b)
    ensures |a| == |b| && Waits(feeds, a, taken, |a|, g) == Waits(feeds, b, taken, |b|, g)
    decreases |a|
  {
    assert |a| == |multiset(a)| && |b| == |multiset(b)|;
    if a != [] {
      var n := |a| - 1;
      var i, c := LeaveOut(a, b);
      WaitsReordered(feeds, a[..n], c, taken, g);
      WaitsPrefix(feeds, a, a[..n], taken, n, g);
      WaitsWithout(feeds, b, c, taken, i, |b|, g);
    }
  }

  /** The last of one order found, and left out of, another. */
  lemma LeaveOut(a: seq<nat>, b: seq<nat>) returns (i: nat, c: seq<nat>)
    requires a != [] && multiset(a) == multiset(b)
    ensures i < |b| && b[i] == a[|a| - 1] && c == b[..i] + b[i + 1..]
    ensures multiset(a[..|a| - 1]) == multiset(c)
  {
    var n := |a| - 1;
    assert a[n] in multiset(a) && a[n] in b;
    i :| i < |b| && b[i] == a[n];
    c := b[..i] + b[i + 1..];
    OneOut(a, n);
    OneOut(b, i);
    assert a[..n] + a[n + 1..] == a[..n];
  }

  lemma OneOut(s: seq<nat>, i: nat)
    requires i < |s|
    ensures multiset(s[..i] + s[i + 1..]) == multiset(s) - multiset{s[i]}
  {
    assert s == s[..i] + [s[i]] + s[i + 1..];
    assert multiset(s[..i] + [s[i]] + s[i + 1..]) == multiset(s[..i]) + multiset{s[i]} + multiset(s[i + 1..]);
  }

  /** The edges of one gate within the group: the places of the gates it feeds, each counted. */
  method Feed(tos: seq<nat>, group: seq<nat>, inside: map<nat, nat>, waiting: seq<nat>) returns (into: seq<nat>, waiting': seq<nat>)
    requires Distinct(group) && |waiting| == |group|
    requires forall x: nat :: x in inside ==> inside[x] < |group| && group[inside[x]] == x
    requires forall i :: 0 <= i < |group| ==> group[i] in inside
    ensures |waiting'| == |group|
    ensures forall j :: 0 <= j < |group| ==> waiting'[j] == waiting[j] + Occurs(tos, group[j])
    ensures forall j :: 0 <= j < |group| ==> Occurs(into, j) == Occurs(tos, group[j])
    ensures forall j: nat :: j in into ==> j < |group|
  {
    waiting', into := waiting, [];
    for e := 0 to |tos|
      invariant |waiting'| == |group|
      invariant forall j :: 0 <= j < |group| ==> waiting'[j] == waiting[j] + Occurs(tos[..e], group[j])
      invariant forall j :: 0 <= j < |group| ==> Occurs(into, j) == Occurs(tos[..e], group[j])
      invariant forall j: nat :: j in into ==> j < |group|
    {
      assert tos[..e + 1][..e] == tos[..e];
      if tos[e] in inside {
        var j := inside[tos[e]];
        assert (into + [j])[..|into|] == into;
        into, waiting' := into + [j], waiting'[j := waiting'[j] + 1];
      }
    }
    assert tos[..|tos|] == tos;
  }

  method Places(group: seq<nat>) returns (inside: map<nat, nat>)
    requires Distinct(group)
    ensures forall x: nat :: x in inside ==> inside[x] < |group| && group[inside[x]] == x
    ensures forall i :: 0 <= i < |group| ==> group[i] in inside
  {
    inside := map[];
    for i := 0 to |group|
      invariant forall x: nat :: x in inside ==> inside[x] < |group| && group[inside[x]] == x
      invariant forall k :: 0 <= k < i ==> group[k] in inside
    {
      inside := inside[group[i] := i];
    }
  }

  /** `fed[i]` are the places of the gates `group[i]` feeds, once for each edge. */
  ghost predicate FedWithin(feeds: Graph, group: seq<nat>, fed: seq<seq<nat>>) {
    && |fed| <= |group|
    && (forall i, j :: 0 <= i < |fed| && 0 <= j < |group| ==> Occurs(fed[i], j) == EdgesTo(feeds, group[i], group[j]))
    && (forall i, j: nat :: 0 <= i < |fed| && j in fed[i] ==> j < |group|)
  }

  /** The edges within the group, and how many into each gate. */
  method Feeders(group: seq<nat>, feeds: Graph) returns (waiting: seq<nat>, fed: seq<seq<nat>>)
    requires Inside(feeds, group) && Distinct(group)
    ensures |waiting| == |fed| == |group| && FedWithin(feeds, group, fed)
    ensures forall i :: 0 <= i < |group| ==> waiting[i] == Waits(feeds, group, {}, |group|, group[i])
  {
    hide Distinct, Occurs;
    var inside := Places(group);
    waiting, fed := seq(|group|, _ => 0), [];
    for i := 0 to |group|
      invariant |waiting| == |group| && |fed| == i && FedWithin(feeds, group, fed)
      invariant forall j :: 0 <= j < |group| ==> waiting[j] == Waits(feeds, group, {}, i, group[j])
    {
      var into;
      into, waiting := Feed(feeds[group[i]], group, inside, waiting);
      FedMore(feeds, group, fed, into);
      hide FedWithin;
      fed := fed + [into];
    }
  }

  lemma FedMore(feeds: Graph, group: seq<nat>, fed: seq<seq<nat>>, into: seq<nat>)
    requires FedWithin(feeds, group, fed) && |fed| < |group|
    requires forall j :: 0 <= j < |group| ==> Occurs(into, j) == EdgesTo(feeds, group[|fed|], group[j])
    requires forall j: nat :: j in into ==> j < |group|
    ensures FedWithin(feeds, group, fed + [into])
  {
    hide Occurs;
    var fed' := fed + [into];
    forall i, j: nat | 0 <= i < |fed'| && j in fed'[i]
      ensures j < |group|
    {
      if i < |fed| { assert j in fed[i]; }
    }
  }

  /** Each edge from a gate taken is waited on no longer. */
  method Lift(waiting: seq<nat>, into: seq<nat>) returns (left: seq<nat>)
    requires forall j :: 0 <= j < |waiting| ==> Occurs(into, j) <= waiting[j]
    requires forall j: nat :: j in into ==> j < |waiting|
    ensures |left| == |waiting| && forall j :: 0 <= j < |waiting| ==> left[j] == waiting[j] - Occurs(into, j)
  {
    left := waiting;
    for e := 0 to |into|
      invariant |left| == |waiting| && forall j :: 0 <= j < |waiting| ==> Occurs(into[..e], j) <= waiting[j]
      invariant forall j :: 0 <= j < |waiting| ==> left[j] == waiting[j] - Occurs(into[..e], j)
    {
      assert into[..e + 1][..e] == into[..e];
      PrefixOccurs(into, e + 1);
      var j := into[e];
      assert j in into;
      left := left[j := if left[j] == 0 then 0 else left[j] - 1];
    }
    assert into[..|into|] == into;
  }

  lemma PrefixOccurs(s: seq<nat>, n: nat)
    requires n <= |s|
    ensures forall x: nat :: Occurs(s[..n], x) <= Occurs(s, x)
    decreases |s| - n
  {
    if n < |s| {
      assert s[..n + 1][..n] == s[..n];
      PrefixOccurs(s, n + 1);
    } else {
      assert s[..n] == s;
    }
  }

  /** The group's gates not taken, in its order. */
  function Rest(group: seq<nat>, taken: seq<bool>): (r: seq<nat>)
    requires |group| == |taken|
    ensures r != [] ==> exists i :: 0 <= i < |taken| && !taken[i]
  {
    if group == [] then []
    else
      assert taken[0] == taken[0];
      (if taken[0] then [] else [group[0]]) + Rest(group[1..], taken[1..])
  }

  lemma JoinLess(first: seq<nat>, rest: seq<nat>, less: seq<nat>, x: nat)
    requires multiset(rest) == multiset(less) + multiset{x}
    ensures multiset(first + rest) == multiset(first + less) + multiset{x}
  {
  }

  lemma RestOne(group: seq<nat>, taken: seq<bool>)
    requires |group| == |taken| > 0
    ensures Rest(group, taken) == (if taken[0] then [] else [group[0]]) + Rest(group[1..], taken[1..])
  {
  }

  lemma {:induction false} RestWithout(group: seq<nat>, taken: seq<bool>, i: nat)
    requires |group| == |taken| && i < |taken| && !taken[i]
    ensures multiset(Rest(group, taken)) == multiset(Rest(group, taken[i := true])) + multiset{group[i]}
    ensures |Rest(group, taken)| == |Rest(group, taken[i := true])| + 1
  {
    var was, now := taken[1..], taken[i := true][1..];
    RestOne(group, taken);
    RestOne(group, taken[i := true]);
    hide Rest;
    if i > 0 {
      RestWithout(group[1..], was, i - 1);
      assert now == was[i - 1 := true];
      JoinLess(if taken[0] then [] else [group[0]], Rest(group[1..], was), Rest(group[1..], now), group[i]);
    } else {
      assert now == was;
    }
  }

  lemma {:induction false} NoneTaken(group: seq<nat>)
    ensures Rest(group, seq(|group|, _ => false)) == group
  {
    if group != [] {
      NoneTaken(group[1..]);
      assert seq(|group|, _ => false)[1..] == seq(|group[1..]|, _ => false);
    }
  }

  ghost function Elements(s: seq<nat>): set<nat> { set x: nat | x in s }

  /** No gate of the group left when `out[p]` was taken waited on fewer edges from gates then
      left. */
  ghost predicate Greedy(feeds: Graph, group: seq<nat>, out: seq<nat>) {
    forall p, g: nat :: 0 <= p < |out| && g in group && g !in out[..p] ==>
      Waits(feeds, group, Elements(out[..p]), |group|, out[p]) <= Waits(feeds, group, Elements(out[..p]), |group|, g)
  }

  /** The first gate not taken that waits on the fewest. */
  method Least(waiting: seq<nat>, taken: seq<bool>) returns (next: nat)
    requires |waiting| == |taken| && exists i :: 0 <= i < |taken| && !taken[i]
    ensures next < |taken| && !taken[next]
    ensures forall i :: 0 <= i < |taken| && !taken[i] ==> waiting[next] <= waiting[i] && (waiting[next] == waiting[i] ==> next <= i)
  {
    next := |taken|;
    for i := 0 to |taken|
      invariant next == |taken| ==> forall k :: 0 <= k < i ==> taken[k]
      invariant next != |taken| ==> next < i && !taken[next]
      invariant next != |taken| ==> forall k :: 0 <= k < i && !taken[k] ==>
                  waiting[next] <= waiting[k] && (waiting[next] == waiting[k] ==> next <= k)
    {
      if !taken[i] && (next == |taken| || waiting[i] < waiting[next]) {
        next := i;
      }
    }
  }

  /** How many edges each gate of the group waits on, `out` taken. */
  ghost predicate Waiting(feeds: Graph, group: seq<nat>, out: seq<nat>, waiting: seq<nat>) {
    |waiting| == |group| && forall i :: 0 <= i < |group| ==> waiting[i] == Waits(feeds, group, Elements(out), |group|, group[i])
  }

  /** The gate left that waits on the fewest, taken. */
  method TakeNext(feeds: Graph, group: seq<nat>, fed: seq<seq<nat>>, waiting: seq<nat>, taken: seq<bool>, out: seq<nat>)
    returns (waiting': seq<nat>, taken': seq<bool>, out': seq<nat>)
    requires Distinct(group) && |fed| == |group| && |out| < |group|
    requires Waiting(feeds, group, out, waiting) && Split(group, taken, out) && Greedy(feeds, group, out)
    requires FedWithin(feeds, group, fed)
    ensures |out'| == |out| + 1
    ensures Waiting(feeds, group, out', waiting') && Split(group, taken', out') && Greedy(feeds, group, out')
  {
    hide Greedy, Waits, Split, Distinct, Occurs, EdgesTo;
    SplitFacts(group, taken, out);
    var next := Least(waiting, taken);
    AfterTaking(feeds, group, out, next);
    StaysGreedy(feeds, group, out, next);
    TakeOne(group, taken, out, next);
    waiting' := Lift(waiting, fed[next]);
    taken' := taken[next := true];
    out' := out + [group[next]];
  }

  /** A feedback group in the order a sweep takes it: next always a gate waiting on the fewest
      edges from the gates of the group left. */
  method OrderWithin(group: seq<nat>, feeds: Graph) returns (out: seq<nat>)
    requires Inside(feeds, group) && Distinct(group)
    ensures multiset(out) == multiset(group) && Distinct(out)
    ensures Greedy(feeds, group, out)
  {
    if |group| == 1 {
      assert Elements(group[..0]) == {};
      return group;
    }
    assert Greedy(feeds, group, []);
    hide Greedy, Waits, Split, Distinct, Occurs, EdgesTo;
    var waiting, fed := Feeders(group, feeds);
    var taken := seq(|group|, _ => false);
    out := [];
    Untaken(group);
    assert Elements([]) == {};
    while |out| < |group|
      invariant |out| <= |group|
      invariant Waiting(feeds, group, out, waiting) && Split(group, taken, out) && Greedy(feeds, group, out)
    {
      waiting, taken, out := TakeNext(feeds, group, fed, waiting, taken, out);
    }
    SplitFacts(group, taken, out);
  }

  /** The group is what has been taken and what has not. */
  ghost predicate Split(group: seq<nat>, taken: seq<bool>, out: seq<nat>) {
    && |group| == |taken| && |out| <= |group|
    && multiset(out) + multiset(Rest(group, taken)) == multiset(group)
    && |Rest(group, taken)| == |group| - |out| && Distinct(out)
    && forall i :: 0 <= i < |group| ==> (taken[i] <==> group[i] in out)
  }

  lemma Untaken(group: seq<nat>)
    ensures Split(group, seq(|group|, _ => false), [])
  {
    NoneTaken(group);
  }

  lemma SplitFacts(group: seq<nat>, taken: seq<bool>, out: seq<nat>)
    requires Split(group, taken, out)
    ensures |group| == |taken| && forall i :: 0 <= i < |group| ==> (taken[i] <==> group[i] in out)
    ensures forall g: nat :: g in group && g !in out ==> exists i :: 0 <= i < |group| && group[i] == g && !taken[i]
    ensures |out| < |group| ==> exists i :: 0 <= i < |taken| && !taken[i]
    ensures |out| == |group| ==> multiset(out) == multiset(group) && Distinct(out)
  {
    if |out| == |group| {
      assert Rest(group, taken) == [];
    }
  }

  lemma TakeOne(group: seq<nat>, taken: seq<bool>, out: seq<nat>, next: nat)
    requires Split(group, taken, out) && Distinct(group) && next < |group| && !taken[next]
    ensures Split(group, taken[next := true], out + [group[next]])
  {
    hide Rest, Distinct;
    RestWithout(group, taken, next);
    OneMore(out, group[next]);
    FlagsMatch(group, taken, out, next);
    Handed(multiset(out), multiset(Rest(group, taken)), multiset(Rest(group, taken[next := true])), group[next]);
  }

  lemma OneMore(out: seq<nat>, g: nat)
    ensures multiset(out + [g]) == multiset(out) + multiset{g}
    ensures Distinct(out) && g !in out ==> Distinct(out + [g])
  {
  }

  lemma FlagsMatch(group: seq<nat>, taken: seq<bool>, out: seq<nat>, next: nat)
    requires Distinct(group) && next < |group| == |taken|
    requires forall i :: 0 <= i < |group| ==> (taken[i] <==> group[i] in out)
    ensures forall i :: 0 <= i < |group| ==> (taken[next := true][i] <==> group[i] in out + [group[next]])
  {
    forall i | 0 <= i < |group|
      ensures taken[next := true][i] <==> group[i] in out + [group[next]]
    {
      if i != next { assert group[i] != group[next]; }
    }
  }

  lemma Handed(out: multiset<nat>, rest: multiset<nat>, less: multiset<nat>, x: nat)
    requires rest == less + multiset{x}
    ensures out + multiset{x} + less == out + rest
  {
  }

  /** The next gate taken waits on no more than any left. */
  lemma StaysGreedy(feeds: Graph, group: seq<nat>, out: seq<nat>, next: nat)
    requires next < |group| && Greedy(feeds, group, out)
    requires forall g: nat :: g in group && g !in out ==>
               Waits(feeds, group, Elements(out), |group|, group[next]) <= Waits(feeds, group, Elements(out), |group|, g)
    ensures Greedy(feeds, group, out + [group[next]])
  {
    var out' := out + [group[next]];
    forall p, g: nat | 0 <= p < |out'| && g in group && g !in out'[..p]
      ensures Waits(feeds, group, Elements(out'[..p]), |group|, out'[p]) <= Waits(feeds, group, Elements(out'[..p]), |group|, g)
    {
      if p < |out| {
        assert out'[..p] == out[..p];
      } else {
        assert out'[..p] == out;
      }
    }
  }

  /** What each gate waits on once `next` is taken. */
  lemma AfterTaking(feeds: Graph, group: seq<nat>, out: seq<nat>, next: nat)
    requires Distinct(group) && next < |group| && group[next] !in out
    ensures forall i :: 0 <= i < |group| ==>
              && Waits(feeds, group, Elements(out + [group[next]]), |group|, group[i])
                 == Waits(feeds, group, Elements(out), |group|, group[i]) - EdgesTo(feeds, group[next], group[i])
              && EdgesTo(feeds, group[next], group[i]) <= Waits(feeds, group, Elements(out), |group|, group[i])
  {
    assert Elements(out + [group[next]]) == Elements(out) + {group[next]};
    forall i | 0 <= i < |group|
      ensures Waits(feeds, group, Elements(out), |group|, group[i])
           == Waits(feeds, group, Elements(out) + {group[next]}, |group|, group[i]) + EdgesTo(feeds, group[next], group[i])
    {
      TakingLifts(feeds, group, Elements(out), |group|, group[i], next);
    }
  }
}
