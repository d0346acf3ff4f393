/** Tarjan's strongly-connected components as the levelizer runs them, iteratively: an
    explicit stack of nodes each with the edge it has reached. */
module Components {
  import opened Arithmetic
  import opened Netlist

  type Graph = seq<seq<nat>>

  ghost predicate Closed(feeds: Graph) {
    forall u: nat, i: nat :: u < |feeds| && i < |feeds[u]| ==> feeds[u][i] < |feeds|
  }

  // ---- Reachability ----

  ghost predicate IsPath(feeds: Graph, p: seq<nat>) {
    && p != []
    && (forall i :: 0 <= i < |p| ==> p[i] < |feeds|)
    && (forall i :: 0 <= i < |p| - 1 ==> p[i + 1] in feeds[p[i]])
  }

  ghost predicate Reach(feeds: Graph, u: nat, v: nat) {
    exists p: seq<nat> :: IsPath(feeds, p) && p[0] == u && p[|p| - 1] == v
  }

  lemma ReachSelf(feeds: Graph, u: nat)
    requires u < |feeds|
    ensures Reach(feeds, u, u)
  {
    assert IsPath(feeds, [u]) && [u][0] == u;
  }

  lemma ReachEdge(feeds: Graph, u: nat, v: nat)
    requires u < |feeds| && v < |feeds| && v in feeds[u]
    ensures Reach(feeds, u, v)
  {
    assert IsPath(feeds, [u, v]) && [u, v][0] == u && [u, v][1] == v;
  }

  lemma ReachThrough(feeds: Graph, u: nat, v: nat, w: nat)
    requires Reach(feeds, u, v) && Reach(feeds, v, w)
    ensures Reach(feeds, u, w)
  {
    var p: seq<nat> :| IsPath(feeds, p) && p[0] == u && p[|p| - 1] == v;
    var q: seq<nat> :| IsPath(feeds, q) && q[0] == v && q[|q| - 1] == w;
    var r := p + q[1..];
    forall i | 0 <= i < |r| - 1
      ensures r[i + 1] in feeds[r[i]]
    {
      if i >= |p| - 1 {
        assert r[i] == q[i + 1 - |p|] && r[i + 1] == q[i + 2 - |p|];
      }
    }
    assert IsPath(feeds, r) && r[0] == u && r[|r| - 1] == w;
  }

  // ---- The search's state ----

  /** What the search holds: when each node was found, its low link, the nodes found and in
      no component yet, and the components found. */
  datatype Search = Search(index: map<nat, nat>, low: map<nat, nat>, on: set<nat>, out: seq<seq<nat>>)
  {
    predicate Seen(v: nat) { v in index }

    function At(v: nat): nat { if v in index then index[v] else 0 }

    function Low(v: nat): nat { if v in low then low[v] else 0 }

    ghost predicate Placed(v: nat) { exists k :: 0 <= k < |out| && v in out[k] }
  }

  /** A node found is on the stack or placed, and no two were found at once. */
  ghost predicate Shape(feeds: Graph, s: Search) {
    && (forall v: nat :: s.Seen(v) ==> v < |feeds|)
    && (forall v: nat {:trigger s.Placed(v)} :: s.Placed(v) ==> s.Seen(v) && v !in s.on)
    && (forall v: nat {:trigger v in s.on} :: v in s.on ==> s.Seen(v))
    && (forall v: nat {:trigger s.Placed(v)} :: s.Seen(v) && v !in s.on ==> s.Placed(v))
    && (forall u: nat, v: nat :: s.Seen(u) && s.Seen(v) && u != v ==> s.At(u) != s.At(v))
  }

  /** The components so far: disjoint, without repeats, each strongly connected, and no edge
      out of one but into it or an earlier one. */
  ghost predicate Emitted(feeds: Graph, out: seq<seq<nat>>) {
    && (forall k :: 0 <= k < |out| ==> out[k] != [])
    && (forall k, v: nat :: 0 <= k < |out| && v in out[k] ==> v < |feeds|)
    && (forall k, m, v: nat :: 0 <= k < m < |out| && v in out[k] ==> v !in out[m])
    && (forall k, i, j :: 0 <= k < |out| && 0 <= i < j < |out[k]| ==> out[k][i] != out[k][j])
    && (forall k, u: nat, v: nat :: 0 <= k < |out| && u in out[k] && v in out[k] ==> Reach(feeds, u, v))
    && (forall k, u: nat, w: nat {:trigger u in out[k], w in feeds[u]} ::
          0 <= k < |out| && u in out[k] && w in feeds[u] ==> exists m :: 0 <= m <= k && w in out[m])
  }

  /** The nodes being searched, outermost first: each reaches the next and every later node
      on the stack, and every node on the stack reaches one found no later. */
  ghost predicate Chain(feeds: Graph, s: Search, gray: seq<nat>) {
    && Line(s, gray)
    && (forall i, u: nat {:trigger Reach(feeds, gray[i], u)} ::
          0 <= i < |gray| && u in s.on && s.Seen(u) && s.At(gray[i]) <= s.At(u) ==> Reach(feeds, gray[i], u))
    && (forall u: nat {:trigger Anchored(feeds, s, gray, u)} :: u in s.on && s.Seen(u) ==> Anchored(feeds, s, gray, u))
  }

  ghost predicate Line(s: Search, gray: seq<nat>) {
    && (forall i :: 0 <= i < |gray| ==> gray[i] in s.on && s.Seen(gray[i]))
    && (forall i, j :: 0 <= i < j < |gray| ==> s.At(gray[i]) < s.At(gray[j]))
  }

  ghost predicate Anchored(feeds: Graph, s: Search, gray: seq<nat>, u: nat) {
    s.Seen(u) && exists i :: 0 <= i < |gray| && s.Seen(gray[i]) && s.At(gray[i]) <= s.At(u) && Reach(feeds, u, gray[i])
  }

  /** Each low link is the place of a node on the stack it reaches, no later than itself. */
  ghost predicate Lows(feeds: Graph, s: Search, gray: seq<nat>) {
    && (forall i :: 0 <= i < |gray| ==> s.Seen(gray[i]) && s.Low(gray[i]) <= s.At(gray[i]))
    && (forall i {:trigger LowReached(feeds, s, gray[i])} :: 0 <= i < |gray| ==> LowReached(feeds, s, gray[i]))
  }

  ghost predicate LowReached(feeds: Graph, s: Search, v: nat) {
    exists x: nat :: x in s.on && s.Seen(x) && s.At(x) == s.Low(v) && Reach(feeds, v, x)
  }

  /** Which node being searched `u` was found under. */
  ghost predicate Under(s: Search, gray: seq<nat>, i: nat, u: nat)
    requires i < |gray|
  {
    && s.Seen(gray[i]) && s.Seen(u) && s.At(gray[i]) <= s.At(u)
    && (i + 1 < |gray| ==> s.Seen(gray[i + 1]) && s.At(u) < s.At(gray[i + 1]))
  }

  /** `looked[u]` edges of `u` have been looked at, all of them once its search is over.  One
      looked at leads to a node found, and if that is on the stack, no earlier than the low
      link of the node being searched that the edge is under. */
  ghost predicate Edges(feeds: Graph, s: Search, gray: seq<nat>, looked: seq<nat>) {
    && |looked| == |feeds| && (forall u: nat :: u < |feeds| ==> looked[u] <= |feeds[u]|)
    && (forall u: nat :: u in s.on && u < |feeds| && u !in gray ==> looked[u] == |feeds[u]|)
    && (forall u: nat, e: nat :: u in s.on && u < |feeds| && e < |feeds[u]| && e < looked[u] ==> s.Seen(feeds[u][e]))
    && (forall u: nat, e: nat, i: nat {:trigger Under(s, gray, i, u), feeds[u][e]} ::
          u in s.on && u < |feeds| && e < |feeds[u]| && e < looked[u]
          && i < |gray| && Under(s, gray, i, u) && feeds[u][e] in s.on
          ==> s.Low(gray[i]) <= s.At(feeds[u][e]))
  }

  ghost predicate Core(feeds: Graph, s: Search, gray: seq<nat>, looked: seq<nat>) {
    && Closed(feeds) && Shape(feeds, s) && Emitted(feeds, s.out)
    && Chain(feeds, s, gray) && Lows(feeds, s, gray) && Edges(feeds, s, gray, looked)
  }

  // ---- A node found ----

  ghost function Found(s: Search, w: nat, at: nat): Search {
    s.(index := s.index[w := at], low := s.low[w := at], on := s.on + {w})
  }

  /** `at` is later than every node found. */
  ghost predicate Later(s: Search, at: nat) {
    forall v: nat :: s.Seen(v) ==> s.At(v) < at
  }

  /** `w` is the node the search starts from, or the next edge of the node being searched. */
  ghost predicate Next(feeds: Graph, s: Search, gray: seq<nat>, looked: seq<nat>, w: nat) {
    && w < |feeds| == |looked| && !s.Seen(w)
    && (gray != [] ==>
          var v := gray[|gray| - 1];
          v < |feeds| && looked[v] < |feeds[v]| && feeds[v][looked[v]] == w)
  }

  /** The edges looked at once `w` is found: the one it was reached by counts. */
  ghost function LookedAt(gray: seq<nat>, looked: seq<nat>, w: nat): (l: seq<nat>)
    requires w < |looked|
    ensures |l| == |looked| && l[w] == 0
  {
    var l := if gray != [] && gray[|gray| - 1] < |looked| then looked[gray[|gray| - 1] := looked[gray[|gray| - 1]] + 1] else looked;
    l[w := 0]
  }

  lemma FoundShape(feeds: Graph, s: Search, w: nat, at: nat)
    requires Shape(feeds, s) && w < |feeds| && !s.Seen(w) && Later(s, at)
    ensures Shape(feeds, Found(s, w, at))
  {
    var t := Found(s, w, at);
    assert forall v: nat {:trigger t.Placed(v)} {:trigger s.Placed(v)} :: t.Placed(v) <==> s.Placed(v);
    assert !s.Placed(w);
    assert forall v: nat {:trigger t.Seen(v)} :: t.Seen(v) <==> s.Seen(v) || v == w;
    assert forall v: nat {:trigger t.At(v)} :: s.Seen(v) && v != w ==> t.At(v) == s.At(v);
  }

  lemma FoundChain(feeds: Graph, s: Search, gray: seq<nat>, looked: seq<nat>, w: nat, at: nat)
    requires Closed(feeds) && Shape(feeds, s) && Chain(feeds, s, gray) && Next(feeds, s, gray, looked, w) && Later(s, at)
    ensures Chain(feeds, Found(s, w, at), gray + [w])
  {
    FoundLine(s, gray, w, at);
    hide Reach, Shape, Anchored, Line;
    var t, g := Found(s, w, at), gray + [w];
    forall i, u: nat {:trigger Reach(feeds, g[i], u)} | 0 <= i < |g| && u in t.on && t.Seen(u) && t.At(g[i]) <= t.At(u)
      ensures Reach(feeds, g[i], u)
    {
      if u == w { StillReaches(feeds, s, gray, looked, w, i); }
    }
    forall u: nat {:trigger Anchored(feeds, t, g, u)} | u in t.on && t.Seen(u)
      ensures Anchored(feeds, t, g, u)
    {
      if u == w {
        AnchorsItself(feeds, t, gray, w);
      } else {
        assert Anchored(feeds, s, gray, u);
        StillAnchored(feeds, s, gray, w, at, u);
      }
    }
  }

  lemma FoundLine(s: Search, gray: seq<nat>, w: nat, at: nat)
    requires Line(s, gray) && !s.Seen(w) && Later(s, at)
    ensures Line(Found(s, w, at), gray + [w])
    ensures forall i :: 0 <= i < |gray| ==> gray[i] != w && s.Seen(gray[i])
  {
  }

  lemma StillReaches(feeds: Graph, s: Search, gray: seq<nat>, looked: seq<nat>, w: nat, i: nat)
    requires Closed(feeds) && Chain(feeds, s, gray) && Next(feeds, s, gray, looked, w) && i <= |gray|
    ensures Reach(feeds, (gray + [w])[i], w)
  {
    hide Reach;
    if i == |gray| {
      ReachSelf(feeds, w);
    } else {
      var v := gray[|gray| - 1];
      assert Reach(feeds, gray[i], v);
      ReachEdge(feeds, v, w);
      ReachThrough(feeds, gray[i], v, w);
    }
  }

  lemma AnchorsItself(feeds: Graph, t: Search, gray: seq<nat>, w: nat)
    requires w < |feeds| && t.Seen(w)
    ensures Anchored(feeds, t, gray + [w], w)
  {
    ReachSelf(feeds, w);
    assert (gray + [w])[|gray|] == w;
  }

  lemma StillAnchored(feeds: Graph, s: Search, gray: seq<nat>, w: nat, at: nat, u: nat)
    requires Anchored(feeds, s, gray, u) && !s.Seen(w)
    ensures Anchored(feeds, Found(s, w, at), gray + [w], u)
  {
    hide Reach;
    var i :| 0 <= i < |gray| && s.Seen(gray[i]) && s.At(gray[i]) <= s.At(u) && Reach(feeds, u, gray[i]);
    assert (gray + [w])[i] == gray[i];
  }

  lemma FoundLows(feeds: Graph, s: Search, gray: seq<nat>, w: nat, at: nat)
    requires Shape(feeds, s) && Chain(feeds, s, gray) && Lows(feeds, s, gray) && w < |feeds| && !s.Seen(w)
    ensures Lows(feeds, Found(s, w, at), gray + [w])
  {
    hide Reach, Chain;
    var t, g := Found(s, w, at), gray + [w];
    ReachSelf(feeds, w);
    forall i | 0 <= i < |g|
      ensures LowReached(feeds, t, g[i])
    {
      if i == |gray| {
        assert w in t.on;
      } else {
        assert LowReached(feeds, s, gray[i]);
        var x: nat :| x in s.on && s.Seen(x) && s.At(x) == s.Low(gray[i]) && Reach(feeds, gray[i], x);
        assert x in t.on && x != w;
      }
    }
  }

  lemma ChainLine(feeds: Graph, s: Search, gray: seq<nat>)
    requires Chain(feeds, s, gray)
    ensures Line(s, gray)
  {
  }

  lemma FoundEdges(feeds: Graph, s: Search, gray: seq<nat>, looked: seq<nat>, w: nat, at: nat)
    requires Closed(feeds) && Shape(feeds, s) && Chain(feeds, s, gray) && Lows(feeds, s, gray) && Later(s, at)
    requires Edges(feeds, s, gray, looked) && Next(feeds, s, gray, looked, w)
    ensures Edges(feeds, Found(s, w, at), gray + [w], LookedAt(gray, looked, w))
  {
    hide Reach, Chain, Lows, LowReached, Under;
    ChainLine(feeds, s, gray);
    var t, g, l := Found(s, w, at), gray + [w], LookedAt(gray, looked, w);
    forall u: nat, e: nat, i: nat | u in t.on && u < |feeds| && e < |feeds[u]| && e < l[u]
        && i < |g| && Under(t, g, i, u) && feeds[u][e] in t.on
      ensures t.Low(g[i]) <= t.At(feeds[u][e])
    {
      FoundEdge(feeds, s, gray, looked, w, at, u, e, i);
    }
  }

  /** An edge looked at by then: of a node on the stack before, and to `w` or looked at before. */
  lemma FoundEdge(feeds: Graph, s: Search, gray: seq<nat>, looked: seq<nat>, w: nat, at: nat, u: nat, e: nat, i: nat)
    requires Shape(feeds, s) && Lows(feeds, s, gray) && Line(s, gray) && Later(s, at) && Edges(feeds, s, gray, looked) && Next(feeds, s, gray, looked, w)
    requires var t, g, l := Found(s, w, at), gray + [w], LookedAt(gray, looked, w);
             && u in t.on && u < |feeds| && e < |feeds[u]| && e < l[u] && i < |g| && Under(t, g, i, u) && feeds[u][e] in t.on
    ensures Found(s, w, at).Low((gray + [w])[i]) <= Found(s, w, at).At(feeds[u][e])
  {
    hide LowReached;
    assert u != w && s.Seen(u) && s.At(u) < at;
    assert i < |gray|;
    if feeds[u][e] != w && e < looked[u] {
      assert Under(s, gray, i, u);
    }
  }

  // ---- An edge to a node found ----

  /** The next edge of `v` leads to a node found: its low link follows, if that is on the stack. */
  ghost function Lowered(s: Search, v: nat, w: nat): Search {
    if w in s.on then s.(low := s.low[v := Min(s.Low(v), s.At(w))]) else s
  }

  lemma LoweredLows(feeds: Graph, s: Search, gray: seq<nat>, w: nat)
    requires Shape(feeds, s) && Chain(feeds, s, gray) && Lows(feeds, s, gray) && gray != []
    requires gray[|gray| - 1] < |feeds| && w < |feeds| && w in feeds[gray[|gray| - 1]] && s.Seen(w)
    ensures Lows(feeds, Lowered(s, gray[|gray| - 1], w), gray)
  {
    var v := gray[|gray| - 1];
    var t := Lowered(s, v, w);
    ReachEdge(feeds, v, w);
    hide Reach;
    forall i | 0 <= i < |gray|
      ensures LowReached(feeds, t, gray[i])
    {
      assert LowReached(feeds, s, gray[i]);
      if t.Low(gray[i]) != s.Low(gray[i]) {
        assert w in t.on && t.At(w) == t.Low(v);
      } else {
        var x: nat :| x in s.on && s.Seen(x) && s.At(x) == s.Low(gray[i]) && Reach(feeds, gray[i], x);
        assert x in t.on && t.Seen(x) && t.At(x) == t.Low(gray[i]);
      }
    }
  }

  lemma LoweredEdges(feeds: Graph, s: Search, gray: seq<nat>, looked: seq<nat>, v: nat, w: nat)
    requires Closed(feeds) && Shape(feeds, s) && Chain(feeds, s, gray) && Edges(feeds, s, gray, looked)
    requires gray != [] && v == gray[|gray| - 1] && v < |feeds|
    requires looked[v] < |feeds[v]| && w == feeds[v][looked[v]] && s.Seen(w)
    ensures Edges(feeds, Lowered(s, v, w), gray, looked[v := looked[v] + 1])
  {
    hide Reach, Chain, Shape;
    var t, l := Lowered(s, v, w), looked[v := looked[v] + 1];
    forall u: nat, e: nat, i: nat {:trigger Under(t, gray, i, u), feeds[u][e]} |
        u in t.on && u < |feeds| && e < |feeds[u]| && e < l[u]
        && i < |gray| && Under(t, gray, i, u) && feeds[u][e] in t.on
      ensures t.Low(gray[i]) <= t.At(feeds[u][e])
    {
      assert Under(s, gray, i, u);
      if u == v && e == looked[v] {
        LastIsUnder(feeds, s, gray, i);
      }
    }
  }

  lemma LastIsUnder(feeds: Graph, s: Search, gray: seq<nat>, i: nat)
    requires Chain(feeds, s, gray) && i < |gray| && Under(s, gray, i, gray[|gray| - 1])
    ensures i == |gray| - 1
  {
  }

  // ---- A node's search over, its component not complete ----

  /** The node's low link becomes its parent's, if lower. */
  ghost function Raised(s: Search, p: nat, v: nat): Search {
    s.(low := s.low[p := Min(s.Low(p), s.Low(v))])
  }

  /** The node searched last has looked at every edge. */
  ghost predicate Exhausted(feeds: Graph, s: Search, gray: seq<nat>, looked: seq<nat>) {
    && gray != [] && |looked| == |feeds|
    && gray[|gray| - 1] < |feeds| && looked[gray[|gray| - 1]] == |feeds[gray[|gray| - 1]]|
  }

  /** Its low link is another node's, so another node is being searched. */
  lemma LowerIsBefore(feeds: Graph, s: Search, gray: seq<nat>) returns (x: nat)
    requires Shape(feeds, s) && Chain(feeds, s, gray) && Lows(feeds, s, gray) && gray != []
    requires s.Low(gray[|gray| - 1]) < s.At(gray[|gray| - 1])
    ensures |gray| > 1 && x in s.on && s.Seen(x) && s.At(x) == s.Low(gray[|gray| - 1])
    ensures Reach(feeds, gray[|gray| - 1], x) && Anchored(feeds, s, gray[..|gray| - 1], x)
  {
    hide Reach;
    var v := gray[|gray| - 1];
    assert LowReached(feeds, s, gray[|gray| - 1]);
    x :| x in s.on && s.Seen(x) && s.At(x) == s.Low(v) && Reach(feeds, v, x);
    assert Anchored(feeds, s, gray, x);
    var i :| 0 <= i < |gray| && s.Seen(gray[i]) && s.At(gray[i]) <= s.At(x) && Reach(feeds, x, gray[i]);
    assert i < |gray| - 1;
    assert gray[..|gray| - 1][i] == gray[i];
  }

  lemma RaisedChain(feeds: Graph, s: Search, gray: seq<nat>)
    requires Shape(feeds, s) && Chain(feeds, s, gray) && Lows(feeds, s, gray) && gray != []
    requires s.Low(gray[|gray| - 1]) < s.At(gray[|gray| - 1])
    ensures |gray| > 1 && Chain(feeds, Raised(s, gray[|gray| - 2], gray[|gray| - 1]), gray[..|gray| - 1])
  {
    hide Reach, Lows, Shape, Anchored;
    var v, g := gray[|gray| - 1], gray[..|gray| - 1];
    var x := LowerIsBefore(feeds, s, gray);
    var t := Raised(s, gray[|gray| - 2], v);
    forall i, u: nat {:trigger Reach(feeds, g[i], u)} | 0 <= i < |g| && u in t.on && t.Seen(u) && t.At(g[i]) <= t.At(u)
      ensures Reach(feeds, g[i], u)
    {
      assert Reach(feeds, gray[i], u);
    }
    forall u: nat {:trigger Anchored(feeds, t, g, u)} | u in t.on && t.Seen(u)
      ensures Anchored(feeds, t, g, u)
    {
      assert Anchored(feeds, s, gray, u);
      AnchorMoves(feeds, s, gray, x, u);
      StateForgets(feeds, s, t, g, u);
    }
  }

  /** What anchors a node reads only when nodes were found. */
  lemma StateForgets(feeds: Graph, s: Search, t: Search, g: seq<nat>, u: nat)
    requires t.index == s.index && Anchored(feeds, s, g, u)
    ensures Anchored(feeds, t, g, u)
  {
    var i :| 0 <= i < |g| && s.Seen(g[i]) && s.At(g[i]) <= s.At(u) && Reach(feeds, u, g[i]);
    assert t.Seen(g[i]) && t.At(g[i]) <= t.At(u);
  }

  lemma AnchorMoves(feeds: Graph, s: Search, gray: seq<nat>, x: nat, u: nat)
    requires Anchored(feeds, s, gray, u) && gray != []
    requires s.At(x) <= s.At(gray[|gray| - 1]) && Reach(feeds, gray[|gray| - 1], x)
    requires Anchored(feeds, s, gray[..|gray| - 1], x)
    ensures Anchored(feeds, s, gray[..|gray| - 1], u)
  {
    hide Reach;
    var v, g := gray[|gray| - 1], gray[..|gray| - 1];
    var i :| 0 <= i < |gray| && s.Seen(gray[i]) && s.At(gray[i]) <= s.At(u) && Reach(feeds, u, gray[i]);
    if i < |g| {
      assert g[i] == gray[i];
    } else {
      var j :| 0 <= j < |g| && s.Seen(g[j]) && s.At(g[j]) <= s.At(x) && Reach(feeds, x, g[j]);
      ReachThrough(feeds, u, v, x);
      ReachThrough(feeds, u, x, g[j]);
    }
  }

  lemma RaisedLows(feeds: Graph, s: Search, gray: seq<nat>)
    requires Shape(feeds, s) && Chain(feeds, s, gray) && Lows(feeds, s, gray) && |gray| > 1
    ensures Lows(feeds, Raised(s, gray[|gray| - 2], gray[|gray| - 1]), gray[..|gray| - 1])
  {
    hide Reach;
    var v, p, g := gray[|gray| - 1], gray[|gray| - 2], gray[..|gray| - 1];
    var t := Raised(s, p, v);
    assert Reach(feeds, gray[|gray| - 2], v);
    forall i | 0 <= i < |g|
      ensures LowReached(feeds, t, g[i])
    {
      assert g[i] == gray[i];
      assert LowReached(feeds, s, gray[i]);
      if t.Low(g[i]) == s.Low(g[i]) {
        var x: nat :| x in s.on && s.Seen(x) && s.At(x) == s.Low(gray[i]) && Reach(feeds, gray[i], x);
        assert x in t.on && t.Seen(x) && t.At(x) == t.Low(g[i]);
      } else {
        assert LowReached(feeds, s, gray[|gray| - 1]);
        var x: nat :| x in s.on && s.Seen(x) && s.At(x) == s.Low(v) && Reach(feeds, v, x);
        ReachThrough(feeds, p, v, x);
        assert x in t.on && t.Seen(x) && t.At(x) == t.Low(g[i]);
      }
    }
  }

  lemma RaisedEdges(feeds: Graph, s: Search, gray: seq<nat>, looked: seq<nat>)
    requires Closed(feeds) && Shape(feeds, s) && Chain(feeds, s, gray) && Edges(feeds, s, gray, looked)
    requires Exhausted(feeds, s, gray, looked) && |gray| > 1
    ensures Edges(feeds, Raised(s, gray[|gray| - 2], gray[|gray| - 1]), gray[..|gray| - 1], looked)
  {
    hide Reach;
    var v, p, g := gray[|gray| - 1], gray[|gray| - 2], gray[..|gray| - 1];
    var t := Raised(s, p, v);
    forall u: nat | u in t.on && u < |feeds| && u !in g
      ensures looked[u] == |feeds[u]|
    {
      assert u != v ==> u !in gray;
    }
    forall u: nat, e: nat, i: nat | u in t.on && u < |feeds| && e < |feeds[u]| && e < looked[u]
        && i < |g| && Under(t, g, i, u) && feeds[u][e] in t.on
      ensures t.Low(g[i]) <= t.At(feeds[u][e])
    {
      assert Under(s, gray, if s.At(v) <= s.At(u) then |gray| - 1 else i, u);
    }
  }

  // ---- A component complete ----

  ghost function Completed(s: Search, group: seq<nat>): Search {
    s.(on := s.on - (set u: nat | u in group), out := s.out + [group])
  }

  /** `group` is the nodes on the stack from `v` up. */
  ghost predicate From(s: Search, v: nat, group: seq<nat>) {
    && (forall u: nat {:trigger u in group} {:trigger u in s.on} :: u in group <==> u in s.on && s.At(v) <= s.At(u))
    && (forall i, j :: 0 <= i < j < |group| ==> group[i] != group[j])
  }

  /** The node searched last has looked at every edge and reaches nothing earlier. */
  ghost predicate Root(feeds: Graph, s: Search, gray: seq<nat>, looked: seq<nat>, v: nat, group: seq<nat>) {
    Exhausted(feeds, s, gray, looked) && v == gray[|gray| - 1] && s.Low(v) == s.At(v) && From(s, v, group)
  }

  lemma CompletedShape(feeds: Graph, s: Search, v: nat, group: seq<nat>)
    requires Shape(feeds, s) && From(s, v, group)
    ensures Shape(feeds, Completed(s, group))
  {
    var t := Completed(s, group);
    assert forall u: nat {:trigger t.Seen(u)} :: t.Seen(u) <==> s.Seen(u);
    assert forall u: nat {:trigger t.At(u)} :: t.At(u) == s.At(u);
    forall u: nat {:trigger t.Placed(u)}
      ensures t.Placed(u) <==> s.Placed(u) || u in group
    {
      if s.Placed(u) {
        var k :| 0 <= k < |s.out| && u in s.out[k];
        assert t.out[k] == s.out[k];
      }
      if u in group {
        assert t.out[|s.out|] == group;
      }
    }
  }

  lemma Connected(feeds: Graph, s: Search, gray: seq<nat>, looked: seq<nat>, v: nat, group: seq<nat>, a: nat, b: nat)
    requires Shape(feeds, s) && Chain(feeds, s, gray) && Root(feeds, s, gray, looked, v, group)
    requires a in group && b in group
    ensures Reach(feeds, a, b)
  {
    hide Reach;
    assert Anchored(feeds, s, gray, a);
    var i :| 0 <= i < |gray| && s.Seen(gray[i]) && s.At(gray[i]) <= s.At(a) && Reach(feeds, a, gray[i]);
    assert Reach(feeds, gray[i], v);
    assert Reach(feeds, gray[|gray| - 1], b);
    ReachThrough(feeds, a, gray[i], v);
    ReachThrough(feeds, a, v, b);
  }

  /** An edge from the component leads into it, or to a node already in one. */
  lemma LeavesBackward(feeds: Graph, s: Search, gray: seq<nat>, looked: seq<nat>, v: nat, group: seq<nat>, u: nat, w: nat)
    requires Closed(feeds) && Shape(feeds, s) && Chain(feeds, s, gray) && Edges(feeds, s, gray, looked)
    requires Root(feeds, s, gray, looked, v, group) && u in group && u < |feeds| && w in feeds[u]
    ensures w in group || s.Placed(w)
  {
    hide Reach;
    var e: nat :| e < |feeds[u]| && feeds[u][e] == w;
    AllLooked(feeds, s, gray, looked, v, group, u);
    assert s.Seen(feeds[u][e]);
    if w in s.on {
      assert Under(s, gray, |gray| - 1, u);
      assert s.Low(gray[|gray| - 1]) <= s.At(feeds[u][e]);
    }
  }

  lemma AllLooked(feeds: Graph, s: Search, gray: seq<nat>, looked: seq<nat>, v: nat, group: seq<nat>, u: nat)
    requires Chain(feeds, s, gray) && Edges(feeds, s, gray, looked)
    requires Root(feeds, s, gray, looked, v, group) && u in group && u < |feeds|
    ensures looked[u] == |feeds[u]|
  {
    if u in gray {
      var i :| 0 <= i < |gray| && gray[i] == u;
      assert i == |gray| - 1;
    }
  }

  lemma CompletedEmitted(feeds: Graph, s: Search, gray: seq<nat>, looked: seq<nat>, v: nat, group: seq<nat>)
    requires Closed(feeds) && Shape(feeds, s) && Emitted(feeds, s.out) && Chain(feeds, s, gray) && Edges(feeds, s, gray, looked)
    requires Root(feeds, s, gray, looked, v, group)
    ensures Emitted(feeds, Completed(s, group).out)
  {
    assert v in s.on && v in group;
    hide Reach, Chain, Edges;
    var out := s.out + [group];
    forall k, u: nat | 0 <= k < |s.out| && u in s.out[k]
      ensures u !in group
    {
      assert s.Placed(u);
    }
    forall k, a: nat, b: nat | 0 <= k < |out| && a in out[k] && b in out[k]
      ensures Reach(feeds, a, b)
    {
      if k == |s.out| { Connected(feeds, s, gray, looked, v, group, a, b); }
    }
    forall k, u: nat, w: nat {:trigger u in out[k], w in feeds[u]} | 0 <= k < |out| && u in out[k] && u < |feeds| && w in feeds[u]
      ensures exists m :: 0 <= m <= k && w in out[m]
    {
      if k < |s.out| {
        var m :| 0 <= m <= k && w in s.out[m];
        assert w in out[m];
      } else {
        LeavesBackward(feeds, s, gray, looked, v, group, u, w);
        if w in group {
          assert w in out[k];
        } else {
          var m :| 0 <= m < |s.out| && w in s.out[m];
          assert w in out[m];
        }
      }
    }
  }

  lemma CompletedChain(feeds: Graph, s: Search, gray: seq<nat>, looked: seq<nat>, v: nat, group: seq<nat>)
    requires Shape(feeds, s) && Chain(feeds, s, gray) && Root(feeds, s, gray, looked, v, group)
    ensures Chain(feeds, Completed(s, group), gray[..|gray| - 1])
  {
    hide Reach, Shape;
    var t, g := Completed(s, group), gray[..|gray| - 1];
    assert forall i :: 0 <= i < |g| ==> g[i] == gray[i] && s.At(g[i]) < s.At(v);
    forall i, u: nat {:trigger Reach(feeds, g[i], u)} | 0 <= i < |g| && u in t.on && t.Seen(u) && t.At(g[i]) <= t.At(u)
      ensures Reach(feeds, g[i], u)
    {
      assert Reach(feeds, gray[i], u);
    }
    forall u: nat {:trigger Anchored(feeds, t, g, u)} | u in t.on && t.Seen(u)
      ensures Anchored(feeds, t, g, u)
    {
      assert Anchored(feeds, s, gray, u);
      AnchoredBelow(feeds, s, t, gray, u);
    }
  }

  lemma AnchoredBelow(feeds: Graph, s: Search, t: Search, gray: seq<nat>, u: nat)
    requires Anchored(feeds, s, gray, u) && gray != [] && s.At(u) < s.At(gray[|gray| - 1]) && t.index == s.index
    ensures Anchored(feeds, t, gray[..|gray| - 1], u)
  {
    hide Reach;
    var i :| 0 <= i < |gray| && s.Seen(gray[i]) && s.At(gray[i]) <= s.At(u) && Reach(feeds, u, gray[i]);
    assert gray[..|gray| - 1][i] == gray[i];
    assert t.Seen(gray[i]) && t.At(gray[i]) <= t.At(u);
  }

  lemma CompletedLows(feeds: Graph, s: Search, gray: seq<nat>, looked: seq<nat>, v: nat, group: seq<nat>)
    requires Chain(feeds, s, gray) && Lows(feeds, s, gray) && Root(feeds, s, gray, looked, v, group)
    ensures Lows(feeds, Completed(s, group), gray[..|gray| - 1])
  {
    hide Reach;
    var t, g := Completed(s, group), gray[..|gray| - 1];
    forall i | 0 <= i < |g|
      ensures LowReached(feeds, t, g[i])
    {
      assert LowReached(feeds, s, gray[i]);
      var x: nat :| x in s.on && s.Seen(x) && s.At(x) == s.Low(gray[i]) && Reach(feeds, gray[i], x);
      assert s.At(gray[i]) < s.At(v);
      assert x in t.on && t.Seen(x) && t.At(x) == t.Low(g[i]);
    }
  }

  lemma CompletedEdges(feeds: Graph, s: Search, gray: seq<nat>, looked: seq<nat>, v: nat, group: seq<nat>)
    requires Closed(feeds) && Shape(feeds, s) && Chain(feeds, s, gray) && Edges(feeds, s, gray, looked)
    requires Root(feeds, s, gray, looked, v, group)
    ensures Edges(feeds, Completed(s, group), gray[..|gray| - 1], looked)
  {
    hide Reach, Shape;
    var t, g := Completed(s, group), gray[..|gray| - 1];
    forall u: nat | u in t.on && u < |feeds| && u !in g
      ensures looked[u] == |feeds[u]|
    {
      assert u != v ==> u !in gray;
    }
    forall u: nat, e: nat, i: nat {:trigger Under(t, g, i, u), feeds[u][e]} |
        u in t.on && u < |feeds| && e < |feeds[u]| && e < looked[u]
        && i < |g| && Under(t, g, i, u) && feeds[u][e] in t.on
      ensures t.Low(g[i]) <= t.At(feeds[u][e])
    {
      assert s.At(u) < s.At(v);
      assert Under(s, gray, i, u);
    }
  }

  // ---- The four steps keep everything ----

  lemma FoundCore(feeds: Graph, s: Search, gray: seq<nat>, looked: seq<nat>, w: nat, at: nat)
    requires Core(feeds, s, gray, looked) && Next(feeds, s, gray, looked, w) && Later(s, at)
    ensures Core(feeds, Found(s, w, at), gray + [w], LookedAt(gray, looked, w))
  {
    hide Shape, Emitted, Chain, Lows, Edges;
    FoundShape(feeds, s, w, at);
    FoundChain(feeds, s, gray, looked, w, at);
    FoundLows(feeds, s, gray, w, at);
    FoundEdges(feeds, s, gray, looked, w, at);
  }

  lemma LoweredCore(feeds: Graph, s: Search, gray: seq<nat>, looked: seq<nat>, v: nat, w: nat)
    requires Core(feeds, s, gray, looked) && gray != [] && v == gray[|gray| - 1] && v < |feeds| == |looked|
    requires looked[v] < |feeds[v]| && w == feeds[v][looked[v]] && s.Seen(w)
    ensures Core(feeds, Lowered(s, v, w), gray, looked[v := looked[v] + 1])
  {
    hide Emitted, Lows, Edges;
    LoweredLows(feeds, s, gray, w);
    LoweredEdges(feeds, s, gray, looked, v, w);
    var t := Lowered(s, v, w);
    assert Shape(feeds, t) by {
      assert forall u: nat {:trigger t.Placed(u)} :: t.Placed(u) <==> s.Placed(u);
      assert forall u: nat {:trigger t.Seen(u)} :: t.Seen(u) <==> s.Seen(u);
      assert forall u: nat {:trigger t.At(u)} :: t.At(u) == s.At(u);
    }
    assert Chain(feeds, t, gray) by {
      forall u: nat {:trigger Anchored(feeds, t, gray, u)} | u in t.on && t.Seen(u)
        ensures Anchored(feeds, t, gray, u)
      {
        assert Anchored(feeds, s, gray, u);
        StateForgets(feeds, s, t, gray, u);
      }
    }
  }

  lemma RaisedCore(feeds: Graph, s: Search, gray: seq<nat>, looked: seq<nat>)
    requires Core(feeds, s, gray, looked) && Exhausted(feeds, s, gray, looked)
    requires s.Low(gray[|gray| - 1]) < s.At(gray[|gray| - 1])
    ensures |gray| > 1
    ensures Core(feeds, Raised(s, gray[|gray| - 2], gray[|gray| - 1]), gray[..|gray| - 1], looked)
  {
    hide Emitted, Chain, Lows, Edges;
    RaisedChain(feeds, s, gray);
    RaisedLows(feeds, s, gray);
    RaisedEdges(feeds, s, gray, looked);
    var t := Raised(s, gray[|gray| - 2], gray[|gray| - 1]);
    assert Shape(feeds, t) by {
      assert forall u: nat {:trigger t.Placed(u)} :: t.Placed(u) <==> s.Placed(u);
      assert forall u: nat {:trigger t.Seen(u)} :: t.Seen(u) <==> s.Seen(u);
      assert forall u: nat {:trigger t.At(u)} :: t.At(u) == s.At(u);
    }
  }

  lemma CompletedCore(feeds: Graph, s: Search, gray: seq<nat>, looked: seq<nat>, v: nat, group: seq<nat>)
    requires Core(feeds, s, gray, looked) && Root(feeds, s, gray, looked, v, group)
    ensures Core(feeds, Completed(s, group), gray[..|gray| - 1], looked)
  {
    hide Shape, Emitted, Chain, Lows, Edges, From;
    CompletedShape(feeds, s, v, group);
    CompletedEmitted(feeds, s, gray, looked, v, group);
    CompletedChain(feeds, s, gray, looked, v, group);
    CompletedLows(feeds, s, gray, looked, v, group);
    CompletedEdges(feeds, s, gray, looked, v, group);
  }

  /** What the algorithm reads off the invariant. */
  lemma CoreFacts(feeds: Graph, s: Search, gray: seq<nat>, looked: seq<nat>)
    requires Core(feeds, s, gray, looked)
    ensures |looked| == |feeds|
    ensures forall v: nat :: s.Seen(v) ==> v < |feeds|
    ensures forall v: nat :: v in s.on ==> s.Seen(v)
    ensures forall i :: 0 <= i < |gray| ==> gray[i] in s.on && s.Low(gray[i]) <= s.At(gray[i])
    ensures forall i, j :: 0 <= i < j < |gray| ==> gray[i] != gray[j]
  {
  }

  /** The search over: nothing is left on the stack. */
  lemma NothingLeft(feeds: Graph, s: Search, looked: seq<nat>, v: nat)
    requires Core(feeds, s, [], looked) && s.Seen(v)
    ensures s.Placed(v)
  {
    assert v in s.on ==> Anchored(feeds, s, [], v);
  }

  // ---- The algorithm ----

  /** The vectors the search runs on hold its state. */
  ghost predicate Holds(n: nat, s: Search, index: seq<Option<nat>>, low: seq<nat>, onStack: seq<bool>, stack: seq<nat>, counter: nat) {
    && |index| == |low| == |onStack| == n
    && (forall v: nat {:trigger s.Seen(v)} {:trigger index[v]} :: v < n ==>
          (s.Seen(v) <==> index[v].Some?) && (s.Seen(v) ==> index[v].value == s.At(v) && low[v] == s.Low(v)))
    && (forall v: nat {:trigger v in s.on} {:trigger onStack[v]} :: v < n ==> (onStack[v] <==> v in s.on))
    && (forall v: nat {:trigger v in stack} {:trigger v in s.on} :: v in stack <==> v in s.on)
    && (forall i, j :: 0 <= i < j < |stack| ==> s.At(stack[i]) < s.At(stack[j]))
    && Later(s, counter)
  }

  lemma FoundHolds(n: nat, s: Search, index: seq<Option<nat>>, low: seq<nat>, onStack: seq<bool>, stack: seq<nat>, counter: nat, v: nat)
    requires Holds(n, s, index, low, onStack, stack, counter) && v < n && !s.Seen(v) && v !in s.on
    requires forall u: nat :: u in s.on ==> s.Seen(u)
    ensures Holds(n, Found(s, v, counter), index[v := Some(counter)], low[v := counter], onStack[v := true], stack + [v], counter + 1)
  {
    var t := Found(s, v, counter);
    assert forall u: nat {:trigger t.Seen(u)} :: t.Seen(u) <==> s.Seen(u) || u == v;
    assert forall u: nat {:trigger t.At(u)} :: t.At(u) == if u == v then counter else s.At(u);
    assert forall u: nat {:trigger t.Low(u)} :: t.Low(u) == if u == v then counter else s.Low(u);
    assert forall i :: 0 <= i < |stack| ==> stack[i] in stack && stack[i] in s.on && s.Seen(stack[i]);
  }

  /** Takes a component off the stack: `v` and everything found after it still there. */
  method PopComponent(stack: seq<nat>, onStack: seq<bool>, v: nat) returns (group: seq<nat>, stack': seq<nat>, onStack': seq<bool>)
    requires v in stack && forall u: nat :: u in stack ==> u < |onStack|
    requires forall i, j :: 0 <= i < j < |stack| ==> stack[i] != stack[j]
    ensures |group| + |stack'| == |stack| && stack' == stack[..|stack'|] && group != []
    ensures forall i :: 0 <= i < |group| ==> group[i] == stack[|stack| - 1 - i]
    ensures group[|group| - 1] == v
    ensures |onStack'| == |onStack| && forall u: nat :: u < |onStack| ==> onStack'[u] == (onStack[u] && u !in group)
  {
    group, stack', onStack' := [], stack, onStack;
    while true
      invariant |group| + |stack'| == |stack| && stack' == stack[..|stack'|]
      invariant v in stack'
      invariant forall i :: 0 <= i < |group| ==> group[i] == stack[|stack| - 1 - i]
      invariant |onStack'| == |onStack| && forall u: nat :: u < |onStack| ==> onStack'[u] == (onStack[u] && u !in group)
      decreases |stack'|
    {
      var w := stack'[|stack'| - 1];
      assert w in stack;
      stack', onStack', group := stack'[..|stack'| - 1], onStack'[w := false], group + [w];
      if w == v { break; }
    }
  }

  lemma PoppedIsFrom(n: nat, s: Search, index: seq<Option<nat>>, low: seq<nat>, onStack: seq<bool>, stack: seq<nat>, counter: nat,
                     v: nat, group: seq<nat>, stack': seq<nat>, onStack': seq<bool>)
    requires Holds(n, s, index, low, onStack, stack, counter)
    requires |group| + |stack'| == |stack| && stack' == stack[..|stack'|] && group != []
    requires forall i :: 0 <= i < |group| ==> group[i] == stack[|stack| - 1 - i]
    requires group[|group| - 1] == v
    requires |onStack'| == n && forall u: nat :: u < n ==> onStack'[u] == (onStack[u] && u !in group)
    requires |onStack| == n
    ensures From(s, v, group)
    ensures Holds(n, Completed(s, group), index, low, onStack', stack', counter)
  {
    PoppedMembers(s, stack, v, group, stack');
    var t := Completed(s, group);
    assert forall u: nat {:trigger t.Seen(u)} :: t.Seen(u) <==> s.Seen(u);
    assert forall u: nat {:trigger t.At(u)} :: t.At(u) == s.At(u);
    assert forall u: nat {:trigger t.Low(u)} :: t.Low(u) == s.Low(u);
  }

  /** What was popped is from `v` up, and what is left below it. */
  lemma PoppedMembers(s: Search, stack: seq<nat>, v: nat, group: seq<nat>, stack': seq<nat>)
    requires forall u: nat {:trigger u in stack} {:trigger u in s.on} :: u in stack <==> u in s.on
    requires forall i, j :: 0 <= i < j < |stack| ==> s.At(stack[i]) < s.At(stack[j])
    requires |group| + |stack'| == |stack| && stack' == stack[..|stack'|] && group != []
    requires forall i :: 0 <= i < |group| ==> group[i] == stack[|stack| - 1 - i]
    requires group[|group| - 1] == v
    ensures forall u: nat {:trigger u in group} {:trigger u in s.on} :: u in group <==> u in s.on && s.At(v) <= s.At(u)
    ensures forall u: nat {:trigger u in stack'} {:trigger u in s.on} :: u in stack' <==> u in s.on && s.At(u) < s.At(v)
    ensures forall i, j :: 0 <= i < j < |group| ==> group[i] != group[j]
  {
    var k := |stack'|;
    assert stack[k] == v;
    forall u: nat
      ensures u in group <==> u in s.on && s.At(v) <= s.At(u)
      ensures u in stack' <==> u in s.on && s.At(u) < s.At(v)
    {
      if u in group {
        var i :| 0 <= i < |group| && group[i] == u;
        assert stack[|stack| - 1 - i] == u && u in stack;
      }
      if u in stack' {
        var i :| 0 <= i < k && stack'[i] == u;
        assert stack[i] == u && u in stack;
      }
      if u in s.on {
        assert u in stack;
        var j :| 0 <= j < |stack| && stack[j] == u;
        if j >= k { assert group[|stack| - 1 - j] == u; } else { assert stack'[j] == u; }
      }
    }
  }

  /** Looks at the edges of `v` from `next` on: up to one to a node not found, or all of them. */
  method Scan(feeds: Graph, index: seq<Option<nat>>, onStack: seq<bool>, low: seq<nat>, v: nat, next: nat,
              ghost s: Search, ghost gray: seq<nat>, ghost looked: seq<nat>, ghost stack: seq<nat>, ghost counter: nat)
    returns (low': seq<nat>, child: Option<nat>, ghost s': Search, ghost looked': seq<nat>)
    requires Core(feeds, s, gray, looked) && Holds(|feeds|, s, index, low, onStack, stack, counter)
    requires gray != [] && v == gray[|gray| - 1] && v < |feeds| == |looked| && looked[v] == next <= |feeds[v]|
    ensures Core(feeds, s', gray, looked') && Holds(|feeds|, s', index, low', onStack, stack, counter)
    ensures s'.index == s.index && s'.on == s.on && s'.out == s.out && |looked'| == |looked|
    ensures forall u: nat :: u < |looked| && u != v ==> looked'[u] == looked[u]
    ensures match child
            case None => looked'[v] == |feeds[v]|
            case Some(i) => i < |feeds[v]| && looked'[v] == i && feeds[v][i] < |feeds| && !s.Seen(feeds[v][i])
  {
    hide Core, Holds, Lowered;
    low', s', looked' := low, s, looked;
    for i := next to |feeds[v]|
      invariant Core(feeds, s', gray, looked') && Holds(|feeds|, s', index, low', onStack, stack, counter)
      invariant s'.index == s.index && s'.on == s.on && s'.out == s.out && |looked'| == |looked|
      invariant looked'[v] == i && forall u: nat :: u < |looked| && u != v ==> looked'[u] == looked[u]
    {
      var w := feeds[v][i];
      EdgeInRange(feeds, s', gray, looked', v, i);
      SeenIsIndexed(|feeds|, s', index, low', onStack, stack, counter, w);
      if index[w] == None {
        return low', Some(i), s', looked';
      }
      LoweredCore(feeds, s', gray, looked', v, w);
      LoweredHolds(feeds, s', gray, looked', index, low', onStack, stack, counter, v, w);
      if onStack[w] {
        low' := low'[v := Min(low'[v], index[w].value)];
      }
      s', looked' := Lowered(s', v, w), looked'[v := looked'[v] + 1];
    }
    child := None;
  }

  lemma SeenIsIndexed(n: nat, s: Search, index: seq<Option<nat>>, low: seq<nat>, onStack: seq<bool>, stack: seq<nat>, counter: nat, w: nat)
    requires Holds(n, s, index, low, onStack, stack, counter) && w < n
    ensures |index| == |low| == |onStack| == n && (s.Seen(w) <==> index[w].Some?)
  {
  }

  lemma LoweredHolds(feeds: Graph, s: Search, gray: seq<nat>, looked: seq<nat>, index: seq<Option<nat>>, low: seq<nat>,
                     onStack: seq<bool>, stack: seq<nat>, counter: nat, v: nat, w: nat)
    requires Core(feeds, s, gray, looked) && Holds(|feeds|, s, index, low, onStack, stack, counter)
    requires gray != [] && v == gray[|gray| - 1] && v < |feeds| && w < |feeds| && s.Seen(w)
    requires |index| == |low| == |onStack| == |feeds| && index[w].Some?
    ensures Holds(|feeds|, Lowered(s, v, w), index, if onStack[w] then low[v := Min(low[v], index[w].value)] else low, onStack, stack, counter)
    ensures var t := Lowered(s, v, w); t.index == s.index && t.on == s.on && t.out == s.out
  {
    CoreFacts(feeds, s, gray, looked);
    hide Core;
    var t := Lowered(s, v, w);
    assert s.Seen(v) && s.Seen(w);
    assert forall u: nat {:trigger t.Seen(u)} :: t.Seen(u) <==> s.Seen(u);
    assert forall u: nat {:trigger t.At(u)} :: t.At(u) == s.At(u);
    assert forall u: nat {:trigger t.Low(u)} :: u != v ==> t.Low(u) == s.Low(u);
  }

  lemma EdgeInRange(feeds: Graph, s: Search, gray: seq<nat>, looked: seq<nat>, v: nat, i: nat)
    requires Core(feeds, s, gray, looked) && v < |feeds| && i < |feeds[v]|
    ensures feeds[v][i] < |feeds|
  {
  }

  /** The nodes `v` was reached through, each with the edge it has reached. */
  ghost predicate Active(gray: seq<nat>, looked: seq<nat>, work: seq<(nat, nat)>, v: nat) {
    && |gray| == |work| + 1 && gray[|work|] == v
    && forall i :: 0 <= i < |work| ==> gray[i] == work[i].0 && gray[i] < |looked| && work[i].1 == looked[gray[i]] > 0
  }

  /** What is left to do: nothing, or a node just met, or one to be gone on with. */
  ghost predicate Pending(feeds: Graph, s: Search, gray: seq<nat>, looked: seq<nat>, work: seq<(nat, nat)>) {
    if work == [] then gray == []
    else
      var (v, next) := work[|work| - 1];
      if next > 0 then v < |looked| && next == looked[v] && Active(gray, looked, work[..|work| - 1], v)
      else Next(feeds, s, gray, looked, v) && Active(gray + [v], LookedAt(gray, looked, v), work[..|work| - 1], v)
  }

  lemma NodeFound(feeds: Graph, s: Search, gray: seq<nat>, looked: seq<nat>, work: seq<(nat, nat)>, v: nat, counter: nat,
                  index: seq<Option<nat>>, low: seq<nat>, onStack: seq<bool>, stack: seq<nat>)
    requires Core(feeds, s, gray, looked) && Holds(|feeds|, s, index, low, onStack, stack, counter)
    requires work != [] && work[|work| - 1] == (v, 0) && Pending(feeds, s, gray, looked, work)
    ensures v < |feeds| == |index| == |low| == |onStack| == |looked|
    ensures Core(feeds, Found(s, v, counter), gray + [v], LookedAt(gray, looked, v))
    ensures Holds(|feeds|, Found(s, v, counter), index[v := Some(counter)], low[v := counter], onStack[v := true], stack + [v], counter + 1)
    ensures Unseen(|feeds|, Found(s, v, counter)) < Unseen(|feeds|, s)
  {
    assert Later(s, counter);
    CoreFacts(feeds, s, gray, looked);
    hide Core, Holds;
    FoundCore(feeds, s, gray, looked, v, counter);
    StackDistinct(|feeds|, s, index, low, onStack, stack, counter);
    FoundHolds(|feeds|, s, index, low, onStack, stack, counter, v);
    assert v in Unseen(|feeds|, s) && v !in Unseen(|feeds|, Found(s, v, counter));
    assert forall u: nat :: u in Unseen(|feeds|, Found(s, v, counter)) ==> u in Unseen(|feeds|, s);
  }

  /** The edges of `v` looked at are no other active node's. */
  lemma ScanKeepsActive(feeds: Graph, s: Search, gray: seq<nat>, looked: seq<nat>, looked': seq<nat>, work: seq<(nat, nat)>, v: nat)
    requires Core(feeds, s, gray, looked) && Active(gray, looked, work, v)
    requires |looked'| == |looked| && forall u: nat :: u < |looked| && u != v ==> looked'[u] == looked[u]
    ensures Active(gray, looked', work, v)
  {
    CoreFacts(feeds, s, gray, looked);
  }

  lemma Descends(feeds: Graph, s: Search, gray: seq<nat>, looked: seq<nat>, work: seq<(nat, nat)>, v: nat, i: nat)
    requires Core(feeds, s, gray, looked) && Active(gray, looked, work, v)
    requires v < |feeds| == |looked| && i < |feeds[v]| && looked[v] == i && feeds[v][i] < |feeds| && !s.Seen(feeds[v][i])
    ensures Pending(feeds, s, gray, looked, work + [(v, i + 1), (feeds[v][i], 0)])
  {
    CoreFacts(feeds, s, gray, looked);
    hide Core;
    var w := feeds[v][i];
    var work' := work + [(v, i + 1), (w, 0)];
    assert work'[..|work'| - 1] == work + [(v, i + 1)];
    assert forall j :: 0 <= j < |gray| ==> gray[j] in s.on && gray[j] != w;
  }

  lemma Returns(feeds: Graph, s: Search, gray: seq<nat>, looked: seq<nat>, work: seq<(nat, nat)>, v: nat)
    requires Active(gray, looked, work, v) && |looked| == |feeds|
    ensures Pending(feeds, s, gray[..|gray| - 1], looked, work)
  {
  }

  lemma RaisedHolds(n: nat, s: Search, index: seq<Option<nat>>, low: seq<nat>, onStack: seq<bool>, stack: seq<nat>, counter: nat, p: nat, v: nat)
    requires Holds(n, s, index, low, onStack, stack, counter) && p < n && v < n && s.Seen(p) && s.Seen(v)
    ensures |low| == n && Holds(n, Raised(s, p, v), index, low[p := Min(low[p], low[v])], onStack, stack, counter)
  {
    var t := Raised(s, p, v);
    assert forall u: nat {:trigger t.Seen(u)} :: t.Seen(u) <==> s.Seen(u);
    assert forall u: nat {:trigger t.At(u)} :: t.At(u) == s.At(u);
    assert forall u: nat {:trigger t.Low(u)} :: t.Low(u) == if u == p then Min(s.Low(p), s.Low(v)) else s.Low(u);
  }

  /** A parent's low link is before its child's place, so a component complete leaves it. */
  lemma ParentUnmoved(feeds: Graph, s: Search, gray: seq<nat>, looked: seq<nat>)
    requires Core(feeds, s, gray, looked) && |gray| > 1
    ensures s.Low(gray[|gray| - 2]) < s.At(gray[|gray| - 1])
  {
  }

  lemma StackDistinct(n: nat, s: Search, index: seq<Option<nat>>, low: seq<nat>, onStack: seq<bool>, stack: seq<nat>, counter: nat)
    requires Holds(n, s, index, low, onStack, stack, counter) && forall u: nat :: u in s.on ==> u < n
    ensures |index| == |low| == |onStack| == n
    ensures forall u: nat :: u in stack ==> u < n && u in s.on
    ensures forall u: nat :: u in s.on ==> u in stack
    ensures forall i, j :: 0 <= i < j < |stack| ==> stack[i] != stack[j]
    ensures forall u: nat :: s.Seen(u) && u < n ==> index[u] == Some(s.At(u)) && low[u] == s.Low(u)
  {
  }

  /** `v` has looked at every edge: its component comes off the stack if it is the root of
      one, and its parent takes its low link. */
  method Finish(feeds: Graph, index: seq<Option<nat>>, low: seq<nat>, onStack: seq<bool>, stack: seq<nat>, out: seq<seq<nat>>,
                work: seq<(nat, nat)>, v: nat, ghost s: Search, ghost gray: seq<nat>, ghost looked: seq<nat>, ghost counter: nat)
    returns (low': seq<nat>, onStack': seq<bool>, stack': seq<nat>, out': seq<seq<nat>>, ghost s': Search)
    requires Core(feeds, s, gray, looked) && Holds(|feeds|, s, index, low, onStack, stack, counter) && s.out == out
    requires Exhausted(feeds, s, gray, looked) && v == gray[|gray| - 1]
    requires |work| == |gray| - 1 && (work != [] ==> work[|work| - 1].0 == gray[|gray| - 2])
    ensures Core(feeds, s', gray[..|gray| - 1], looked) && Holds(|feeds|, s', index, low', onStack', stack', counter)
    ensures s'.out == out' && s'.index == s.index
  {
    CoreFacts(feeds, s, gray, looked);
    StackDistinct(|feeds|, s, index, low, onStack, stack, counter);
    assert v in s.on && s.Seen(v);
    hide Core, Holds;
    low', onStack', stack', out' := low, onStack, stack, out;
    if low[v] == index[v].value {
      var group;
      group, stack', onStack' := PopComponent(stack, onStack, v);
      out' := out + [group];
      PoppedIsFrom(|feeds|, s, index, low, onStack, stack, counter, v, group, stack', onStack');
      CompletedCore(feeds, s, gray, looked, v, group);
      s' := Completed(s, group);
      if work != [] {
        ParentUnmoved(feeds, s, gray, looked);
      }
    } else {
      RaisedCore(feeds, s, gray, looked);
      var p := gray[|gray| - 2];
      assert p in s.on;
      RaisedHolds(|feeds|, s, index, low, onStack, stack, counter, p, v);
      s' := Raised(s, p, v);
    }
    if work != [] {
      var parent := work[|work| - 1].0;
      assert parent in s.on && s.Seen(parent);
      low' := low'[parent := Min(low'[parent], low'[v])];
    }
  }

  ghost function Unseen(n: nat, s: Search): set<nat> {
    set v: nat | 0 <= v < n && !s.Seen(v)
  }

  lemma TopKnown(feeds: Graph, s: Search, gray: seq<nat>, looked: seq<nat>, work: seq<(nat, nat)>)
    requires Core(feeds, s, gray, looked) && Pending(feeds, s, gray, looked, work) && work != []
    ensures var (v, next) := work[|work| - 1];
            var front := work[..|work| - 1];
            && v < |feeds| == |looked| && next <= |feeds[v]|
            && (next > 0 ==> gray != [] && gray[|gray| - 1] == v && looked[v] == next && Active(gray, looked, front, v))
            && (next == 0 ==> LookedAt(gray, looked, v)[v] == 0 && Active(gray + [v], LookedAt(gray, looked, v), front, v))
  {
  }

  lemma Starts(feeds: Graph, s: Search, looked: seq<nat>, start: nat)
    requires Core(feeds, s, [], looked) && start < |feeds| && !s.Seen(start)
    ensures Pending(feeds, s, [], looked, [(start, 0)])
  {
    assert [(start, 0)][..0] == [];
  }

  lemma Idle(feeds: Graph, s: Search, gray: seq<nat>, looked: seq<nat>)
    requires Pending(feeds, s, gray, looked, [])
    ensures gray == []
  {
  }

  lemma Over(feeds: Graph, s: Search, looked: seq<nat>)
    requires Core(feeds, s, [], looked) && forall u: nat :: u < |feeds| ==> s.Seen(u)
    ensures Emitted(feeds, s.out) && Covers(feeds, s.out)
  {
    forall v: nat | v < |feeds|
      ensures InSome(s.out, v)
    {
      NothingLeft(feeds, s, looked, v);
    }
  }

  ghost predicate Covers(feeds: Graph, out: seq<seq<nat>>) {
    forall v: nat {:trigger InSome(out, v)} :: v < |feeds| ==> InSome(out, v)
  }

  ghost predicate InSome(out: seq<seq<nat>>, v: nat) { exists k :: 0 <= k < |out| && v in out[k] }

  /** The vectors the search runs on. */
  datatype Vectors = Vectors(index: seq<Option<nat>>, low: seq<nat>, onStack: seq<bool>, stack: seq<nat>, out: seq<seq<nat>>, counter: nat)

  ghost predicate Running(feeds: Graph, m: Vectors, s: Search, gray: seq<nat>, looked: seq<nat>) {
    Core(feeds, s, gray, looked) && Holds(|feeds|, s, m.index, m.low, m.onStack, m.stack, m.counter) && s.out == m.out
  }

  ghost function Fresh(work: seq<(nat, nat)>): nat {
    if work != [] && work[|work| - 1].1 > 0 then 1 else 0
  }

  /** The node on top of the work, found if it is met for the first time. */
  method Meet(feeds: Graph, m: Vectors, work: seq<(nat, nat)>, ghost s: Search, ghost gray: seq<nat>, ghost looked: seq<nat>)
    returns (m': Vectors, ghost s': Search, ghost gray': seq<nat>, ghost looked': seq<nat>)
    requires Running(feeds, m, s, gray, looked) && Pending(feeds, s, gray, looked, work) && work != []
    ensures Running(feeds, m', s', gray', looked') && Active(gray', looked', work[..|work| - 1], work[|work| - 1].0)
    ensures var (v, next) := work[|work| - 1]; v < |feeds| == |looked'| && looked'[v] == next <= |feeds[v]|
    ensures s'.index == if work[|work| - 1].1 == 0 then s.index[work[|work| - 1].0 := m.counter] else s.index
    ensures work[|work| - 1].1 == 0 ==> Unseen(|feeds|, s') < Unseen(|feeds|, s)
  {
    var (v, next) := work[|work| - 1];
    TopKnown(feeds, s, gray, looked, work);
    if next > 0 { return m, s, gray, looked; }
    hide Core, Holds, Active;
    NodeFound(feeds, s, gray, looked, work, v, m.counter, m.index, m.low, m.onStack, m.stack);
    m' := m.(index := m.index[v := Some(m.counter)], low := m.low[v := m.counter], onStack := m.onStack[v := true],
             stack := m.stack + [v], counter := m.counter + 1);
    s', gray', looked' := Found(s, v, m.counter), gray + [v], LookedAt(gray, looked, v);
  }

  /** One turn of the search: the node on top met, and its edges looked at until one leads on
      or they are done. */
  method Step(feeds: Graph, m: Vectors, work: seq<(nat, nat)>, ghost s: Search, ghost gray: seq<nat>, ghost looked: seq<nat>)
    returns (m': Vectors, work': seq<(nat, nat)>, ghost s': Search, ghost gray': seq<nat>, ghost looked': seq<nat>)
    requires Running(feeds, m, s, gray, looked) && Pending(feeds, s, gray, looked, work) && work != []
    ensures Running(feeds, m', s', gray', looked') && Pending(feeds, s', gray', looked', work')
    ensures s'.index == if work[|work| - 1].1 == 0 then s.index[work[|work| - 1].0 := m.counter] else s.index
    ensures work[|work| - 1].1 == 0 ==> Unseen(|feeds|, s') < Unseen(|feeds|, s)
    ensures work[|work| - 1].1 > 0 ==> Fresh(work') == 0 || |work'| < |work|
  {
    hide Core, Holds, Pending, Active, Unseen;
    var (v, next) := work[|work| - 1];
    var met;
    ghost var s1, gray1, looked1;
    met, s1, gray1, looked1 := Meet(feeds, m, work, s, gray, looked);
    var Vectors(index, low, onStack, stack, out, counter) := met;
    var front := work[..|work| - 1];
    ActiveParent(gray1, looked1, front, v);
    var child;
    ghost var s2, looked2;
    low, child, s2, looked2 := Scan(feeds, index, onStack, low, v, next, s1, gray1, looked1, stack, counter);
    ScanKeepsActive(feeds, s1, gray1, looked1, looked2, front, v);
    if child.Some? {
      Descends(feeds, s2, gray1, looked2, front, v, child.value);
      work' := front + [(v, child.value + 1), (feeds[v][child.value], 0)];
      s', gray', looked' := s2, gray1, looked2;
    } else {
      low, onStack, stack, out, s' := Finish(feeds, index, low, onStack, stack, out, front, v, s2, gray1, looked2, counter);
      Returns(feeds, s', gray1, looked2, front, v);
      work', gray', looked' := front, gray1[..|gray1| - 1], looked2;
    }
    m' := Vectors(index, low, onStack, stack, out, counter);
    SameUnseen(|feeds|, s1, s');
  }

  lemma SameUnseen(n: nat, s: Search, t: Search)
    requires s.index == t.index
    ensures Unseen(n, s) == Unseen(n, t)
  {
    assert forall v: nat {:trigger s.Seen(v)} {:trigger t.Seen(v)} :: s.Seen(v) <==> t.Seen(v);
  }

  lemma ActiveParent(gray: seq<nat>, looked: seq<nat>, work: seq<(nat, nat)>, v: nat)
    requires Active(gray, looked, work, v)
    ensures |work| == |gray| - 1 && gray[|gray| - 1] == v && (work != [] ==> work[|work| - 1].0 == gray[|gray| - 2])
  {
  }

  /** Everything reached from `start`. */
  method Explore(feeds: Graph, start: nat, m: Vectors, ghost s: Search, ghost looked: seq<nat>)
    returns (m': Vectors, ghost s': Search, ghost looked': seq<nat>)
    requires Running(feeds, m, s, [], looked) && start < |feeds| && !s.Seen(start)
    ensures Running(feeds, m', s', [], looked') && s'.Seen(start)
    ensures forall u: nat :: s.Seen(u) ==> s'.Seen(u)
  {
    Starts(feeds, s, looked, start);
    hide Running, Pending;
    var work: seq<(nat, nat)> := [(start, 0)];
    ghost var gray: seq<nat> := [];
    m', s', looked' := m, s, looked;
    while work != []
      invariant Running(feeds, m', s', gray, looked') && Pending(feeds, s', gray, looked', work)
      invariant s'.Seen(start) || work == [(start, 0)]
      invariant forall u: nat :: s.Seen(u) ==> s'.Seen(u)
      decreases Unseen(|feeds|, s'), Fresh(work), |work|
    {
      ghost var s0, top := s', work[|work| - 1];
      m', work, s', gray, looked' := Step(feeds, m', work, s', gray, looked');
      SameUnseen(|feeds|, if top.1 == 0 then s' else s0, s');
    }
    Idle(feeds, s', gray, looked');
  }

  lemma Initially(feeds: Graph, looked: seq<nat>)
    requires Closed(feeds) && |looked| == |feeds| && forall u: nat :: u < |feeds| ==> looked[u] == 0
    ensures Core(feeds, Search(map[], map[], {}, []), [], looked)
  {
  }

  /** The strongly connected components of the graph, every node in one, those fed after
      those feeding them. */
  method Tarjan(feeds: Graph) returns (out: seq<seq<nat>>)
    requires Closed(feeds)
    ensures Emitted(feeds, out) && Covers(feeds, out)
  {
    hide Running, Emitted, Covers;
    var n := |feeds|;
    var m := Vectors(seq(n, _ => None), seq(n, _ => 0), seq(n, _ => false), [], [], 0);
    ghost var s, looked := Search(map[], map[], {}, []), seq(n, _ => 0);
    BeginsRunning(feeds, m, looked);
    for start := 0 to n
      invariant Running(feeds, m, s, [], looked)
      invariant forall u: nat :: u < start ==> s.Seen(u)
    {
      RunningSeen(feeds, m, s, looked, start);
      if m.index[start].Some? { continue; }
      m, s, looked := Explore(feeds, start, m, s, looked);
    }
    EndsRunning(feeds, m, s, looked);
    out := m.out;
  }

  lemma BeginsRunning(feeds: Graph, m: Vectors, looked: seq<nat>)
    requires Closed(feeds) && |looked| == |feeds| && forall u: nat :: u < |feeds| ==> looked[u] == 0
    requires m == Vectors(seq(|feeds|, _ => None), seq(|feeds|, _ => 0), seq(|feeds|, _ => false), [], [], 0)
    ensures Running(feeds, m, Search(map[], map[], {}, []), [], looked)
  {
    hide Core;
    Initially(feeds, looked);
  }

  lemma RunningSeen(feeds: Graph, m: Vectors, s: Search, looked: seq<nat>, w: nat)
    requires Running(feeds, m, s, [], looked) && w < |feeds|
    ensures |m.index| == |feeds| && (s.Seen(w) <==> m.index[w].Some?)
  {
    hide Core, Holds;
    SeenIsIndexed(|feeds|, s, m.index, m.low, m.onStack, m.stack, m.counter, w);
  }

  lemma EndsRunning(feeds: Graph, m: Vectors, s: Search, looked: seq<nat>)
    requires Running(feeds, m, s, [], looked) && forall u: nat :: u < |feeds| ==> s.Seen(u)
    ensures Emitted(feeds, m.out) && Covers(feeds, m.out)
  {
    hide Core, Holds, Emitted, Covers;
    Over(feeds, s, looked);
  }

  // ---- What the components are ----

  lemma {:induction false} PathGoesBack(feeds: Graph, out: seq<seq<nat>>, p: seq<nat>, k: nat)
    requires Emitted(feeds, out) && IsPath(feeds, p) && k < |out| && p[0] in out[k]
    ensures exists m :: 0 <= m <= k && p[|p| - 1] in out[m]
    decreases |p|
  {
    if |p| > 1 {
      assert p[1] in feeds[p[0]];
      var m :| 0 <= m <= k && p[1] in out[m];
      assert IsPath(feeds, p[1..]);
      PathGoesBack(feeds, out, p[1..], m);
    }
  }

  /** Two nodes are in one component exactly when each reaches the other, and a node reaches
      only nodes of its own component and those before it. */
  lemma ExactlyComponents(feeds: Graph, out: seq<seq<nat>>, k: nat, m: nat, u: nat, v: nat)
    requires Emitted(feeds, out) && k < |out| && m < |out| && u in out[k] && v in out[m]
    ensures k == m <==> Reach(feeds, u, v) && Reach(feeds, v, u)
    ensures Reach(feeds, u, v) ==> m <= k
  {
    if Reach(feeds, u, v) {
      var p: seq<nat> :| IsPath(feeds, p) && p[0] == u && p[|p| - 1] == v;
      PathGoesBack(feeds, out, p, k);
    }
    if Reach(feeds, v, u) {
      var p: seq<nat> :| IsPath(feeds, p) && p[0] == v && p[|p| - 1] == u;
      PathGoesBack(feeds, out, p, m);
    }
  }
}
