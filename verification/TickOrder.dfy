/** The graph runtime's tick order: Kahn's algorithm with an identity fallback, and the start and
    shutdown sequences that follow it. */
module TickOrder {

  datatype Wire = Wire(src: nat, dst: nat)

  predicate InRange(w: Wire, n: nat) {
    w.src < n && w.dst < n
  }

  // ---- Paths and cycles --------------------------------------------------

  predicate Connected(wires: seq<Wire>, n: nat, a: nat, b: nat) {
    Wire(a, b) in wires && InRange(Wire(a, b), n)
  }

  /** Consecutive nodes are joined by in-range wires. */
  predicate IsPath(wires: seq<Wire>, n: nat, p: seq<nat>) {
    forall i :: 0 <= i < |p| - 1 ==> Connected(wires, n, p[i], p[i + 1])
  }

  /** A path of at least one wire that comes back to where it started; a self-loop is one. */
  ghost predicate IsCycle(wires: seq<Wire>, n: nat, p: seq<nat>) {
    |p| >= 2 && p[0] == p[|p| - 1] && IsPath(wires, n, p)
  }

  ghost predicate Cyclic(wires: seq<Wire>, n: nat) {
    exists p :: IsCycle(wires, n, p)
  }

  // ---- Orders ------------------------------------------------------------

  predicate Unique(s: seq<nat>) {
    forall i, j :: 0 <= i < j < |s| ==> s[i] != s[j]
  }

  predicate Below(s: seq<nat>, n: nat) {
    forall i :: 0 <= i < |s| ==> s[i] < n
  }

  /** Every node 0..n-1 exactly once. */
  predicate IsPermutation(order: seq<nat>, n: nat) {
    |order| == n && Unique(order) && Below(order, n)
  }

  function Identity(n: nat): (s: seq<nat>)
    ensures IsPermutation(s, n)
  {
    seq(n, i => i)
  }

  /** Whatever feeds a node comes before it. */
  ghost predicate SourcesFirst(wires: seq<Wire>, n: nat, order: seq<nat>) {
    forall p, a :: 0 <= p < |order| && Connected(wires, n, a, order[p]) ==> a in order[..p]
  }

  // ---- Counting wires ----------------------------------------------------

  /** In-range wires into d whose source is not among `done`, duplicates counted. */
  function Pending(wires: seq<Wire>, n: nat, done: set<nat>, d: nat): nat {
    if wires == [] then 0
    else
      var w := wires[|wires| - 1];
      Pending(wires[..|wires| - 1], n, done, d) +
      (if InRange(w, n) && w.dst == d && w.src !in done then 1 else 0)
  }

  /** In-range wires from a to b. */
  function Between(wires: seq<Wire>, n: nat, a: nat, b: nat): nat {
    if wires == [] then 0
    else
      var w := wires[|wires| - 1];
      Between(wires[..|wires| - 1], n, a, b) + (if InRange(w, n) && w == Wire(a, b) then 1 else 0)
  }

  lemma {:induction false} PendingMinusNode(wires: seq<Wire>, n: nat, done: set<nat>, v: nat, d: nat)
    requires v !in done
    ensures Pending(wires, n, done, d) == Pending(wires, n, done + {v}, d) + Between(wires, n, v, d)
  {
    if wires != [] {
      PendingMinusNode(wires[..|wires| - 1], n, done, v, d);
    }
  }

  lemma {:induction false} NonePending(wires: seq<Wire>, n: nat, done: set<nat>, d: nat)
    ensures Pending(wires, n, done, d) == 0 <==> forall a :: Connected(wires, n, a, d) ==> a in done
  {
    if wires != [] {
      var front, w := wires[..|wires| - 1], wires[|wires| - 1];
      assert wires == front + [w];
      NonePending(front, n, done, d);
      assert forall a :: Connected(wires, n, a, d) <==> Connected(front, n, a, d) || (w == Wire(a, d) && InRange(w, n));
      if Pending(wires, n, done, d) != 0 && Pending(front, n, done, d) == 0 {
        assert Connected(wires, n, w.src, d);
      }
    }
  }

  // ---- Drained exactly when acyclic --------------------------------------

  /** Along a path, positions in a sources-first permutation go up. */
  lemma {:induction false} PathClimbs(wires: seq<Wire>, n: nat, order: seq<nat>, p: seq<nat>, at: nat)
    requires IsPermutation(order, n) && SourcesFirst(wires, n, order)
    requires |p| >= 2 && IsPath(wires, n, p) && at < n && order[at] == p[|p| - 1]
    ensures p[0] in order[..at]
    decreases |p|
  {
    var front := p[..|p| - 1];
    assert Connected(wires, n, p[|p| - 2], order[at]);
    var below :| 0 <= below < at && order[below] == p[|p| - 2];
    if |p| > 2 {
      PathClimbs(wires, n, order, front, below);
      var i :| 0 <= i < below && order[i] == p[0];
      assert order[..at][i] == p[0];
    } else {
      assert order[..at][below] == p[0];
    }
  }

  lemma NotBefore(order: seq<nat>, at: nat)
    requires Unique(order) && at < |order|
    ensures order[at] !in order[..at]
  {
  }

  lemma SourcesFirstMeansAcyclic(wires: seq<Wire>, n: nat, order: seq<nat>)
    requires IsPermutation(order, n) && SourcesFirst(wires, n, order)
    ensures !Cyclic(wires, n)
  {
    forall p ensures !IsCycle(wires, n, p) {
      if IsCycle(wires, n, p) {
        assert Connected(wires, n, p[|p| - 2], p[|p| - 1]);
        var at := FindNode(order, n, p[0]);
        PathClimbs(wires, n, order, p, at);
        NotBefore(order, at);
      }
    }
  }

  lemma FindNode(order: seq<nat>, n: nat, v: nat) returns (at: nat)
    requires IsPermutation(order, n) && v < n
    ensures at < n && order[at] == v
  {
    if v !in order {
      UniqueIsShort(order + [v], n);
    }
    at :| 0 <= at < |order| && order[at] == v;
  }

  /** Pigeonhole: distinct nodes below n are at most n. */
  lemma {:induction false} UniqueIsShort(s: seq<nat>, n: nat)
    requires Unique(s) && Below(s, n)
    ensures |s| <= n
    decreases n
  {
    if s != [] {
      assert s[0] < n;
      var last := n - 1;
      if i :| 0 <= i < |s| && s[i] == last {
        var t := s[..i] + s[i + 1..];
        forall j | 0 <= j < |t| ensures t[j] < last {
          assert t[j] == s[if j < i then j else j + 1];
        }
        UniqueIsShort(t, last);
      } else {
        forall j | 0 <= j < |s| ensures s[j] < last {
        }
        UniqueIsShort(s, last);
      }
    }
  }

  /** A nonempty set of nodes each of which is fed from inside the set contains a cycle: walking
      backwards n times must meet a node twice. */
  lemma FedFromInside(wires: seq<Wire>, n: nat, start: nat, left: set<nat>)
    requires start in left && AllFed(wires, n, left)
    ensures Cyclic(wires, n)
  {
    var walk := WalkBack(wires, n, start, left, n);
    if Unique(walk) {
      UniqueIsShort(walk, n);
    }
    var i, j :| 0 <= i < j < |walk| && walk[i] == walk[j];
    var p := walk[i..j + 1];
    forall k | 0 <= k < |p| - 1 ensures Connected(wires, n, p[k], p[k + 1]) {
      assert Connected(wires, n, walk[i + k], walk[i + k + 1]);
    }
    assert IsCycle(wires, n, p);
  }

  ghost predicate Fed(wires: seq<Wire>, n: nat, left: set<nat>, d: nat) {
    d < n && exists a :: a in left && Connected(wires, n, a, d)
  }

  ghost predicate AllFed(wires: seq<Wire>, n: nat, left: set<nat>) {
    forall d :: d in left ==> Fed(wires, n, left, d)
  }

  lemma {:induction false} WalkBack(wires: seq<Wire>, n: nat, start: nat, left: set<nat>, k: nat) returns (walk: seq<nat>)
    requires start in left && AllFed(wires, n, left)
    ensures |walk| == k + 1 && IsPath(wires, n, walk) && Below(walk, n) && walk[0] in left
  {
    if k == 0 {
      assert Fed(wires, n, left, start);
      walk := [start];
    } else {
      var rest := WalkBack(wires, n, start, left, k - 1);
      assert Fed(wires, n, left, rest[0]);
      var a :| a in left && Connected(wires, n, a, rest[0]);
      walk := [a] + rest;
      forall i | 0 <= i < |walk| - 1 ensures Connected(wires, n, walk[i], walk[i + 1]) {
        assert i > 0 ==> walk[i] == rest[i - 1] && walk[i + 1] == rest[i];
      }
    }
  }

  /** A queue that stops growing before it holds every node leaves a cycle behind. */
  lemma NotDrainedMeansCyclic(wires: seq<Wire>, n: nat, order: seq<nat>)
    requires |order| < n && Unique(order) && Below(order, n)
    requires forall d :: 0 <= d < n ==> (d in order <==> Pending(wires, n, ToSet(order), d) == 0)
    ensures Cyclic(wires, n)
  {
    var left := set d | 0 <= d < n && d !in order;
    var start := MissingNode(order, n);
    forall d | d in left ensures Fed(wires, n, left, d) {
      NonePending(wires, n, ToSet(order), d);
      var a :| Connected(wires, n, a, d) && a !in ToSet(order);
      assert a in left;
    }
    FedFromInside(wires, n, start, left);
  }

  function ToSet(s: seq<nat>): set<nat> {
    set x | x in s
  }

  lemma {:induction false} MissingNode(order: seq<nat>, n: nat) returns (v: nat)
    requires |order| < n && Unique(order) && Below(order, n)
    ensures v < n && v !in order
    decreases n
  {
    var last := n - 1;
    if i :| 0 <= i < |order| && order[i] == last {
      var t := order[..i] + order[i + 1..];
      v := MissingNode(t, last);
      assert forall x :: x in order ==> x == last || x in t by {
        forall j | 0 <= j < |order| && j != i ensures order[j] in t {
          assert order[j] == t[if j < i then j else j - 1];
        }
      }
    } else {
      v := last;
    }
  }

  // ---- The builder -------------------------------------------------------

  class GraphRuntime {
    var tickOrder: seq<nat>
    var started: bool
    var events: seq<Event>

    constructor ()
      ensures tickOrder == [] && !started && events == []
    {
      tickOrder, started, events := [], false, [];
    }

    /** The order is always a permutation; without a cycle every source precedes its destinations,
        and with one it is the identity. */
    method BuildTickOrder(wires: seq<Wire>, n: nat)
      modifies this`tickOrder
      ensures IsPermutation(tickOrder, n)
      ensures !Cyclic(wires, n) ==> SourcesFirst(wires, n, tickOrder)
      ensures Cyclic(wires, n) ==> tickOrder == Identity(n)
    {
      tickOrder := [];
      var indegree, adj := CountWires(wires, n);
      var queue := Sources(wires, n, indegree);
      var qi := 0;
      while qi < |queue|
        invariant qi <= |queue| && tickOrder == queue[..qi]
        invariant KahnInv(wires, n, queue, queue[..qi], indegree)
        decreases n - qi
      {
        UniqueIsShort(queue, n);
        var node := queue[qi];
        tickOrder := tickOrder + [node];
        queue, indegree := Release(wires, n, queue, qi, indegree, adj[node]);
        qi := qi + 1;
      }
      assert queue[..qi] == queue;
      UniqueIsShort(queue, n);
      if |tickOrder| < n {
        NotDrainedMeansCyclic(wires, n, queue);
        tickOrder := Identity(n);
      } else {
        SourcesFirstMeansAcyclic(wires, n, queue);
      }
    }

    /** start(): nodes come up in tick order. */
    method Start(nNodes: nat)
      modifies this`events, this`started
      ensures started && events == old(events) + Starts(tickOrder, nNodes)
    {
      ghost var before := events;
      for i := 0 to |tickOrder|
        invariant events == before + Starts(tickOrder[..i], nNodes)
      {
        var nid := tickOrder[i];
        assert tickOrder[..i + 1] == tickOrder[..i] + [nid];
        StartsAppend(tickOrder[..i], nid, nNodes);
        if nid < nNodes {
          events := events + [Started(nid)];
        }
      }
      assert tickOrder[..|tickOrder|] == tickOrder;
      started := true;
    }

    /** shutdown(), after the workers have been joined: nodes go down in reverse tick order. */
    method Shutdown(nNodes: nat)
      modifies this`events, this`started
      ensures !started && events == old(events) + Stops(tickOrder, nNodes)
    {
      ghost var before := events;
      var i := |tickOrder|;
      assert tickOrder[..i] == tickOrder;
      while i > 0
        invariant 0 <= i <= |tickOrder|
        invariant events + Stops(tickOrder[..i], nNodes) == before + Stops(tickOrder, nNodes)
      {
        i := i - 1;
        var nid := tickOrder[i];
        assert tickOrder[..i + 1][..i] == tickOrder[..i];
        if nid < nNodes {
          events := events + [Stopped(nid)];
        }
      }
      started := false;
    }
  }

  // ---- Steps of the builder ----------------------------------------------

  /** What holds between two nodes taken from the queue: `done` has been taken, a node is queued once
      nothing unprocessed feeds it, and everything that feeds a queued node stands before it. */
  ghost predicate KahnInv(wires: seq<Wire>, n: nat, queue: seq<nat>, done: seq<nat>, indegree: seq<nat>) {
    && |indegree| == n
    && Unique(queue) && Below(queue, n)
    && (forall d :: 0 <= d < n ==> indegree[d] == Pending(wires, n, ToSet(done), d))
    && (forall d :: 0 <= d < n ==> (d in queue <==> indegree[d] == 0))
    && SourcesFirst(wires, n, queue)
  }

  /** Adjacency lists and indegrees agree with the wires, duplicates included. */
  ghost predicate Counted(wires: seq<Wire>, n: nat, indegree: seq<nat>, adj: seq<seq<nat>>) {
    && |indegree| == n && |adj| == n
    && (forall d :: 0 <= d < n ==> indegree[d] == Pending(wires, n, {}, d))
    && (forall a :: 0 <= a < n ==> Below(adj[a], n))
    && (forall a, b :: 0 <= a < n ==> multiset(adj[a])[b] == Between(wires, n, a, b))
  }

  method CountWires(wires: seq<Wire>, n: nat) returns (indegree: seq<nat>, adj: seq<seq<nat>>)
    ensures Counted(wires, n, indegree, adj)
  {
    indegree, adj := seq(n, _ => 0), seq(n, _ => []);
    for i := 0 to |wires|
      invariant Counted(wires[..i], n, indegree, adj)
    {
      var w := wires[i];
      assert wires[..i + 1][..i] == wires[..i];
      if w.src < n && w.dst < n {
        indegree := indegree[w.dst := indegree[w.dst] + 1];
        adj := adj[w.src := adj[w.src] + [w.dst]];
      }
    }
    assert wires[..|wires|] == wires;
  }

  /** The nodes nothing feeds, in ascending order. */
  method Sources(wires: seq<Wire>, n: nat, indegree: seq<nat>) returns (queue: seq<nat>)
    requires |indegree| == n && forall d :: 0 <= d < n ==> indegree[d] == Pending(wires, n, {}, d)
    ensures KahnInv(wires, n, queue, queue[..0], indegree)
  {
    queue := [];
    for i := 0 to n
      invariant Unique(queue) && Below(queue, i)
      invariant forall d :: 0 <= d < i ==> (d in queue <==> indegree[d] == 0)
    {
      if indegree[i] == 0 {
        queue := queue + [i];
      }
    }
    forall p, a | 0 <= p < |queue| ensures !Connected(wires, n, a, queue[p]) {
      assert queue[p] in queue;
      NonePending(wires, n, {}, queue[p]);
    }
    assert ToSet(queue[..0]) == {};
  }

  /** Take node queue[qi]: every wire out of it stops counting, and nodes that drop to zero queue up. */
  method Release(wires: seq<Wire>, n: nat, queue0: seq<nat>, qi: nat, indegree0: seq<nat>, out: seq<nat>)
    returns (queue: seq<nat>, indegree: seq<nat>)
    requires qi < |queue0| && KahnInv(wires, n, queue0, queue0[..qi], indegree0)
    requires Below(out, n) && forall b :: multiset(out)[b] == Between(wires, n, queue0[qi], b)
    ensures qi < |queue| && queue0 <= queue
    ensures KahnInv(wires, n, queue, queue[..qi + 1], indegree)
  {
    queue, indegree := queue0, indegree0;
    ghost var v, done := queue0[qi], ToSet(queue0[..qi]);
    ghost var done' := done + {v};
    assert queue0[..qi + 1] == queue0[..qi] + [v];
    assert ToSet(queue0[..qi + 1]) == done';
    NotBefore(queue0, qi);
    TakenOut(wires, n, done, v, out);
    for k := 0 to |out|
      invariant queue0 <= queue
      invariant ReleaseInv(wires, n, done, queue, indegree, out[..k])
    {
      TakeNext(wires, n, done, done', queue, indegree, out, k);
      var dst := out[k];
      indegree := indegree[dst := indegree[dst] - 1];
      if indegree[dst] == 0 {
        queue := queue + [dst];
      }
    }
    assert out[..|out|] == out;
    assert queue[..qi + 1] == queue0[..qi + 1];
  }

  /** KahnInv while the wires out of one node are being discounted; `gone` are their destinations so far. */
  ghost predicate ReleaseInv(wires: seq<Wire>, n: nat, done: set<nat>, queue: seq<nat>, indegree: seq<nat>,
                             gone: seq<nat>)
  {
    && |indegree| == n
    && Unique(queue) && Below(queue, n) && SourcesFirst(wires, n, queue)
    && (forall d :: 0 <= d < n ==> indegree[d] + multiset(gone)[d] == Pending(wires, n, done, d))
    && (forall d :: 0 <= d < n ==> (d in queue <==> indegree[d] == 0))
  }

  lemma TakenOut(wires: seq<Wire>, n: nat, done: set<nat>, v: nat, out: seq<nat>)
    requires v !in done && forall b :: multiset(out)[b] == Between(wires, n, v, b)
    ensures forall d :: Pending(wires, n, done, d) == Pending(wires, n, done + {v}, d) + multiset(out)[d]
  {
    forall d ensures Pending(wires, n, done, d) == Pending(wires, n, done + {v}, d) + multiset(out)[d] {
      PendingMinusNode(wires, n, done, v, d);
    }
  }

  lemma TakeNext(wires: seq<Wire>, n: nat, done: set<nat>, done': set<nat>, queue: seq<nat>, indegree: seq<nat>,
                 out: seq<nat>, k: nat)
    requires k < |out| && Below(out, n) && ReleaseInv(wires, n, done, queue, indegree, out[..k])
    requires forall d :: Pending(wires, n, done, d) == Pending(wires, n, done', d) + multiset(out)[d]
    requires forall a :: a in done' ==> a in queue
    ensures var dst := out[k];
            && indegree[dst] > 0
            && var indegree' := indegree[dst := indegree[dst] - 1];
               ReleaseInv(wires, n, done, if indegree'[dst] == 0 then queue + [dst] else queue, indegree', out[..k + 1])
  {
    var dst := out[k];
    assert out == out[..k] + [dst] + out[k + 1..];
    assert out[..k + 1] == out[..k] + [dst];
    assert multiset(out)[dst] >= multiset(out[..k])[dst] + 1;
    assert indegree[dst] > 0;
    if indegree[dst] == 1 {
      assert Pending(wires, n, done', dst) == 0;
      NonePending(wires, n, done', dst);
      QueueGrows(wires, n, queue, dst, done');
    }
  }

  lemma QueueGrows(wires: seq<Wire>, n: nat, queue: seq<nat>, dst: nat, done: set<nat>)
    requires SourcesFirst(wires, n, queue) && forall a :: a in done ==> a in queue
    requires forall a :: Connected(wires, n, a, dst) ==> a in done
    ensures SourcesFirst(wires, n, queue + [dst])
  {
    var q := queue + [dst];
    forall p, a | 0 <= p < |q| && Connected(wires, n, a, q[p]) ensures a in q[..p] {
      if p < |queue| {
        assert q[..p] == queue[..p];
      } else {
        assert q[..p] == queue;
      }
    }
  }

  // ---- Start and stop order ----------------------------------------------

  datatype Event = Started(nid: nat) | Stopped(nid: nat)

  function Starts(order: seq<nat>, n: nat): seq<Event> {
    if order == [] then []
    else (if order[0] < n then [Started(order[0])] else []) + Starts(order[1..], n)
  }

  function Stops(order: seq<nat>, n: nat): seq<Event> {
    if order == [] then []
    else
      var last := order[|order| - 1];
      (if last < n then [Stopped(last)] else []) + Stops(order[..|order| - 1], n)
  }

  lemma {:induction false} StartsAppend(order: seq<nat>, nid: nat, n: nat)
    ensures Starts(order + [nid], n) == Starts(order, n) + (if nid < n then [Started(nid)] else [])
  {
    if order != [] {
      assert (order + [nid])[1..] == order[1..] + [nid];
      StartsAppend(order[1..], nid, n);
    }
  }

  lemma {:induction false} StartsAt(order: seq<nat>, n: nat)
    requires Below(order, n)
    ensures |Starts(order, n)| == |order| && forall i :: 0 <= i < |order| ==> Starts(order, n)[i] == Started(order[i])
  {
    if order != [] {
      StartsAt(order[1..], n);
    }
  }

  lemma {:induction false} StopsAt(order: seq<nat>, n: nat)
    requires Below(order, n)
    ensures |Stops(order, n)| == |order|
    ensures forall i :: 0 <= i < |order| ==> Stops(order, n)[i] == Stopped(order[|order| - 1 - i])
  {
    if order != [] {
      StopsAt(order[..|order| - 1], n);
    }
  }

  /** On an acyclic graph a source has started before each of its destinations starts, and is stopped
      only after each of them is. */
  lemma SourcesOutliveDestinations(wires: seq<Wire>, n: nat, order: seq<nat>, w: Wire)
    requires IsPermutation(order, n) && SourcesFirst(wires, n, order)
    requires w in wires && InRange(w, n)
    ensures exists i, j :: 0 <= i < j < n
                        && |Starts(order, n)| == n && Starts(order, n)[i] == Started(w.src) && Starts(order, n)[j] == Started(w.dst)
    ensures exists i, j :: 0 <= i < j < n && |Stops(order, n)| == n && Stops(order, n)[i] == Stopped(w.dst)
                        && Stops(order, n)[j] == Stopped(w.src)
  {
    var at := FindNode(order, n, w.dst);
    assert Connected(wires, n, w.src, order[at]);
    var below :| 0 <= below < at && order[below] == w.src;
    StartsAt(order, n);
    StopsAt(order, n);
    assert Starts(order, n)[below] == Started(w.src) && Starts(order, n)[at] == Started(w.dst);
    assert Stops(order, n)[n - 1 - at] == Stopped(w.dst) && Stops(order, n)[n - 1 - below] == Stopped(w.src);
  }
}
