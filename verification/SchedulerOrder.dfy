/** When a plan depends on the order in which the cores are listed. The code says never; the exact
    condition is OrderMattersIff: a node that takes the last resort, or one whose CCD preference fits
    several CCDs that lead it to different cores. */
module SchedulerOrders {
  import opened Common
  import opened Scheduler
  import opened SchedulerLaws

  // ---- Permutations ------------------------------------------------------

  predicate Permuted(a: seq<CoreInfo>, b: seq<CoreInfo>) {
    multiset(a) == multiset(b)
  }

  lemma PermutedMembers(a: seq<CoreInfo>, b: seq<CoreInfo>)
    requires Permuted(a, b)
    ensures forall c :: c in a <==> c in b
  {
    forall c ensures c in a <==> c in b {
      assert c in a <==> c in multiset(a);
      assert c in b <==> c in multiset(b);
    }
  }

  lemma TwiceInMultiset(a: seq<CoreInfo>, i: nat, j: nat)
    requires i < j < |a| && a[i] == a[j]
    ensures multiset(a)[a[i]] >= 2
  {
    assert a == a[..i] + [a[i]] + a[i + 1..j] + [a[j]] + a[j + 1..];
  }

  lemma OnceInMultiset(a: seq<CoreInfo>, c: CoreInfo)
    requires ProperIds(a) && c in a
    ensures multiset(a)[c] == 1
  {
    var i :| 0 <= i < |a| && a[i] == c;
    assert a == a[..i] + [c] + a[i + 1..];
    assert c !in a[..i] && c !in a[i + 1..];
  }

  lemma PermutedProper(a: seq<CoreInfo>, b: seq<CoreInfo>)
    requires Permuted(a, b) && ProperIds(a)
    ensures ProperIds(b)
  {
    PermutedMembers(a, b);
    forall i, j | 0 <= i < j < |b| ensures b[i].logicalId != b[j].logicalId {
      assert b[i] in a && b[j] in a;
      if b[i] == b[j] {
        TwiceInMultiset(b, i, j);
        OnceInMultiset(a, b[i]);
      }
    }
  }

  lemma FindCorePermuted(a: seq<CoreInfo>, b: seq<CoreInfo>, lid: U32)
    requires Permuted(a, b) && ProperIds(a)
    ensures FindCore(a, lid) == FindCore(b, lid)
  {
    PermutedMembers(a, b);
    FindCoreMeaning(a, lid);
    FindCoreMeaning(b, lid);
    var f, g := FindCore(a, lid), FindCore(b, lid);
    if f.Some? && g.Some? {
      SameId(a, f.value, g.value);
    }
  }

  lemma MaxPermuted(a: seq<CoreInfo>, b: seq<CoreInfo>)
    requires Permuted(a, b)
    ensures MaxLogicalId(a) == MaxLogicalId(b)
  {
    PermutedMembers(a, b);
    MaxMeaning(a);
    MaxMeaning(b);
  }

  lemma PullOut(a: seq<CoreInfo>, i: nat)
    requires i < |a|
    ensures multiset(a[..i] + a[i + 1..]) == multiset(a) - multiset{a[i]}
  {
    assert a == a[..i] + [a[i]] + a[i + 1..];
  }

  /** What is left when the first core of one listing is taken out of both. */
  lemma PullOutBoth(a: seq<CoreInfo>, b: seq<CoreInfo>) returns (i: nat)
    requires Permuted(a, b) && a != []
    ensures i < |b| && b[i] == a[0] && Permuted(a[1..], b[..i] + b[i + 1..])
  {
    assert a[0] in multiset(b);
    i :| 0 <= i < |b| && b[i] == a[0];
    PullOut(b, i);
    assert a == [a[0]] + a[1..];
    assert multiset(a[1..]) == multiset(a) - multiset{a[0]};
  }

  lemma {:induction false} FreqPermuted(a: seq<CoreInfo>, b: seq<CoreInfo>, ccd: U32)
    requires Permuted(a, b)
    ensures FreqSum(a, ccd) == FreqSum(b, ccd) && FreqCount(a, ccd) == FreqCount(b, ccd)
  {
    if a == [] {
      assert |multiset(b)| == |b|;
    } else {
      var i := PullOutBoth(a, b);
      FreqPermuted(a[1..], b[..i] + b[i + 1..], ccd);
      FreqRemove(b, i, ccd);
    }
  }

  predicate SameButCores(r: Request, q: Request) {
    q == r.(topology := r.topology.(cores := q.topology.cores)) && Permuted(r.topology.cores, q.topology.cores)
  }

  lemma PermutedNonempty(r: Request, q: Request)
    requires SameButCores(r, q) && r.topology.cores != []
    ensures q.topology.cores != []
  {
    PermutedMembers(r.topology.cores, q.topology.cores);
    assert r.topology.cores[0] in q.topology.cores;
  }

  // ---- A choice under a given filter -------------------------------------

  lemma {:induction false} AntiAffinityPermuted(x: Context, y: Context, core: CoreInfo, against: seq<U32>)
    requires Permuted(x.cores, y.cores) && ProperIds(x.cores) && y == x.(cores := y.cores)
    ensures AntiAffinity(x, core, against) == AntiAffinity(y, core, against)
  {
    if against != [] {
      CoreOfNodePermuted(x, y, against[|against| - 1]);
      AntiAffinityPermuted(x, y, core, against[..|against| - 1]);
    }
  }

  lemma CoreOfNodePermuted(x: Context, y: Context, node: U32)
    requires Permuted(x.cores, y.cores) && ProperIds(x.cores) && y == x.(cores := y.cores)
    ensures CoreOfNode(x, node) == CoreOfNode(y, node)
  {
    var a := FindNode(x.partial, node);
    if a.Some? {
      FindCorePermuted(x.cores, y.cores, a.value.coreId);
    }
  }

  lemma ScorePermuted(x: Context, y: Context, core: CoreInfo)
    requires Permuted(x.cores, y.cores) && ProperIds(x.cores) && y == x.(cores := y.cores)
    ensures Score(x, core) == Score(y, core)
  {
    CoreOfNodePermuted(x, y, x.hint.coLocateWith);
    AntiAffinityPermuted(x, y, core, x.hint.antiAffinityWith);
  }

  /** The winner is determined by which cores there are. */
  lemma WinnerUnique(x: Context, y: Context, ccdFilter: U32, a: seq<CoreInfo>, b: seq<CoreInfo>, p: Best, q: Best)
    requires forall c :: c in a <==> c in b
    requires forall c :: c in a ==> (Candidate(x, ccdFilter, c) <==> Candidate(y, ccdFilter, c)) && Score(x, c) == Score(y, c)
    requires forall c :: c in a ==> c.logicalId != NONE
    requires Winner(x, ccdFilter, a, p) && Winner(y, ccdFilter, b, q)
    ensures p.lid == q.lid
  {
    if p.lid != NONE && q.lid != NONE {
      var c :| c in a && Candidate(x, ccdFilter, c) && p == Best(c.logicalId, Score(x, c));
      var d :| d in b && Candidate(y, ccdFilter, d) && q == Best(d.logicalId, Score(y, d));
      assert NotBetter(x, d, p) && NotBetter(y, c, q);
    }
  }

  lemma PassPermuted(x: Context, y: Context, ccdFilter: U32)
    requires Permuted(x.cores, y.cores) && ProperIds(x.cores) && y == x.(cores := y.cores)
    ensures Pass(x, ccdFilter, x.cores).lid == Pass(y, ccdFilter, y.cores).lid
  {
    PermutedMembers(x.cores, y.cores);
    PermutedProper(x.cores, y.cores);
    PassWins(x, ccdFilter, x.cores);
    PassWins(y, ccdFilter, y.cores);
    forall c | c in x.cores ensures Score(x, c) == Score(y, c) {
      ScorePermuted(x, y, c);
    }
    WinnerUnique(x, y, ccdFilter, x.cores, y.cores, Pass(x, ccdFilter, x.cores), Pass(y, ccdFilter, y.cores));
  }

  lemma ChoosePermuted(x: Context, y: Context, ccdFilter: U32)
    requires Permuted(x.cores, y.cores) && ProperIds(x.cores) && y == x.(cores := y.cores)
    requires x.cores != [] && y.cores != []
    requires exists c :: c in x.cores && IsEligible(c, x.budget, x.usage)
    ensures Choose(x, ccdFilter) == Choose(y, ccdFilter)
  {
    PassPermuted(x, y, ccdFilter);
    PassPermuted(x, y, NONE);
    PassWins(x, NONE, x.cores);
    var c :| c in x.cores && IsEligible(c, x.budget, x.usage);
    assert Candidate(x, NONE, c);
  }

  // ---- The filters of a node ---------------------------------------------

  ghost predicate HasVCacheCore(cores: seq<CoreInfo>, ccd: U32) {
    exists c :: c in cores && c.hasVCache && c.ccdId == ccd
  }

  /** The CCDs a preference fits: those with a V-Cache core, or those with the highest average
      frequency. NONE when there are none. */
  ghost predicate MayFilter(cores: seq<CoreInfo>, pref: CcdPreference, u: U32) {
    match pref
    case NoPreference => u == NONE
    case PreferVCache => if exists c :: c in cores && c.hasVCache then HasVCacheCore(cores, u) else u == NONE
    case PreferFreq => if TwoCcds(cores) then AtTop(cores, u) else u == NONE
  }

  lemma {:induction false} VCacheMeaning(cores: seq<CoreInfo>)
    ensures (exists c :: c in cores && c.hasVCache) ==>
              exists c :: c in cores && c.hasVCache && VCacheCcd(cores) == c.ccdId
    ensures !(exists c :: c in cores && c.hasVCache) ==> VCacheCcd(cores) == NONE
  {
    if cores != [] {
      assert cores[0] in cores;
      VCacheMeaning(cores[1..]);
      if exists c :: c in cores && c.hasVCache && c != cores[0] {
        var c :| c in cores && c.hasVCache && c != cores[0];
        assert c in cores[1..];
      }
    }
  }

  lemma AveragesPermuted(a: seq<CoreInfo>, b: seq<CoreInfo>)
    requires Permuted(a, b)
    ensures TwoCcds(a) <==> TwoCcds(b)
    ensures forall u: U32 :: AtTop(a, u) <==> AtTop(b, u)
  {
    forall ccd: U32 ensures FreqSum(a, ccd) == FreqSum(b, ccd) && FreqCount(a, ccd) == FreqCount(b, ccd) {
      FreqPermuted(a, b, ccd);
    }
  }

  /** In whatever order, the filter of a node is one of the CCDs its preference fits. */
  lemma FilterFits(r: Request, q: Request, i: nat)
    requires SameButCores(r, q)
    ensures MayFilter(r.topology.cores, HintAt(r.hints, i).ccdPreference, FilterAt(q, i))
  {
    var a, b := r.topology.cores, q.topology.cores;
    PermutedMembers(a, b);
    VCacheMeaning(b);
    AveragesPermuted(a, b);
    FreqCcdMeaning(b);
  }

  /** The k-th core listed first. */
  function Fronted(cores: seq<CoreInfo>, k: nat): seq<CoreInfo>
    requires k < |cores|
  {
    [cores[k]] + cores[..k] + cores[k + 1..]
  }

  lemma FrontedPermuted(cores: seq<CoreInfo>, k: nat)
    requires k < |cores|
    ensures Permuted(cores, Fronted(cores, k))
  {
    assert cores == cores[..k] + [cores[k]] + cores[k + 1..];
  }

  lemma {:induction false} CountedCore(cores: seq<CoreInfo>, ccd: U32) returns (k: nat)
    requires FreqCount(cores, ccd) > 0
    ensures k < |cores| && cores[k].ccdId == ccd && cores[k].maxFreqMhz != 0
  {
    if cores[0].ccdId == ccd && cores[0].maxFreqMhz != 0 {
      k := 0;
    } else {
      var j := CountedCore(cores[1..], ccd);
      k := j + 1;
    }
  }

  function WithFirst(r: Request, k: nat): Request
    requires k < |r.topology.cores|
  {
    r.(topology := r.topology.(cores := Fronted(r.topology.cores, k)))
  }

  /** Each CCD the preference fits is the filter in some order: list one of its cores first. */
  lemma FilterReached(r: Request, i: nat, u: U32) returns (q: Request)
    requires r.topology.cores != [] && MayFilter(r.topology.cores, HintAt(r.hints, i).ccdPreference, u)
    ensures SameButCores(r, q) && FilterAt(q, i) == u
  {
    var cores, pref := r.topology.cores, HintAt(r.hints, i).ccdPreference;
    if pref == PreferVCache && exists c :: c in cores && c.hasVCache {
      var c :| c in cores && c.hasVCache && c.ccdId == u;
      var k: nat :| k < |cores| && cores[k] == c;
      q := WithFirst(r, k);
      FrontedPermuted(cores, k);
    } else if pref == PreferFreq && TwoCcds(cores) {
      var k := CountedCore(cores, u);
      q := WithFirst(r, k);
      FrontedPermuted(cores, k);
      AveragesPermuted(cores, q.topology.cores);
      FreqCcdMeaning(q.topology.cores);
    } else {
      q := r;
      FilterFits(r, r, i);
    }
  }

  // ---- Nodes that every order places alike -------------------------------

  ghost predicate HasEligible(r: Request, p: Progress, i: nat) {
    exists c :: c in r.topology.cores && IsEligible(c, EffectiveBudget(HintAt(r.hints, i), r.budget), p.usage)
  }

  /** The guard of the last resort fails for node i: it is external, or somewhere there is an eligible core. */
  ghost predicate NotLast(r: Request, i: nat)
    requires r.topology.cores != []
  {
    HintAt(r.hints, i).role != UiMain ==> HasEligible(r, PlaceNodes(r, i), i)
  }

  /** The CCDs that the preference of node i fits lead it to the same core. */
  ghost predicate SameChoice(r: Request, i: nat)
    requires r.topology.cores != []
  {
    var cores, pref, x := r.topology.cores, HintAt(r.hints, i).ccdPreference, ContextAt(r, PlaceNodes(r, i), i);
    forall u: U32, w: U32 :: MayFilter(cores, pref, u) && MayFilter(cores, pref, w) ==> Choose(x, u) == Choose(x, w)
  }

  ghost predicate Settled(r: Request, i: nat)
    requires r.topology.cores != []
  {
    HintAt(r.hints, i).role != UiMain ==> NotLast(r, i) && SameChoice(r, i)
  }

  ghost predicate AllSettled(r: Request, n: nat)
    requires r.topology.cores != []
  {
    forall i :: 0 <= i < n ==> Settled(r, i)
  }

  /** After the same nodes, a node with an eligible core is placed as if r had the filter of q. */
  lemma ChoiceInOrder(r: Request, q: Request, i: nat)
    requires SameButCores(r, q) && r.topology.cores != [] && q.topology.cores != [] && ProperIds(r.topology.cores)
    requires PlaceNodes(r, i) == PlaceNodes(q, i) && HasEligible(r, PlaceNodes(r, i), i)
    ensures Choose(ContextAt(q, PlaceNodes(q, i), i), FilterAt(q, i)) == Choose(ContextAt(r, PlaceNodes(r, i), i), FilterAt(q, i))
  {
    ChoosePermuted(ContextAt(r, PlaceNodes(r, i), i), ContextAt(q, PlaceNodes(q, i), i), FilterAt(q, i));
  }

  lemma SettledChoice(r: Request, q: Request, i: nat)
    requires SameButCores(r, q) && r.topology.cores != [] && q.topology.cores != [] && ProperIds(r.topology.cores)
    requires PlaceNodes(r, i) == PlaceNodes(q, i) && Settled(r, i) && HintAt(r.hints, i).role != UiMain
    ensures Choose(ContextAt(q, PlaceNodes(q, i), i), FilterAt(q, i)) == Choose(ContextAt(r, PlaceNodes(r, i), i), FilterAt(r, i))
  {
    FilterFits(r, r, i);
    FilterFits(r, q, i);
    ChoiceInOrder(r, q, i);
  }

  lemma PlaceAlike(r: Request, q: Request, p: Progress, i: nat)
    requires SameButCores(r, q) && r.topology.cores != [] && q.topology.cores != [] && ProperIds(r.topology.cores)
    requires HintAt(r.hints, i).role != UiMain ==>
               Choose(ContextAt(q, p, i), FilterAt(q, i)) == Choose(ContextAt(r, p, i), FilterAt(r, i))
    ensures PlaceNode(r, p, i) == PlaceNode(q, p, i)
  {
    if HintAt(r.hints, i).role != UiMain {
      FindCorePermuted(r.topology.cores, q.topology.cores, Choose(ContextAt(r, p, i), FilterAt(r, i)));
    }
  }

  lemma PlaceSettled(r: Request, q: Request, i: nat)
    requires SameButCores(r, q) && r.topology.cores != [] && q.topology.cores != [] && ProperIds(r.topology.cores)
    requires PlaceNodes(r, i) == PlaceNodes(q, i) && Settled(r, i)
    ensures PlaceNode(r, PlaceNodes(r, i), i) == PlaceNode(q, PlaceNodes(q, i), i)
  {
    if HintAt(r.hints, i).role != UiMain {
      SettledChoice(r, q, i);
    }
    PlaceAlike(r, q, PlaceNodes(r, i), i);
  }

  lemma NothingPlaced(r: Request, q: Request)
    requires SameButCores(r, q) && r.topology.cores != [] && q.topology.cores != []
    ensures PlaceNodes(r, 0) == PlaceNodes(q, 0)
  {
    MaxPermuted(r.topology.cores, q.topology.cores);
  }

  lemma {:induction false} PlaceNodesPermuted(r: Request, q: Request, k: nat)
    requires SameButCores(r, q) && r.topology.cores != [] && q.topology.cores != [] && ProperIds(r.topology.cores)
    requires AllSettled(r, k)
    ensures PlaceNodes(r, k) == PlaceNodes(q, k)
  {
    hide PlaceNode;
    if k == 0 {
      NothingPlaced(r, q);
    } else {
      PlaceNodesPermuted(r, q, k - 1);
      assert Settled(r, k - 1);
      PlaceSettled(r, q, k - 1);
    }
  }

  /** The preference of a node fits one CCD at most, or none is asked for. */
  ghost predicate OneFilter(r: Request, i: nat) {
    var cores, pref := r.topology.cores, HintAt(r.hints, i).ccdPreference;
    forall u: U32, w: U32 :: MayFilter(cores, pref, u) && MayFilter(cores, pref, w) ==> u == w
  }

  /** Same inputs, same plan, in whatever order the cores are listed - if each placed node that asks
      for a CCD asks for one that is unique, and one core passes the static budget. */
  lemma OrderDoesNotMatter(r: Request, q: Request, n: nat)
    requires SameButCores(r, q) && ProperIds(r.topology.cores) && Placeable(r)
    requires forall i :: 0 <= i < n && HintAt(r.hints, i).role != UiMain ==> OneFilter(r, i)
    ensures ComputePlan(r, n) == ComputePlan(q, n)
  {
    PermutedNonempty(r, q);
    forall i | 0 <= i < n ensures Settled(r, i) {
      if HintAt(r.hints, i).role != UiMain {
        PlaceNodesKeeps(r, i);
        SomeEligible(r, PlaceNodes(r, i), i, HintAt(r.hints, i));
        assert OneFilter(r, i);
      }
    }
    PlaceNodesPermuted(r, q, n);
  }

  // ---- Where the order does matter ---------------------------------------

  lemma LastResortTaken(x: Context, ccdFilter: U32)
    requires x.cores != [] && ProperIds(x.cores)
    requires !exists c :: c in x.cores && IsEligible(c, x.budget, x.usage)
    ensures Choose(x, ccdFilter) == x.cores[0].logicalId
  {
    PassWins(x, ccdFilter, x.cores);
    PassWins(x, NONE, x.cores);
  }

  /** A node without an eligible core gets the first listed one, whatever its budget says. */
  lemma LastTakesFirst(r: Request, i: nat, n: nat)
    requires r.topology.cores != [] && ProperIds(r.topology.cores) && i < n && !NotLast(r, i)
    ensures |PlaceNodes(r, n).assignments| == n
    ensures PlaceNodes(r, n).assignments[i].coreId == r.topology.cores[0].logicalId
  {
    LastResortTaken(ContextAt(r, PlaceNodes(r, i), i), FilterAt(r, i));
    PlacedAt(r, i, n);
  }

  /** Another core first, another last resort. */
  lemma LastResortFollowsOrder(r: Request, i: nat, n: nat) returns (q: Request)
    requires |r.topology.cores| > 1 && ProperIds(r.topology.cores) && i < n
    requires AllSettled(r, i) && !NotLast(r, i)
    ensures SameButCores(r, q) && ComputePlan(q, n) != ComputePlan(r, n)
  {
    q := WithFirst(r, 1);
    FrontedPermuted(r.topology.cores, 1);
    PlaceNodesPermuted(r, q, i);
    PermutedProper(r.topology.cores, q.topology.cores);
    PermutedMembers(r.topology.cores, q.topology.cores);
    LastTakesFirst(r, i, n);
    LastTakesFirst(q, i, n);
  }

  /** Two CCDs that fit, and that lead node i to different cores: listing a core of the one first, or of
      the other, gives different plans. */
  lemma TieFollowsOrder(r: Request, i: nat, n: nat) returns (q: Request)
    requires r.topology.cores != [] && ProperIds(r.topology.cores) && i < n && AllSettled(r, i)
    requires HintAt(r.hints, i).role != UiMain && NotLast(r, i) && !SameChoice(r, i)
    ensures SameButCores(r, q) && ComputePlan(q, n) != ComputePlan(r, n)
  {
    var cores, pref, x := r.topology.cores, HintAt(r.hints, i).ccdPreference, ContextAt(r, PlaceNodes(r, i), i);
    var u: U32, w: U32 :| MayFilter(cores, pref, u) && MayFilter(cores, pref, w) && Choose(x, u) != Choose(x, w);
    q := FilterReached(r, i, if Choose(x, u) != Choose(x, FilterAt(r, i)) then u else w);
    PermutedNonempty(r, q);
    PlaceNodesPermuted(r, q, i);
    ChoiceInOrder(r, q, i);
    PlacedAt(r, i, n);
    PlacedAt(q, i, n);
  }

  lemma {:induction false} FirstUnsettled(r: Request, n: nat) returns (i: nat)
    requires r.topology.cores != [] && !AllSettled(r, n)
    ensures i < n && AllSettled(r, i) && !Settled(r, i)
  {
    i := n - 1;
    if !AllSettled(r, i) {
      i := FirstUnsettled(r, i);
    }
  }

  lemma OneCoreOneOrder(a: seq<CoreInfo>, b: seq<CoreInfo>)
    requires Permuted(a, b) && |a| == 1
    ensures a == b
  {
    assert |multiset(a)| == |multiset(b)|;
    assert b[0] in multiset(a);
  }

  /** The plan is the same in every order of the cores exactly when there is one core, or every placed
      node has an eligible core and the same choice under each CCD its preference fits. */
  lemma OrderMattersIff(r: Request, n: nat)
    requires r.topology.cores != [] && ProperIds(r.topology.cores)
    ensures (forall q :: SameButCores(r, q) ==> ComputePlan(q, n) == ComputePlan(r, n))
       <==> |r.topology.cores| == 1 || AllSettled(r, n)
  {
    if |r.topology.cores| == 1 {
      forall q | SameButCores(r, q) ensures ComputePlan(q, n) == ComputePlan(r, n) {
        OneCoreOneOrder(r.topology.cores, q.topology.cores);
      }
    } else if AllSettled(r, n) {
      forall q | SameButCores(r, q) ensures ComputePlan(q, n) == ComputePlan(r, n) {
        PermutedNonempty(r, q);
        PlaceNodesPermuted(r, q, n);
      }
    } else {
      var i := FirstUnsettled(r, n);
      var q;
      if NotLast(r, i) {
        q := TieFollowsOrder(r, i, n);
      } else {
        q := LastResortFollowsOrder(r, i, n);
      }
    }
  }

  // ---- When two CCDs lead to the same core -------------------------------

  ghost predicate HasCandidate(x: Context, ccd: U32) {
    exists d :: d in x.cores && Candidate(x, ccd, d)
  }

  ghost predicate OnCcd(x: Context, lid: U32, ccd: U32) {
    exists c :: CoreAt(x.cores, lid, c) && c.ccdId == ccd
  }

  /** A CCD without a candidate leads to the best core of all, one with candidates to a core of its own. */
  lemma ChoiceUnder(x: Context, u: U32)
    requires x.cores != [] && ProperIds(x.cores) && HasCandidate(x, NONE) && u != NONE
    ensures HasCandidate(x, u) ==> OnCcd(x, Choose(x, u), u)
    ensures !HasCandidate(x, u) ==> Choose(x, u) == Choose(x, NONE)
    ensures HasCandidate(x, u) && OnCcd(x, Choose(x, NONE), u) ==> Choose(x, u) == Choose(x, NONE)
  {
    PassWins(x, u, x.cores);
    PassWins(x, NONE, x.cores);
    var own, all := Pass(x, u, x.cores), Pass(x, NONE, x.cores);
    if HasCandidate(x, u) {
      var c :| c in x.cores && Candidate(x, u, c) && own == Best(c.logicalId, Score(x, c));
      assert CoreAt(x.cores, own.lid, c);
      if OnCcd(x, all.lid, u) {
        var d :| d in x.cores && Candidate(x, NONE, d) && all == Best(d.logicalId, Score(x, d));
        var e :| CoreAt(x.cores, all.lid, e) && e.ccdId == u;
        SameId(x.cores, d, e);
        assert NotBetter(x, d, own) && NotBetter(x, c, all);
      }
    }
  }

  lemma OnOneCcd(x: Context, lid: U32, u: U32, w: U32)
    requires ProperIds(x.cores) && OnCcd(x, lid, u) && OnCcd(x, lid, w)
    ensures u == w
  {
    var c :| CoreAt(x.cores, lid, c) && c.ccdId == u;
    var d :| CoreAt(x.cores, lid, d) && d.ccdId == w;
    SameId(x.cores, c, d);
  }

  /** Two different CCDs give a node the same core exactly when at most one of them has a candidate,
      and that one, if any, holds the best core of all. */
  lemma SameChoiceIff(x: Context, u: U32, w: U32)
    requires x.cores != [] && ProperIds(x.cores) && HasCandidate(x, NONE) && u != w && u != NONE && w != NONE
    ensures Choose(x, u) == Choose(x, w)
       <==> && !(HasCandidate(x, u) && HasCandidate(x, w))
            && (HasCandidate(x, u) ==> OnCcd(x, Choose(x, NONE), u))
            && (HasCandidate(x, w) ==> OnCcd(x, Choose(x, NONE), w))
  {
    ChoiceUnder(x, u);
    ChoiceUnder(x, w);
    if HasCandidate(x, u) && HasCandidate(x, w) && Choose(x, u) == Choose(x, w) {
      OnOneCcd(x, Choose(x, u), u, w);
    }
  }

  // ---- Both happen -------------------------------------------------------

  /** Two cores, and one node that prefers a CCD. */
  function OneNode(a: CoreInfo, b: CoreInfo, pref: CcdPreference, budget: ResourceBudget): Request {
    Request(Topology([a, b], []), [DEFAULT_HINT.(ccdPreference := pref)], budget, Pinned)
  }

  /** Under a budget that excludes both cores, the node sits on the first one all the same, and the plan
      follows the order. */
  lemma LastResortBreaksBudget(a: CoreInfo, b: CoreInfo, pref: CcdPreference, budget: ResourceBudget)
    requires a.logicalId != NONE && b.logicalId != NONE && a.logicalId != b.logicalId
    requires !WithinBudget(a, budget) && !WithinBudget(b, budget)
    ensures ComputePlan(OneNode(a, b, pref, budget), 1).isComplete
    ensures ComputePlan(OneNode(a, b, pref, budget), 1).assignments[0].coreId == a.logicalId
    ensures ComputePlan(OneNode(b, a, pref, budget), 1).assignments[0].coreId == b.logicalId
  {
    var r, q := OneNode(a, b, pref, budget), OneNode(b, a, pref, budget);
    assert !NotLast(r, 0) && !NotLast(q, 0);
    LastTakesFirst(r, 0, 1);
    LastTakesFirst(q, 0, 1);
  }

  /** Two CCDs with one core each tie - for the highest average, or because both have V-Cache: a node
      that prefers such a CCD lands on the one whose core is listed first. */
  lemma TieGoesToFirst(a: CoreInfo, b: CoreInfo, pref: CcdPreference, budget: ResourceBudget)
    requires a.logicalId != NONE && b.logicalId != NONE && a.logicalId != b.logicalId
    requires a.ccdId != b.ccdId && a.ccdId != NONE && b.ccdId != NONE
    requires a.smtSibling == NONE && b.smtSibling == NONE && WithinBudget(a, budget)
    requires (pref == PreferFreq && a.maxFreqMhz == b.maxFreqMhz > 0) || (pref == PreferVCache && a.hasVCache)
    ensures ComputePlan(OneNode(a, b, pref, budget), 1).assignments[0].coreId == a.logicalId
  {
    var r := OneNode(a, b, pref, budget);
    if pref == PreferFreq {
      TopOfTwo(a, b);
      FreqCcdMeaning([a, b]);
    }
    assert FilterAt(r, 0) == a.ccdId;
    var x := ContextAt(r, PlaceNodes(r, 0), 0);
    assert a in x.cores && Candidate(x, NONE, a) && Candidate(x, a.ccdId, a);
    ChoiceUnder(x, a.ccdId);
    PlacedAt(r, 0, 1);
  }

  lemma FreqOfTwo(a: CoreInfo, b: CoreInfo, ccd: U32)
    ensures FreqSum([a, b], ccd) == FreqSum([a], ccd) + FreqSum([b], ccd)
    ensures FreqCount([a, b], ccd) == FreqCount([a], ccd) + FreqCount([b], ccd)
  {
    assert [a] + [b] == [a, b] && [b][1..] == [];
    FreqAppend([a], b, ccd);
  }

  lemma TopOfTwo(a: CoreInfo, b: CoreInfo)
    requires a.ccdId != b.ccdId && a.maxFreqMhz == b.maxFreqMhz > 0
    ensures TwoCcds([a, b]) && AtTop([a, b], a.ccdId)
  {
    forall ccd: U32
      ensures FreqCount([a, b], ccd) == (if ccd == a.ccdId || ccd == b.ccdId then 1 else 0)
      ensures FreqSum([a, b], ccd) == (if ccd == a.ccdId || ccd == b.ccdId then a.maxFreqMhz else 0)
    {
      FreqOfTwo(a, b, ccd);
    }
    assert FreqCount([a, b], a.ccdId) > 0 && FreqCount([a, b], b.ccdId) > 0;
  }
}
