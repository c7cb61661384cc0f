/** Which core a node gets, said of the cores and of the nodes placed before it: the laws that fix the
    weights of the criteria. */
module SchedulerChoices {
  import opened Common
  import opened Scheduler
  import opened SchedulerLaws

  // ---- Where the earlier nodes sit ---------------------------------------

  predicate SitsOn(plan: seq<NodeAssignment>, j: nat, lid: U32) {
    j < |plan| && plan[j].coreId == lid && lid != NONE
  }

  predicate UsedBy(plan: seq<NodeAssignment>, lid: U32) {
    exists j: nat :: j < |plan| && SitsOn(plan, j, lid)
  }

  /** Node j sits on a core of that CCX. */
  predicate OnCcx(cores: seq<CoreInfo>, plan: seq<NodeAssignment>, j: nat, ccx: U32) {
    exists e <- cores :: SitsOn(plan, j, e.logicalId) && e.ccxId == ccx
  }

  /** Node j sits on a core of that CCX and that CCD. */
  predicate Beside(cores: seq<CoreInfo>, plan: seq<NodeAssignment>, j: nat, core: CoreInfo) {
    exists e <- cores :: SitsOn(plan, j, e.logicalId) && e.ccxId == core.ccxId && e.ccdId == core.ccdId
  }

  /** How many of the nodes to keep away from sit on that CCX. */
  function Conflicts(cores: seq<CoreInfo>, plan: seq<NodeAssignment>, against: seq<U32>, ccx: U32): nat {
    if against == [] then 0
    else Conflicts(cores, plan, against[..|against| - 1], ccx) + (if OnCcx(cores, plan, against[|against| - 1], ccx) then 1 else 0)
  }

  // ---- The criteria ------------------------------------------------------

  /** What speaks for and against a core, as far as the node asks for it. */
  datatype Traits = Traits(vcache: bool, numa: bool, gpu: bool, mate: bool, conflicts: nat, used: bool)

  function TraitsOf(r: Request, plan: seq<NodeAssignment>, h: PlacementHint, core: CoreInfo): Traits {
    var cores := r.topology.cores;
    Traits((h.preferVCache || h.role == Compute) && core.hasVCache,
           h.preferNuma != NONE && h.preferNuma == core.numaNode,
           (h.prefersPcieGpu || h.role == Render) && core.numaNode != NONE &&
             exists d <- r.topology.pcie :: d.pciClass == 0x0300 && d.numaNode == core.numaNode,
           Beside(cores, plan, h.coLocateWith, core),
           Conflicts(cores, plan, h.antiAffinityWith, core.ccxId),
           (h.preferIsolatedCore || h.role == Compute) && UsedBy(plan, core.logicalId))
  }

  /** What the budget and the siblings allow; IO nodes may have efficiency cores anyway. */
  predicate Allowed(r: Request, plan: seq<NodeAssignment>, h: PlacementHint, core: CoreInfo) {
    && (r.budget.allowEfficiencyCores || h.role == Io || !core.isEfficiencyCore)
    && (r.budget.maxCores == NONE || core.logicalId < r.budget.maxCores)
    && (r.budget.maxNumaNodes == NONE || core.numaNode == NONE || core.numaNode < r.budget.maxNumaNodes)
    && (r.budget.allowHtSiblings || core.smtSibling == NONE || !UsedBy(plan, core.smtSibling))
  }

  function Weight(t: Traits): int {
    (if t.vcache then 100 else 0) + (if t.mate then 60 else 0) + (if t.numa then 50 else 0) + (if t.gpu then 30 else 0)
    - 80 * t.conflicts - (if t.used then 60 else 0)
  }

  // ---- The score is that weight ------------------------------------------

  /** The nodes in a partial plan are in their places, on listed cores; the usage is of those cores. */
  ghost predicate Tallied(r: Request, p: Progress) {
    && |p.usage| == MaxLogicalId(r.topology.cores) + 1
    && (forall j :: 0 <= j < |p.assignments| ==> p.assignments[j].nodeId == j)
    && (forall j :: 0 <= j < |p.assignments| ==> p.assignments[j].coreId == NONE || p.assignments[j].coreId < |p.usage|)
    && (forall lid: U32 :: lid < |p.usage| ==> (p.usage[lid] > 0 <==> UsedBy(p.assignments, lid)))
  }

  lemma ChosenInRange(x: Context, ccdFilter: U32)
    requires x.cores != [] && ProperIds(x.cores)
    ensures exists c :: CoreAt(x.cores, Choose(x, ccdFilter), c)
  {
    PassWins(x, ccdFilter, x.cores);
    PassWins(x, NONE, x.cores);
    var first, second := Pass(x, ccdFilter, x.cores), Pass(x, NONE, x.cores);
    if first.lid != NONE {
      var c :| c in x.cores && first == Best(c.logicalId, Score(x, c));
      assert CoreAt(x.cores, Choose(x, ccdFilter), c);
    } else if second.lid != NONE {
      var c :| c in x.cores && second == Best(c.logicalId, Score(x, c));
      assert CoreAt(x.cores, second.lid, c);
      assert CoreAt(x.cores, x.cores[0].logicalId, x.cores[0]);
    } else {
      assert CoreAt(x.cores, Choose(x, ccdFilter), x.cores[0]);
    }
  }

  lemma UsedByOneMore(plan: seq<NodeAssignment>, a: NodeAssignment, lid: U32)
    ensures UsedBy(plan + [a], lid) <==> UsedBy(plan, lid) || (a.coreId == lid && lid != NONE)
  {
    if UsedBy(plan, lid) {
      var j: nat :| j < |plan| && SitsOn(plan, j, lid);
      assert SitsOn(plan + [a], j, lid);
    }
    if a.coreId == lid && lid != NONE {
      assert SitsOn(plan + [a], |plan|, lid);
    }
    if UsedBy(plan + [a], lid) {
      var j: nat :| j < |plan + [a]| && SitsOn(plan + [a], j, lid);
      assert j < |plan| ==> SitsOn(plan, j, lid);
    }
  }

  lemma PlaceTallied(r: Request, p: Progress, i: nat)
    requires r.topology.cores != [] && ProperIds(r.topology.cores) && Tallied(r, p) && |p.assignments| == i
    ensures Tallied(r, PlaceNode(r, p, i)) && |PlaceNode(r, p, i).assignments| == i + 1
  {
    hide Choose, UsedBy;
    var q := PlaceNode(r, p, i);
    var a := q.assignments[i];
    if HintAt(r.hints, i).role != UiMain {
      ChosenInRange(ContextAt(r, p, i), FilterAt(r, i));
      var c :| CoreAt(r.topology.cores, a.coreId, c);
      IdInRange(r.topology.cores, c);
    }
    forall lid: U32 | lid < |q.usage| ensures q.usage[lid] > 0 <==> UsedBy(q.assignments, lid) {
      assert q.assignments == p.assignments + [a];
      NoneIsNoId(r.topology.cores);
      UsedByOneMore(p.assignments, a, lid);
    }
  }

  lemma NoneIsNoId(cores: seq<CoreInfo>)
    requires ProperIds(cores)
    ensures MaxLogicalId(cores) < NONE
  {
    MaxMeaning(cores);
  }

  lemma {:induction false} PlansTallied(r: Request, k: nat)
    requires r.topology.cores != [] && ProperIds(r.topology.cores)
    ensures Tallied(r, PlaceNodes(r, k)) && |PlaceNodes(r, k).assignments| == k
  {
    hide PlaceNode;
    if k == 0 {
      var p := PlaceNodes(r, 0);
      assert p.assignments == [];
    } else {
      PlansTallied(r, k - 1);
      PlaceTallied(r, PlaceNodes(r, k - 1), k - 1);
    }
  }

  lemma {:induction false} FindNodeAt(partial: seq<NodeAssignment>, node: U32, base: nat)
    requires forall j :: 0 <= j < |partial| ==> partial[j].nodeId == base + j
    ensures FindNode(partial, node) == if base <= node < base + |partial| then Some(partial[node - base]) else None
  {
    if partial != [] && partial[0].nodeId != node {
      FindNodeAt(partial[1..], node, base + 1);
    }
  }

  /** Where a node sits is where its assignment says. */
  lemma CoreOfNodeMeaning(x: Context, node: U32)
    requires ProperIds(x.cores) && forall j :: 0 <= j < |x.partial| ==> x.partial[j].nodeId == j
    requires |x.partial| <= NONE
    ensures var c := CoreOfNode(x, node);
            if c.Some? then c.value in x.cores && SitsOn(x.partial, node, c.value.logicalId)
            else forall e <- x.cores :: !SitsOn(x.partial, node, e.logicalId)
  {
    FindNodeAt(x.partial, node, 0);
    if node < |x.partial| {
      FindCoreMeaning(x.cores, x.partial[node].coreId);
    }
  }

  lemma OnCcxMeaning(x: Context, node: U32, ccx: U32)
    requires ProperIds(x.cores) && forall j :: 0 <= j < |x.partial| ==> x.partial[j].nodeId == j
    requires |x.partial| <= NONE
    ensures OnCcx(x.cores, x.partial, node, ccx) <==> CoreOfNode(x, node).Some? && CoreOfNode(x, node).value.ccxId == ccx
  {
    CoreOfNodeMeaning(x, node);
    if OnCcx(x.cores, x.partial, node, ccx) {
      var e :| e in x.cores && SitsOn(x.partial, node, e.logicalId) && e.ccxId == ccx;
      SameId(x.cores, e, CoreOfNode(x, node).value);
    }
  }

  lemma {:induction false} AntiAffinityMeaning(x: Context, core: CoreInfo, against: seq<U32>)
    requires ProperIds(x.cores) && forall j :: 0 <= j < |x.partial| ==> x.partial[j].nodeId == j
    requires |x.partial| <= NONE
    ensures AntiAffinity(x, core, against) == -80 * Conflicts(x.cores, x.partial, against, core.ccxId)
  {
    hide OnCcx, CoreOfNode;
    if against != [] {
      AntiAffinityMeaning(x, core, against[..|against| - 1]);
      OnCcxMeaning(x, against[|against| - 1], core.ccxId);
    }
  }

  lemma BesideMeaning(x: Context, core: CoreInfo)
    requires ProperIds(x.cores) && forall j :: 0 <= j < |x.partial| ==> x.partial[j].nodeId == j
    requires |x.partial| <= NONE
    ensures var mate := CoreOfNode(x, x.hint.coLocateWith);
            Beside(x.cores, x.partial, x.hint.coLocateWith, core) <==>
              mate.Some? && mate.value.ccxId == core.ccxId && mate.value.ccdId == core.ccdId
  {
    CoreOfNodeMeaning(x, x.hint.coLocateWith);
    if Beside(x.cores, x.partial, x.hint.coLocateWith, core) {
      var e :| e in x.cores && SitsOn(x.partial, x.hint.coLocateWith, e.logicalId) && e.ccxId == core.ccxId && e.ccdId == core.ccdId;
      SameId(x.cores, e, CoreOfNode(x, x.hint.coLocateWith).value);
    }
  }

  /** Up to a constant that all cores share, the score of a core is the weight of its traits. */
  lemma ScoreMeaning(r: Request, p: Progress, i: nat, core: CoreInfo)
    requires ProperIds(r.topology.cores) && Tallied(r, p) && |p.assignments| == i <= NONE && core in r.topology.cores
    ensures Score(ContextAt(r, p, i), core)
         == Weight(TraitsOf(r, p.assignments, HintAt(r.hints, i), core)) +
            (if HintAt(r.hints, i).preferIsolatedCore || HintAt(r.hints, i).role == Compute then 20 else 0)
  {
    hide AntiAffinity, Conflicts, Beside, CoreOfNode, UsedBy, FilterAt, HintAt;
    var x := ContextAt(r, p, i);
    IdInRange(r.topology.cores, core);
    AntiAffinityMeaning(x, core, x.hint.antiAffinityWith);
    BesideMeaning(x, core);
    assert core.logicalId < |p.usage|;
    assert GpuNear(x.pcie, core.numaNode) <==> exists d <- r.topology.pcie :: d.pciClass == 0x0300 && d.numaNode == core.numaNode;
  }

  lemma AllowedMeaning(r: Request, p: Progress, h: PlacementHint, core: CoreInfo)
    requires ProperIds(r.topology.cores) && Tallied(r, p)
    ensures IsEligible(core, EffectiveBudget(h, r.budget), p.usage) <==> Allowed(r, p.assignments, h, core)
  {
    UsedInRange(r, p, core.smtSibling);
  }

  lemma UsedInRange(r: Request, p: Progress, lid: U32)
    requires Tallied(r, p)
    ensures UsedBy(p.assignments, lid) ==> lid < |p.usage|
  {
  }

  // ---- The laws of a placement -------------------------------------------

  /** The plan in front of node i, and the core node i got. */
  ghost predicate Placed(r: Request, n: nat, i: nat, before: seq<NodeAssignment>, g: CoreInfo) {
    var plan := ComputePlan(r, n).assignments;
    && i < n == |plan| && before == plan[..i] && HintAt(r.hints, i).role != UiMain
    && g in r.topology.cores && plan[i].coreId == g.logicalId
  }

  lemma BeforeIsPlan(r: Request, n: nat, i: nat)
    requires r.topology.cores != [] && i < n
    ensures |ComputePlan(r, n).assignments| == n && ComputePlan(r, n).assignments[..i] == PlaceNodes(r, i).assignments
  {
    hide PlaceNode;
    EveryNodePlaced(r, i);
    EveryNodePlaced(r, n);
    AssignmentStays(r, i, n);
  }

  /** A node that may have core c, without a CCD to prefer or with g on c's CCD: its core g is allowed, weighs no
      less than c, and of equal ones has the lower id. */
  lemma PlacedOnBest(r: Request, n: nat, i: nat, before: seq<NodeAssignment>, g: CoreInfo, c: CoreInfo)
    requires ProperIds(r.topology.cores) && i <= NONE && Placed(r, n, i, before, g)
    requires c in r.topology.cores && Allowed(r, before, HintAt(r.hints, i), c)
    requires HintAt(r.hints, i).ccdPreference == NoPreference || g.ccdId == c.ccdId
    ensures var h := HintAt(r.hints, i);
            var mine, other := Weight(TraitsOf(r, before, h, g)), Weight(TraitsOf(r, before, h, c));
            Allowed(r, before, h, g) && (mine > other || (mine == other && g.logicalId <= c.logicalId))
  {
    hide Score, IsEligible, Allowed, TraitsOf, Tallied, PlaceNode, Pass;
    var p, h := PlaceNodes(r, i), HintAt(r.hints, i);
    var x, f := ContextAt(r, p, i), FilterAt(r, i);
    BeforeIsPlan(r, n, i);
    PlansTallied(r, i);
    PlacedAt(r, i, n);
    ScoreMeaning(r, p, i, g);
    ScoreMeaning(r, p, i, c);
    AllowedMeaning(r, p, h, g);
    AllowedMeaning(r, p, h, c);
    BestOfPass(x, f, g, c);
  }

  /** In whichever pass the core was found, it was better than c. */
  lemma BestOfPass(x: Context, f: U32, g: CoreInfo, c: CoreInfo)
    requires x.cores != [] && ProperIds(x.cores) && g in x.cores && c in x.cores
    requires Choose(x, f) == g.logicalId && IsEligible(c, x.budget, x.usage) && (f == NONE || g.ccdId == c.ccdId)
    ensures IsEligible(g, x.budget, x.usage)
    ensures Score(x, g) > Score(x, c) || (Score(x, g) == Score(x, c) && g.logicalId <= c.logicalId)
  {
    hide Score, IsEligible, Pass;
    PassWins(x, f, x.cores);
    PassWins(x, NONE, x.cores);
    var first, second := Pass(x, f, x.cores), Pass(x, NONE, x.cores);
    assert Candidate(x, NONE, c);
    var best := if first.lid != NONE then first else second;
    var w :| w in x.cores && IsEligible(w, x.budget, x.usage) && best == Best(w.logicalId, Score(x, w))
          && (first.lid != NONE ==> Candidate(x, f, w));
    SameId(x.cores, w, g);
    if first.lid != NONE {
      assert Candidate(x, f, c);
    }
    assert NotBetter(x, c, best);
  }

  /** s is t with one thing better, or one thing better that outweighs one thing worse. */
  predicate Preferable(s: Traits, t: Traits) {
    || (s.conflicts < t.conflicts && s == t.(conflicts := s.conflicts))
    || (!t.vcache && s == t.(vcache := true))
    || (!t.mate && s == t.(mate := true))
    || (!t.numa && s == t.(numa := true))
    || (!t.gpu && s == t.(gpu := true))
    || (t.used && s == t.(used := false))
    // the V-Cache is worth a conflict
    || (!t.vcache && s == t.(vcache := true, conflicts := t.conflicts + 1))
    // a conflict outweighs a mate, and a used core
    || (!s.mate && t == s.(mate := true, conflicts := s.conflicts + 1))
    || (s.used && t == s.(used := false, conflicts := s.conflicts + 1))
    // a mate, or an unused core, outweighs the preferred NUMA node
    || (!s.numa && s.mate && t == s.(mate := false, numa := true))
    || (!s.numa && !s.used && t == s.(used := true, numa := true))
    // the preferred NUMA node outweighs the GPU
    || (!s.gpu && s.numa && t == s.(numa := false, gpu := true))
  }

  /** Of two allowed cores, between which no CCD preference decides, the node does not get the worse one. */
  lemma WorseCoreIsNotTaken(r: Request, n: nat, i: nat, before: seq<NodeAssignment>, c: CoreInfo, d: CoreInfo)
    requires ProperIds(r.topology.cores) && i <= NONE && c in r.topology.cores && Allowed(r, before, HintAt(r.hints, i), c)
    requires HintAt(r.hints, i).ccdPreference == NoPreference || c.ccdId == d.ccdId
    requires Preferable(TraitsOf(r, before, HintAt(r.hints, i), c), TraitsOf(r, before, HintAt(r.hints, i), d))
    ensures !Placed(r, n, i, before, d)
  {
    hide TraitsOf, Allowed, Placed;
    if Placed(r, n, i, before, d) {
      PlacedOnBest(r, n, i, before, d, c);
    }
  }

  /** A mate weighs as much as an unused core: then the lower id decides. */
  lemma MateEqualsUnused(r: Request, n: nat, i: nat, before: seq<NodeAssignment>, c: CoreInfo, d: CoreInfo)
    requires ProperIds(r.topology.cores) && i <= NONE && c in r.topology.cores && Allowed(r, before, HintAt(r.hints, i), c)
    requires HintAt(r.hints, i).ccdPreference == NoPreference || c.ccdId == d.ccdId
    requires c.logicalId < d.logicalId
    requires var s, t := TraitsOf(r, before, HintAt(r.hints, i), c), TraitsOf(r, before, HintAt(r.hints, i), d);
             s == t.(mate := true, used := true) && !t.mate && !t.used
    ensures !Placed(r, n, i, before, d)
  {
    hide TraitsOf, Allowed, Placed;
    if Placed(r, n, i, before, d) {
      PlacedOnBest(r, n, i, before, d, c);
    }
  }

  // ---- The CCD a node asks for -------------------------------------------

  /** The CCD of the first listed V-Cache core. */
  ghost predicate FirstVCacheCcd(cores: seq<CoreInfo>, ccd: U32) {
    exists k: nat :: k < |cores| && cores[k].hasVCache && cores[k].ccdId == ccd && forall j :: 0 <= j < k ==> !cores[j].hasVCache
  }

  lemma {:induction false} FirstVCacheMeaning(cores: seq<CoreInfo>, ccd: U32)
    requires FirstVCacheCcd(cores, ccd)
    ensures VCacheCcd(cores) == ccd
  {
    var k: nat :| k < |cores| && cores[k].hasVCache && cores[k].ccdId == ccd && forall j :: 0 <= j < k ==> !cores[j].hasVCache;
    if k > 0 {
      assert cores[1..][k - 1] == cores[k];
      assert forall j :: 0 <= j < k - 1 ==> cores[1..][j] == cores[j + 1];
      FirstVCacheMeaning(cores[1..], ccd);
    }
  }

  /** u is the CCD that the preference names. */
  ghost predicate AsksFor(cores: seq<CoreInfo>, pref: CcdPreference, u: U32) {
    u != NONE &&
    match pref
    case NoPreference => false
    case PreferVCache => FirstVCacheCcd(cores, u)
    case PreferFreq => TwoCcds(cores) && AtTop(cores, u) && forall v: U32 :: AtTop(cores, v) ==> v == u
  }

  /** A node goes to the CCD it asks for, if that has an allowed core for it. */
  lemma CcdAskedFor(r: Request, n: nat, i: nat, before: seq<NodeAssignment>, g: CoreInfo, c: CoreInfo)
    requires ProperIds(r.topology.cores) && i <= NONE && Placed(r, n, i, before, g)
    requires c in r.topology.cores && Allowed(r, before, HintAt(r.hints, i), c)
    requires AsksFor(r.topology.cores, HintAt(r.hints, i).ccdPreference, c.ccdId)
    ensures g.ccdId == c.ccdId
  {
    hide Score, IsEligible, Allowed, Tallied, PlaceNode, Pass;
    var p, h, cores := PlaceNodes(r, i), HintAt(r.hints, i), r.topology.cores;
    var x := ContextAt(r, p, i);
    BeforeIsPlan(r, n, i);
    PlansTallied(r, i);
    PlacedAt(r, i, n);
    AllowedMeaning(r, p, h, c);
    if h.ccdPreference == PreferVCache {
      FirstVCacheMeaning(cores, c.ccdId);
    } else {
      FreqCcdMeaning(cores);
    }
    assert FilterAt(r, i) == c.ccdId;
    PassWins(x, c.ccdId, x.cores);
    assert Candidate(x, c.ccdId, c);
    var w :| w in x.cores && Candidate(x, c.ccdId, w) && Pass(x, c.ccdId, x.cores) == Best(w.logicalId, Score(x, w));
    SameId(cores, w, g);
  }
}
