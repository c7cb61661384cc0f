/** The greedy placement scheduler: scores, eligibility, the CCD filter with its fallback, and the
    placement of one node after the other. */
module Scheduler {
  import opened Common

  /** UINT32_MAX: "none" for ids, "any" for limits. */
  const NONE: U32 := 0xFFFF_FFFF

  datatype CoreInfo = CoreInfo(
    logicalId: U32,
    smtSibling: U32,
    ccxId: U32,
    ccdId: U32,
    numaNode: U32,
    maxFreqMhz: U32,
    hasVCache: bool,
    isEfficiencyCore: bool)

  datatype PcieDevice = PcieDevice(pciClass: U32, numaNode: U32)

  datatype ThreadRole = Generic | UiMain | Render | Logic | Compute | Io

  datatype CcdPreference = NoPreference | PreferVCache | PreferFreq

  datatype PlacementHint = PlacementHint(
    preferVCache: bool,
    preferIsolatedCore: bool,
    prefersPcieGpu: bool,
    preferRealtimePriority: bool,
    preferNuma: U32,
    coLocateWith: U32,
    antiAffinityWith: seq<U32>,
    role: ThreadRole,
    ccdPreference: CcdPreference)

  const DEFAULT_HINT := PlacementHint(false, false, false, false, NONE, NONE, [NONE, NONE, NONE, NONE], Generic, NoPreference)

  datatype ResourceBudget = ResourceBudget(maxCores: U32, maxNumaNodes: U32, allowHtSiblings: bool, allowEfficiencyCores: bool)

  datatype NodeAssignment = NodeAssignment(
    nodeId: nat,
    coreId: U32,
    numaNode: U32,
    threadPriority: nat,
    isHardPinned: bool,
    external: bool,
    irqRouting: U32)

  /** What NodeAssignment{.node_id = i} leaves at its defaults. */
  function Unassigned(i: nat, external: bool): NodeAssignment {
    NodeAssignment(i, NONE, NONE, 0, true, external, NONE)
  }

  datatype Policy = Pinned | SoftAffine | WorkStealing | StickyThenSteal

  datatype Topology = Topology(cores: seq<CoreInfo>, pcie: seq<PcieDevice>)

  datatype Plan = Plan(assignments: seq<NodeAssignment>, isComplete: bool)

  // ---- Eligibility -------------------------------------------------------

  /** The part of is_eligible that does not look at the other nodes. */
  predicate WithinBudget(core: CoreInfo, budget: ResourceBudget) {
    && (budget.allowEfficiencyCores || !core.isEfficiencyCore)
    && (budget.maxCores == NONE || core.logicalId < budget.maxCores)
    && (budget.maxNumaNodes == NONE || core.numaNode == NONE || core.numaNode < budget.maxNumaNodes)
  }

  predicate SiblingBusy(core: CoreInfo, usage: seq<nat>) {
    core.smtSibling != NONE && core.smtSibling < |usage| && usage[core.smtSibling] > 0
  }

  predicate IsEligible(core: CoreInfo, budget: ResourceBudget, usage: seq<nat>) {
    WithinBudget(core, budget) && (budget.allowHtSiblings || !SiblingBusy(core, usage))
  }

  // ---- Score -------------------------------------------------------------

  /** Everything score_core and the two passes look at for one node. */
  datatype Context = Context(
    cores: seq<CoreInfo>,
    pcie: seq<PcieDevice>,
    partial: seq<NodeAssignment>,
    usage: seq<nat>,
    hint: PlacementHint,
    budget: ResourceBudget)

  /** The first core with a logical id. */
  function FindCore(cores: seq<CoreInfo>, lid: U32): Option<CoreInfo> {
    if cores == [] then None
    else if cores[0].logicalId == lid then Some(cores[0])
    else FindCore(cores[1..], lid)
  }

  /** The first assignment of a node. */
  function FindNode(partial: seq<NodeAssignment>, node: U32): Option<NodeAssignment> {
    if partial == [] then None
    else if partial[0].nodeId == node then Some(partial[0])
    else FindNode(partial[1..], node)
  }

  /** The core another node was placed on, if it was placed on a known one. */
  function CoreOfNode(x: Context, node: U32): Option<CoreInfo> {
    var a := FindNode(x.partial, node);
    if node == NONE || a == None || a.value.coreId == NONE then None else FindCore(x.cores, a.value.coreId)
  }

  predicate GpuNear(pcie: seq<PcieDevice>, numa: U32) {
    exists d :: d in pcie && d.pciClass == 0x0300 && d.numaNode == numa
  }

  function AntiAffinity(x: Context, core: CoreInfo, against: seq<U32>): int {
    if against == [] then 0
    else
      var other := CoreOfNode(x, against[|against| - 1]);
      AntiAffinity(x, core, against[..|against| - 1]) +
      (if other.Some? && other.value.ccxId == core.ccxId then -80 else 0)
  }

  function Score(x: Context, core: CoreInfo): int {
    var mate := CoreOfNode(x, x.hint.coLocateWith);
    (if x.hint.preferVCache && core.hasVCache then 100 else 0) +
    (if x.hint.preferNuma != NONE && x.hint.preferNuma == core.numaNode then 50 else 0) +
    (if x.hint.prefersPcieGpu && core.numaNode != NONE && GpuNear(x.pcie, core.numaNode) then 30 else 0) +
    (if mate.Some? && mate.value.ccxId == core.ccxId && mate.value.ccdId == core.ccdId then 60 else 0) +
    AntiAffinity(x, core, x.hint.antiAffinityWith) +
    (if !x.hint.preferIsolatedCore then 0
     else if (if core.logicalId < |x.usage| then x.usage[core.logicalId] else 0) == 0 then 20 else -40)
  }

  // ---- One pass over the cores -------------------------------------------

  datatype Best = Best(lid: U32, score: int)

  const NO_BEST := Best(NONE, -0x8000_0000)

  predicate Candidate(x: Context, ccdFilter: U32, core: CoreInfo) {
    (ccdFilter == NONE || core.ccdId == ccdFilter) && IsEligible(core, x.budget, x.usage)
  }

  function Challenge(x: Context, ccdFilter: U32, best: Best, core: CoreInfo): Best {
    var sc := Score(x, core);
    if Candidate(x, ccdFilter, core) &&
       (best.lid == NONE || sc > best.score || (sc == best.score && core.logicalId < best.lid))
    then Best(core.logicalId, sc)
    else best
  }

  function Pass(x: Context, ccdFilter: U32, cores: seq<CoreInfo>): Best {
    if cores == [] then NO_BEST
    else Challenge(x, ccdFilter, Pass(x, ccdFilter, cores[..|cores| - 1]), cores[|cores| - 1])
  }

  /** First pass under the filter, second pass over all cores, last resort the first core. */
  function Choose(x: Context, ccdFilter: U32): U32
    requires x.cores != []
  {
    var first := Pass(x, ccdFilter, x.cores).lid;
    if first != NONE then first
    else
      var second := if ccdFilter != NONE then Pass(x, NONE, x.cores).lid else NONE;
      if second != NONE then second else x.cores[0].logicalId
  }

  // ---- CCD metadata ------------------------------------------------------

  function MaxLogicalId(cores: seq<CoreInfo>): U32 {
    if cores == [] then 0
    else
      var m, c := MaxLogicalId(cores[..|cores| - 1]), cores[|cores| - 1];
      if c.logicalId != NONE && c.logicalId > m then c.logicalId else m
  }

  function VCacheCcd(cores: seq<CoreInfo>): U32 {
    if cores == [] then NONE
    else if cores[0].hasVCache then cores[0].ccdId
    else VCacheCcd(cores[1..])
  }

  datatype CcdFreq = CcdFreq(ccdId: U32, freqSum: nat, count: nat)

  /** Add one core to the accumulator of its CCD. */
  function Accumulate(accs: seq<CcdFreq>, c: CoreInfo): seq<CcdFreq> {
    if accs == [] then [CcdFreq(c.ccdId, c.maxFreqMhz, 1)]
    else if accs[0].ccdId == c.ccdId
    then [CcdFreq(c.ccdId, accs[0].freqSum + c.maxFreqMhz, accs[0].count + 1)] + accs[1..]
    else [accs[0]] + Accumulate(accs[1..], c)
  }

  function FreqAccs(cores: seq<CoreInfo>): seq<CcdFreq> {
    if cores == [] then []
    else
      var accs, c := FreqAccs(cores[..|cores| - 1]), cores[|cores| - 1];
      if c.maxFreqMhz == 0 then accs else Accumulate(accs, c)
  }

  function Average(a: CcdFreq): nat {
    if a.count == 0 then 0 else a.freqSum / a.count
  }

  /** The last strict improvement of the average, from the left. */
  function BestFreq(accs: seq<CcdFreq>): CcdFreq {
    if accs == [] then CcdFreq(NONE, 0, 0)
    else
      var best, a := BestFreq(accs[..|accs| - 1]), accs[|accs| - 1];
      if Average(a) > Average(best) then a else best
  }

  function FreqCcd(cores: seq<CoreInfo>): U32 {
    var accs := FreqAccs(cores);
    if |accs| >= 2 then BestFreq(accs).ccdId else NONE
  }

  function ResolveCcdFilter(pref: CcdPreference, vcacheCcd: U32, freqCcd: U32): U32 {
    match pref
    case PreferVCache => vcacheCcd
    case PreferFreq => freqCcd
    case NoPreference => NONE
  }

  // ---- The greedy loop ---------------------------------------------------

  function HintAt(hints: seq<PlacementHint>, i: nat): PlacementHint {
    if i < |hints| then hints[i] else DEFAULT_HINT
  }

  /** Role-based overrides of the hint and of the budget. */
  function EffectiveHint(h: PlacementHint): PlacementHint {
    match h.role
    case Render => h.(prefersPcieGpu := true)
    case Compute => h.(preferVCache := true, preferIsolatedCore := true)
    case _ => h
  }

  function EffectiveBudget(h: PlacementHint, budget: ResourceBudget): ResourceBudget {
    if h.role == Io then budget.(allowEfficiencyCores := true) else budget
  }

  datatype Request = Request(topology: Topology, hints: seq<PlacementHint>, budget: ResourceBudget, policy: Policy)

  datatype Progress = Progress(assignments: seq<NodeAssignment>, usage: seq<nat>)

  function ContextAt(r: Request, p: Progress, i: nat): Context {
    var hint := HintAt(r.hints, i);
    Context(r.topology.cores, r.topology.pcie, p.assignments, p.usage, EffectiveHint(hint), EffectiveBudget(hint, r.budget))
  }

  function FilterAt(r: Request, i: nat): U32 {
    ResolveCcdFilter(HintAt(r.hints, i).ccdPreference, VCacheCcd(r.topology.cores), FreqCcd(r.topology.cores))
  }

  function NumaOf(cores: seq<CoreInfo>, lid: U32): U32 {
    var c := FindCore(cores, lid);
    if c.Some? then c.value.numaNode else NONE
  }

  function Assignment(r: Request, i: nat, lid: U32): NodeAssignment {
    var hint := EffectiveHint(HintAt(r.hints, i));
    var numa := NumaOf(r.topology.cores, lid);
    NodeAssignment(i, lid, numa, if hint.preferRealtimePriority || hint.preferVCache then 2 else 0,
                   r.policy == Pinned || r.policy == StickyThenSteal, false, numa)
  }

  function PlaceNode(r: Request, p: Progress, i: nat): Progress
    requires r.topology.cores != []
  {
    if HintAt(r.hints, i).role == UiMain then Progress(p.assignments + [Unassigned(i, true)], p.usage)
    else
      var lid := Choose(ContextAt(r, p, i), FilterAt(r, i));
      Progress(p.assignments + [Assignment(r, i, lid)],
               if lid < |p.usage| then p.usage[lid := p.usage[lid] + 1] else p.usage)
  }

  function PlaceNodes(r: Request, nodeCount: nat): Progress
    requires r.topology.cores != []
  {
    if nodeCount == 0 then Progress([], seq(MaxLogicalId(r.topology.cores) + 1, _ => 0))
    else PlaceNode(r, PlaceNodes(r, nodeCount - 1), nodeCount - 1)
  }

  function ComputePlan(r: Request, nodeCount: nat): Plan {
    if nodeCount == 0 then Plan([], true)
    else if r.topology.cores == [] then Plan(seq(nodeCount, i requires 0 <= i < nodeCount => Unassigned(i, false)), false)
    else Plan(PlaceNodes(r, nodeCount).assignments, true)
  }

  // ---- The code ----------------------------------------------------------

  method LookUpCore(x: Context, node: U32) returns (core: Option<CoreInfo>)
    ensures core == CoreOfNode(x, node)
  {
    if node == NONE {
      return None;
    }
    var a := FindNode(x.partial, node);
    if a == None || a.value.coreId == NONE {
      return None;
    }
    core := FindCore(x.cores, a.value.coreId);
  }

  method ScoreCore(x: Context, core: CoreInfo) returns (value: int)
    ensures value == Score(x, core)
  {
    value := 0;
    if x.hint.preferVCache && core.hasVCache {
      value := value + 100;
    }
    if x.hint.preferNuma != NONE && x.hint.preferNuma == core.numaNode {
      value := value + 50;
    }
    if x.hint.prefersPcieGpu && core.numaNode != NONE {
      var near := FindGpu(x.pcie, core.numaNode);
      if near {
        value := value + 30;
      }
    }
    var mate := LookUpCore(x, x.hint.coLocateWith);
    if mate.Some? && mate.value.ccxId == core.ccxId && mate.value.ccdId == core.ccdId {
      value := value + 60;
    }
    ghost var base := value;
    var against := x.hint.antiAffinityWith;
    for k := 0 to |against|
      invariant value == base + AntiAffinity(x, core, against[..k])
    {
      assert against[..k + 1][..k] == against[..k];
      var other := LookUpCore(x, against[k]);
      if other.Some? && other.value.ccxId == core.ccxId {
        value := value - 80;
      }
    }
    assert against[..|against|] == against;
    if x.hint.preferIsolatedCore {
      var used := if core.logicalId < |x.usage| then x.usage[core.logicalId] else 0;
      value := value + (if used == 0 then 20 else -40);
    }
  }

  method FindGpu(pcie: seq<PcieDevice>, numa: U32) returns (near: bool)
    ensures near == GpuNear(pcie, numa)
  {
    for i := 0 to |pcie|
      invariant forall j :: 0 <= j < i ==> pcie[j].pciClass != 0x0300 || pcie[j].numaNode != numa
    {
      if pcie[i].pciClass == 0x0300 && pcie[i].numaNode == numa {
        assert pcie[i] in pcie;
        return true;
      }
    }
    near := false;
  }

  method RunPass(x: Context, ccdFilter: U32) returns (best: Best)
    ensures best == Pass(x, ccdFilter, x.cores)
  {
    best := NO_BEST;
    for i := 0 to |x.cores|
      invariant best == Pass(x, ccdFilter, x.cores[..i])
    {
      var core := x.cores[i];
      assert x.cores[..i + 1][..i] == x.cores[..i];
      if (ccdFilter == NONE || core.ccdId == ccdFilter) && IsEligible(core, x.budget, x.usage) {
        var sc := ScoreCore(x, core);
        if best.lid == NONE || sc > best.score || (sc == best.score && core.logicalId < best.lid) {
          best := Best(core.logicalId, sc);
        }
      }
    }
    assert x.cores[..|x.cores|] == x.cores;
  }

  method FindFreqCcd(cores: seq<CoreInfo>) returns (freqCcd: U32)
    ensures freqCcd == FreqCcd(cores)
  {
    var accs: seq<CcdFreq> := [];
    for i := 0 to |cores|
      invariant accs == FreqAccs(cores[..i])
    {
      var c := cores[i];
      assert cores[..i + 1][..i] == cores[..i];
      if c.maxFreqMhz != 0 {
        accs := Accumulate(accs, c);
      }
    }
    assert cores[..|cores|] == cores;
    freqCcd := NONE;
    if |accs| >= 2 {
      var bestAvg := 0;
      for i := 0 to |accs|
        invariant freqCcd == BestFreq(accs[..i]).ccdId && bestAvg == Average(BestFreq(accs[..i]))
      {
        assert accs[..i + 1][..i] == accs[..i];
        var avg := Average(accs[i]);
        if avg > bestAvg {
          bestAvg, freqCcd := avg, accs[i].ccdId;
        }
      }
      assert accs[..|accs|] == accs;
    }
  }

  method FindMaxLogicalId(cores: seq<CoreInfo>) returns (maxLid: U32)
    ensures maxLid == MaxLogicalId(cores)
  {
    maxLid := 0;
    for i := 0 to |cores|
      invariant maxLid == MaxLogicalId(cores[..i])
    {
      assert cores[..i + 1][..i] == cores[..i];
      if cores[i].logicalId != NONE && cores[i].logicalId > maxLid {
        maxLid := cores[i].logicalId;
      }
    }
    assert cores[..|cores|] == cores;
  }

  method ChooseCore(x: Context, ccdFilter: U32) returns (lid: U32)
    requires x.cores != []
    ensures lid == Choose(x, ccdFilter)
  {
    var best := RunPass(x, ccdFilter);
    if best.lid == NONE && ccdFilter != NONE {
      best := RunPass(x, NONE);
    }
    lid := if best.lid == NONE then x.cores[0].logicalId else best.lid;
  }

  method ComputePlacement(topology: Topology, nodeCount: nat, hints: seq<PlacementHint>, budget: ResourceBudget,
                          policy: Policy) returns (plan: Plan)
    ensures plan == ComputePlan(Request(topology, hints, budget, policy), nodeCount)
  {
    if nodeCount == 0 {
      return Plan([], true);
    }
    if topology.cores == [] {
      return Plan(seq(nodeCount, i requires 0 <= i < nodeCount => Unassigned(i, false)), false);
    }
    hide Choose, MaxLogicalId, NumaOf;
    var r := Request(topology, hints, budget, policy);
    var maxLid := FindMaxLogicalId(topology.cores);
    var usage: seq<nat> := seq(maxLid + 1, _ => 0);
    var vcacheCcd := VCacheCcd(topology.cores);
    var freqCcd := FindFreqCcd(topology.cores);
    var assignments: seq<NodeAssignment> := [];
    for i := 0 to nodeCount
      invariant Progress(assignments, usage) == PlaceNodes(r, i)
    {
      var hint := HintAt(hints, i);
      if hint.role == UiMain {
        assignments := assignments + [Unassigned(i, true)];
      } else {
        var x := ContextAt(r, Progress(assignments, usage), i);
        var lid := ChooseCore(x, ResolveCcdFilter(hint.ccdPreference, vcacheCcd, freqCcd));
        assignments := assignments + [Assignment(r, i, lid)];
        if lid < |usage| {
          usage := usage[lid := usage[lid] + 1];
        }
      }
    }
    plan := Plan(assignments, true);
  }
}
