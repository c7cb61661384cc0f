/** What the scheduler promises about a whole plan: every placed node sits on a best core within its
    budget, SMT siblings are kept apart, and what each entry and is_complete say. */
module SchedulerLaws {
  import opened Common
  import opened Scheduler

  // ---- Topologies --------------------------------------------------------

  /** Logical ids are distinct and none is the sentinel. */
  predicate ProperIds(cores: seq<CoreInfo>) {
    && (forall i, j :: 0 <= i < j < |cores| ==> cores[i].logicalId != cores[j].logicalId)
    && forall c <- cores :: c.logicalId != NONE
  }

  /** If a core's sibling is listed, the relation is symmetric and irreflexive, and both are of one class. */
  predicate Paired(cores: seq<CoreInfo>) {
    forall c, s :: c in cores && s in cores && c.smtSibling != NONE && s.logicalId == c.smtSibling ==>
      s.smtSibling == c.logicalId && s.logicalId != c.logicalId && s.isEfficiencyCore == c.isEfficiencyCore
  }

  /** Some core passes the static budget; with sibling exclusion on, the siblings are paired up. */
  predicate Placeable(r: Request) {
    && (exists c :: c in r.topology.cores && WithinBudget(c, r.budget))
    && (r.budget.allowHtSiblings || Paired(r.topology.cores))
  }

  // ---- One pass picks the best candidate ---------------------------------

  predicate NotBetter(x: Context, d: CoreInfo, best: Best) {
    Score(x, d) < best.score || (Score(x, d) == best.score && best.lid <= d.logicalId)
  }

  ghost predicate Winner(x: Context, ccdFilter: U32, cores: seq<CoreInfo>, best: Best) {
    if best.lid == NONE then forall d :: d in cores ==> !Candidate(x, ccdFilter, d)
    else
      && (exists c :: c in cores && Candidate(x, ccdFilter, c) && best == Best(c.logicalId, Score(x, c)))
      && forall d :: d in cores && Candidate(x, ccdFilter, d) ==> NotBetter(x, d, best)
  }

  /** A pass finds a highest-scoring candidate, and of those the one with the lowest logical id. */
  lemma {:induction false} PassWins(x: Context, ccdFilter: U32, cores: seq<CoreInfo>)
    requires forall c <- cores :: c.logicalId != NONE
    ensures Winner(x, ccdFilter, cores, Pass(x, ccdFilter, cores))
  {
    if cores != [] {
      var front, core := cores[..|cores| - 1], cores[|cores| - 1];
      assert cores == front + [core];
      PassWins(x, ccdFilter, front);
      var best, after := Pass(x, ccdFilter, front), Pass(x, ccdFilter, cores);
      if after != best {
        assert core in cores && Candidate(x, ccdFilter, core) && after == Best(core.logicalId, Score(x, core));
      }
    }
  }

  // ---- Lookups -----------------------------------------------------------

  lemma {:induction false} FindCoreMeaning(cores: seq<CoreInfo>, lid: U32)
    ensures var f := FindCore(cores, lid);
            if f.Some? then f.value in cores && f.value.logicalId == lid
            else forall c :: c in cores ==> c.logicalId != lid
  {
    if cores != [] {
      FindCoreMeaning(cores[1..], lid);
    }
  }

  lemma SameId(cores: seq<CoreInfo>, c: CoreInfo, d: CoreInfo)
    requires ProperIds(cores) && c in cores && d in cores && c.logicalId == d.logicalId
    ensures c == d
  {
  }

  lemma {:induction false} MaxMeaning(cores: seq<CoreInfo>)
    ensures var m := MaxLogicalId(cores);
            && (forall c :: c in cores && c.logicalId != NONE ==> c.logicalId <= m)
            && (m == 0 || exists c :: c in cores && c.logicalId == m != NONE)
  {
    if cores != [] {
      var front, c := cores[..|cores| - 1], cores[|cores| - 1];
      assert cores == front + [c];
      MaxMeaning(front);
      if MaxLogicalId(cores) != MaxLogicalId(front) {
        assert c in cores;
      }
    }
  }

  // ---- The CCD with the highest average frequency ------------------------

  function FreqSum(cores: seq<CoreInfo>, ccd: U32): nat {
    if cores == [] then 0
    else FreqSum(cores[1..], ccd) + (if cores[0].ccdId == ccd then cores[0].maxFreqMhz else 0)
  }

  function FreqCount(cores: seq<CoreInfo>, ccd: U32): nat {
    if cores == [] then 0
    else FreqCount(cores[1..], ccd) + (if cores[0].ccdId == ccd && cores[0].maxFreqMhz != 0 then 1 else 0)
  }

  lemma {:induction false} FreqRemove(cores: seq<CoreInfo>, i: nat, ccd: U32)
    requires i < |cores|
    ensures var rest, c := cores[..i] + cores[i + 1..], cores[i];
            && FreqSum(cores, ccd) == FreqSum(rest, ccd) + (if c.ccdId == ccd then c.maxFreqMhz else 0)
            && FreqCount(cores, ccd) == FreqCount(rest, ccd) + (if c.ccdId == ccd && c.maxFreqMhz != 0 then 1 else 0)
  {
    var rest := cores[..i] + cores[i + 1..];
    if i == 0 {
      assert rest == cores[1..];
    } else {
      FreqRemove(cores[1..], i - 1, ccd);
      assert rest[1..] == cores[1..][..i - 1] + cores[1..][i..];
    }
  }

  lemma {:induction false} FreqAppend(cores: seq<CoreInfo>, c: CoreInfo, ccd: U32)
    ensures FreqSum(cores + [c], ccd) == FreqSum(cores, ccd) + (if c.ccdId == ccd then c.maxFreqMhz else 0)
    ensures FreqCount(cores + [c], ccd)
         == FreqCount(cores, ccd) + (if c.ccdId == ccd && c.maxFreqMhz != 0 then 1 else 0)
  {
    FreqRemove(cores + [c], |cores|, ccd);
    assert (cores + [c])[..|cores|] + (cores + [c])[|cores| + 1..] == cores;
  }

  predicate DistinctCcds(accs: seq<CcdFreq>) {
    forall i, j :: 0 <= i < j < |accs| ==> accs[i].ccdId != accs[j].ccdId
  }

  /** The accumulator of a CCD, empty when there is none. */
  function AccOf(accs: seq<CcdFreq>, ccd: U32): CcdFreq {
    if accs == [] then CcdFreq(ccd, 0, 0)
    else if accs[0].ccdId == ccd then accs[0]
    else AccOf(accs[1..], ccd)
  }

  lemma {:induction false} AccumulateAdds(accs: seq<CcdFreq>, c: CoreInfo, ccd: U32)
    ensures AccOf(Accumulate(accs, c), ccd)
         == if ccd == c.ccdId then CcdFreq(ccd, AccOf(accs, ccd).freqSum + c.maxFreqMhz, AccOf(accs, ccd).count + 1)
            else AccOf(accs, ccd)
  {
    if accs != [] && accs[0].ccdId != c.ccdId {
      AccumulateAdds(accs[1..], c, ccd);
    }
  }

  predicate AllPositive(accs: seq<CcdFreq>) {
    forall i :: 0 <= i < |accs| ==> accs[i].count > 0
  }

  lemma {:induction false} AccumulateShape(accs: seq<CcdFreq>, c: CoreInfo)
    requires DistinctCcds(accs) && AllPositive(accs)
    ensures DistinctCcds(Accumulate(accs, c)) && AllPositive(Accumulate(accs, c))
    ensures |accs| <= |Accumulate(accs, c)| <= |accs| + 1
    ensures forall i :: 0 <= i < |accs| ==> Accumulate(accs, c)[i].ccdId == accs[i].ccdId
    ensures |Accumulate(accs, c)| > |accs| ==> Accumulate(accs, c)[|accs|].ccdId == c.ccdId
  {
    if accs != [] && accs[0].ccdId != c.ccdId {
      var rest := accs[1..];
      AccumulateShape(rest, c);
      var more := Accumulate(rest, c);
      forall j | 0 <= j < |more| ensures accs[0].ccdId != more[j].ccdId {
        assert j < |rest| ==> more[j].ccdId == accs[j + 1].ccdId;
      }
    }
  }

  /** The accumulators: one per CCD that has a core with a known frequency, holding its sum and count. */
  lemma {:induction false} FreqAccsMeaning(cores: seq<CoreInfo>)
    ensures var accs := FreqAccs(cores);
            && DistinctCcds(accs) && AllPositive(accs)
            && forall ccd: U32 :: AccOf(accs, ccd) == CcdFreq(ccd, FreqSum(cores, ccd), FreqCount(cores, ccd))
  {
    if cores != [] {
      var front, c := cores[..|cores| - 1], cores[|cores| - 1];
      assert cores == front + [c];
      FreqAccsMeaning(front);
      if c.maxFreqMhz != 0 {
        AccumulateShape(FreqAccs(front), c);
      }
      forall ccd: U32
        ensures AccOf(FreqAccs(cores), ccd) == CcdFreq(ccd, FreqSum(cores, ccd), FreqCount(cores, ccd))
      {
        FreqAppend(front, c, ccd);
        AccumulateAdds(FreqAccs(front), c, ccd);
      }
    }
  }

  lemma {:induction false} AccAt(accs: seq<CcdFreq>, i: nat)
    requires DistinctCcds(accs) && i < |accs|
    ensures AccOf(accs, accs[i].ccdId) == accs[i]
  {
    if i > 0 {
      AccAt(accs[1..], i - 1);
    }
  }

  lemma {:induction false} AccIsListed(accs: seq<CcdFreq>, ccd: U32) returns (i: nat)
    requires AccOf(accs, ccd).count > 0
    ensures i < |accs| && accs[i].ccdId == ccd
  {
    if accs[0].ccdId == ccd {
      i := 0;
    } else {
      var j := AccIsListed(accs[1..], ccd);
      i := j + 1;
    }
  }

  /** The truncated average frequency of a CCD. */
  function AverageOf(cores: seq<CoreInfo>, ccd: U32): nat {
    if FreqCount(cores, ccd) == 0 then 0 else FreqSum(cores, ccd) / FreqCount(cores, ccd)
  }

  ghost predicate TwoCcds(cores: seq<CoreInfo>) {
    exists u: U32, v: U32 :: u != v && FreqCount(cores, u) > 0 && FreqCount(cores, v) > 0
  }

  /** No CCD has a higher average than t. */
  ghost predicate AtTop(cores: seq<CoreInfo>, t: U32) {
    FreqCount(cores, t) > 0 &&
    forall u: U32 :: FreqCount(cores, u) > 0 ==> AverageOf(cores, u) <= AverageOf(cores, t)
  }

  lemma {:induction false} SumAtLeastCount(cores: seq<CoreInfo>, ccd: U32)
    ensures FreqSum(cores, ccd) >= FreqCount(cores, ccd)
  {
    if cores != [] {
      SumAtLeastCount(cores[1..], ccd);
    }
  }

  lemma AverageIsPositive(cores: seq<CoreInfo>, ccd: U32)
    requires FreqCount(cores, ccd) > 0
    ensures AverageOf(cores, ccd) > 0
  {
    SumAtLeastCount(cores, ccd);
    var sum, count := FreqSum(cores, ccd), FreqCount(cores, ccd);
    assert sum == count * (sum / count) + sum % count;
  }

  /** The first of the accumulators with the highest average wins. */
  lemma {:induction false} BestFreqWins(accs: seq<CcdFreq>) returns (i: nat)
    requires accs != [] && forall j :: 0 <= j < |accs| ==> Average(accs[j]) > 0
    ensures i < |accs| && BestFreq(accs) == accs[i]
    ensures forall j :: 0 <= j < |accs| ==> Average(accs[j]) <= Average(accs[i])
    ensures forall j :: 0 <= j < i ==> Average(accs[j]) < Average(accs[i])
  {
    var n := |accs| - 1;
    if n == 0 {
      assert BestFreq(accs[..0]) == CcdFreq(NONE, 0, 0);
      i := 0;
    } else {
      i := BestFreqWins(accs[..n]);
      if Average(accs[n]) > Average(accs[i]) {
        i := n;
      }
    }
  }

  /** The first accumulator is that of the first core, if its frequency is known. */
  lemma {:induction false} FirstAcc(cores: seq<CoreInfo>)
    requires cores != [] && cores[0].maxFreqMhz != 0
    ensures FreqAccs(cores) != [] && FreqAccs(cores)[0].ccdId == cores[0].ccdId
  {
    var front := cores[..|cores| - 1];
    if front == [] {
      assert FreqAccs(front) == [];
    } else {
      FirstAcc(front);
    }
  }

  lemma AccsAreAverages(cores: seq<CoreInfo>)
    ensures var accs := FreqAccs(cores);
            && DistinctCcds(accs)
            && forall i :: 0 <= i < |accs| ==>
                 FreqCount(cores, accs[i].ccdId) > 0 && Average(accs[i]) == AverageOf(cores, accs[i].ccdId) > 0
  {
    var accs := FreqAccs(cores);
    FreqAccsMeaning(cores);
    forall i | 0 <= i < |accs|
      ensures FreqCount(cores, accs[i].ccdId) > 0 && Average(accs[i]) == AverageOf(cores, accs[i].ccdId) > 0
    {
      AccAt(accs, i);
      AverageIsPositive(cores, accs[i].ccdId);
    }
  }

  lemma TwoAccsIffTwoCcds(cores: seq<CoreInfo>)
    ensures |FreqAccs(cores)| >= 2 <==> TwoCcds(cores)
  {
    var accs := FreqAccs(cores);
    AccsAreAverages(cores);
    if |accs| >= 2 {
      assert accs[0].ccdId != accs[1].ccdId;
    }
    if TwoCcds(cores) {
      var u: U32, v: U32 :| u != v && FreqCount(cores, u) > 0 && FreqCount(cores, v) > 0;
      FreqAccsMeaning(cores);
      var i := AccIsListed(accs, u);
      var j := AccIsListed(accs, v);
    }
  }

  /** PreferFreq names a CCD with the highest average - of several the first core's, if that is one of
      them - and no CCD when there are not two. */
  lemma FreqCcdMeaning(cores: seq<CoreInfo>)
    ensures !TwoCcds(cores) ==> FreqCcd(cores) == NONE
    ensures TwoCcds(cores) ==> AtTop(cores, FreqCcd(cores))
    ensures TwoCcds(cores) && cores[0].maxFreqMhz != 0 && AtTop(cores, cores[0].ccdId) ==> FreqCcd(cores) == cores[0].ccdId
  {
    var accs := FreqAccs(cores);
    TwoAccsIffTwoCcds(cores);
    if TwoCcds(cores) {
      AccsAreAverages(cores);
      FreqAccsMeaning(cores);
      var i := BestFreqWins(accs);
      forall u: U32 | FreqCount(cores, u) > 0 ensures AverageOf(cores, u) <= AverageOf(cores, accs[i].ccdId) {
        var j := AccIsListed(accs, u);
      }
      if cores[0].maxFreqMhz != 0 && AtTop(cores, cores[0].ccdId) {
        FirstAcc(cores);
      }
    }
  }

  // ---- No last resort, no shared pairs -----------------------------------

  /** A core was eligible, up to the sibling test, for a node that may sit on it. */
  predicate Fits(core: CoreInfo, budget: ResourceBudget) {
    WithinBudget(core, budget.(allowEfficiencyCores := true))
  }

  ghost predicate CoreAt(cores: seq<CoreInfo>, lid: U32, c: CoreInfo) {
    c in cores && c.logicalId == lid
  }

  predicate Used(usage: seq<nat>, lid: U32) {
    lid < |usage| && usage[lid] > 0
  }

  predicate Siblings(c: CoreInfo, s: CoreInfo) {
    c.smtSibling != NONE && s.logicalId == c.smtSibling
  }

  ghost predicate Seated(r: Request, usage: seq<nat>, a: NodeAssignment, c: CoreInfo) {
    && CoreAt(r.topology.cores, a.coreId, c)
    && Used(usage, a.coreId)
    && WithinBudget(c, EffectiveBudget(HintAt(r.hints, a.nodeId), r.budget))
  }

  ghost predicate UsedIsListed(r: Request, p: Progress) {
    forall lid: U32 :: Used(p.usage, lid) ==> exists c :: CoreAt(r.topology.cores, lid, c)
  }

  /** What every partial plan keeps: occupied ids belong to cores that fit, every placed node sits on a
      listed core within its own effective budget, and no pair is occupied on both sides. */
  ghost predicate Keeps(r: Request, p: Progress, k: nat) {
    var cores := r.topology.cores;
    && |p.assignments| == k
    && |p.usage| == MaxLogicalId(cores) + 1
    && UsedIsListed(r, p)
    && (forall c :: c in cores && Used(p.usage, c.logicalId) ==> Fits(c, r.budget))
    && (forall a :: a in p.assignments && !a.external ==> exists c :: Seated(r, p.usage, a, c))
    && (!r.budget.allowHtSiblings ==>
          forall c, s :: c in cores && s in cores && Siblings(c, s) ==>
            !(Used(p.usage, c.logicalId) && Used(p.usage, s.logicalId)))
  }

  /** Some core is always eligible: if the core that passes the static budget is blocked by its
      sibling, then the sibling itself is not blocked. */
  lemma SomeEligible(r: Request, p: Progress, k: nat, hint: PlacementHint)
    requires ProperIds(r.topology.cores) && Placeable(r) && Keeps(r, p, k)
    ensures exists c :: c in r.topology.cores && IsEligible(c, EffectiveBudget(hint, r.budget), p.usage)
  {
    var c :| c in r.topology.cores && WithinBudget(c, r.budget);
    var budget := EffectiveBudget(hint, r.budget);
    assert WithinBudget(c, budget);
    if !IsEligible(c, budget, p.usage) {
      var s := SiblingCore(r, p, k, c);
      assert s.isEfficiencyCore == c.isEfficiencyCore;
      assert WithinBudget(s, budget);
      assert Siblings(s, c) && !SiblingBusy(s, p.usage);
    }
  }

  /** A busy sibling id is the id of a listed core, because only listed cores are ever occupied. */
  lemma SiblingCore(r: Request, p: Progress, k: nat, c: CoreInfo) returns (s: CoreInfo)
    requires ProperIds(r.topology.cores) && Placeable(r) && Keeps(r, p, k)
    requires c in r.topology.cores && !r.budget.allowHtSiblings && SiblingBusy(c, p.usage)
    ensures s in r.topology.cores && Siblings(c, s) && Fits(s, r.budget) && Used(p.usage, s.logicalId)
  {
    assert Used(p.usage, c.smtSibling);
    s :| CoreAt(r.topology.cores, c.smtSibling, s);
  }

  // ---- What a choice is --------------------------------------------------

  /** The CCD the hint asks for when it has a candidate, otherwise all cores. */
  ghost predicate Chosen(x: Context, ccdFilter: U32, lid: U32) {
    var f := if exists d :: d in x.cores && Candidate(x, ccdFilter, d) then ccdFilter else NONE;
    lid != NONE && exists score :: Winner(x, f, x.cores, Best(lid, score))
  }

  lemma ChooseMeaning(x: Context, ccdFilter: U32)
    requires x.cores != [] && ProperIds(x.cores)
    requires exists c :: c in x.cores && IsEligible(c, x.budget, x.usage)
    ensures Chosen(x, ccdFilter, Choose(x, ccdFilter))
    ensures exists c :: CoreAt(x.cores, Choose(x, ccdFilter), c) && IsEligible(c, x.budget, x.usage)
  {
    PassWins(x, ccdFilter, x.cores);
    PassWins(x, NONE, x.cores);
    var first, second := Pass(x, ccdFilter, x.cores), Pass(x, NONE, x.cores);
    var c :| c in x.cores && IsEligible(c, x.budget, x.usage);
    assert Candidate(x, NONE, c);
    var best := if first.lid != NONE then first else second;
    assert best == Best(best.lid, best.score);
    var w :| w in x.cores && best == Best(w.logicalId, Score(x, w)) && IsEligible(w, x.budget, x.usage);
    assert CoreAt(x.cores, best.lid, w);
  }

  // ---- Every partial plan ------------------------------------------------

  lemma IdInRange(cores: seq<CoreInfo>, c: CoreInfo)
    requires ProperIds(cores) && c in cores
    ensures c.logicalId < MaxLogicalId(cores) + 1
  {
    MaxMeaning(cores);
  }

  lemma PlaceKeeps(r: Request, p: Progress, i: nat)
    requires r.topology.cores != [] && ProperIds(r.topology.cores) && Placeable(r)
    requires Keeps(r, p, i)
    ensures Keeps(r, PlaceNode(r, p, i), i + 1)
  {
    hide Choose;
    var hint, q := HintAt(r.hints, i), PlaceNode(r, p, i);
    if hint.role == UiMain {
      KeepSeats(r, p, q, Unassigned(i, true));
    } else {
      var x, cores := ContextAt(r, p, i), r.topology.cores;
      SomeEligible(r, p, i, hint);
      ChooseMeaning(x, FilterAt(r, i));
      var lid := Choose(x, FilterAt(r, i));
      var c :| CoreAt(cores, lid, c) && IsEligible(c, x.budget, x.usage);
      IdInRange(cores, c);
      assert forall l: U32 :: Used(q.usage, l) <==> l == lid || Used(p.usage, l);
      assert Seated(r, q.usage, Assignment(r, i, lid), c);
      KeepSeats(r, p, q, Assignment(r, i, lid));
      KeepApart(r, p, q, c);
      KeepFits(r, p, q, c);
    }
  }

  lemma KeepSeats(r: Request, p: Progress, q: Progress, a: NodeAssignment)
    requires forall o :: o in p.assignments && !o.external ==> exists c :: Seated(r, p.usage, o, c)
    requires q.assignments == p.assignments + [a] && (a.external || exists c :: Seated(r, q.usage, a, c))
    requires forall l: U32 :: Used(p.usage, l) ==> Used(q.usage, l)
    ensures forall o :: o in q.assignments && !o.external ==> exists c :: Seated(r, q.usage, o, c)
  {
    forall o | o in q.assignments && !o.external ensures exists c :: Seated(r, q.usage, o, c) {
      if o in p.assignments {
        var c :| Seated(r, p.usage, o, c);
        assert Seated(r, q.usage, o, c);
      }
    }
  }

  lemma KeepFits(r: Request, p: Progress, q: Progress, c: CoreInfo)
    requires ProperIds(r.topology.cores) && c in r.topology.cores && Fits(c, r.budget)
    requires forall d :: d in r.topology.cores && Used(p.usage, d.logicalId) ==> Fits(d, r.budget)
    requires UsedIsListed(r, p)
    requires forall l: U32 :: Used(q.usage, l) <==> l == c.logicalId || Used(p.usage, l)
    ensures forall d :: d in r.topology.cores && Used(q.usage, d.logicalId) ==> Fits(d, r.budget)
    ensures UsedIsListed(r, q)
  {
    forall d | d in r.topology.cores && Used(q.usage, d.logicalId) ensures Fits(d, r.budget) {
      if d.logicalId == c.logicalId {
        SameId(r.topology.cores, c, d);
      }
    }
    assert CoreAt(r.topology.cores, c.logicalId, c);
  }

  lemma KeepApart(r: Request, p: Progress, q: Progress, c: CoreInfo)
    requires ProperIds(r.topology.cores) && Placeable(r) && c in r.topology.cores
    requires !r.budget.allowHtSiblings ==>
               forall d, s :: d in r.topology.cores && s in r.topology.cores && Siblings(d, s) ==>
                 !(Used(p.usage, d.logicalId) && Used(p.usage, s.logicalId))
    requires !r.budget.allowHtSiblings ==> !SiblingBusy(c, p.usage)
    requires forall l: U32 :: Used(q.usage, l) <==> l == c.logicalId || Used(p.usage, l)
    ensures !r.budget.allowHtSiblings ==>
              forall d, s :: d in r.topology.cores && s in r.topology.cores && Siblings(d, s) ==>
                !(Used(q.usage, d.logicalId) && Used(q.usage, s.logicalId))
  {
    var cores := r.topology.cores;
    if !r.budget.allowHtSiblings {
      forall d, s | d in cores && s in cores && Siblings(d, s)
        ensures !(Used(q.usage, d.logicalId) && Used(q.usage, s.logicalId))
      {
        assert Siblings(s, d);
        if d.logicalId == c.logicalId {
          SameId(cores, c, d);
        } else if s.logicalId == c.logicalId {
          SameId(cores, c, s);
        }
      }
    }
  }

  lemma {:induction false} PlaceNodesKeeps(r: Request, k: nat)
    requires r.topology.cores != [] && ProperIds(r.topology.cores) && Placeable(r)
    ensures Keeps(r, PlaceNodes(r, k), k)
  {
    hide PlaceNode;
    if k > 0 {
      PlaceNodesKeeps(r, k - 1);
      PlaceKeeps(r, PlaceNodes(r, k - 1), k - 1);
    }
  }

  /** No node falls through to the last resort: each placed node takes the best eligible core of its
      CCD, or the best eligible core of all when its CCD has none. */
  lemma NoLastResort(r: Request, i: nat)
    requires r.topology.cores != [] && ProperIds(r.topology.cores) && Placeable(r)
    requires HintAt(r.hints, i).role != UiMain
    ensures var p := PlaceNodes(r, i);
            exists a :: PlaceNodes(r, i + 1).assignments == p.assignments + [a]
                     && Chosen(ContextAt(r, p, i), FilterAt(r, i), a.coreId)
  {
    PlaceNodesKeeps(r, i);
    SomeEligible(r, PlaceNodes(r, i), i, HintAt(r.hints, i));
    ChooseMeaning(ContextAt(r, PlaceNodes(r, i), i), FilterAt(r, i));
    assert PlaceNodes(r, i + 1) == PlaceNode(r, PlaceNodes(r, i), i);
  }

  /** A finished plan: every node in order, every placed node on a listed core within its own budget,
      and - with sibling exclusion - no two nodes on the two sides of a pair. */
  lemma PlanIsSound(r: Request, n: nat)
    requires r.topology.cores != [] && ProperIds(r.topology.cores) && Placeable(r)
    ensures var plan := ComputePlan(r, n).assignments;
            && |plan| == n
            && (forall a :: a in plan && !a.external ==>
                  exists c :: CoreAt(r.topology.cores, a.coreId, c)
                           && WithinBudget(c, EffectiveBudget(HintAt(r.hints, a.nodeId), r.budget)))
            && (!r.budget.allowHtSiblings ==>
                  forall a, b, c, s :: a in plan && b in plan && !a.external && !b.external
                                    && CoreAt(r.topology.cores, a.coreId, c) && CoreAt(r.topology.cores, b.coreId, s)
                                    ==> !Siblings(c, s))
  {
    if n > 0 {
      PlaceNodesKeeps(r, n);
      var p := PlaceNodes(r, n);
      forall a | a in p.assignments && !a.external
        ensures Used(p.usage, a.coreId)
        ensures exists c :: CoreAt(r.topology.cores, a.coreId, c)
                         && WithinBudget(c, EffectiveBudget(HintAt(r.hints, a.nodeId), r.budget))
      {
        var c :| Seated(r, p.usage, a, c);
      }
    }
  }

  // ---- What each node gets ----------------------------------------------

  lemma OneMoreNode(r: Request, k: nat)
    requires r.topology.cores != []
    ensures exists a :: PlaceNodes(r, k + 1).assignments == PlaceNodes(r, k).assignments + [a]
  {
    var p := PlaceNodes(r, k);
    var a := if HintAt(r.hints, k).role == UiMain then Unassigned(k, true)
             else Assignment(r, k, Choose(ContextAt(r, p, k), FilterAt(r, k)));
    assert PlaceNode(r, p, k).assignments == p.assignments + [a];
  }

  lemma {:induction false} EveryNodePlaced(r: Request, n: nat)
    requires r.topology.cores != []
    ensures |PlaceNodes(r, n).assignments| == n
  {
    if n > 0 {
      EveryNodePlaced(r, n - 1);
      OneMoreNode(r, n - 1);
    }
  }

  /** Later nodes leave the earlier assignments as they are. */
  lemma {:induction false} AssignmentStays(r: Request, k: nat, n: nat)
    requires r.topology.cores != [] && k <= n
    ensures PlaceNodes(r, k).assignments <= PlaceNodes(r, n).assignments
    decreases n
  {
    hide PlaceNode;
    if k < n {
      AssignmentStays(r, k, n - 1);
      OneMoreNode(r, n - 1);
    }
  }

  lemma EntryAt(r: Request, i: nat, n: nat)
    requires r.topology.cores != [] && i < n
    ensures |PlaceNodes(r, i).assignments| == i && |PlaceNodes(r, n).assignments| == n
    ensures PlaceNodes(r, i + 1) == PlaceNode(r, PlaceNodes(r, i), i)
    ensures PlaceNodes(r, n).assignments[i] == PlaceNode(r, PlaceNodes(r, i), i).assignments[i]
  {
    EveryNodePlaced(r, i);
    EveryNodePlaced(r, n);
    AssignmentStays(r, i + 1, n);
    OneMoreNode(r, i);
  }

  /** The core of node i in a longer plan is the one it was given. */
  lemma PlacedAt(r: Request, i: nat, n: nat)
    requires r.topology.cores != [] && i < n && HintAt(r.hints, i).role != UiMain
    ensures |PlaceNodes(r, n).assignments| == n
    ensures PlaceNodes(r, n).assignments[i] == Assignment(r, i, Choose(ContextAt(r, PlaceNodes(r, i), i), FilterAt(r, i)))
  {
    EntryAt(r, i, n);
  }

  /** Every node has its entry at its own place: a UI node is external and has no core; any other has a
      core, its NUMA node for the interrupts too, priority 2 exactly when it asks for real time or prefers
      the V-Cache - as compute nodes always do - and a hard pin exactly under the two pinning policies. */
  lemma PlanShape(r: Request, n: nat, i: nat)
    requires r.topology.cores != [] && i < n
    ensures var plan, h := ComputePlan(r, n).assignments, HintAt(r.hints, i);
            && |plan| == n && plan[i].nodeId == i
            && (plan[i].external <==> h.role == UiMain)
            && (h.role == UiMain ==> plan[i].coreId == NONE && plan[i].irqRouting == NONE)
            && (h.role != UiMain ==>
                  && plan[i].irqRouting == plan[i].numaNode
                  && plan[i].threadPriority == (if h.preferRealtimePriority || h.preferVCache || h.role == Compute then 2 else 0)
                  && (plan[i].isHardPinned <==> r.policy == Pinned || r.policy == StickyThenSteal))
  {
    EntryAt(r, i, n);
  }

  // ---- What is_complete says ---------------------------------------------

  /** Every requested node received a core: what is_complete is documented to mean. */
  predicate EveryNodeHasCore(plan: Plan) {
    forall a <- plan.assignments :: a.coreId != NONE
  }

  lemma ChosenIsListed(x: Context, ccdFilter: U32)
    requires x.cores != [] && ProperIds(x.cores)
    ensures Choose(x, ccdFilter) != NONE
  {
    assert x.cores[0] in x.cores;
  }

  lemma PlacedIffNotUi(r: Request, n: nat, i: nat)
    requires r.topology.cores != [] && ProperIds(r.topology.cores) && i < n
    ensures |ComputePlan(r, n).assignments| == n
    ensures ComputePlan(r, n).assignments[i].coreId != NONE <==> HintAt(r.hints, i).role != UiMain
  {
    PlanShape(r, n, i);
    if HintAt(r.hints, i).role != UiMain {
      PlacedAt(r, i, n);
      ChosenIsListed(ContextAt(r, PlaceNodes(r, i), i), FilterAt(r, i));
    }
  }

  /** is_complete says that there are cores, or no nodes. It agrees with its documentation exactly when
      there are no cores at all or no UI node is among the nodes. */
  lemma CompleteMeansIff(r: Request, n: nat)
    requires ProperIds(r.topology.cores)
    ensures var plan := ComputePlan(r, n);
            && (plan.isComplete <==> n == 0 || r.topology.cores != [])
            && ((plan.isComplete <==> EveryNodeHasCore(plan)) <==>
                  r.topology.cores == [] || forall i :: 0 <= i < n ==> HintAt(r.hints, i).role != UiMain)
  {
    var plan := ComputePlan(r, n);
    if n > 0 && r.topology.cores != [] {
      forall i | 0 <= i < n
        ensures |plan.assignments| == n
        ensures plan.assignments[i].coreId != NONE <==> HintAt(r.hints, i).role != UiMain
      {
        PlacedIffNotUi(r, n, i);
      }
      assert forall i :: 0 <= i < n ==> plan.assignments[i] in plan.assignments;
    } else if n > 0 {
      assert plan.assignments[0].coreId == NONE && plan.assignments[0] in plan.assignments;
    }
  }

  /** One core and one UI node: a complete plan in which the node has no core. */
  lemma CompleteWithoutCore(core: CoreInfo, budget: ResourceBudget, policy: Policy)
    requires core.logicalId != NONE
    ensures var plan := ComputePlan(Request(Topology([core], []), [DEFAULT_HINT.(role := UiMain)], budget, policy), 1);
            plan.isComplete && !EveryNodeHasCore(plan)
  {
    CompleteMeansIff(Request(Topology([core], []), [DEFAULT_HINT.(role := UiMain)], budget, policy), 1);
  }

  /** Under a budget without efficiency cores, only IO nodes are ever placed on one. */
  lemma EfficiencyCoresAreForIo(r: Request, n: nat, i: nat, c: CoreInfo)
    requires r.topology.cores != [] && ProperIds(r.topology.cores) && Placeable(r) && i < n
    requires |ComputePlan(r, n).assignments| == n && !ComputePlan(r, n).assignments[i].external
    requires CoreAt(r.topology.cores, ComputePlan(r, n).assignments[i].coreId, c)
    requires c.isEfficiencyCore && !r.budget.allowEfficiencyCores
    ensures HintAt(r.hints, i).role == Io
  {
    PlanIsSound(r, n);
    PlanShape(r, n, i);
    var a := ComputePlan(r, n).assignments[i];
    var d :| CoreAt(r.topology.cores, a.coreId, d)
          && WithinBudget(d, EffectiveBudget(HintAt(r.hints, a.nodeId), r.budget));
    SameId(r.topology.cores, c, d);
  }
}
