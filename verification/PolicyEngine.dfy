/** One evaluation cycle of the policy engine: the standard pass over targets and rules, and the
    CCD load defense, which picks the busiest of the remaining processes. */
module PolicyEngines {
  import opened Common

  const MAX_DECISIONS := 16
  const MAX_TARGETS := 1024
  const MAX_DEFENSE_EMISSIONS := 8
  const DEFENSE_THRESHOLD := 0.5

  const PIN_GAME_TO_VCACHE := 1
  const PIN_HOT_THREAD := 7
  const CCD_LOAD_DEFENSE := 8

  datatype Target = Target(pid: U32, kind: TargetKind, name: string)

  datatype Metrics = Metrics(migrations: nat, cpu: real, pressure: nat, frameP99: real, hotTid: nat)

  datatype Field = TargetKindField | MigrationsPerSec | CpuUsagePct | PressureLevel | FrameTimeP99
    | HasVCache | HasECores | MultiCcd | AnyGameRunning

  datatype Op = Equal | NotEqual | GreaterEqual | LessEqual | GreaterThan | LessThan

  datatype Condition = Condition(field: Field, op: Op, valueU: nat, valueF: real)

  datatype Rule = Rule(id: U32, enabled: bool, conditions: seq<Condition>, action: ActionKind, confidence: nat,
                       coreMask: U64, priorityClass: nat)

  datatype Decision = Decision(pid: U32, ruleId: U32, action: ActionKind, confidence: nat, coreMask: U64, priorityClass: nat)

  datatype Flags = Flags(hasVCache: bool, hasECores: bool, multiCcd: bool)

  /** What one call of evaluate sees. */
  datatype Cycle = Cycle(targets: seq<Target>, metrics: seq<Metrics>, rules: seq<Rule>, flags: Flags, differential: bool)

  function Min(a: int, b: int): int {
    if a < b then a else b
  }

  function Width(s: Cycle): nat {
    Min(|s.targets|, |s.metrics|)
  }

  predicate AnyGame(s: Cycle) {
    exists i :: 0 <= i < Width(s) && s.targets[i].kind == Game
  }

  // ---- Conditions --------------------------------------------------------

  function KindNumber(k: TargetKind): real {
    match k
    case UnknownKind => 0.0 case Game => 1.0 case Stream => 2.0 case Comm => 3.0
    case Browser => 4.0 case Productivity => 5.0 case System => 6.0
  }

  function Flag(b: bool): real {
    if b then 1.0 else 0.0
  }

  predicate Holds(c: Condition, t: Target, m: Metrics, flags: Flags, anyGame: bool) {
    var lhs := match c.field
      case TargetKindField => KindNumber(t.kind)
      case MigrationsPerSec => m.migrations as real
      case CpuUsagePct => m.cpu
      case PressureLevel => m.pressure as real
      case FrameTimeP99 => m.frameP99
      case HasVCache => Flag(flags.hasVCache)
      case HasECores => Flag(flags.hasECores)
      case MultiCcd => Flag(flags.multiCcd)
      case AnyGameRunning => Flag(anyGame);
    var rhs := if c.valueF != 0.0 then c.valueF else c.valueU as real;
    match c.op
    case Equal => lhs == rhs
    case NotEqual => lhs != rhs
    case GreaterEqual => lhs >= rhs
    case LessEqual => lhs <= rhs
    case GreaterThan => lhs > rhs
    case LessThan => lhs < rhs
  }

  predicate AllHold(conditions: seq<Condition>, t: Target, m: Metrics, flags: Flags, anyGame: bool) {
    forall c <- conditions :: Holds(c, t, m, flags, anyGame)
  }

  // ---- The standard pass -------------------------------------------------

  datatype Match = Match(target: nat, rule: nat)

  /** Rule j fires for target i. The load defense never fires here. */
  predicate Fires(s: Cycle, m: Match) {
    && m.target < Width(s) && m.rule < |s.rules|
    && s.rules[m.rule].enabled && s.rules[m.rule].action != NoAction && s.rules[m.rule].id != CCD_LOAD_DEFENSE
    && AllHold(s.rules[m.rule].conditions, s.targets[m.target], s.metrics[m.target], s.flags, AnyGame(s))
  }

  function Emit(r: Rule, ruleId: U32, pid: U32): Decision {
    Decision(pid, ruleId, r.action, r.confidence, r.coreMask, r.priorityClass)
  }

  function EmittedId(differential: bool, r: Rule, t: Target, m: Metrics): U32 {
    if differential && r.id == PIN_GAME_TO_VCACHE && t.kind == Game && m.hotTid != 0 then PIN_HOT_THREAD else r.id
  }

  function Emitted(s: Cycle, m: Match): Decision
    requires Fires(s, m)
  {
    var r, t := s.rules[m.rule], s.targets[m.target];
    Emit(r, EmittedId(s.differential, r, t, s.metrics[m.target]), t.pid)
  }

  predicate Precedes(a: Match, b: Match) {
    a.target < b.target || (a.target == b.target && a.rule < b.rule)
  }

  ghost predicate AllFire(s: Cycle, ms: seq<Match>) {
    forall m <- ms :: Fires(s, m)
  }

  /** The firing pairs in front of (i, j), target by target and rule by rule. */
  ghost function Firing(s: Cycle, i: nat, j: nat): (ms: seq<Match>)
    requires j <= |s.rules|
    ensures AllFire(s, ms)
    decreases i, j
  {
    if j > 0 then Firing(s, i, j - 1) + (if Fires(s, Match(i, j - 1)) then [Match(i, j - 1)] else [])
    else if i > 0 then Firing(s, i - 1, |s.rules|)
    else []
  }

  /** The decisions for a list of pairs, as far as the buffer reaches. */
  ghost function Listed(s: Cycle, ms: seq<Match>): (ds: seq<Decision>)
    requires AllFire(s, ms)
    ensures |ds| == Min(|ms|, MAX_DECISIONS)
  {
    seq(Min(|ms|, MAX_DECISIONS), k requires 0 <= k < Min(|ms|, MAX_DECISIONS) => Emitted(s, ms[k]))
  }

  ghost function Standard(s: Cycle): seq<Decision> {
    Listed(s, Firing(s, Width(s), 0))
  }

  /** The list holds exactly the firing pairs, in target-major, rule-minor order, none twice. */
  lemma {:induction false} FiringExact(s: Cycle, i: nat, j: nat)
    requires j <= |s.rules|
    ensures forall m :: m in Firing(s, i, j) <==> Fires(s, m) && Precedes(m, Match(i, j))
    ensures forall a, b :: 0 <= a < b < |Firing(s, i, j)| ==> Precedes(Firing(s, i, j)[a], Firing(s, i, j)[b])
    decreases i, j
  {
    if j > 0 {
      FiringExact(s, i, j - 1);
    } else if i > 0 {
      FiringExact(s, i - 1, |s.rules|);
    }
  }

  // ---- The load defense --------------------------------------------------

  function ProtectedNames(): seq<string> {
    ["phynned-agent.exe", "phynned-ui.exe", "phynned-cli.exe",
     "vgc.exe", "vgtray.exe", "EasyAntiCheat.exe", "EACLauncher.exe", "BEService.exe", "BEClient.exe", "RICOCHET.exe",
     "lsass.exe", "csrss.exe", "services.exe", "winlogon.exe", "smss.exe", "wininit.exe", "audiodg.exe"]
  }

  predicate Protected(name: string) {
    name != "" && exists p <- ProtectedNames() :: SameText(name, p)
  }

  predicate Names(ds: seq<Decision>, pid: nat) {
    exists d <- ds :: d.pid == pid
  }

  predicate Contends(s: Cycle, ds: seq<Decision>, i: nat) {
    && i < Width(s)
    && s.targets[i].kind != Game && s.targets[i].kind != System
    && s.metrics[i].cpu >= DEFENSE_THRESHOLD
    && !Protected(s.targets[i].name)
    && !Names(ds, s.targets[i].pid)
  }

  function FindRule(rules: seq<Rule>, id: nat): (r: nat)
    ensures r <= |rules| && (r < |rules| ==> rules[r].id == id) && forall j :: 0 <= j < r ==> rules[j].id != id
  {
    if rules == [] || rules[0].id == id then 0 else 1 + FindRule(rules[1..], id)
  }

  predicate DefenseOn(s: Cycle) {
    var r := FindRule(s.rules, CCD_LOAD_DEFENSE);
    r < |s.rules| && s.rules[r].enabled && AnyGame(s)
  }

  datatype Candidate = Candidate(target: nat, score: real)

  /** Indices of the processes that contend, in target order. */
  function Candidates(s: Cycle, ds: seq<Decision>, i: nat): seq<Candidate>
    requires i <= Width(s)
  {
    if i == 0 then []
    else Candidates(s, ds, i - 1) + (if Contends(s, ds, i - 1) then [Candidate(i - 1, s.metrics[i - 1].cpu)] else [])
  }

  lemma {:induction false} CandidatesExact(s: Cycle, ds: seq<Decision>, i: nat)
    requires i <= Width(s)
    ensures |Candidates(s, ds, i)| <= i
    ensures forall c :: c in Candidates(s, ds, i) <==> c.target < i && IsCandidate(s, ds, c)
    ensures forall a, b :: 0 <= a < b < |Candidates(s, ds, i)| ==> Candidates(s, ds, i)[a].target < Candidates(s, ds, i)[b].target
  {
    if i > 0 {
      CandidatesExact(s, ds, i - 1);
    }
  }

  predicate Descending(cs: seq<Candidate>) {
    forall a, b :: 0 <= a < b < |cs| ==> cs[a].score >= cs[b].score
  }

  ghost predicate Taken(cs: seq<Candidate>, i: nat) {
    exists c <- cs :: c.target == i
  }

  ghost predicate IsCandidate(s: Cycle, ds: seq<Decision>, c: Candidate) {
    Contends(s, ds, c.target) && c.score == s.metrics[c.target].cpu
  }

  ghost predicate Distinct(cs: seq<Candidate>) {
    forall a, b :: 0 <= a < b < |cs| ==> cs[a].target != cs[b].target
  }

  /** The k busiest of the contending processes: distinct, by falling CPU share, and none left out is
      busier than one taken. */
  ghost predicate Busiest(s: Cycle, ds: seq<Decision>, chosen: seq<Candidate>, k: nat) {
    && (forall a :: 0 <= a < |chosen| ==> IsCandidate(s, ds, chosen[a]))
    && Distinct(chosen) && Descending(chosen)
    && |chosen| <= k
    && (forall i: nat :: Contends(s, ds, i) && !Taken(chosen, i) ==>
          |chosen| == k && forall c <- chosen :: s.metrics[i].cpu <= c.score)
  }

  function Defended(rule: Rule, targets: seq<Target>, chosen: seq<Candidate>): (ds: seq<Decision>)
    requires forall i :: 0 <= i < |chosen| ==> chosen[i].target < |targets|
    ensures |ds| == |chosen|
  {
    seq(|chosen|, k requires 0 <= k < |chosen| => Emit(rule, CCD_LOAD_DEFENSE, targets[chosen[k].target].pid))
  }

  function DefenseRule(s: Cycle): Rule
    requires DefenseOn(s)
  {
    s.rules[FindRule(s.rules, CCD_LOAD_DEFENSE)]
  }

  function TotalCpu(chosen: seq<Candidate>): real {
    if chosen == [] then 0.0 else TotalCpu(chosen[..|chosen| - 1]) + chosen[|chosen| - 1].score
  }

  /** What a cycle leaves in the buffer and in the telemetry. */
  ghost predicate Outcome(s: Cycle, chosen: seq<Candidate>, out: seq<Decision>, count: nat, cpu: real) {
    Follows(s, Standard(s), chosen, out, count, cpu)
  }

  /** The defense after the standard decisions ds. */
  ghost predicate Follows(s: Cycle, ds: seq<Decision>, chosen: seq<Candidate>, out: seq<Decision>, count: nat, cpu: real) {
    && count == |chosen| && cpu == TotalCpu(chosen)
    && (if DefenseOn(s) && |ds| < MAX_DECISIONS
        then Busiest(s, ds, chosen, Min(MAX_DEFENSE_EMISSIONS, MAX_DECISIONS - |ds|)) && out == ds + Defended(DefenseRule(s), s.targets, chosen)
        else chosen == [] && out == ds)
  }

  // ---- Sorting -----------------------------------------------------------

  function Insert(c: Candidate, cs: seq<Candidate>): seq<Candidate> {
    if cs == [] || c.score >= cs[0].score then [c] + cs else [cs[0]] + Insert(c, cs[1..])
  }

  lemma {:induction false} InsertSorts(c: Candidate, cs: seq<Candidate>)
    requires Descending(cs)
    ensures multiset(Insert(c, cs)) == multiset(cs) + multiset{c} && |Insert(c, cs)| == |cs| + 1
    ensures Descending(Insert(c, cs))
    ensures Insert(c, cs)[0] == c || (cs != [] && Insert(c, cs)[0] == cs[0])
  {
    if cs == [] {
    } else if c.score >= cs[0].score {
      assert forall i :: 0 <= i < |cs| ==> cs[0].score >= cs[i].score;
    } else {
      InsertSorts(c, cs[1..]);
      var rest := Insert(c, cs[1..]);
      assert cs == [cs[0]] + cs[1..];
      assert cs[0].score >= rest[0].score;
      DescendingCons(cs[0], rest);
    }
  }

  lemma DescendingCons(c: Candidate, cs: seq<Candidate>)
    requires Descending(cs) && (cs == [] || c.score >= cs[0].score)
    ensures Descending([c] + cs)
  {
    assert forall i :: 0 <= i < |cs| ==> c.score >= cs[i].score;
  }

  /** Some arrangement of the candidates by falling score; which of the tied ones comes first is not said. */
  method SortByScore(a: array<Candidate>, n: nat)
    requires n <= a.Length
    modifies a
    ensures Descending(a[..n]) && multiset(a[..n]) == old(multiset(a[..n]))
  {
    ghost var was := a[..n];
    var sorted: seq<Candidate> := [];
    for i := 0 to n
      invariant a[..n] == was
      invariant Descending(sorted) && multiset(sorted) == multiset(was[..i]) && |sorted| == i
    {
      assert was[i] == a[i] && was[..i + 1] == was[..i] + [was[i]];
      InsertSorts(a[i], sorted);
      sorted := Insert(a[i], sorted);
    }
    forall k | 0 <= k < n {
      a[k] := sorted[k];
    }
    assert a[..n] == sorted && was[..n] == was;
  }

  lemma PermutedMembers(a: seq<Candidate>, b: seq<Candidate>)
    requires multiset(a) == multiset(b)
    ensures forall c :: c in a <==> c in b
  {
    forall c ensures c in a <==> c in b {
      assert c in multiset(a) <==> c in multiset(b);
    }
  }

  lemma SortedIsDistinct(s: Cycle, ds: seq<Decision>, sorted: seq<Candidate>)
    requires multiset(sorted) == multiset(Candidates(s, ds, Width(s)))
    ensures Distinct(sorted) && forall c :: c in sorted <==> IsCandidate(s, ds, c)
  {
    var all := Candidates(s, ds, Width(s));
    CandidatesExact(s, ds, Width(s));
    PermutedMembers(all, sorted);
    DistinctPermuted(all, sorted);
  }

  /** The first k of a sorted arrangement are the k busiest. */
  lemma SortedPrefixIsBusiest(s: Cycle, ds: seq<Decision>, sorted: seq<Candidate>, k: nat)
    requires Descending(sorted) && multiset(sorted) == multiset(Candidates(s, ds, Width(s)))
    ensures Busiest(s, ds, sorted[..Min(|sorted|, k)], k)
  {
    SortedIsDistinct(s, ds, sorted);
    var chosen := sorted[..Min(|sorted|, k)];
    forall i: nat | Contends(s, ds, i) && !Taken(chosen, i)
      ensures |chosen| == k && forall c <- chosen :: s.metrics[i].cpu <= c.score
    {
      LeftOut(s, ds, sorted, k, i);
    }
  }

  lemma PrefixTakes(cs: seq<Candidate>, k: nat, at: nat)
    requires k <= |cs| && at < |cs|
    ensures at < k ==> Taken(cs[..k], cs[at].target)
  {
    if at < k {
      assert cs[..k][at] == cs[at];
    }
  }

  lemma LeftOut(s: Cycle, ds: seq<Decision>, sorted: seq<Candidate>, k: nat, i: nat)
    requires Descending(sorted) && Contends(s, ds, i) && !Taken(sorted[..Min(|sorted|, k)], i)
    requires Candidate(i, s.metrics[i].cpu) in sorted
    ensures |sorted| > k && forall c <- sorted[..k] :: s.metrics[i].cpu <= c.score
  {
    var at :| 0 <= at < |sorted| && sorted[at] == Candidate(i, s.metrics[i].cpu);
    PrefixTakes(sorted, Min(|sorted|, k), at);
  }

  lemma DistinctPermuted(a: seq<Candidate>, b: seq<Candidate>)
    requires multiset(a) == multiset(b) && Distinct(a)
    requires forall x, y :: x in a && y in a && x.target == y.target ==> x == y
    ensures Distinct(b)
  {
    forall i, j | 0 <= i < j < |b| ensures b[i].target != b[j].target {
      assert b[i] in multiset(b) && b[j] in multiset(b);
      if b[i].target == b[j].target {
        Twice(b, i, j);
        Once(a, b[i]);
        assert false;
      }
    }
  }

  lemma Twice(b: seq<Candidate>, i: nat, j: nat)
    requires i < j < |b| && b[i] == b[j]
    ensures multiset(b)[b[i]] >= 2
  {
    assert b == b[..j] + [b[j]] + b[j + 1..];
    assert b[i] in b[..j];
  }

  lemma {:induction false} Once(a: seq<Candidate>, c: Candidate)
    requires Distinct(a)
    ensures multiset(a)[c] <= 1
  {
    if a != [] {
      assert a == [a[0]] + a[1..];
      Once(a[1..], c);
      if a[0] == c {
        assert c !in a[1..];
      }
    }
  }

  // ---- The code ----------------------------------------------------------

  class PolicyEngine {
    var rules: seq<Rule>
    var flags: Flags
    var differential: bool
    var lastDefenseCount: nat
    var lastDefenseCpu: real

    ghost function Seen(targets: seq<Target>, metrics: seq<Metrics>): Cycle
      reads this
    {
      Cycle(targets, metrics, rules, flags, differential)
    }

    /** One cycle. With no targets or no rules nothing happens, and the telemetry keeps its last values. */
    method Evaluate(targets: seq<Target>, metrics: seq<Metrics>, out: array<Decision>)
      returns (n: nat, ghost chosen: seq<Candidate>)
      requires out.Length == MAX_DECISIONS && Min(|targets|, |metrics|) <= MAX_TARGETS
      modifies out, `lastDefenseCount, `lastDefenseCpu
      ensures n <= MAX_DECISIONS
      ensures targets == [] || rules == [] ==>
        n == 0 && lastDefenseCount == old(lastDefenseCount) && lastDefenseCpu == old(lastDefenseCpu)
      ensures targets != [] && rules != [] ==>
        Outcome(Seen(targets, metrics), chosen, out[..n], lastDefenseCount, lastDefenseCpu)
    {
      chosen := [];
      if targets == [] || rules == [] {
        return 0, [];
      }
      var width := Min(|targets|, |metrics|);
      var anyGame := FindGame(targets[..width]);
      n := StandardPass(targets, metrics, anyGame, out);
      lastDefenseCount, lastDefenseCpu := 0, 0.0;
      var r := FindRule(rules, CCD_LOAD_DEFENSE);
      if r < |rules| && rules[r].enabled && anyGame && n < MAX_DECISIONS {
        n, chosen := DefensePass(targets, metrics, rules[r], out, n);
      }
    }

    method FindGame(targets: seq<Target>) returns (found: bool)
      ensures found <==> exists i :: 0 <= i < |targets| && targets[i].kind == Game
    {
      found := false;
      for i := 0 to |targets|
        invariant !found && forall k :: 0 <= k < i ==> targets[k].kind != Game
      {
        if targets[i].kind == Game {
          return true;
        }
      }
    }

    /** Target by target, rule by rule, until the buffer is full. */
    method StandardPass(targets: seq<Target>, metrics: seq<Metrics>, anyGame: bool, out: array<Decision>) returns (n: nat)
      requires out.Length == MAX_DECISIONS && anyGame == AnyGame(Seen(targets, metrics))
      modifies out
      ensures n <= MAX_DECISIONS && out[..n] == Standard(Seen(targets, metrics))
    {
      n := 0;
      for i := 0 to Min(|targets|, |metrics|)
        invariant n <= MAX_DECISIONS && out[..n] == Listed(Seen(targets, metrics), Firing(Seen(targets, metrics), i, 0))
      {
        n := PassRow(targets, metrics, anyGame, i, out, n);
      }
    }

    /** All rules for one target. */
    method PassRow(targets: seq<Target>, metrics: seq<Metrics>, anyGame: bool, i: nat, out: array<Decision>, start: nat)
      returns (n: nat)
      requires out.Length == MAX_DECISIONS && i < Min(|targets|, |metrics|) && anyGame == AnyGame(Seen(targets, metrics))
      requires start <= MAX_DECISIONS
      requires out[..start] == Listed(Seen(targets, metrics), Firing(Seen(targets, metrics), i, 0))
      modifies out
      ensures n <= MAX_DECISIONS
      ensures out[..n] == Listed(Seen(targets, metrics), Firing(Seen(targets, metrics), i + 1, 0))
    {
      ghost var s := Seen(targets, metrics);
      n := start;
      for j := 0 to |rules|
        invariant n <= MAX_DECISIONS && out[..n] == Listed(s, Firing(s, i, j))
      {
        var fires := RuleFires(targets[i], metrics[i], anyGame, rules[j]);
        if fires {
          assert Fires(s, Match(i, j));
          ListedNext(s, Firing(s, i, j), Match(i, j));
          if n >= MAX_DECISIONS {
            FullStaysFull(s, i, j, |rules|);
            break;
          }
          out[n] := Emit(rules[j], EmittedId(differential, rules[j], targets[i], metrics[i]), targets[i].pid);
          n := n + 1;
        }
      }
    }

    method RuleFires(t: Target, m: Metrics, anyGame: bool, rule: Rule) returns (fires: bool)
      ensures fires == (rule.enabled && rule.action != NoAction && rule.id != CCD_LOAD_DEFENSE
                        && AllHold(rule.conditions, t, m, flags, anyGame))
    {
      if !rule.enabled || rule.action == NoAction || rule.id == CCD_LOAD_DEFENSE {
        return false;
      }
      fires := true;
      var k := 0;
      while k < |rule.conditions| && fires
        invariant k <= |rule.conditions|
        invariant fires <==> forall c <- rule.conditions[..k] :: Holds(c, t, m, flags, anyGame)
      {
        fires := Holds(rule.conditions[k], t, m, flags, anyGame);
        k := k + 1;
      }
    }

    method CollectCandidates(targets: seq<Target>, metrics: seq<Metrics>, out: array<Decision>, n: nat, cs: array<Candidate>)
      returns (count: nat)
      requires n <= out.Length && Min(|targets|, |metrics|) <= cs.Length
      modifies cs
      ensures count <= cs.Length
      ensures cs[..count] == Candidates(Seen(targets, metrics), out[..n], Min(|targets|, |metrics|))
    {
      ghost var s, ds := Seen(targets, metrics), out[..n];
      count := 0;
      for i := 0 to Min(|targets|, |metrics|)
        invariant count <= i && cs[..count] == Candidates(s, ds, i)
      {
        if targets[i].kind != Game && targets[i].kind != System && metrics[i].cpu >= DEFENSE_THRESHOLD &&
           !Protected(targets[i].name) && !Names(out[..n], targets[i].pid) {
          cs[count] := Candidate(i, metrics[i].cpu);
          count := count + 1;
        }
      }
    }

    /** Sorted, the candidates begin with the busiest. */
    method RankCandidates(targets: seq<Target>, metrics: seq<Metrics>, out: array<Decision>, n: nat, cs: array<Candidate>,
                          ghost room: nat)
      returns (count: nat, ghost chosen: seq<Candidate>)
      requires n <= out.Length && Min(|targets|, |metrics|) <= cs.Length
      modifies cs
      ensures count <= cs.Length && chosen == cs[..Min(count, room)]
      ensures Busiest(Seen(targets, metrics), out[..n], chosen, room)
      ensures forall i :: 0 <= i < |chosen| ==> chosen[i].target < |targets|
    {
      count := CollectCandidates(targets, metrics, out, n, cs);
      SortByScore(cs, count);
      SortedPrefixIsBusiest(Seen(targets, metrics), out[..n], cs[..count], room);
      chosen := cs[..count][..Min(count, room)];
      BusiestAreTargets(Seen(targets, metrics), out[..n], chosen, room);
    }

    /** The CCD load defense fills what the standard pass left of the buffer. */
    method DefensePass(targets: seq<Target>, metrics: seq<Metrics>, rule: Rule, out: array<Decision>, standard: nat)
      returns (n: nat, ghost chosen: seq<Candidate>)
      requires out.Length == MAX_DECISIONS && Min(|targets|, |metrics|) <= MAX_TARGETS
      requires standard < MAX_DECISIONS
      requires DefenseOn(Seen(targets, metrics)) && rule == rules[FindRule(rules, CCD_LOAD_DEFENSE)]
      requires lastDefenseCount == 0 && lastDefenseCpu == 0.0
      modifies out, `lastDefenseCount, `lastDefenseCpu
      ensures n <= MAX_DECISIONS
      ensures Follows(Seen(targets, metrics), old(out[..standard]), chosen, out[..n], lastDefenseCount, lastDefenseCpu)
    {
      var cs := new Candidate[MAX_TARGETS];
      ghost var room := Min(MAX_DEFENSE_EMISSIONS, MAX_DECISIONS - standard);
      var count;
      count, chosen := RankCandidates(targets, metrics, out, standard, cs, room);
      n := EmitBusiest(targets, rule, cs, Min(count, MAX_DEFENSE_EMISSIONS), out, standard, chosen);
    }

    method EmitBusiest(targets: seq<Target>, rule: Rule, cs: array<Candidate>, kMax: nat, out: array<Decision>, start: nat,
                       ghost chosen: seq<Candidate>)
      returns (n: nat)
      requires out.Length == MAX_DECISIONS && start <= MAX_DECISIONS && kMax <= cs.Length
      requires chosen == cs[..Min(kMax, MAX_DECISIONS - start)]
      requires forall k :: 0 <= k < |chosen| ==> chosen[k].target < |targets|
      requires lastDefenseCount == 0 && lastDefenseCpu == 0.0
      modifies out, `lastDefenseCount, `lastDefenseCpu
      ensures n == start + |chosen|
      ensures out[..n] == old(out[..start]) + Defended(rule, targets, chosen)
      ensures lastDefenseCount == |chosen| && lastDefenseCpu == TotalCpu(chosen)
    {
      n := start;
      var k := 0;
      while k < kMax && n < MAX_DECISIONS
        invariant k <= kMax && n == start + k <= MAX_DECISIONS
        invariant out[..start] == old(out[..start])
        invariant forall i :: 0 <= i < k ==> out[start + i] == Emit(rule, CCD_LOAD_DEFENSE, targets[chosen[i].target].pid)
        invariant lastDefenseCount == k && lastDefenseCpu == TotalCpu(chosen[..k])
      {
        assert cs[k] == chosen[k] && chosen[..k + 1][..k] == chosen[..k];
        out[n] := Emit(rule, CCD_LOAD_DEFENSE, targets[cs[k].target].pid);
        n := n + 1;
        lastDefenseCpu := lastDefenseCpu + cs[k].score;
        lastDefenseCount := lastDefenseCount + 1;
        k := k + 1;
      }
      assert chosen[..k] == chosen;
      assert out[..n][..start] == out[..start];
      Appended(old(out[..start]), Defended(rule, targets, chosen), out[..n]);
    }
  }

  lemma Appended(a: seq<Decision>, b: seq<Decision>, out: seq<Decision>)
    requires |out| == |a| + |b| && out[..|a|] == a && forall k :: 0 <= k < |b| ==> out[|a| + k] == b[k]
    ensures out == a + b
  {
    assert out[|a|..] == b;
  }

  lemma BusiestAreTargets(s: Cycle, ds: seq<Decision>, chosen: seq<Candidate>, k: nat)
    requires Busiest(s, ds, chosen, k)
    ensures forall i :: 0 <= i < |chosen| ==> chosen[i].target < |s.targets|
  {
    forall i | 0 <= i < |chosen| ensures chosen[i].target < |s.targets| {
      assert IsCandidate(s, ds, chosen[i]);
    }
  }

  lemma ListedNext(s: Cycle, ms: seq<Match>, m: Match)
    requires AllFire(s, ms) && Fires(s, m)
    ensures AllFire(s, ms + [m])
    ensures Listed(s, ms + [m]) == if |ms| < MAX_DECISIONS then Listed(s, ms) + [Emitted(s, m)] else Listed(s, ms)
  {
  }

  /** Once the buffer is full, the rest of the row adds nothing. */
  lemma {:induction false} FullStaysFull(s: Cycle, i: nat, j: nat, k: nat)
    requires j <= k <= |s.rules| && |Firing(s, i, j)| >= MAX_DECISIONS
    ensures |Firing(s, i, k)| >= MAX_DECISIONS && Listed(s, Firing(s, i, k)) == Listed(s, Firing(s, i, j))
    decreases k
  {
    if j < k {
      FullStaysFull(s, i, j, k - 1);
      if Fires(s, Match(i, k - 1)) {
        ListedNext(s, Firing(s, i, k - 1), Match(i, k - 1));
      }
    }
  }

  // ---- What a cycle promises ---------------------------------------------

  /** The standard decisions are the first sixteen firings in target-major, rule-minor order; each
      carries its rule's own action, mask, confidence and priority, and only a Rule 1 firing for a game
      with a hot thread is relabelled - as Rule 7, in differential mode. */
  lemma StandardExact(s: Cycle)
    ensures exists ms: seq<Match> ::
      && (forall m :: m in ms <==> Fires(s, m))
      && (forall a, b :: 0 <= a < b < |ms| ==> Precedes(ms[a], ms[b]))
      && |Standard(s)| == Min(|ms|, MAX_DECISIONS)
      && forall k :: 0 <= k < |Standard(s)| ==> Labels(s, ms[k], Standard(s)[k])
  {
    var ms := Firing(s, Width(s), 0);
    FiringExact(s, Width(s), 0);
    forall k | 0 <= k < |Standard(s)| ensures Labels(s, ms[k], Standard(s)[k]) {
      assert Fires(s, ms[k]);
    }
  }

  ghost predicate Labels(s: Cycle, m: Match, d: Decision) {
    && m.target < Width(s) && m.rule < |s.rules|
    && var r, t := s.rules[m.rule], s.targets[m.target];
       && d.pid == t.pid && d.coreMask == r.coreMask && d.action == r.action
       && d.confidence == r.confidence && d.priorityClass == r.priorityClass
       && (d.ruleId == r.id || (d.ruleId == 7 && r.id == 1))
       && (d.ruleId != r.id <==> s.differential && r.id == 1 && t.kind == Game && s.metrics[m.target].hotTid != 0)
  }

  ghost predicate UniquePids(targets: seq<Target>) {
    forall i, j :: 0 <= i < j < |targets| ==> targets[i].pid != targets[j].pid
  }

  /** No process gets a Rule 8 decision that an earlier decision of the cycle already names, and none
      that is a game, a system process or on the protected list, or whose share is under the threshold. */
  lemma DefenseIsLast(s: Cycle, chosen: seq<Candidate>, out: seq<Decision>, count: nat, cpu: real, b: nat)
    requires UniquePids(s.targets) && Outcome(s, chosen, out, count, cpu) && |Standard(s)| <= b < |out|
    ensures out[b].ruleId == CCD_LOAD_DEFENSE
    ensures forall a :: 0 <= a < b ==> out[a].pid != out[b].pid
    ensures exists i :: 0 <= i < Width(s) && s.targets[i].pid == out[b].pid && s.targets[i].kind != Game
                     && s.targets[i].kind != System && !Protected(s.targets[i].name) && s.metrics[i].cpu >= DEFENSE_THRESHOLD
  {
    var ds := Standard(s);
    var me := b - |ds|;
    assert IsCandidate(s, ds, chosen[me]);
    forall a | 0 <= a < b ensures out[a].pid != out[b].pid {
      if a < |ds| {
        assert ds[a] in ds;
      } else {
        assert IsCandidate(s, ds, chosen[a - |ds|]);
        assert chosen[a - |ds|].target != chosen[me].target;
      }
    }
  }

  /** A process that contends but gets no decision was less busy than every process that got one, and
      either eight got one or the buffer is full. */
  lemma LeftOutIsLessBusy(s: Cycle, chosen: seq<Candidate>, out: seq<Decision>, count: nat, cpu: real, i: nat)
    requires Outcome(s, chosen, out, count, cpu) && DefenseOn(s) && Contends(s, Standard(s), i)
    requires !Names(out, s.targets[i].pid)
    ensures |out| == MAX_DECISIONS || count == MAX_DEFENSE_EMISSIONS
    ensures forall c <- chosen :: s.metrics[i].cpu <= c.score
  {
    if |Standard(s)| < MAX_DECISIONS {
      NamedIfTaken(DefenseRule(s), s.targets, Standard(s), chosen, i);
    }
  }

  lemma NamedIfTaken(rule: Rule, targets: seq<Target>, ds: seq<Decision>, chosen: seq<Candidate>, i: nat)
    requires i < |targets| && forall k :: 0 <= k < |chosen| ==> chosen[k].target < |targets|
    ensures Taken(chosen, i) ==> Names(ds + Defended(rule, targets, chosen), targets[i].pid)
  {
    if Taken(chosen, i) {
      var k :| 0 <= k < |chosen| && chosen[k].target == i;
      assert Defended(rule, targets, chosen)[k].pid == targets[i].pid;
      assert Defended(rule, targets, chosen)[k] in ds + Defended(rule, targets, chosen);
    }
  }

  /** A decision on target i of the cycle, as rule r asks for it. */
  predicate Ordered(s: Cycle, d: Decision, i: nat, r: Rule) {
    i < Width(s) && r in s.rules && d.pid == s.targets[i].pid && d.action == r.action && d.coreMask == r.coreMask
  }

  /** Every decision is on a target of the cycle, and is what a rule asks for. */
  lemma DecisionsAreOnTargets(s: Cycle, chosen: seq<Candidate>, out: seq<Decision>, count: nat, cpu: real)
    requires Outcome(s, chosen, out, count, cpu)
    ensures forall d <- out :: exists i: nat, r: Rule :: Ordered(s, d, i, r)
  {
    forall d | d in out ensures exists i: nat, r: Rule :: Ordered(s, d, i, r) {
      var k :| 0 <= k < |out| && out[k] == d;
      if k < |Standard(s)| {
        var m := Firing(s, Width(s), 0)[k];
        assert Fires(s, m) && d == Emitted(s, m);
        assert Ordered(s, d, m.target, s.rules[m.rule]);
      } else {
        var c := chosen[k - |Standard(s)|];
        assert IsCandidate(s, Standard(s), c);
        assert Ordered(s, d, c.target, DefenseRule(s));
      }
    }
  }

  /** With the built-in rules the automatic path never speaks for the corral (20) or the user (21). */
  lemma AutomaticIds(s: Cycle, chosen: seq<Candidate>, out: seq<Decision>, count: nat, cpu: real)
    requires Outcome(s, chosen, out, count, cpu) && forall r <- s.rules :: 1 <= r.id <= 8
    ensures forall d <- out :: 1 <= d.ruleId <= 8
  {
    forall d | d in out ensures 1 <= d.ruleId <= 8 {
      var k :| 0 <= k < |out| && out[k] == d;
      if k < |Standard(s)| {
        assert Fires(s, Firing(s, Width(s), 0)[k]);
      }
    }
  }
}
