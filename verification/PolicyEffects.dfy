/** What the decisions of one evaluation cycle are, said of targets, metrics and rules directly. */
module PolicyEffects {
  import opened Common
  import opened PolicyEngines

  // ---- Conditions --------------------------------------------------------

  /** What a condition compares. */
  function Measured(field: Field, t: Target, m: Metrics, flags: Flags, anyGame: bool): real {
    match field
    case TargetKindField =>
      (match t.kind case UnknownKind => 0.0 case Game => 1.0 case Stream => 2.0 case Comm => 3.0
                    case Browser => 4.0 case Productivity => 5.0 case System => 6.0)
    case MigrationsPerSec => m.migrations as real
    case CpuUsagePct => m.cpu
    case PressureLevel => m.pressure as real
    case FrameTimeP99 => m.frameP99
    case HasVCache => if flags.hasVCache then 1.0 else 0.0
    case HasECores => if flags.hasECores then 1.0 else 0.0
    case MultiCcd => if flags.multiCcd then 1.0 else 0.0
    case AnyGameRunning => if anyGame then 1.0 else 0.0
  }

  /** The bound: the real one, unless that is zero. */
  function Bound(c: Condition): real {
    if c.valueF == 0.0 then c.valueU as real else c.valueF
  }

  /** The value is below, at or above the bound, and the operator accepts that. */
  predicate Accepts(op: Op, value: real, bound: real) {
    var below, above := value < bound, bound < value;
    match op
    case Equal => !below && !above
    case NotEqual => below || above
    case LessThan => below
    case LessEqual => !above
    case GreaterThan => above
    case GreaterEqual => !below
  }

  lemma ConditionMeaning(c: Condition, t: Target, m: Metrics, flags: Flags, anyGame: bool)
    ensures Holds(c, t, m, flags, anyGame) <==> Accepts(c.op, Measured(c.field, t, m, flags, anyGame), Bound(c))
  {
  }

  // ---- The standard decisions --------------------------------------------

  predicate InRange(s: Cycle, i: nat) {
    i < |s.targets| && i < |s.metrics|
  }

  ghost predicate GameRunning(s: Cycle) {
    exists g: nat :: InRange(s, g) && s.targets[g].kind == Game
  }

  /** Rule j applies to target i: enabled, with an action, not the load defense, every condition met. */
  ghost predicate Applies(s: Cycle, i: nat, j: nat) {
    && InRange(s, i) && j < |s.rules|
    && s.rules[j].enabled && s.rules[j].action != NoAction && s.rules[j].id != 8
    && forall c <- s.rules[j].conditions ::
         Accepts(c.op, Measured(c.field, s.targets[i], s.metrics[i], s.flags, GameRunning(s)), Bound(c))
  }

  lemma AppliesMeaning(s: Cycle, i: nat, j: nat)
    ensures Applies(s, i, j) <==> Fires(s, Match(i, j))
  {
    assert GameRunning(s) <==> AnyGame(s);
    if InRange(s, i) && j < |s.rules| {
      forall c | c in s.rules[j].conditions
        ensures Holds(c, s.targets[i], s.metrics[i], s.flags, AnyGame(s)) <==>
                Accepts(c.op, Measured(c.field, s.targets[i], s.metrics[i], s.flags, GameRunning(s)), Bound(c))
      {
        ConditionMeaning(c, s.targets[i], s.metrics[i], s.flags, AnyGame(s));
      }
    }
  }

  /** The decision says what rule j asks for target i; a Rule 1 decision for a game with a known hot thread is
      called Rule 7 in differential mode. */
  predicate SaysFor(s: Cycle, d: Decision, i: nat, j: nat) {
    && InRange(s, i) && j < |s.rules|
    && var r, t := s.rules[j], s.targets[i];
       d == Decision(t.pid, if s.differential && r.id == 1 && t.kind == Game && s.metrics[i].hotTid != 0 then 7 else r.id,
                     r.action, r.confidence, r.coreMask, r.priorityClass)
  }

  ghost predicate SaysSome(s: Cycle, d: Decision) {
    exists i: nat, j: nat :: Applies(s, i, j) && SaysFor(s, d, i, j)
  }

  ghost predicate Said(s: Cycle, ds: seq<Decision>, i: nat, j: nat) {
    exists d <- ds :: SaysFor(s, d, i, j)
  }

  /** How many decisions the standard pass makes is up to the rules; each is what some rule asks for, and
      every rule that applies is heard, unless the buffer of sixteen is full. */
  lemma StandardMeaning(s: Cycle)
    ensures |Standard(s)| <= 16
    ensures forall d <- Standard(s) :: d.ruleId != 8 && SaysSome(s, d)
    ensures forall i: nat, j: nat :: Applies(s, i, j) ==> Said(s, Standard(s), i, j) || |Standard(s)| == 16
  {
    var ms := Firing(s, Width(s), 0);
    FiringExact(s, Width(s), 0);
    forall d | d in Standard(s) ensures d.ruleId != 8 && SaysSome(s, d) {
      var k :| 0 <= k < |Standard(s)| && Standard(s)[k] == d;
      assert Fires(s, ms[k]);
      AppliesMeaning(s, ms[k].target, ms[k].rule);
      assert SaysFor(s, d, ms[k].target, ms[k].rule);
    }
    forall i: nat, j: nat | Applies(s, i, j) ensures Said(s, Standard(s), i, j) || |Standard(s)| == 16 {
      AppliesMeaning(s, i, j);
      assert Match(i, j) in ms;
      var k :| 0 <= k < |ms| && ms[k] == Match(i, j);
      if k < |Standard(s)| {
        assert Standard(s)[k] in Standard(s) && SaysFor(s, Standard(s)[k], i, j);
      }
    }
  }

  // ---- The load defense --------------------------------------------------

  /** Never moved off the V-Cache by the load defense: Phynned itself, anti-cheat helpers, system services,
      the audio engine. */
  const NEVER_MOVED: seq<string> :=
    ["phynned-agent.exe", "phynned-ui.exe", "phynned-cli.exe",
     "vgc.exe", "vgtray.exe", "EasyAntiCheat.exe", "EACLauncher.exe", "BEService.exe", "BEClient.exe", "RICOCHET.exe",
     "lsass.exe", "csrss.exe", "services.exe", "winlogon.exe", "smss.exe", "wininit.exe", "audiodg.exe"]

  ghost predicate MayBeMoved(name: string) {
    forall p <- NEVER_MOVED :: TextsDiffer(name, p)
  }

  /** Rule r is the one with id 8 that counts, and it is on. */
  predicate DefenseRuleIs(s: Cycle, r: nat) {
    r < |s.rules| && s.rules[r].id == 8 && s.rules[r].enabled && forall j :: 0 <= j < r ==> s.rules[j].id != 8
  }

  /** Target i competes with the game: no game or system process, at least half a percent, not protected. */
  ghost predicate Competes(s: Cycle, i: nat) {
    && InRange(s, i) && s.targets[i].kind != Game && s.targets[i].kind != System
    && s.metrics[i].cpu >= 0.5 && MayBeMoved(s.targets[i].name)
  }

  /** Decisions on a process by other rules than Rule 8. */
  ghost predicate OtherwiseNamed(out: seq<Decision>, pid: U32) {
    exists d <- out :: d.pid == pid && d.ruleId != 8
  }

  ghost predicate Moved(out: seq<Decision>, pid: U32) {
    exists d <- out :: d.pid == pid && d.ruleId == 8
  }

  lemma {:induction false} FindRuleIs(rules: seq<Rule>, r: nat)
    requires r < |rules| && rules[r].id == 8 && forall j :: 0 <= j < r ==> rules[j].id != 8
    ensures FindRule(rules, CCD_LOAD_DEFENSE) == r
  {
  }

  lemma ProtectedTable()
    ensures ProtectedNames() == NEVER_MOVED && forall p <- NEVER_MOVED :: p != ""
  {
  }

  lemma ProtectedMeaning(name: string)
    ensures Protected(name) <==> !MayBeMoved(name)
  {
    hide TextsDiffer, ProtectedNames, SameText;
    ProtectedTable();
    forall p | p in NEVER_MOVED ensures SameText(name, p) <==> !TextsDiffer(name, p) {
      SameTextMeaning(name, p);
    }
    if name == "" {
      forall p | p in NEVER_MOVED ensures TextsDiffer(name, p) {
        EmptyDiffers(p);
      }
    }
  }

  lemma EmptyDiffers(p: string)
    requires p != ""
    ensures TextsDiffer("", p)
  {
  }

  lemma NamedMeaning(s: Cycle, chosen: seq<Candidate>, out: seq<Decision>, count: nat, cpu: real, pid: U32)
    requires Outcome(s, chosen, out, count, cpu)
    ensures Names(Standard(s), pid) <==> OtherwiseNamed(out, pid)
    ensures forall k :: 0 <= k < |out| ==> (out[k].ruleId == 8 <==> k >= |Standard(s)|)
    ensures Standard(s) <= out && |out| <= 16
  {
    StandardMeaning(s);
    forall k | 0 <= k < |out| ensures out[k].ruleId == 8 <==> k >= |Standard(s)| {
      if k < |Standard(s)| {
        assert Standard(s)[k] in Standard(s);
      }
    }
    if OtherwiseNamed(out, pid) {
      var d :| d in out && d.pid == pid && d.ruleId != 8;
      var k :| 0 <= k < |out| && out[k] == d;
      assert Standard(s)[k] == d;
    }
    if Names(Standard(s), pid) {
      var d :| d in Standard(s) && d.pid == pid;
      assert d in out;
    }
  }

  lemma CompetesMeaning(s: Cycle, i: nat)
    ensures Contends(s, Standard(s), i) <==> Competes(s, i) && !Names(Standard(s), s.targets[i].pid)
  {
    hide Protected, MayBeMoved;
    if i < Width(s) {
      ProtectedMeaning(s.targets[i].name);
    }
  }

  /** No competitor is overlooked: if a game runs and the rule is on, a process that competes and that no other
      rule names is moved - unless eight were, or the buffer of sixteen is full; and then none that is moved
      is less busy. */
  lemma NobodyOverlooked(s: Cycle, chosen: seq<Candidate>, out: seq<Decision>, count: nat, cpu: real, r: nat, i: nat)
    requires Outcome(s, chosen, out, count, cpu) && GameRunning(s) && DefenseRuleIs(s, r)
    requires Competes(s, i) && !OtherwiseNamed(out, s.targets[i].pid)
    ensures || Moved(out, s.targets[i].pid)
            || |out| == 16
            || (|out| >= 8 && forall k :: |out| - 8 <= k < |out| ==> out[k].ruleId == 8)
    ensures !Moved(out, s.targets[i].pid) ==> forall c <- chosen :: s.metrics[i].cpu <= c.score
  {
    hide Protected, MayBeMoved;
    var pid := s.targets[i].pid;
    NamedMeaning(s, chosen, out, count, cpu, pid);
    CompetesMeaning(s, i);
    FindRuleIs(s.rules, r);
    assert DefenseOn(s);
    if !Moved(out, pid) {
      forall d | d in out ensures d.pid != pid {
        assert d.ruleId == 8 || d.ruleId != 8;
      }
      LeftOutIsLessBusy(s, chosen, out, count, cpu, i);
    }
  }

  /** And nobody else is moved: there is a game, the rule is on, the process competes, no other rule names it,
      and it goes where that rule says. */
  lemma OnlyCompetitorsMoved(s: Cycle, chosen: seq<Candidate>, out: seq<Decision>, count: nat, cpu: real, d: Decision)
    requires Outcome(s, chosen, out, count, cpu) && d in out && d.ruleId == 8
    ensures GameRunning(s) && !OtherwiseNamed(out, d.pid)
    ensures exists r: nat, i: nat :: DefenseRuleIs(s, r) && Competes(s, i) && s.targets[i].pid == d.pid
              && d == Decision(d.pid, 8, s.rules[r].action, s.rules[r].confidence, s.rules[r].coreMask, s.rules[r].priorityClass)
  {
    hide Protected, MayBeMoved;
    NamedMeaning(s, chosen, out, count, cpu, d.pid);
    var k :| 0 <= k < |out| && out[k] == d;
    var c := chosen[k - |Standard(s)|];
    assert IsCandidate(s, Standard(s), c);
    CompetesMeaning(s, c.target);
    assert GameRunning(s) <==> AnyGame(s);
    var r := FindRule(s.rules, CCD_LOAD_DEFENSE);
    assert DefenseRuleIs(s, r);
  }
}
