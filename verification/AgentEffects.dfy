/** What the commands and the passes of a tick do, said of the agent before and after: the rows that go or
    come, the processes they are about, and the mode. */
module AgentEffects {
  import opened Common
  import opened Placement
  import opened RevertEffects
  import opened PinEffects
  import opened UserRules
  import opened AgentGates
  import AcProbes
  import AcOracles

  // ---- Commands ----------------------------------------------------------

  /** The rows of these rules are taken back, and no others. */
  ghost predicate RulesBack(m: Machine, n: Machine, rules: set<U32>) {
    TakenBack(m, n) && forall r :: r in n.rows <==> r in m.rows && r.ruleId !in rules
  }

  ghost predicate AllBack(m: Machine, n: Machine) {
    TakenBack(m, n) && n.rows == []
  }

  /** The rows of the user's pins on that exe are taken back, and no others. */
  ghost predicate UserPinsBack(m: Machine, n: Machine, name: Name) {
    TakenBack(m, n) && forall r :: r in n.rows <==> r in m.rows && (r.ruleId != 21 || NamesDiffer(r.exeName, name))
  }

  /** Monitor ends the corral and the user pins, Games the corral if it was on. */
  ghost predicate ProfileEffect(a: Agent, b: Agent, p: nat) {
    match p
    case 0 => b == a.(m := b.m, profile := Monitor) && RulesBack(a.m, b.m, {20, 21})
    case 1 => b == a.(m := b.m, profile := Games) &&
              if a.profile == GamesCorral || a.profile == Full then RulesBack(a.m, b.m, {20}) else b.m == a.m
    case 2 => b == a.(profile := GamesCorral)
    case 3 => b == a.(profile := Full)
    case _ => b == a
  }

  ghost predicate CommandEffect(c: Command, a: Agent, b: Agent) {
    match c
    case PausePolicies => b == a.(m := b.m, paused := true) && AllBack(a.m, b.m)
    case ForceRevertAll => b == a.(m := b.m, paused := true) && AllBack(a.m, b.m)
    case ResumePolicies => b == a.(paused := false)
    case SetDifferentialPin(arg1) =>
      if (arg1 != 0) == a.differential then b == a
      else b == a.(m := b.m, differential := !a.differential) && AllBack(a.m, b.m)
    case SetCorralLive(arg1, arg2) =>
      && b == a.(m := b.m, corralLive := arg1 != 0, keepOnDisable := arg2 != 0)
      && (if a.corralLive && arg1 == 0 && arg2 == 0 then RulesBack(a.m, b.m, {20}) else b.m == a.m)
    case SetProcessRule(name, arg1) =>
      if name != [] && arg1 % 256 <= 2 then b == a.(table := b.table) && RuleSet(a.table, b.table, name, arg1 % 256) else b == a
    case RemoveProcessRule(arg1, arg2) =>
      var slot := arg1 % 0x1_0000_0000;
      if arg2 % 0x1_0000_0000 == a.table.generation && slot < |a.table.rules|
      then b == a.(m := b.m, table := b.table) && RuleRemoved(a.table, b.table, slot) && UserPinsBack(a.m, b.m, a.table.rules[slot].name)
      else b == a
    case SetProfile(arg1) => ProfileEffect(a, b, arg1 % 256)
    case NoCommand => b == a
    case Unknown => b == a
  }

  lemma RuleBack(m: Machine, ruleId: U32)
    requires UniquePids(m.rows)
    ensures RulesBack(m, RevertBy(m, OfRule(ruleId)), {ruleId}) && UniquePids(RevertBy(m, OfRule(ruleId)).rows)
  {
    hide TakenBack;
    RuleTakenBack(m, ruleId, false, []);
  }

  lemma BothBack(m: Machine)
    requires UniquePids(m.rows)
    ensures RulesBack(m, RevertBy(RevertBy(m, OfRule(CORRAL_RULE)), OfRule(USER_RULE)), {20, 21})
  {
    hide TakenBack, RevertBy;
    var n := RevertBy(m, OfRule(CORRAL_RULE));
    RuleBack(m, CORRAL_RULE);
    RuleBack(n, USER_RULE);
    TakenBackTwice(m, n, RevertBy(n, OfRule(USER_RULE)));
  }

  lemma ProfileMeaning(a: Agent, p: nat)
    requires UniquePids(a.m.rows) && p <= 3
    ensures ProfileEffect(a, SwitchProfile(a, ProfileOf(p)), p)
  {
    hide RevertBy, RulesBack;
    BothBack(a.m);
    RuleBack(a.m, CORRAL_RULE);
  }

  lemma RemovalMeaning(a: Agent, arg1: nat, arg2: nat)
    requires UniquePids(a.m.rows)
    ensures CommandEffect(RemoveProcessRule(arg1, arg2), a, Handle(a, RemoveProcessRule(arg1, arg2)))
  {
    hide TakenBack, RevertRows, NamesDiffer;
    var slot, gen := arg1 % TWO_32, arg2 % TWO_32;
    ChangeMeaning(a.table, RemoveRule(slot, gen));
    if slot < |a.table.rules| {
      RuleTakenBack(a.m, USER_RULE, true, a.table.rules[slot].name);
    }
    hide RuleRemoved, Changed;
  }

  /** What every command does, from any table that holds each pid once. */
  lemma CommandMeaning(a: Agent, c: Command)
    requires UniquePids(a.m.rows)
    ensures CommandEffect(c, a, Handle(a, c))
  {
    hide TakenBack, RevertBy, RulesBack, ProfileEffect, RuleSet;
    match c
    case PausePolicies => AllTakenBack(a.m);
    case ForceRevertAll => AllTakenBack(a.m);
    case SetDifferentialPin(_) => AllTakenBack(a.m);
    case SetCorralLive(_, _) => RuleBack(a.m, CORRAL_RULE);
    case SetProcessRule(name, arg1) => ChangeMeaning(a.table, SetRule(name, arg1 % 256));
    case RemoveProcessRule(arg1, arg2) => RemovalMeaning(a, arg1, arg2);
    case SetProfile(arg1) =>
      if arg1 % 256 <= 3 {
        ProfileMeaning(a, arg1 % 256);
      } else {
        OtherProfile(a, arg1 % 256);
      }
    case _ =>
  }

  lemma OtherProfile(a: Agent, p: nat)
    requires p > 3
    ensures ProfileEffect(a, a, p)
  {
  }

  // ---- Housekeeping and quiet mode ---------------------------------------

  /** Every third scan counts; the corral and the user pins go when quiet mode begins. */
  ghost predicate ScanEffect(a: Agent, b: Agent, acRunning: bool) {
    if a.scans < 2 then b == a.(scans := a.scans + 1)
    else b == a.(m := b.m, scans := 0, quiet := acRunning) &&
         if acRunning && !a.quiet then RulesBack(a.m, b.m, {20, 21}) else b.m == a.m
  }

  lemma ScanMeaning(a: Agent, acRunning: bool)
    requires UniquePids(a.m.rows)
    ensures ScanEffect(a, AcScan(a, acRunning), acRunning)
  {
    hide RevertBy, RulesBack;
    BothBack(a.m);
  }

  /** The rows of processes that are no longer tracked go, without a system call. */
  ghost predicate PruneEffect(a: Agent, b: Agent, targets: seq<Target>) {
    && b == a.(m := b.m) && b.m.procs == a.m.procs && b.m.slots == a.m.slots && b.m.journalOpen == a.m.journalOpen
    && InOrder(b.m.rows, a.m.rows) && Logged(a.m, b.m)
    && forall r :: r in b.m.rows <==> r in a.m.rows && exists t <- targets :: t.pid == r.pid
  }

  lemma PruneMeaning(a: Agent, targets: seq<Target>)
    requires UniquePids(a.m.rows)
    ensures PruneEffect(a, Prune(a, targets), targets)
  {
    Pruned(a.m, set t <- targets :: t.pid);
  }

  // ---- When the passes run -----------------------------------------------

  /** The user pass needs a profile that places, no pause and no quiet mode; the corral pass needs the corral on,
      its profile, no other manager and no quiet mode - a pause does not stop it. */
  lemma PassesRun(a: Agent, i: TickInput)
    ensures UserPass(a, i) ==
            if a.profile != Monitor && !a.paused && !a.quiet && |a.table.rules| > 0 then UserPins(a, i.targets, i.ccds, i.clock) else a
    ensures CorralPass(a, i) ==
            if a.corralLive && !i.coexist && (a.profile == GamesCorral || a.profile == Full) && !a.quiet
            then CorralAll(a, i.targets, i.ccds, i.clock) else a
  {
  }

  // ---- The passes, one process at a time ---------------------------------

  /** A request to the executor: nothing for a process that has a row or with 32 rows in the table. */
  ghost predicate Asked(m: Machine, n: Machine, q: PinRequest) {
    if (exists r <- m.rows :: r.pid == q.pid) || |m.rows| >= 32 then n == m else PinnedTo(m, n, q, true)
  }

  lemma ApplyAsks(m: Machine, q: PinRequest)
    ensures Asked(m, Apply(m, q), q)
  {
    hide PinnedTo, Pin;
    PinMeaning(m, q, true);
    HoldsRow(m.rows, q.pid);
  }

  lemma HoldsRow(rows: seq<ActiveAction>, pid: U32)
    ensures Holds(rows, pid) <==> exists r <- rows :: r.pid == pid
  {
    if Holds(rows, pid) {
      var i :| 0 <= i < |rows| && rows[i].pid == pid;
      assert rows[i] in rows;
    }
  }

  /** The mask the agent itself has put on the process: of its row, else of its thread pin, else 0. */
  ghost predicate OwnMask(rows: seq<ActiveAction>, t: Target, mask: U64) {
    && (forall r <- rows :: r.pid == t.pid ==> mask == r.newMask)
    && ((forall r <- rows :: r.pid != t.pid) ==> mask == t.threadPinMask)
  }

  lemma {:induction false} AppliedMaskMeaning(rows: seq<ActiveAction>, t: Target)
    requires UniquePids(rows)
    ensures OwnMask(rows, t, AppliedMask(rows, t))
  {
    if rows != [] {
      var more := rows[1..];
      assert UniquePids(more);
      AppliedMaskMeaning(more, t);
      assert rows == [rows[0]] + more;
      if rows[0].pid == t.pid {
        forall r | r in more ensures r.pid != t.pid {
          var i :| 0 <= i < |more| && more[i] == r;
          assert rows[i + 1] == r;
        }
      }
    }
  }

  /** A title that no call may open, not even to ask for its path. */
  ghost predicate NeverTouched(t: Target) {
    AcOracles.NamesOne(Text(t.exe), AcOracles.MUST_NOT_PROBE) && !AcOracles.NamesOne(Text(t.exe), AcOracles.MAY_PROBE)
  }

  /** The user's rule for the process: the first for its name and any path; without one, the first for its name
      and path, if the path may be asked for and is known. */
  ghost predicate RuleFor(a: Agent, t: Target, r: UserRule) {
    t.exe != [] && exists i: nat :: RuleAt(a.table.rules, t, i) && a.table.rules[i] == r
  }

  ghost predicate RuleAt(rules: seq<UserRule>, t: Target, i: nat) {
    || FirstForName(rules, i, t.exe)
    || (!HasForName(rules, t.exe) && !NeverTouched(t) && t.imagePath.Some? && FirstForPath(rules, i, t.exe, t.imagePath.value))
  }

  ghost predicate Ruled(a: Agent, t: Target) {
    exists r :: RuleFor(a, t, r)
  }

  lemma RuleMeaning(a: Agent, t: Target)
    ensures forall r :: RuleFor(a, t, r) <==> UserRuleOf(a, t) == Some(r)
    ensures Ruled(a, t) <==> UserRuleOf(a, t).Some?
  {
    hide AcOracles.NamesOne, FindUserRule;
    AcOracles.TitleMeaning(Text(t.exe));
    GoverningRule(a.table.rules, t.exe, DoNotProbe(t), t.imagePath);
  }

  /** A background process that the corral is for: busy, unrestricted, and nobody else's business. */
  ghost predicate Background(a: Agent, t: Target, ccds: Ccds) {
    && t.pid != a.selfPid && !Ruled(a, t)
    && t.kind != Game && t.kind != System && !t.eligible && !t.corralDenied && !t.cacheAdvised
    && t.busy && !t.backingOff
    && ccds.vcache != 0 && ccds.freqMask != 0
    && t.currentMask == ccds.all && t.currentMask != 0 && t.currentMask & ccds.vcache != 0
  }

  /** The corral asks for exactly such processes, unless they are on the frequency CCD already. */
  ghost predicate CorralEffect(a: Agent, b: Agent, t: Target, ccds: Ccds, clock: U64) {
    exists own :: OwnMask(a.m.rows, t, own) &&
      if Background(a, t, ccds) && own != ccds.freqMask
      then b == a.(m := b.m) && Asked(a.m, b.m, PinRequest(t.pid, 20, ccds.freqMask, t.exe, 0, clock))
      else b == a
  }

  lemma CorralMeaning(a: Agent, t: Target, ccds: Ccds, clock: U64)
    requires UniquePids(a.m.rows)
    ensures CorralEffect(a, CorralOne(a, t, ccds, clock), t, ccds, clock)
  {
    hide UserRuleOf, RuleFor, Ruled, Apply, Asked;
    AppliedMaskMeaning(a.m.rows, t);
    RuleMeaning(a, t);
    ApplyAsks(a.m, PinRequest(t.pid, CORRAL_RULE, ccds.freqMask, t.exe, 0, clock));
  }

  /** The anti-cheat gate is shut for the process: its title has the verdict Blocked; or it has no verdict, and
      either it must not be opened or one of the three calls of the probe fails. */
  ghost predicate ShutFor(a: Agent, t: Target) {
    var exe, w := Text(t.exe), t.answers;
    || AcProbes.Known(a.verdicts, exe, AcProbes.LabelBlocked)
    || (!AcProbes.HasVerdict(a.verdicts, exe) &&
          (AcOracles.MustNotOpen(exe, w.drivers, w.services) || !w.openOk || !w.readOk || !w.setOk))
  }

  lemma RefusedMeaning(a: Agent, t: Target)
    ensures Refused(a, t) <==> ShutFor(a, t)
  {
    hide AcOracles.MustNotOpen, AcOracles.Decide, AcProbes.LabelOf, AcProbes.Known;
    AcProbes.LabelMeaning(a.verdicts, Text(t.exe));
    AcOracles.OracleMeaning(Text(t.exe), t.answers.drivers, t.answers.services);
  }

  ghost predicate ProbedIf(gated: bool, a: Agent, b: Agent, t: Target) {
    if gated then AcProbes.ProbeEffect(a.verdicts, b.verdicts, Text(t.exe), t.answers) else b.verdicts == a.verdicts
  }

  /** The mask of an Always rule: the frequency CCD for action 1, the V-Cache CCD for action 2. */
  function RuleMask(action: nat, ccds: Ccds): U64 {
    match action case 1 => ccds.freqMask case 2 => ccds.vcacheMask case _ => 0
  }

  /** What a user pin needs of the machine and the process: two CCDs, and either our own mask on the process
      but for the other CCD, or nobody's. */
  predicate Pinnable(t: Target, own: U64, mask: U64, ccds: Ccds) {
    && ccds.vcache != 0 && ccds.freqMask != 0 && mask != 0
    && (if own != 0 then own % 0x1_0000_0000 != mask % 0x1_0000_0000
        else t.currentMask == 0 || t.currentMask == ccds.all)
  }

  ghost predicate UserPinWith(a: Agent, b: Agent, t: Target, ccds: Ccds, clock: U64, own: U64) {
    if t.pid == a.selfPid || !Ruled(a, t) then b == a
    else forall r :: RuleFor(a, t, r) ==> UserPinBy(r.action, a, b, t, ccds, clock, own)
  }

  ghost predicate UserPinBy(action: nat, a: Agent, b: Agent, t: Target, ccds: Ccds, clock: U64, own: U64) {
    if !Pinnable(t, own, RuleMask(action, ccds), ccds) then b == a
    else
      var gated := t.kind == Game || t.kind == UnknownKind;
      && b == a.(m := b.m, verdicts := b.verdicts) && ProbedIf(gated, a, b, t)
      && (if gated && ShutFor(a, t) then b.m == a.m
          else Asked(a.m, b.m, PinRequest(t.pid, 21, RuleMask(action, ccds), t.exe, 0, clock)))
  }

  /** The user pass asks for exactly the processes with an Always rule that it may pin; games and unknown
      processes are probed first, and skipped if the probe refuses. */
  ghost predicate UserPinEffect(a: Agent, b: Agent, t: Target, ccds: Ccds, clock: U64) {
    exists own :: OwnMask(a.m.rows, t, own) && UserPinWith(a, b, t, ccds, clock, own)
  }

  lemma UserPinMeaning(a: Agent, t: Target, ccds: Ccds, clock: U64)
    requires UniquePids(a.m.rows)
    ensures UserPinEffect(a, UserPin(a, t, ccds, clock), t, ccds, clock)
  {
    hide UserPinWith, UserPin, AppliedMask, OwnMask;
    AppliedMaskMeaning(a.m.rows, t);
    UserPinIsMeant(a, t, ccds, clock);
  }

  lemma UserPinIsMeant(a: Agent, t: Target, ccds: Ccds, clock: U64)
    ensures UserPinWith(a, UserPin(a, t, ccds, clock), t, ccds, clock, AppliedMask(a.m.rows, t))
  {
    hide UserRuleOf, RuleFor, Ruled, Apply, Asked, Refused, ShutFor, Probed, AppliedMask, AcProbes.ProbeEffect;
    RefusedMeaning(a, t);
    RuleMeaning(a, t);
    var rule := UserRuleOf(a, t);
    if rule.Some? {
      ApplyAsks(a.m, PinRequest(t.pid, USER_RULE, PinTarget(rule.value.action, ccds), t.exe, 0, clock));
    }
    ProbedMachine(a, t);
  }

  lemma ProbedMachine(a: Agent, t: Target)
    ensures Probed(a, t) == a.(verdicts := Probed(a, t).verdicts)
    ensures AcProbes.ProbeEffect(a.verdicts, Probed(a, t).verdicts, Text(t.exe), t.answers)
  {
    hide AcProbes.ProbeEffect, AcProbes.AfterProbe;
    AcProbes.ProbeMeaning(a.verdicts, Text(t.exe), t.answers);
  }

  /** The tracked process that a decision is about, if there is one. */
  ghost predicate About(ts: seq<Target>, pid: U32, t: Target, i: nat) {
    i < |ts| && ts[i] == t && t.pid == pid && forall j :: 0 <= j < i ==> ts[j].pid != pid
  }

  ghost predicate DecisionEffect(a: Agent, b: Agent, ts: seq<Target>, d: PinRequest) {
    if a.paused || a.profile == Monitor then b == a
    else
      && ((forall t <- ts :: t.pid != d.pid) ==> b == a.(m := b.m) && if d.ruleId == 7 then b.m == a.m else Asked(a.m, b.m, d))
      && forall t, i: nat :: About(ts, d.pid, t, i) ==>
           if t.bad || Ruled(a, t) then b == a
           else
             && b == a.(m := b.m, verdicts := b.verdicts) && ProbedIf(t.kind == Game, a, b, t)
             && (if d.ruleId == 7 || (t.kind == Game && ShutFor(a, t)) then b.m == a.m else Asked(a.m, b.m, d))
  }

  lemma {:induction false} TargetOfMeaning(ts: seq<Target>, pid: U32)
    ensures forall t, i: nat :: About(ts, pid, t, i) ==> TargetOf(ts, pid) == Some(t)
    ensures (forall t <- ts :: t.pid != pid) ==> TargetOf(ts, pid) == None
  {
    if ts != [] {
      TargetOfMeaning(ts[1..], pid);
      forall t, i: nat | About(ts, pid, t, i) ensures TargetOf(ts, pid) == Some(t) {
        if i > 0 {
          assert forall j :: 0 <= j < i - 1 ==> ts[1..][j] == ts[j + 1];
          assert About(ts[1..], pid, t, i - 1);
        }
      }
    }
  }

  /** The apply pass asks for exactly the decisions that neither the bad list nor a user rule withholds;
      games are probed first, and skipped if the probe refuses. */
  lemma DecisionMeaning(a: Agent, ts: seq<Target>, d: PinRequest)
    ensures DecisionEffect(a, ApplyOne(a, ts, d), ts, d)
  {
    hide UserRuleOf, Ruled, Apply, Asked, Refused, ShutFor, Probed, TargetOf, AcProbes.ProbeEffect;
    TargetOfMeaning(ts, d.pid);
    ApplyAsks(a.m, d);
    forall t
      ensures Probed(a, t) == a.(verdicts := Probed(a, t).verdicts)
      ensures AcProbes.ProbeEffect(a.verdicts, Probed(a, t).verdicts, Text(t.exe), t.answers)
      ensures (Refused(a, t) <==> ShutFor(a, t)) && (Ruled(a, t) <==> UserRuleOf(a, t).Some?)
    {
      ProbedMachine(a, t);
      RefusedMeaning(a, t);
      RuleMeaning(a, t);
    }
  }
}
