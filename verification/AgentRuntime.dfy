/** The agent's main loop: its fields, its commands, and the passes of a tick. */
module AgentRuntimes {
  import opened Common
  import opened Placement
  import opened RevertEffects
  import opened UserRules
  import opened AgentGates
  import opened AgentEffects
  import opened AgentTicks
  import AcProbes

  class AgentRuntime {
    const selfPid: U32
    var executor: Machine
    var profile: Profile
    var paused: bool
    var corralLive: bool
    var keepOnDisable: bool
    var quiet: bool
    var scans: nat
    var differential: bool
    var rules: Table
    var verdicts: AcProbes.Memory

    function State(): Agent
      reads this
    {
      Agent(executor, selfPid, profile, paused, corralLive, keepOnDisable, quiet, scans, differential, rules, verdicts)
    }

    constructor (selfPid: U32, executor: Machine, profile: Profile, startActive: bool, corralEnabled: bool, corralFlag: bool,
                 keepOnDisable: bool, rules: seq<UserRule>, verdicts: AcProbes.Memory)
      ensures State() == Agent(executor, selfPid, profile, !startActive, corralEnabled || corralFlag, keepOnDisable, false, 0,
                               false, Table(rules, 0), verdicts)
    {
      this.selfPid, this.executor, this.profile, this.paused := selfPid, executor, profile, !startActive;
      this.corralLive, this.keepOnDisable, this.quiet := corralEnabled || corralFlag, keepOnDisable, false;
      this.scans, this.differential, this.rules := 0, false, Table(rules, 0);
      this.verdicts := verdicts;
    }

    method HandleCommand(c: Command)
      modifies this
      ensures State() == Handle(old(State()), c)
      ensures UniquePids(old(executor.rows)) ==> CommandEffect(c, old(State()), State())
    {
      ghost var a := State();
      RunCommand(c);
      if UniquePids(a.m.rows) {
        CommandMeaning(a, c);
      }
    }

    method RunCommand(c: Command)
      modifies this
      ensures State() == Handle(old(State()), c)
    {
      match c
      case PausePolicies =>
        executor, paused := RevertAll(executor), true;
      case ForceRevertAll =>
        executor, paused := RevertAll(executor), true;
      case ResumePolicies =>
        paused := false;
      case SetDifferentialPin(arg1) =>
        if (arg1 != 0) != differential {
          executor, differential := RevertAll(executor), arg1 != 0;
        }
      case SetCorralLive(arg1, arg2) =>
        keepOnDisable := arg2 != 0;
        if corralLive && arg1 == 0 && arg2 == 0 {
          executor := RevertBy(executor, OfRule(CORRAL_RULE));
        }
        corralLive := arg1 != 0;
      case SetProcessRule(resolved, arg1) =>
        rules := Changed(rules, SetRule(resolved, arg1 % 256));
      case RemoveProcessRule(arg1, arg2) =>
        var slot, gen := arg1 % TWO_32, arg2 % TWO_32;
        if gen == rules.generation && slot < |rules.rules| {
          var name := rules.rules[slot].name;
          rules := Changed(rules, RemoveRule(slot, gen));
          executor := RevertBy(executor, OfRuleAndName(USER_RULE, name));
        }
      case SetProfile(arg1) =>
        if arg1 % 256 <= 3 {
          ApplyProfile(ProfileOf(arg1 % 256));
        }
      case NoCommand =>
      case Unknown =>
    }

    method ApplyProfile(next: Profile)
      modifies this
      ensures State() == SwitchProfile(old(State()), next)
    {
      var was, now := Effective(profile), Effective(next);
      profile := next;
      if now == Monitor {
        executor := RevertBy(executor, OfRule(CORRAL_RULE));
        executor := RevertBy(executor, OfRule(USER_RULE));
      } else if was == GamesCorral && now != GamesCorral {
        executor := RevertBy(executor, OfRule(CORRAL_RULE));
      }
    }

    method ScanForAntiCheat(acRunning: bool)
      modifies this
      ensures State() == AcScan(old(State()), acRunning)
      ensures UniquePids(old(executor.rows)) ==> ScanEffect(old(State()), State(), acRunning)
    {
      hide ScanEffect, RevertBy;
      if UniquePids(executor.rows) {
        ScanMeaning(State(), acRunning);
      }
      scans := scans + 1;
      if scans >= AC_SCAN_INTERVAL {
        scans := 0;
        if acRunning && !quiet {
          executor := RevertBy(executor, OfRule(CORRAL_RULE));
          executor := RevertBy(executor, OfRule(USER_RULE));
        }
        quiet := acRunning;
      }
    }

    method PinForUsers(ts: seq<Target>, ccds: Ccds, clock: U64)
      modifies this
      ensures State() == UserPins(old(State()), ts, ccds, clock)
      ensures UniquePids(old(executor.rows)) ==> InTurn(Pass.PinForUsers(ts, ccds, clock), |ts|, old(State()), State())
    {
      hide InTurn;
      ghost var a := State();
      for k := 0 to |ts|
        invariant State() == UserPins(a, ts[..k], ccds, clock)
      {
        var t := ts[k];
        assert ts[..k + 1][..k] == ts[..k];
        if t.pid == selfPid {
          continue;
        }
        var rule := UserRuleOf(State(), t);
        if rule.None? || rule.value.action == 0 {
          continue;
        }
        if !WouldPin(rule.value.action, t, AppliedMask(executor.rows, t), ccds) {
          continue;
        }
        var refused := false;
        if NeedsAcGate(t) {
          refused := Gate(t);
        }
        if !refused {
          executor := Apply(executor, PinRequest(t.pid, USER_RULE, PinTarget(rule.value.action, ccds), t.exe, 0, clock));
        }
      }
      assert ts[..|ts|] == ts;
      if UniquePids(a.m.rows) {
        UserPassInTurn(a, ts, ccds, clock, |ts|);
      }
    }

    /** AcProbe::probe_and_label, and what the agent makes of its result. */
    method Gate(t: Target) returns (refused: bool)
      modifies this`verdicts
      ensures State() == Probed(old(State()), t) && refused == Refused(old(State()), t)
    {
      refused := AcProbes.Refuses(AcProbes.Outcome(verdicts, Text(t.exe), t.answers));
      verdicts := AcProbes.AfterProbe(verdicts, Text(t.exe), t.answers);
    }

    method CorralBackground(ts: seq<Target>, ccds: Ccds, clock: U64)
      modifies this
      ensures State() == CorralAll(old(State()), ts, ccds, clock)
      ensures UniquePids(old(executor.rows)) ==> InTurn(Corral(ts, ccds, clock), |ts|, old(State()), State())
    {
      hide InTurn;
      ghost var a := State();
      for k := 0 to |ts|
        invariant State() == CorralAll(a, ts[..k], ccds, clock)
      {
        var t := ts[k];
        assert ts[..k + 1][..k] == ts[..k];
        if t.pid == selfPid || UserRuleOf(State(), t).Some? || !WouldCorral(t, ccds) {
          continue;
        }
        if AppliedMask(executor.rows, t) != ccds.freqMask && !t.backingOff {
          executor := Apply(executor, PinRequest(t.pid, CORRAL_RULE, ccds.freqMask, t.exe, 0, clock));
        }
      }
      assert ts[..|ts|] == ts;
      if UniquePids(a.m.rows) {
        CorralInTurn(a, ts, ccds, clock, |ts|);
      }
    }

    method ApplyDecisions(ts: seq<Target>, ds: seq<PinRequest>)
      modifies this
      ensures State() == ApplyPass(old(State()), ts, ds)
      ensures UniquePids(old(executor.rows)) ==> InTurn(Decide(ts, ds), |ds|, old(State()), State())
    {
      hide InTurn;
      ghost var a := State();
      for k := 0 to |ds|
        invariant State() == ApplyPass(a, ts, ds[..k])
      {
        hide ApplyOne;
        assert ds[..k + 1][..k] == ds[..k];
        ApplyDecision(ts, ds[k]);
      }
      assert ds[..|ds|] == ds;
      if UniquePids(a.m.rows) {
        DecisionsInTurn(a, ts, ds, |ds|);
      }
    }

    method ApplyDecision(ts: seq<Target>, d: PinRequest)
      modifies this
      ensures State() == ApplyOne(old(State()), ts, d)
    {
      if paused || Effective(profile) == Monitor || Withheld(State(), ts, d) {
        return;
      }
      var t, refused := TargetOf(ts, d.pid), false;
      if t.Some? && t.value.kind == Game {
        refused := Gate(t.value);
      }
      if !refused && d.ruleId != 7 {
        executor := Apply(executor, d);
      }
    }

    method Prepare(i: TickInput)
      modifies this
      ensures State() == Prepared(old(State()), i)
    {
      hide CommandEffect, ScanEffect, Handle, AcScan, PruneDead;
      executor := executor.(procs := i.world);
      HandleCommand(i.command);
      executor := PruneDead(executor, set t <- i.targets :: t.pid);
      ScanForAntiCheat(i.acRunning);
    }

    method PinPass(i: TickInput)
      modifies this
      ensures State() == UserPass(old(State()), i)
    {
      if PlacementAllowed(State()) && !paused && !quiet && rules.rules != [] {
        PinForUsers(i.targets, i.ccds, i.clock);
      }
    }

    method RunCorral(i: TickInput)
      modifies this
      ensures State() == CorralPass(old(State()), i)
    {
      if CorralOpen(State(), i.coexist) {
        CorralBackground(i.targets, i.ccds, i.clock);
      }
    }

    /** One pass of the main loop. */
    method RunTick(i: TickInput)
      modifies this
      ensures State() == Tick(old(State()), i)
      ensures Gated(old(State())) ==> TickEffect(old(State()), i, State())
    {
      hide TickEffect, InTurn;
      if Gated(State()) {
        TickMeaning(State(), i);
      }
      Prepare(i);
      PinPass(i);
      RunCorral(i);
      ApplyDecisions(i.targets, i.decisions);
    }

    /** The main loop over any number of ticks, and the shutdown behind it. */
    method Run(inputs: seq<TickInput>)
      requires executor.rows == [] && Ordinary(inputs)
      modifies this
      ensures executor == RevertAll(Ticks(old(State()), inputs).m) && executor.rows == []
      ensures exists last :: RunEffect(old(State()), inputs, last) && AllBack(last.m, executor)
    {
      hide RunEffect, TickEffect, TakenBack;
      ghost var a := State();
      for k := 0 to |inputs|
        invariant State() == Ticks(a, inputs[..k])
      {
        assert inputs[..k + 1][..k] == inputs[..k];
        RunTick(inputs[k]);
      }
      assert inputs[..|inputs|] == inputs;
      GatesHold(a, inputs);
      RevertAllRows(executor);
      RunMeaning(a, inputs);
      AllTakenBack(executor);
      executor := RevertAll(executor);
    }
  }
}
