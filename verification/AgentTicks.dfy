/** One tick of the agent, end to end: the command, the housekeeping, the scan, and the three passes one
    process at a time, each said of the agent before and after. */
module AgentTicks {
  import opened Common
  import opened Placement
  import opened AgentGates
  import opened AgentEffects

  // ---- A pass, one process after the other -------------------------------

  datatype Pass =
    | PinForUsers(ts: seq<Target>, ccds: Ccds, clock: U64)
    | Corral(ts: seq<Target>, ccds: Ccds, clock: U64)
    | Decide(ts: seq<Target>, ds: seq<PinRequest>)

  /** What the pass does with its k-th process or decision. */
  ghost predicate Turn(p: Pass, k: nat, a: Agent, b: Agent) {
    match p
    case PinForUsers(ts, ccds, clock) => k < |ts| && UserPinEffect(a, b, ts[k], ccds, clock)
    case Corral(ts, ccds, clock) => k < |ts| && CorralEffect(a, b, ts[k], ccds, clock)
    case Decide(ts, ds) => k < |ds| && DecisionEffect(a, b, ts, ds[k])
  }

  ghost predicate Turns(p: Pass, run: seq<Agent>, n: nat) {
    |run| == n + 1 && forall k: nat | k < n :: Turn(p, k, run[k], run[k + 1])
  }

  /** The first n turns, in order, lead from one state of the agent to the other. */
  ghost predicate InTurn(p: Pass, n: nat, a: Agent, b: Agent) {
    exists run: seq<Agent> :: Turns(p, run, n) && run[0] == a && run[n] == b
  }

  lemma NoTurn(p: Pass, a: Agent)
    ensures InTurn(p, 0, a, a)
  {
    assert Turns(p, [a], 0);
  }

  lemma NextTurn(p: Pass, n: nat, a: Agent, b: Agent, c: Agent)
    requires InTurn(p, n, a, b) && Turn(p, n, b, c)
    ensures InTurn(p, n + 1, a, c)
  {
    hide Turn;
    var run: seq<Agent> :| Turns(p, run, n) && run[0] == a && run[n] == b;
    assert Turns(p, run + [c], n + 1);
  }

  lemma {:induction false} UserPassInTurn(a: Agent, ts: seq<Target>, ccds: Ccds, clock: U64, n: nat)
    requires UniquePids(a.m.rows) && n <= |ts|
    ensures var b := UserPins(a, ts[..n], ccds, clock); InTurn(PinForUsers(ts, ccds, clock), n, a, b) && UniquePids(b.m.rows)
  {
    hide UserPin, UserPinEffect, InTurn;
    var p := PinForUsers(ts, ccds, clock);
    if n == 0 {
      NoTurn(p, a);
    } else {
      var t, b := ts[n - 1], UserPins(a, ts[..n - 1], ccds, clock);
      assert ts[..n][..n - 1] == ts[..n - 1];
      UserPassInTurn(a, ts, ccds, clock, n - 1);
      UserPinMeaning(b, t, ccds, clock);
      UserPinRow(b, t, ccds, clock);
      NextTurn(p, n - 1, a, b, UserPin(b, t, ccds, clock));
    }
  }

  lemma {:induction false} CorralInTurn(a: Agent, ts: seq<Target>, ccds: Ccds, clock: U64, n: nat)
    requires UniquePids(a.m.rows) && n <= |ts|
    ensures var b := CorralAll(a, ts[..n], ccds, clock); InTurn(Corral(ts, ccds, clock), n, a, b) && UniquePids(b.m.rows)
  {
    hide CorralOne, CorralEffect, InTurn;
    var p := Corral(ts, ccds, clock);
    if n == 0 {
      NoTurn(p, a);
    } else {
      var t, b := ts[n - 1], CorralAll(a, ts[..n - 1], ccds, clock);
      assert ts[..n][..n - 1] == ts[..n - 1];
      CorralInTurn(a, ts, ccds, clock, n - 1);
      CorralMeaning(b, t, ccds, clock);
      CorralOneUnique(b, t, ccds, clock);
      NextTurn(p, n - 1, a, b, CorralOne(b, t, ccds, clock));
    }
  }

  lemma CorralOneUnique(a: Agent, t: Target, ccds: Ccds, clock: U64)
    requires UniquePids(a.m.rows)
    ensures UniquePids(CorralOne(a, t, ccds, clock).m.rows)
  {
    hide UserRuleOf, WouldCorral, ApplyTo;
    ApplyToRows(a, t, ccds.freqMask, CORRAL_RULE, clock);
  }

  lemma {:induction false} DecisionsInTurn(a: Agent, ts: seq<Target>, ds: seq<PinRequest>, n: nat)
    requires UniquePids(a.m.rows) && n <= |ds|
    ensures var b := ApplyPass(a, ts, ds[..n]); InTurn(Decide(ts, ds), n, a, b) && UniquePids(b.m.rows)
  {
    hide ApplyOne, DecisionEffect, InTurn;
    var p := Decide(ts, ds);
    if n == 0 {
      NoTurn(p, a);
    } else {
      var b := ApplyPass(a, ts, ds[..n - 1]);
      assert ds[..n][..n - 1] == ds[..n - 1];
      DecisionsInTurn(a, ts, ds, n - 1);
      DecisionMeaning(b, ts, ds[n - 1]);
      ApplyOneRows(b, ts, ds[n - 1]);
      NextTurn(p, n - 1, a, b, ApplyOne(b, ts, ds[n - 1]));
    }
  }

  // ---- The tick ----------------------------------------------------------

  /** The user pass: every target in turn, in a mode that places, without a pause and without quiet mode. */
  ghost predicate UserPassEffect(a: Agent, b: Agent, i: TickInput) {
    if a.profile != Monitor && !a.paused && !a.quiet && |a.table.rules| > 0
    then InTurn(PinForUsers(i.targets, i.ccds, i.clock), |i.targets|, a, b)
    else b == a
  }

  /** The corral pass: every target in turn, with the corral on, in its profile, with no other manager and
      without quiet mode; a pause does not stop it. */
  ghost predicate CorralPassEffect(a: Agent, b: Agent, i: TickInput) {
    if a.corralLive && !i.coexist && (a.profile == GamesCorral || a.profile == Full) && !a.quiet
    then InTurn(Corral(i.targets, i.ccds, i.clock), |i.targets|, a, b)
    else b == a
  }

  /** The command, the pruning and the scan before the passes; then the user's pins, the corral and the automatic
      decisions, in this order. */
  ghost predicate Stages(a: Agent, i: TickInput, s: seq<Agent>, b: Agent) {
    && |s| == 5
    && CommandEffect(i.command, a.(m := a.m.(procs := i.world)), s[0])
    && PruneEffect(s[0], s[1], i.targets)
    && ScanEffect(s[1], s[2], i.acRunning)
    && UserPassEffect(s[2], s[3], i)
    && CorralPassEffect(s[3], s[4], i)
    && InTurn(Decide(i.targets, i.decisions), |i.decisions|, s[4], b)
  }

  ghost predicate TickEffect(a: Agent, i: TickInput, b: Agent) {
    exists s: seq<Agent> :: Stages(a, i, s, b)
  }

  lemma UserPassMeaning(a: Agent, i: TickInput)
    requires UniquePids(a.m.rows)
    ensures UserPassEffect(a, UserPass(a, i), i) && UniquePids(UserPass(a, i).m.rows)
  {
    hide InTurn, UserPins;
    assert i.targets[..|i.targets|] == i.targets;
    UserPassInTurn(a, i.targets, i.ccds, i.clock, |i.targets|);
  }

  lemma CorralPassMeaning(a: Agent, i: TickInput)
    requires UniquePids(a.m.rows)
    ensures CorralPassEffect(a, CorralPass(a, i), i) && UniquePids(CorralPass(a, i).m.rows)
  {
    hide InTurn, CorralAll;
    assert i.targets[..|i.targets|] == i.targets;
    CorralInTurn(a, i.targets, i.ccds, i.clock, |i.targets|);
  }

  /** A tick of an agent whose gates hold, as the agent's are at every tick, is those stages. */
  lemma TickMeaning(a: Agent, i: TickInput)
    requires Gated(a)
    ensures TickEffect(a, i, Tick(a, i))
  {
    hide CommandEffect, PruneEffect, ScanEffect, InTurn, RowAllowed, Handle, AcScan, Prune, UserPass, CorralPass, ApplyPass;
    hide UserPassEffect, CorralPassEffect;
    var start := a.(m := a.m.(procs := i.world));
    var c := Handle(start, i.command);
    var d := Prune(c, i.targets);
    var e := AcScan(d, i.acRunning);
    var f := UserPass(e, i);
    var g := CorralPass(f, i);
    WorldGated(a, i.world);
    CommandMeaning(start, i.command);
    HandleKeeps(start, i.command);
    PruneMeaning(c, i.targets);
    PruneKeeps(c, i.targets);
    ScanMeaning(d, i.acRunning);
    AcScanKeeps(d, i.acRunning);
    UserPassMeaning(e, i);
    CorralPassMeaning(f, i);
    assert i.decisions[..|i.decisions|] == i.decisions;
    DecisionsInTurn(g, i.targets, i.decisions, |i.decisions|);
    assert Stages(a, i, [c, d, e, f, g], Tick(a, i));
  }

  lemma WorldGated(a: Agent, world: Procs)
    requires Gated(a)
    ensures Gated(a.(m := a.m.(procs := world)))
  {
    forall r | r in a.m.rows ensures RowAllowed(a.(m := a.m.(procs := world)), r) {
      assert RowAllowed(a, r);
    }
  }

  // ---- Runs --------------------------------------------------------------

  /** The states behind the first ticks of a run. */
  ghost predicate Lives(a: Agent, ins: seq<TickInput>, run: seq<Agent>) {
    && |run| == |ins| + 1 && run[0] == a
    && forall k: nat | k < |ins| :: TickEffect(run[k], ins[k], run[k + 1])
  }

  /** Ticks with those inputs, one after the other, lead from one state to the other. */
  ghost predicate RunEffect(a: Agent, ins: seq<TickInput>, b: Agent) {
    exists run: seq<Agent> :: Lives(a, ins, run) && run[|ins|] == b
  }

  lemma {:induction false} RunMeaning(a: Agent, ins: seq<TickInput>)
    requires a.m.rows == [] && Ordinary(ins)
    ensures RunEffect(a, ins, Ticks(a, ins))
  {
    hide TickEffect, Tick;
    if ins == [] {
      assert Lives(a, ins, [a]);
    } else {
      var front, last := ins[..|ins| - 1], ins[|ins| - 1];
      RunMeaning(a, front);
      GatesHold(a, front);
      TickMeaning(Ticks(a, front), last);
      var run: seq<Agent> :| Lives(a, front, run) && run[|front|] == Ticks(a, front);
      assert Lives(a, ins, run + [Ticks(a, ins)]);
    }
  }
}
