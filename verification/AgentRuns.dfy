/** Whole runs of the agent with its anti-cheat gate and its policy engine in place. */
module AgentRuns {
  import opened Common
  import opened Placement
  import opened UserRules
  import opened AgentGates
  import opened UserPlacements
  import AcProbes
  import AcOracles
  import PolicyEngines

  // ---- The probes of a run -----------------------------------------------

  function ProbeOf(t: Target): AcProbes.Event {
    AcProbes.DoProbe(Text(t.exe), t.answers)
  }

  /** The probes of the user pass, in order. */
  function UserProbes(a: Agent, ts: seq<Target>, ccds: Ccds, clock: U64): seq<AcProbes.Event> {
    if ts == [] then []
    else
      var front, t := ts[..|ts| - 1], ts[|ts| - 1];
      UserProbes(a, front, ccds, clock) +
        (if Asks(UserPins(a, front, ccds, clock), t, ccds) && NeedsAcGate(t) then [ProbeOf(t)] else [])
  }

  /** A decision on a tracked game reaches the gate. */
  predicate ReachesGate(a: Agent, ts: seq<Target>, d: PinRequest) {
    && !a.paused && PlacementAllowed(a) && !Withheld(a, ts, d)
    && TargetOf(ts, d.pid).Some? && TargetOf(ts, d.pid).value.kind == Game
  }

  function DecisionProbes(a: Agent, ts: seq<Target>, ds: seq<PinRequest>): seq<AcProbes.Event> {
    if ds == [] then []
    else
      var front, d := ds[..|ds| - 1], ds[|ds| - 1];
      DecisionProbes(a, ts, front) +
        (if ReachesGate(ApplyPass(a, ts, front), ts, d) then [ProbeOf(TargetOf(ts, d.pid).value)] else [])
  }

  function TickProbes(a: Agent, i: TickInput): seq<AcProbes.Event> {
    var b := Prepared(a, i);
    var c := UserPass(b, i);
    (if PlacementAllowed(b) && !b.paused && !b.quiet && b.table.rules != [] then UserProbes(b, i.targets, i.ccds, i.clock) else []) +
    DecisionProbes(CorralPass(c, i), i.targets, i.decisions)
  }

  function RunProbes(a: Agent, ins: seq<TickInput>): seq<AcProbes.Event> {
    if ins == [] then [] else RunProbes(a, ins[..|ins| - 1]) + TickProbes(Ticks(a, ins[..|ins| - 1]), ins[|ins| - 1])
  }

  // ---- They are all that touches the verdicts ----------------------------

  /** From memory m the probes es lead to memory n. */
  ghost predicate Leads(m: AcProbes.Memory, es: seq<AcProbes.Event>, n: AcProbes.Memory) {
    (forall e <- es :: e.DoProbe?) && AcProbes.AllProper(es) && AcProbes.AfterAll(m, es) == n
  }

  lemma {:induction false} LeadsOn(m: AcProbes.Memory, es: seq<AcProbes.Event>, n: AcProbes.Memory, fs: seq<AcProbes.Event>, o: AcProbes.Memory)
    requires Leads(m, es, n) && Leads(n, fs, o)
    ensures Leads(m, es + fs, o)
    decreases |es|
  {
    if es == [] {
      assert es + fs == fs;
    } else {
      assert (es + fs)[0] == es[0] && (es + fs)[1..] == es[1..] + fs;
      var next := AcProbes.After(m, es[0]);
      assert forall e <- es[1..] :: e in es;
      LeadsOn(next, es[1..], n, fs, o);
    }
  }

  lemma OneProbe(m: AcProbes.Memory, t: Target)
    ensures Leads(m, [ProbeOf(t)], AcProbes.AfterProbe(m, Text(t.exe), t.answers))
  {
    assert [ProbeOf(t)][1..] == [];
  }

  lemma NoProbe(m: AcProbes.Memory)
    ensures Leads(m, [], m)
  {
  }

  lemma UserPinVerdicts(a: Agent, t: Target, ccds: Ccds, clock: U64)
    ensures UserPin(a, t, ccds, clock).verdicts == if Asks(a, t, ccds) && NeedsAcGate(t) then Probed(a, t).verdicts else a.verdicts
  {
    hide Asks, Refused, Probed, UserPin, AcProbes.AfterProbe;
    UserPinIs(a, t, ccds, clock);
    assert Probed(a, t).verdicts == Probed(a, t).verdicts;
  }

  lemma {:induction false} UserProbesLead(a: Agent, ts: seq<Target>, ccds: Ccds, clock: U64)
    ensures Leads(a.verdicts, UserProbes(a, ts, ccds, clock), UserPins(a, ts, ccds, clock).verdicts)
  {
    hide UserPin, Asks, Leads;
    if ts == [] {
      NoProbe(a.verdicts);
    } else {
      var front, t := ts[..|ts| - 1], ts[|ts| - 1];
      var b := UserPins(a, front, ccds, clock);
      UserProbesLead(a, front, ccds, clock);
      UserPinVerdicts(b, t, ccds, clock);
      OneProbe(b.verdicts, t);
      NoProbe(b.verdicts);
      var last := if Asks(b, t, ccds) && NeedsAcGate(t) then [ProbeOf(t)] else [];
      LeadsOn(a.verdicts, UserProbes(a, front, ccds, clock), b.verdicts, last, UserPin(b, t, ccds, clock).verdicts);
    }
  }

  lemma DecisionVerdicts(a: Agent, ts: seq<Target>, d: PinRequest)
    ensures ApplyOne(a, ts, d).verdicts == if ReachesGate(a, ts, d) then Probed(a, TargetOf(ts, d.pid).value).verdicts else a.verdicts
  {
    hide Refused, AcProbes.AfterProbe, Apply, UserRuleOf;
  }

  lemma {:induction false} DecisionProbesLead(a: Agent, ts: seq<Target>, ds: seq<PinRequest>)
    ensures Leads(a.verdicts, DecisionProbes(a, ts, ds), ApplyPass(a, ts, ds).verdicts)
  {
    hide ApplyOne, ReachesGate, Leads;
    if ds == [] {
      NoProbe(a.verdicts);
    } else {
      var front, d := ds[..|ds| - 1], ds[|ds| - 1];
      var b := ApplyPass(a, ts, front);
      DecisionProbesLead(a, ts, front);
      DecisionVerdicts(b, ts, d);
      NoProbe(b.verdicts);
      if ReachesGate(b, ts, d) {
        GateHasTarget(b, ts, d);
        OneProbe(b.verdicts, TargetOf(ts, d.pid).value);
        LeadsOn(a.verdicts, DecisionProbes(a, ts, front), b.verdicts, [ProbeOf(TargetOf(ts, d.pid).value)], ApplyOne(b, ts, d).verdicts);
      } else {
        LeadsOn(a.verdicts, DecisionProbes(a, ts, front), b.verdicts, [], ApplyOne(b, ts, d).verdicts);
      }
    }
  }

  lemma GateHasTarget(a: Agent, ts: seq<Target>, d: PinRequest)
    requires ReachesGate(a, ts, d)
    ensures TargetOf(ts, d.pid).Some?
  {
  }

  lemma CommandsKeepVerdicts(a: Agent, c: Command)
    ensures Handle(a, c).verdicts == a.verdicts
  {
    hide RevertRows, RevertBy, RevertAll, Changed, Accepted;
  }

  lemma PreparedVerdicts(a: Agent, i: TickInput)
    ensures Prepared(a, i).verdicts == a.verdicts
  {
    hide Handle, RevertBy, PruneDead;
    CommandsKeepVerdicts(a.(m := a.m.(procs := i.world)), i.command);
  }

  lemma TickProbesLead(a: Agent, i: TickInput)
    ensures Leads(a.verdicts, TickProbes(a, i), Tick(a, i).verdicts)
  {
    hide Prepared, UserPins, CorralAll, ApplyPass, UserProbes, DecisionProbes, Leads;
    var b := Prepared(a, i);
    var c := UserPass(b, i);
    var d := CorralPass(c, i);
    PreparedVerdicts(a, i);
    UserProbesLead(b, i.targets, i.ccds, i.clock);
    NoProbe(b.verdicts);
    CorralKeepsMode(c, i.targets, i.ccds, i.clock);
    DecisionProbesLead(d, i.targets, i.decisions);
    var first := if PlacementAllowed(b) && !b.paused && !b.quiet && b.table.rules != [] then UserProbes(b, i.targets, i.ccds, i.clock) else [];
    LeadsOn(b.verdicts, first, c.verdicts, DecisionProbes(d, i.targets, i.decisions), Tick(a, i).verdicts);
  }

  /** The probes of a run, one after the other, lead from the first verdicts to the last. */
  lemma {:induction false} RunProbesLead(a: Agent, ins: seq<TickInput>)
    ensures Leads(a.verdicts, RunProbes(a, ins), Ticks(a, ins).verdicts)
  {
    hide Tick, TickProbes, Leads;
    if ins == [] {
      NoProbe(a.verdicts);
    } else {
      var front := ins[..|ins| - 1];
      RunProbesLead(a, front);
      TickProbesLead(Ticks(a, front), ins[|ins| - 1]);
      LeadsOn(a.verdicts, RunProbes(a, front), Ticks(a, front).verdicts, TickProbes(Ticks(a, front), ins[|ins| - 1]), Ticks(a, ins).verdicts);
    }
  }

  /** Over any run of the agent, whichever of its passes asks and however often: a game identity is opened
      at most once, if the verdict of that time has a place, and never when its title forbids it. */
  lemma OneOpenPerGame(a: Agent, ins: seq<TickInput>, exe: string)
    ensures AcProbes.AllProper(RunProbes(a, ins))
    ensures AcProbes.FirstOpenStores(a.verdicts, RunProbes(a, ins), exe) ==> AcProbes.OpenCount(a.verdicts, RunProbes(a, ins), exe) <= 1
    ensures !AcOracles.ProbeAllowed(AcOracles.ClassifyTitle(exe)) ==> AcProbes.OpenCount(a.verdicts, RunProbes(a, ins), exe) == 0
  {
    RunProbesLead(a, ins);
    if AcProbes.FirstOpenStores(a.verdicts, RunProbes(a, ins), exe) {
      AcProbes.AtMostOneOpen(a.verdicts, RunProbes(a, ins), exe);
    }
    if !AcOracles.ProbeAllowed(AcOracles.ClassifyTitle(exe)) {
      AcProbes.ForbiddenTitlesStayClosed(a.verdicts, RunProbes(a, ins), exe);
    }
  }

  /** A probe of the list is that of one of these targets. */
  ghost predicate OfTargets(es: seq<AcProbes.Event>, ts: seq<Target>) {
    forall e <- es :: exists t <- ts :: e == ProbeOf(t)
  }

  lemma {:induction false} UserProbesOfTargets(a: Agent, ts: seq<Target>, ccds: Ccds, clock: U64)
    ensures OfTargets(UserProbes(a, ts, ccds, clock), ts)
  {
    hide Asks, UserPins, NeedsAcGate;
    if ts != [] {
      var front, t := ts[..|ts| - 1], ts[|ts| - 1];
      UserProbesOfTargets(a, front, ccds, clock);
      assert t in ts && forall s <- front :: s in ts;
      forall e | e in UserProbes(a, ts, ccds, clock) ensures exists s <- ts :: e == ProbeOf(s) {
        if e in UserProbes(a, front, ccds, clock) {
          var s :| s in front && e == ProbeOf(s);
          assert s in ts;
        }
      }
    }
  }

  lemma {:induction false} TargetIsTracked(ts: seq<Target>, pid: U32)
    ensures TargetOf(ts, pid).Some? ==> TargetOf(ts, pid).value in ts
  {
    if ts != [] {
      TargetIsTracked(ts[1..], pid);
    }
  }

  lemma {:induction false} DecisionProbesOfTargets(a: Agent, ts: seq<Target>, ds: seq<PinRequest>)
    ensures OfTargets(DecisionProbes(a, ts, ds), ts)
  {
    hide ApplyPass, TargetOf, Withheld;
    if ds != [] {
      var front, d := ds[..|ds| - 1], ds[|ds| - 1];
      DecisionProbesOfTargets(a, ts, front);
      TargetIsTracked(ts, d.pid);
    }
  }

  lemma TickProbesOfTargets(a: Agent, i: TickInput)
    ensures OfTargets(TickProbes(a, i), i.targets)
  {
    hide Prepared, UserPass, CorralPass, UserProbes, DecisionProbes;
    var b := Prepared(a, i);
    UserProbesOfTargets(b, i.targets, i.ccds, i.clock);
    DecisionProbesOfTargets(CorralPass(UserPass(b, i), i), i.targets, i.decisions);
  }

  /** Over any run: while an anti-cheat is live whenever a game the oracle does not know is tracked, or its title
      must not be probed anyway, nothing opens that game. */
  lemma {:induction false} LiveAntiCheatOverRuns(a: Agent, ins: seq<TickInput>, exe: string)
    requires forall i <- ins, t <- i.targets ::
               !TextsDiffer(Text(t.exe), exe) ==> AcOracles.MustNotOpen(Text(t.exe), t.answers.drivers, t.answers.services)
    ensures AcProbes.AllProper(RunProbes(a, ins)) && AcProbes.OpenCount(a.verdicts, RunProbes(a, ins), exe) == 0
  {
    hide AcOracles.MustNotOpen, TextsDiffer, AcProbes.OpenCount, AcProbes.After;
    RunProbesLead(a, ins);
    RunProbesOfTargets(a, ins);
    forall e | e in RunProbes(a, ins) && e.DoProbe? && !TextsDiffer(e.exe, exe)
      ensures AcOracles.MustNotOpen(e.exe, e.answers.drivers, e.answers.services)
    {
      var i, t :| i in ins && t in i.targets && e == ProbeOf(t);
    }
    AcProbes.LiveAntiCheatStaysClosed(a.verdicts, RunProbes(a, ins), exe);
  }

  lemma {:induction false} RunProbesOfTargets(a: Agent, ins: seq<TickInput>)
    ensures forall e <- RunProbes(a, ins) :: exists i, t :: i in ins && t in i.targets && e == ProbeOf(t)
  {
    hide Ticks, TickProbes;
    if ins != [] {
      var front, last := ins[..|ins| - 1], ins[|ins| - 1];
      RunProbesOfTargets(a, front);
      TickProbesOfTargets(Ticks(a, front), last);
      forall e | e in RunProbes(a, ins) ensures exists i, t :: i in ins && t in i.targets && e == ProbeOf(t) {
        if e in RunProbes(a, front) {
          var i, t :| i in front && t in i.targets && e == ProbeOf(t);
          assert i in ins;
        } else {
          var t :| t in last.targets && e == ProbeOf(t);
          assert last in ins;
        }
      }
    }
  }

  // ---- The decisions of a tick -------------------------------------------

  /** The placement boundary: of all tracked processes only these reach the memory and the engine. */
  function Eligible(ts: seq<Target>): (es: seq<Target>)
    ensures forall t :: t in es <==> t in ts && t.eligible
  {
    if ts == [] then [] else (if ts[0].eligible then [ts[0]] else []) + Eligible(ts[1..])
  }

  /** What the per-game memory answers for target t: a mask, or 0 when it has none. */
  type Recall = Target -> U64

  /** Memory decisions come first, in target order, and stop at sixteen. */
  function Learned(es: seq<Target>, recall: Recall, clock: U64): (ds: seq<PinRequest>)
    ensures |ds| <= PolicyEngines.MAX_DECISIONS
    ensures forall d <- ds :: d.ruleId == 99 && exists t <- es :: t.pid == d.pid
  {
    if es == [] then []
    else
      var ds, t := Learned(es[..|es| - 1], recall, clock), es[|es| - 1];
      if Hit(ds, t, recall) then ds + [PinRequest(t.pid, 99, recall(t), t.exe, 0, clock)] else ds
  }

  predicate Hit(ds: seq<PinRequest>, t: Target, recall: Recall) {
    |ds| < PolicyEngines.MAX_DECISIONS && !t.bad && recall(t) != 0
  }

  /** The targets that are left to the engine. */
  function Remaining(es: seq<Target>, recall: Recall, clock: U64): (rest: seq<Target>)
    ensures forall t <- rest :: t in es
  {
    if es == [] then []
    else
      var front, t := es[..|es| - 1], es[|es| - 1];
      Remaining(front, recall, clock) + (if Hit(Learned(front, recall, clock), t, recall) then [] else [t])
  }

  function EngineTargets(ts: seq<Target>): (out: seq<PolicyEngines.Target>)
    ensures |out| == |ts| && forall k :: 0 <= k < |ts| ==> out[k].pid == ts[k].pid
  {
    seq(|ts|, k requires 0 <= k < |ts| => PolicyEngines.Target(ts[k].pid, ts[k].kind, Text(ts[k].exe)))
  }

  function NameOf(ts: seq<Target>, pid: U32): Name {
    var t := TargetOf(ts, pid);
    if t.Some? then t.value.exe else []
  }

  /** A decision of the engine as the agent hands it to the executor. */
  function RequestOf(d: PolicyEngines.Decision, ts: seq<Target>, clock: U64): PinRequest {
    PinRequest(d.pid, d.ruleId, d.coreMask, NameOf(ts, d.pid), 0, clock)
  }

  function Requests(ds: seq<PolicyEngines.Decision>, ts: seq<Target>, clock: U64): (out: seq<PinRequest>)
    ensures |out| == |ds| && forall k :: 0 <= k < |ds| ==> out[k] == RequestOf(ds[k], ts, clock)
  {
    seq(|ds|, k requires 0 <= k < |ds| => RequestOf(ds[k], ts, clock))
  }

  /** One evaluation of the built-in rules over the targets `rest`: nothing without targets or rules. */
  ghost predicate Evaluates(rest: seq<Target>, s: PolicyEngines.Cycle, out: seq<PolicyEngines.Decision>) {
    && s.targets == EngineTargets(rest)
    && (forall r <- s.rules :: 1 <= r.id <= 8 && r.action == PinAffinity)
    && if rest == [] || s.rules == [] then out == []
       else exists chosen, count, cpu :: PolicyEngines.Outcome(s, chosen, out, count, cpu)
  }

  /** The decisions of a tick: what the memory knows, then what the engine says about the other eligible
      targets, as far as the buffer of sixteen reaches. */
  ghost predicate Decides(i: TickInput, recall: Recall, s: PolicyEngines.Cycle, out: seq<PolicyEngines.Decision>) {
    var es := Eligible(i.targets);
    var learned := Learned(es, recall, i.clock);
    var k := PolicyEngines.Min(|out|, PolicyEngines.MAX_DECISIONS - |learned|);
    && Evaluates(Remaining(es, recall, i.clock), s, out)
    && i.decisions == learned + Requests(out[..k], i.targets, i.clock)
  }

  ghost predicate FromEngine(i: TickInput) {
    exists recall, s, out :: Decides(i, recall, s, out)
  }

  /** The process of an engine decision is one that the memory left to it, and the rule a built-in one. */
  lemma EvaluatedOn(rest: seq<Target>, s: PolicyEngines.Cycle, out: seq<PolicyEngines.Decision>, d: PolicyEngines.Decision)
    requires Evaluates(rest, s, out) && d in out
    ensures 1 <= d.ruleId <= 8 && d.action == PinAffinity && exists t <- rest :: t.pid == d.pid
  {
    hide PolicyEngines.Outcome;
    var chosen, count, cpu :| PolicyEngines.Outcome(s, chosen, out, count, cpu);
    PolicyEngines.AutomaticIds(s, chosen, out, count, cpu);
    PolicyEngines.DecisionsAreOnTargets(s, chosen, out, count, cpu);
    var i: nat, r: PolicyEngines.Rule :| PolicyEngines.Ordered(s, d, i, r);
    assert rest[i] in rest;
  }

  /** Every decision of a tick comes from the memory (99) or from a built-in rule (1 to 8), and is on an
      eligible target. */
  lemma DecisionsAreEligible(i: TickInput, d: PinRequest)
    requires FromEngine(i) && d in i.decisions
    ensures Automatic(d) && exists t <- i.targets :: t.eligible && t.pid == d.pid
  {
    hide Evaluates, Learned, Remaining, Eligible;
    var recall, s, out :| Decides(i, recall, s, out);
    var es := Eligible(i.targets);
    var learned := Learned(es, recall, i.clock);
    if d !in learned {
      var k :| |learned| <= k < |i.decisions| && i.decisions[k] == d;
      EvaluatedOn(Remaining(es, recall, i.clock), s, out, out[k - |learned|]);
    }
  }

  /** No process is spoken for by both. */
  lemma {:induction false} MemoryAndEngineApart(es: seq<Target>, recall: Recall, clock: U64, t: Target)
    requires DistinctTargets(es) && t in Remaining(es, recall, clock)
    ensures forall d <- Learned(es, recall, clock) :: d.pid != t.pid
  {
    hide Hit;
    if es != [] {
      var n := |es| - 1;
      var front, ds := es[..n], Learned(es[..n], recall, clock);
      if t in Remaining(front, recall, clock) {
        MemoryAndEngineApart(front, recall, clock, t);
        FrontDiffers(es, t);
      } else {
        forall d | d in ds ensures d.pid != t.pid {
          var s :| s in front && s.pid == d.pid;
          FrontDiffers(es, s);
        }
      }
    }
  }

  /** With the built-in engine and the memory in place the gates hold at the end of every tick of every run. */
  lemma EngineKeepsGates(a: Agent, ins: seq<TickInput>)
    requires a.m.rows == [] && forall i <- ins :: FromEngine(i)
    ensures Gated(Ticks(a, ins))
  {
    forall i | i in ins ensures forall d <- i.decisions :: Automatic(d) {
      forall d | d in i.decisions ensures Automatic(d) {
        DecisionsAreEligible(i, d);
      }
    }
    GatesHold(a, ins);
  }

  // ---- The placement boundary --------------------------------------------

  /** A tick prepares by taking rows away only. */
  lemma CommandsAddNothing(a: Agent, c: Command)
    requires Gated(a)
    ensures forall r <- Handle(a, c).m.rows :: r in a.m.rows
  {
    hide RevertBy, RevertAll;
    match c
    case PausePolicies => RevertAllRows(a.m);
    case ForceRevertAll => RevertAllRows(a.m);
    case SetDifferentialPin(_) => RevertAllRows(a.m);
    case SetCorralLive(_, _) => RevertByRows(a.m, OfRule(CORRAL_RULE));
    case RemoveProcessRule(arg1, arg2) =>
      if Accepted(a.table, RemoveRule(arg1 % TWO_32, arg2 % TWO_32)) {
        RevertByRows(a.m, OfRuleAndName(USER_RULE, a.table.rules[arg1 % TWO_32].name));
      }
    case SetProfile(_) =>
      BothReverted(a.m);
      RevertByRows(a.m, OfRule(CORRAL_RULE));
    case _ =>
  }

  lemma PreparedAddsNothing(a: Agent, i: TickInput)
    requires Gated(a)
    ensures forall r <- Prepared(a, i).m.rows :: r in a.m.rows
  {
    hide Handle, RevertBy, PruneLog;
    var b := a.(m := a.m.(procs := i.world));
    assert forall r <- b.m.rows :: RowAllowed(a, r);
    CommandsAddNothing(b, i.command);
    HandleKeeps(b, i.command);
    var p := Prune(Handle(b, i.command), i.targets);
    PruneKeeps(Handle(b, i.command), i.targets);
    BothReverted(p.m);
  }

  /** A row that is not the user's and not the corral's is on a process that some tick found eligible. */
  ghost predicate EligibleIn(ins: seq<TickInput>, r: ActiveAction) {
    r.ruleId == USER_RULE || r.ruleId == CORRAL_RULE || exists i <- ins, t <- i.targets :: t.eligible && t.pid == r.pid
  }

  lemma TickPlacesEligible(a: Agent, i: TickInput)
    requires Gated(a) && FromEngine(i)
    ensures forall r <- Tick(a, i).m.rows :: r in a.m.rows || EligibleIn([i], r)
  {
    hide Prepared, UserPins, CorralAll, ApplyPass, FromEngine;
    var b := Prepared(a, i);
    PreparedGated(a, i);
    PreparedAddsNothing(a, i);
    var c := UserPass(b, i);
    UserPinsAreAsked(b, i.targets, i.ccds, i.clock);
    var d := CorralPass(c, i);
    CorralRespectsUsers(c, i.targets, i.ccds, i.clock);
    DecisionsAccount(d, i.targets, i.decisions);
    forall r | r in Tick(a, i).m.rows ensures r in a.m.rows || EligibleIn([i], r) {
      if r !in d.m.rows {
        var q :| q in i.decisions && q.pid == r.pid && q.ruleId == r.ruleId;
        DecisionsAreEligible(i, q);
      }
    }
  }

  /** The placement boundary over whole runs: a process that was never placement-eligible has no row, except
      by a rule of the user or by the corral. */
  lemma {:induction false} OnlyEligiblePlaced(a: Agent, ins: seq<TickInput>)
    requires a.m.rows == [] && forall i <- ins :: FromEngine(i)
    ensures forall r <- Ticks(a, ins).m.rows :: EligibleIn(ins, r)
  {
    hide Tick, FromEngine;
    if ins != [] {
      var front, last := ins[..|ins| - 1], ins[|ins| - 1];
      OnlyEligiblePlaced(a, front);
      EngineKeepsGates(a, front);
      TickPlacesEligible(Ticks(a, front), last);
      assert last in ins && forall i <- front :: i in ins;
    }
  }
}
