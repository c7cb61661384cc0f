/** Which processes an agent has moved. As long as only rows of dead processes are pruned, an idle agent
    with a journal holds a row for each of them; so a process without a row is at its original mask, and
    the condition that the crash theorem puts on pins is met by itself. */
module HeldProcesses {
  import opened Common
  import opened Placement
  import opened CrashSafety

  /** Every process the agent holds no row for is where it was. */
  ghost predicate OthersRestored(procs: Procs, rows: seq<ActiveAction>, except: set<U32>) {
    forall pid :: pid in procs && pid !in except && !Holds(rows, pid) ==> Restored(procs, pid)
  }

  /** An agent whose start could not open the journal has restored nothing, and pins nothing. */
  ghost predicate Held(s: State) {
    s.m.journalOpen ==>
    match s.ctl
    case Down => true
    case Recovering(_, _) => true
    case Idle => OthersRestored(s.m.procs, s.m.rows, {})
    case Reverting(_, _) => OthersRestored(s.m.procs, s.m.rows, {})
    case Pinning(stage, _, a) =>
      OthersRestored(s.m.procs, s.m.rows, if stage == PinFlip || stage == PinActivate then {a.pid} else {})
  }

  /** Prunes name the living. */
  predicate Faithful(s: State, step: Step) {
    match step
    case Prune(live) => forall a <- s.m.rows :: a.pid in s.m.procs ==> a.pid in live
    case _ => true
  }

  predicate FaithfulRun(s: State, run: seq<Step>)
    decreases run
  {
    run == [] || (Faithful(s, run[0]) && FaithfulRun(Exec(s, run[0]), run[1..]))
  }

  lemma PinKeepsHeld(s: State)
    requires Inv(s) && Held(s) && s.ctl.Pinning?
    ensures Held(Advance(s))
  {
    var a := s.ctl.action;
    match s.ctl.pinStage
    case PinAppend =>
    case PinSet => SetMaskFacts(s.m.procs, a.pid, a.newMask);
    case PinFlip =>
    case PinActivate =>
      assert (s.m.rows + [a])[|s.m.rows|] == a;
      forall pid | Holds(s.m.rows, pid) ensures Holds(s.m.rows + [a], pid) {
        var i :| 0 <= i < |s.m.rows| && s.m.rows[i].pid == pid;
        assert (s.m.rows + [a])[i].pid == pid;
      }
  }

  lemma RevertKeepsHeld(s: State)
    requires Inv(s) && Held(s) && s.ctl.Reverting? && RestoreWorks(s)
    ensures Held(Advance(s))
  {
    var targets, rows := s.ctl.targets, s.m.rows;
    if targets != [] {
      var a := targets[0];
      assert a in targets && a in rows && RowTrue(s.m.procs, a);
      match s.ctl.revertStage
      case RevSet => RestoreKeeps(s.m, ActionKey(a), a.prevMask);
      case RevFlip =>
      case RevRetire =>
        forall pid | s.m.journalOpen && pid in s.m.procs && !Holds(Select(rows, NotOfPid(a.pid)), pid) ensures Restored(s.m.procs, pid) {
          if pid != a.pid {
            SelectHolds(rows, NotOfPid(a.pid), pid);
          }
        }
    }
  }

  /** The dead-man only sets processes back. */
  lemma ToolKeepsHeld(s: State)
    requires Inv(s) && Held(s) && s.tool.Walking? && ToolWorks(s)
    ensures Held(ToolAdvance(s))
  {
    if s.tool.left != [] && s.tool.toolStage == RecSet {
      WalkSetKeeps(s.m, s.tool.left);
    }
  }

  lemma PruneKeepsHeld(s: State, live: set<U32>)
    requires Held(s) && s.ctl == Idle && Faithful(s, Prune(live))
    ensures Held(Exec(s, Prune(live)))
  {
    forall pid | s.m.journalOpen && pid in s.m.procs && !Holds(Select(s.m.rows, OfLive(live)), pid) ensures Restored(s.m.procs, pid) {
      SelectHolds(s.m.rows, OfLive(live), pid);
    }
  }

  lemma ContinueKeepsHeld(s: State)
    requires Inv(s) && Held(s) && Enabled(s, Continue)
    ensures Held(Advance(s))
  {
    match s.ctl
    case Pinning(_, _, _) => PinKeepsHeld(s);
    case Reverting(_, _) => RevertKeepsHeld(s);
    case Recovering(_, _) =>
  }

  lemma StepKeepsHeld(s: State, step: Step)
    requires Inv(s) && Held(s) && Enabled(s, step) && Faithful(s, step)
    ensures Held(Exec(s, step))
  {
    match step
    case Continue => ContinueKeepsHeld(s);
    case ToolStep => ToolKeepsHeld(s);
    case Prune(live) => PruneKeepsHeld(s, live);
    case Exit(pid) =>
      forall p | p in s.m.procs - {pid} ensures (s.m.procs - {pid})[p] == s.m.procs[p] {
      }
    case _ =>
  }

  lemma {:induction false} RunKeepsHeld(s: State, run: seq<Step>)
    requires Inv(s) && Held(s) && Legal(s, run) && FaithfulRun(s, run)
    ensures Inv(Final(s, run)) && Held(Final(s, run))
    decreases run
  {
    if run != [] {
      StepKeepsInv(s, run[0]);
      StepKeepsHeld(s, run[0]);
      RunKeepsHeld(Exec(s, run[0]), run[1..]);
    }
  }

  /** At any point of such a run, an idle agent with a journal holds a row for every process that is moved,
      and the row carries what the revert needs; with no rows left nothing is moved. */
  lemma MovedIsHeld(s: State, run: seq<Step>)
    requires Initial(s) && Legal(s, run) && FaithfulRun(s, run) && Final(s, run).ctl == Idle && Final(s, run).m.journalOpen
    ensures var m := Final(s, run).m;
            forall pid :: pid in m.procs && m.procs[pid].mask != m.procs[pid].orig ==>
              exists a :: a in m.rows && a.pid == pid && a.prevMask == m.procs[pid].orig
                       && a.creationTime == m.procs[pid].creationTime
  {
    StartsInv(s);
    RunKeepsHeld(s, run);
    var m := Final(s, run).m;
    forall pid | pid in m.procs && m.procs[pid].mask != m.procs[pid].orig
      ensures exists a :: a in m.rows && a.pid == pid && a.prevMask == m.procs[pid].orig
                       && a.creationTime == m.procs[pid].creationTime
    {
      assert Holds(m.rows, pid);
      var i :| 0 <= i < |m.rows| && m.rows[i].pid == pid;
      assert m.rows[i] in m.rows && RowTrue(m.procs, m.rows[i]);
    }
  }

  /** So there the crash theorem asks nothing of a pin but what PinAllowed says. */
  lemma PinsFindOriginalMask(s: State, run: seq<Step>, q: PinRequest)
    requires Initial(s) && Legal(s, run) && FaithfulRun(s, run) && PinAllowed(Final(s, run), q)
    ensures Enabled(Final(s, run), BeginPin(q))
  {
    StartsInv(s);
    RunKeepsHeld(s, run);
  }
}
