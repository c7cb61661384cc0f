/** Tidiness over whole runs: as long as no forward Set fails, a second recovery walk finds nothing. */
module RunLaws {
  import opened Common
  import opened DiskRecords
  import opened KeyedLists
  import opened JournalSpec
  import opened Placement
  import opened Recovery
  import opened CrashSafety
  import opened HeldProcesses

  // ---- Tidiness ----------------------------------------------------------

  /** Only live processes are pinned, and their Set succeeds; prunes are faithful. */
  predicate NoFailedSet(s: State, step: Step) {
    Faithful(s, step) &&
    match step
    case BeginPin(q) => q.pid in s.m.procs
    case Continue =>
      s.ctl.Pinning? && s.ctl.pinStage == PinSet ==> SetSucceeds(s.m.procs, s.ctl.action.pid, s.ctl.action.newMask)
    case _ => true
  }

  predicate Successful(s: State, run: seq<Step>)
    decreases run
  {
    run == [] || (NoFailedSet(s, run[0]) && Successful(Exec(s, run[0]), run[1..]))
  }

  /** Live processes without a row have nothing unresolved. */
  ghost predicate OthersResolved(m: Machine, except: set<U32>) {
    forall pid :: pid in m.procs && pid !in except && !Holds(m.rows, pid) ==>
      LastUnresolved(m.slots, ProcKey(m.procs, pid)) < 0
  }

  ghost predicate TidyControl(m: Machine, ctl: Control) {
    m.journalOpen ==>
    match ctl
    case Down => true
    case Idle => OthersResolved(m, {})
    case Pinning(stage, rec, a) =>
      && (stage == PinAppend ==> LastUnresolved(m.slots, KeyOf(rec)) < 0)
      && OthersResolved(m, if stage == PinAppend then {} else {a.pid})
    case Reverting(targets, stage) =>
      && OthersResolved(m, {})
      && (targets != [] && stage == RevRetire ==> LastUnresolved(m.slots, ActionKey(targets[0])) < 0)
    case Recovering(rest, _) => forall k :: LastUnresolved(m.slots, k) >= 0 ==> HasKey(rest, k)
  }

  ghost predicate TidyInv(s: State) {
    Tidy(s.m.slots) && TidyControl(s.m, s.ctl)
  }

  lemma FlipTidy(slots: seq<DiskRecord>, k: RevertKey, v: U32)
    requires Tidy(slots)
    ensures Tidy(Flip(slots, k, v))
    ensures forall other :: other != k ==> (LastUnresolved(Flip(slots, k, v), other) >= 0 <==> LastUnresolved(slots, other) >= 0)
    ensures v == REVERTED ==> LastUnresolved(Flip(slots, k, v), k) < 0
  {
    var slots' := Flip(slots, k, v);
    SameKeysSameIndex(slots, slots');
    forall other | other != k
      ensures LastUnresolved(slots', other) >= 0 <==> LastUnresolved(slots, other) >= 0
    {
      if LastUnresolved(slots, other) >= 0 {
        HasUnresolved(slots', other, LastUnresolved(slots, other));
      }
      if LastUnresolved(slots', other) >= 0 {
        HasUnresolved(slots, other, LastUnresolved(slots', other));
      }
    }
  }

  lemma AppendTidy(slots: seq<DiskRecord>, rec: DiskRecord)
    requires Tidy(slots) && LastUnresolved(slots, KeyOf(rec)) < 0
    ensures Tidy(slots + [rec])
  {
    forall i | 0 <= i < |slots + [rec]| && Unresolved((slots + [rec])[i])
      ensures i == LastSlot(slots + [rec], KeyOf((slots + [rec])[i]))
    {
      var k := KeyOf((slots + [rec])[i]);
      LastMatchAppend(slots, rec, k);
      if i < |slots| {
        HasUnresolved(slots, k, i);
      }
    }
  }

  lemma PinTidy(s: State)
    requires Inv(s) && TidyInv(s) && s.ctl.Pinning? && NoFailedSet(s, Continue)
    ensures TidyInv(Advance(s))
  {
    var Pinning(stage, rec, a) := s.ctl;
    match stage
    case PinAppend =>
      AppendTidy(s.m.slots, rec);
      forall k | k != KeyOf(rec)
        ensures LastUnresolved(s.m.slots + [rec], k) == LastUnresolved(s.m.slots, k)
      {
        LastUnresolvedAppend(s.m.slots, rec, k);
      }
    case PinSet => SetMaskFacts(s.m.procs, a.pid, a.newMask);
    case PinFlip => FlipPinned(s);
    case PinActivate =>
      forall pid | pid in s.m.procs && !Holds(s.m.rows + [a], pid) ensures pid != a.pid && !Holds(s.m.rows, pid) {
        ActivateHolds(s.m.rows, a, pid);
      }
  }

  lemma ActivateHolds(rows: seq<ActiveAction>, a: ActiveAction, pid: U32)
    ensures Holds(rows + [a], pid) <==> pid == a.pid || Holds(rows, pid)
  {
    assert (rows + [a])[|rows|] == a;
    if Holds(rows, pid) {
      var i :| 0 <= i < |rows| && rows[i].pid == pid;
      assert (rows + [a])[i].pid == pid;
    }
  }

  /** The slot being flipped to APPLIED is the key's last one. */
  lemma FlipPinned(s: State)
    requires Inv(s) && TidyInv(s) && s.ctl.Pinning? && s.ctl.pinStage == PinFlip
    ensures TidyInv(Advance(s))
  {
    FlipTidy(s.m.slots, KeyOf(s.ctl.rec), APPLIED);
  }

  lemma RevertTidy(s: State)
    requires Inv(s) && TidyInv(s) && s.ctl.Reverting?
    ensures TidyInv(Advance(s))
  {
    var targets := s.ctl.targets;
    if targets != [] {
      var a := targets[0];
      assert a in targets && RowTrue(s.m.procs, a);
      match s.ctl.revertStage
      case RevSet => SetMaskFacts(s.m.procs, a.pid, a.prevMask);
      case RevFlip => FlipTidy(s.m.slots, ActionKey(a), REVERTED);
      case RevRetire => RetireTidy(s);
    }
  }

  lemma RetireTidy(s: State)
    requires Inv(s) && TidyInv(s) && s.ctl.Reverting? && s.ctl.targets != [] && s.ctl.revertStage == RevRetire
    ensures TidyInv(Advance(s))
  {
    var a := s.ctl.targets[0];
    assert a in s.ctl.targets && RowTrue(s.m.procs, a);
    forall pid | s.m.journalOpen && pid in s.m.procs && !Holds(Select(s.m.rows, NotOfPid(a.pid)), pid)
      ensures LastUnresolved(s.m.slots, ProcKey(s.m.procs, pid)) < 0
    {
      if pid != a.pid {
        SelectHolds(s.m.rows, NotOfPid(a.pid), pid);
      }
    }
  }

  lemma RestKeys(rest: seq<RevertRecord>)
    requires rest != []
    ensures forall k :: HasKey(rest, k) && k != rest[0].key ==> HasKey(rest[1..], k)
  {
    forall k | HasKey(rest, k) && k != rest[0].key ensures HasKey(rest[1..], k) {
      var i :| 0 <= i < |rest| && rest[i].key == k;
      assert rest[1..][i - 1] == rest[i];
    }
  }

  lemma RecoverTidy(s: State)
    requires Inv(s) && TidyInv(s) && s.ctl.Recovering?
    ensures TidyInv(Advance(s))
  {
    var rest := s.ctl.rest;
    if rest != [] {
      var rec := rest[0];
      match s.ctl.recoverStage
      case RecCheck =>
      case RecSet => SetMaskFacts(s.m.procs, rec.key.pid, rec.value.prevMask);
      case RecFlip =>
        FlipTidy(s.m.slots, rec.key, REVERTED);
        RestKeys(rest);
    }
  }

  /** Resolving a slot, whichever it is, opens nothing. */
  lemma ResolvedTidy(m: Machine, ctl: Control, slots: seq<DiskRecord>)
    requires Tidy(m.slots) && TidyControl(m, ctl) && SameKeys(m.slots, slots)
    requires forall i :: 0 <= i < |slots| && Unresolved(slots[i]) ==> Unresolved(m.slots[i])
    ensures Tidy(slots) && TidyControl(m.(slots := slots), ctl)
  {
    SameKeysSameIndex(m.slots, slots);
    forall k | LastUnresolved(slots, k) >= 0 ensures LastUnresolved(m.slots, k) >= 0 {
      HasUnresolved(m.slots, k, LastUnresolved(slots, k));
    }
  }

  lemma ToolTidy(s: State)
    requires Inv(s) && TidyInv(s) && s.tool.Walking?
    ensures TidyInv(ToolAdvance(s))
  {
    var left := s.tool.left;
    if left != [] {
      var rec := left[0];
      match s.tool.toolStage
      case RecCheck =>
      case RecSet => SetMaskFacts(s.m.procs, rec.key.pid, rec.value.prevMask);
      case RecFlip =>
        FlipFoundSlots(s.m.slots, s.tool.found, rec.key);
        ResolvedTidy(s.m, s.ctl, FlipFound(s.m.slots, s.tool.found, rec.key));
    }
  }

  lemma StepTidy(s: State, step: Step)
    requires Inv(s) && TidyInv(s) && Enabled(s, step) && NoFailedSet(s, step)
    ensures TidyInv(Exec(s, step))
  {
    match step
    case StartAgent(_) => WalkListsUnresolved(s.m.slots);
    case StartTool =>
    case ToolStep => ToolTidy(s);
    case ToolStops =>
    case BeginPin(q) =>
    case BeginRevert(sel) =>
    case BeginRevertAll =>
    case Prune(live) => PruneTidy(s, live);
    case Continue => ContinueTidy(s);
    case Crash =>
    case Spawn(pid, proc) => SpawnTidy(s, pid, proc);
    case Exit(pid) => ExitTidy(s, pid);
    case Rights(pid, r, w, n) => RightsTidy(s, pid, r, w, n);
  }

  lemma PruneTidy(s: State, live: set<U32>)
    requires Inv(s) && TidyInv(s) && Enabled(s, Prune(live)) && Faithful(s, Prune(live))
    ensures TidyInv(Exec(s, Prune(live)))
  {
    hide PruneLog, Tidy;
    forall pid | s.m.journalOpen && pid in s.m.procs && !Holds(Select(s.m.rows, OfLive(live)), pid)
      ensures LastUnresolved(s.m.slots, ProcKey(s.m.procs, pid)) < 0
    {
      SelectHolds(s.m.rows, OfLive(live), pid);
    }
  }

  lemma ContinueTidy(s: State)
    requires Inv(s) && TidyInv(s) && Enabled(s, Continue) && NoFailedSet(s, Continue)
    ensures TidyInv(Advance(s))
  {
    match s.ctl
    case Pinning(_, _, _) => PinTidy(s);
    case Reverting(_, _) => RevertTidy(s);
    case Recovering(_, _) => RecoverTidy(s);
  }

  lemma RightsTidy(s: State, pid: U32, r: bool, w: bool, n: bool)
    requires TidyInv(s) && pid in s.m.procs
    ensures TidyInv(Exec(s, Rights(pid, r, w, n)))
  {
  }

  lemma WalkListsUnresolved(slots: seq<DiskRecord>)
    ensures forall k :: LastUnresolved(slots, k) >= 0 ==> HasKey(Recovered(slots), k)
  {
    RecoveredMeaning(slots);
    forall k | LastUnresolved(slots, k) >= 0
      ensures HasKey(Recovered(slots), k)
    {
      KeyHasMember(Recovered(slots), k);
    }
  }

  lemma SpawnTidy(s: State, pid: U32, proc: Proc)
    requires Inv(s) && TidyInv(s) && Enabled(s, Spawn(pid, proc))
    ensures TidyInv(Exec(s, Spawn(pid, proc)))
  {
    var k := RevertKey(pid, proc.creationTime);
    assert LastUnresolved(s.m.slots, k) < 0;
  }

  lemma ExitTidy(s: State, pid: U32)
    requires TidyInv(s) && pid in s.m.procs
    ensures TidyInv(Exec(s, Exit(pid)))
  {
    var procs := s.m.procs - {pid};
    forall p | p in procs ensures procs[p] == s.m.procs[p] {
    }
  }

  /** As long as no forward Set fails, every run - crashes included - keeps the journal tidy, so that a
      recovery walk started at any moment leaves nothing for a second one. */
  lemma {:induction false} SuccessfulRunsTidy(s: State, run: seq<Step>)
    requires Inv(s) && TidyInv(s) && Legal(s, run) && Successful(s, run)
    ensures Tidy(Final(s, run).m.slots)
    ensures Recovered(RecoveryPass(Final(s, run).m.(journalOpen := true)).slots) == []
    decreases run
  {
    if run == [] {
      SecondPassIdleIffTidy(s.m.(journalOpen := true));
    } else {
      StepTidy(s, run[0]);
      StepKeepsInv(s, run[0]);
      SuccessfulRunsTidy(Exec(s, run[0]), run[1..]);
    }
  }

  // ---- When it is not ----------------------------------------------------

  lemma OneStep(s: State, step: Step, rest: seq<Step>)
    requires Enabled(s, step) && Legal(Exec(s, step), rest)
    ensures Legal(s, [step] + rest) && Final(s, [step] + rest) == Final(Exec(s, step), rest)
  {
    assert ([step] + rest)[1..] == rest;
  }

  /** A pin, start to end, from an idle agent. */
  lemma PinRun(s: State, q: PinRequest, rest: seq<Step>)
    requires Enabled(s, BeginPin(q)) && SetSucceeds(s.m.procs, q.pid, q.coreMask)
    requires Legal(s.(m := Pin(s.m, q)), rest)
    ensures var run := [BeginPin(q), Continue, Continue, Continue, Continue] + rest;
            Legal(s, run) && Final(s, run) == Final(s.(m := Pin(s.m, q)), rest)
  {
    hide Legal, Final;
    var s1 := Exec(s, BeginPin(q));
    var s2 := Advance(s1);
    var s3 := Advance(s2);
    var s4 := Advance(s3);
    assert Advance(s4) == s.(m := Pin(s.m, q));
    OneStep(s4, Continue, rest);
    OneStep(s3, Continue, [Continue] + rest);
    OneStep(s2, Continue, [Continue] + ([Continue] + rest));
    OneStep(s1, Continue, [Continue] + ([Continue] + ([Continue] + rest)));
    OneStep(s, BeginPin(q), [Continue] + ([Continue] + ([Continue] + ([Continue] + rest))));
    assert [BeginPin(q)] + ([Continue] + ([Continue] + ([Continue] + ([Continue] + rest))))
        == [BeginPin(q), Continue, Continue, Continue, Continue] + rest;
  }

  /** A pin whose Set is denied: the PENDING slot stays. */
  lemma FailedPinRun(s: State, q: PinRequest, rest: seq<Step>)
    requires Enabled(s, BeginPin(q)) && !SetSucceeds(s.m.procs, q.pid, q.coreMask)
    requires Legal(s.(m := Pin(s.m, q)), rest)
    ensures var run := [BeginPin(q), Continue, Continue] + rest;
            Legal(s, run) && Final(s, run) == Final(s.(m := Pin(s.m, q)), rest)
  {
    hide Legal, Final;
    var s1 := Exec(s, BeginPin(q));
    var s2 := Advance(s1);
    assert Advance(s2) == s.(m := Pin(s.m, q));
    OneStep(s2, Continue, rest);
    OneStep(s1, Continue, [Continue] + rest);
    OneStep(s, BeginPin(q), [Continue] + ([Continue] + rest));
    assert [BeginPin(q)] + ([Continue] + ([Continue] + rest)) == [BeginPin(q), Continue, Continue] + rest;
  }

  function OneProcess(settable: bool): Procs {
    map[7 := Proc(1, [], 3, 3, true, settable, false)]
  }

  /** Start, a denied pin, the right granted, the pin again. */
  lemma DeniedThenGranted(m: Machine, m2: Machine, q: PinRequest) returns (run: seq<Step>)
    requires m.rows == [] && m.log == [] && m.slots == [] && m.journalOpen && q.pid in m.procs
    requires Enabled(State(m, Idle, NoTool), BeginPin(q)) && !SetSucceeds(m.procs, q.pid, q.coreMask)
    requires m2 == Exec(State(Pin(m, q), Idle, NoTool), Rights(q.pid, true, true, false)).m
    requires Enabled(State(m2, Idle, NoTool), BeginPin(q)) && SetSucceeds(m2.procs, q.pid, q.coreMask)
    ensures Legal(State(m, Down, NoTool), run) && Final(State(m, Down, NoTool), run) == State(Pin(m2, q), Idle, NoTool)
  {
    var s0, s1, s2 := State(m, Idle, NoTool), State(Pin(m, q), Idle, NoTool), State(m2, Idle, NoTool);
    var start := State(m, Recovering([], RecCheck), NoTool);
    run := [];
    assert Legal(State(Pin(m2, q), Idle, NoTool), []);
    hide Legal, Final;
    PinRun(s2, q, run);
    run := [BeginPin(q), Continue, Continue, Continue, Continue] + run;
    OneStep(s1, Rights(q.pid, true, true, false), run);
    run := [Rights(q.pid, true, true, false)] + run;
    FailedPinRun(s0, q, run);
    run := [BeginPin(q), Continue, Continue] + run;
    OneStep(start, Continue, run);
    run := [Continue] + run;
    OneStep(State(m, Down, NoTool), StartAgent(true), run);
    run := [StartAgent(true)] + run;
  }

  /** The tool calls its walk idempotent. Here is a run after which a second walk still finds the process:
      its first pin is denied, its second granted, and the first walk resolves the second slot alone. */
  lemma SecondWalkFindsFailedPin()
    ensures exists s, run :: Initial(s) && Legal(s, run) && Final(s, run).ctl == Idle
                          && Recovered(RecoveryPass(Final(s, run).m).slots) != []
  {
    hide RecoveryPass, Recovered, Legal, Final, FlipSlot;
    var q := PinRequest(7, 1, 1, [], 0, 0);
    var m := Machine(OneProcess(false), true, [], [], []);
    var m2 := Pin(m, q).(procs := OneProcess(true));
    assert Pin(m, q).slots == [PinRecord(m.procs, q)] == [PinRecord(m2.procs, q)];
    var run := DeniedThenGranted(m, m2, q);
    TwoSlots(m2, Pin(m2, q), q);
    assert Initial(State(m, Down, NoTool));
  }

  lemma TwoSlots(m2: Machine, m3: Machine, q: PinRequest)
    requires m2.journalOpen && SetSucceeds(m2.procs, q.pid, q.coreMask) && m3 == Pin(m2, q)
    requires m2.slots == [PinRecord(m2.procs, q)]
    ensures Recovered(RecoveryPass(m3).slots) != []
  {
    var rec := PinRecord(m2.procs, q);
    LastMatchAppend([rec], rec, KeyOf(rec));
    var slots := Flip([rec] + [rec], KeyOf(rec), APPLIED);
    assert m3.slots == slots && slots[0] == rec && Unresolved(slots[0]);
    SameKeysSameIndex([rec] + [rec], slots);
    SecondPassIdleIffTidy(m3);
  }
}
