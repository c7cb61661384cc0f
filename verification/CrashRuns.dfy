/** Consequences of the crash theorem: operations that run to their end are the functions that the
    executor's methods compute, a restart repairs any reachable state, and when the dead-man may run. */
module CrashRuns {
  import opened Common
  import opened DiskRecords
  import opened KeyedLists
  import opened JournalSpec
  import opened Placement
  import opened Recovery
  import opened CrashSafety

  // ---- Operations as runs ------------------------------------------------

  /** Effects left in the operation in flight. */
  function Work(ctl: Control): nat {
    match ctl
    case Down => 0
    case Idle => 0
    case Pinning(stage, _, _) => (
      match stage
      case PinAppend => 4
      case PinSet => 3
      case PinFlip => 2
      case PinActivate => 1
    )
    case Reverting(targets, stage) =>
      1 + 3 * |targets| - (if targets == [] || stage == RevSet then 0 else if stage == RevFlip then 1 else 2)
    case Recovering(rest, stage) =>
      1 + 3 * |rest| - (if rest == [] || stage == RecCheck then 0 else if stage == RecSet then 1 else 2)
  }

  /** The operation in flight, uninterrupted to its end. */
  function RunOut(s: State): (t: State)
    ensures t.ctl == Down || t.ctl == Idle
    decreases Work(s.ctl)
  {
    if s.ctl == Down || s.ctl == Idle then s else RunOut(Advance(s))
  }

  lemma OneMore(s: State)
    requires s.ctl != Down && s.ctl != Idle
    ensures RunOut(s) == RunOut(Advance(s))
  {
  }

  /** After a granted Set: the flip and the row. */
  lemma PinFlipRunsOut(m: Machine, rec: DiskRecord, a: ActiveAction, tool: Tool)
    ensures RunOut(State(m, Pinning(PinFlip, rec, a), tool)) == State(Activate(FlipSlot(m, KeyOf(rec), APPLIED), a), Idle, tool)
  {
    var s := State(m, Pinning(PinFlip, rec, a), tool);
    OneMore(s);
    OneMore(Advance(s));
  }

  lemma PinRunsOut(m: Machine, q: PinRequest, tool: Tool)
    ensures RunOut(State(m, Pinning(PinAppend, PinRecord(m.procs, q), PinAction(m.procs, q)), tool)) == State(Pin(m, q), Idle, tool)
  {
    var rec, a := PinRecord(m.procs, q), PinAction(m.procs, q);
    var m1 := Append(m, rec);
    OneMore(State(m, Pinning(PinAppend, rec, a), tool));
    OneMore(State(m1, Pinning(PinSet, rec, a), tool));
    PinFlipRunsOut(Set(m1, a.pid, a.newMask), rec, a, tool);
  }

  lemma {:induction false} RevertRunsOut(m: Machine, targets: seq<ActiveAction>, tool: Tool)
    ensures RunOut(State(m, Reverting(targets, RevSet), tool)) == State(RevertRows(m, targets), Idle, tool)
    decreases |targets|
  {
    var s := State(m, Reverting(targets, RevSet), tool);
    var s1 := Advance(s);
    if targets == [] {
      assert RunOut(s) == RunOut(s1) == s1;
    } else {
      var s2 := Advance(s1);
      var s3 := Advance(s2);
      assert RunOut(s) == RunOut(s1) == RunOut(s2) == RunOut(s3);
      assert s3.m == RevertRow(m, targets[0]);
      RevertRunsOut(s3.m, targets[1..], tool);
    }
  }

  lemma {:induction false} RecoverRunsOut(m: Machine, rest: seq<RevertRecord>, tool: Tool)
    ensures RunOut(State(m, Recovering(rest, RecCheck), tool)) == State(RecoverAll(m, rest), Idle, tool)
    decreases |rest|
  {
    var s := State(m, Recovering(rest, RecCheck), tool);
    var s1 := Advance(s);
    if rest == [] {
      assert RunOut(s) == RunOut(s1) == s1;
    } else {
      var s2 := Advance(s1);
      var s3 := if s1.ctl.recoverStage == RecSet then Advance(s2) else s2;
      assert RunOut(s) == RunOut(s1) == RunOut(s2) == RunOut(s3);
      assert s3 == State(RecoverOne(m, rest[0]), Recovering(rest[1..], RecCheck), tool);
      RecoverRunsOut(s3.m, rest[1..], tool);
    }
  }

  /** The dead-man's steps on the next record, with nobody in between. */
  function ToolRecord(s: State): State
    requires s.tool.Walking? && s.tool.left != [] && s.tool.toolStage == RecCheck
  {
    var s1 := ToolAdvance(s);
    if s1.tool.toolStage == RecSet then ToolAdvance(ToolAdvance(s1)) else ToolAdvance(s1)
  }

  function ToolRecords(s: State): State
    requires s.tool.Walking? ==> s.tool.toolStage == RecCheck
    decreases if s.tool.Walking? then |s.tool.left| else 0
  {
    if s.tool.NoTool? || s.tool.left == [] then s.(tool := NoTool) else ToolRecords(ToolRecord(s))
  }

  /** One record: as long as no slot was added since the file was read, the slot flipped is the key's last. */
  lemma ToolRecordIs(s: State)
    requires s.tool.Walking? && s.tool.left != [] && s.tool.toolStage == RecCheck
    requires s.m.journalOpen && SameKeys(s.tool.found, s.m.slots)
    ensures ToolRecord(s) == s.(m := RecoverOne(s.m, s.tool.left[0]), tool := s.tool.(left := s.tool.left[1..]))
    ensures SameKeys(s.tool.found, RecoverOne(s.m, s.tool.left[0]).slots)
  {
    SameKeysSameIndex(s.tool.found, s.m.slots);
  }

  /** The dead-man's steps, with nobody in between, are the recovery pass. */
  lemma {:induction false} ToolRunsOut(s: State)
    requires s.tool.Walking? && s.tool.toolStage == RecCheck && s.m.journalOpen && SameKeys(s.tool.found, s.m.slots)
    ensures ToolRecords(s) == State(RecoverAll(s.m, s.tool.left), s.ctl, NoTool)
    decreases |s.tool.left|
  {
    if s.tool.left != [] {
      ToolRecordIs(s);
      ToolRunsOut(ToolRecord(s));
    }
  }

  // ---- Restart repairs everything ----------------------------------------

  /** The system grants what recovery asks for. */
  predicate AllGranted(procs: Procs) {
    forall p :: p in procs ==> procs[p].readable && procs[p].settable
  }

  /** Whatever happened before, a walk that finds the file as it is now - after a crash at this point,
      say - leaves every living process at its original mask. */
  lemma RestartRestores(s: State, run: seq<Step>)
    requires Initial(s) && Legal(s, run) && AllGranted(Final(s, run).m.procs)
    ensures var m' := RecoveryPass(Final(s, run).m.(journalOpen := true));
            forall pid :: pid in m'.procs ==> Restored(m'.procs, pid)
  {
    StartsInv(s);
    RunKeepsInv(s, run);
    PassRestores(Final(s, run).m.(journalOpen := true));
  }

  /** The same for any state that satisfies the invariant on slots. */
  lemma PassRestores(m: Machine)
    requires m.journalOpen && ProcsOk(m.procs) && AllGranted(m.procs)
    requires SlotsTruthful(m.procs, m.slots) && Covered(m.procs, m.slots)
    ensures var m' := RecoveryPass(m);
            && m'.procs.Keys == m.procs.Keys
            && forall pid :: pid in m'.procs ==>
                 m'.procs[pid] == m.procs[pid].(mask := m.procs[pid].orig)
  {
    PassResolves(m);
    var m' := RecoveryPass(m);
    forall pid | pid in m'.procs ensures m'.procs[pid] == m.procs[pid].(mask := m.procs[pid].orig) {
      PassWrites(m, pid);
      var k := ProcKey(m.procs, pid);
      var j := LastUnresolved(m.slots, k);
      if j >= 0 {
        LiveMatches(m.procs, Entry(k, SurvivorOf(m.slots[j])));
      }
    }
  }

  /** Recovery brings a process back exactly when it is there already or an unresolved slot speaks for it. */
  lemma RestoredIff(m: Machine, pid: U32)
    requires m.journalOpen && ProcsOk(m.procs) && AllGranted(m.procs) && SlotsTruthful(m.procs, m.slots) && pid in m.procs
    ensures var m' := RecoveryPass(m);
            && pid in m'.procs && m'.procs[pid].orig == m.procs[pid].orig
            && (Restored(m'.procs, pid) <==> Restored(m.procs, pid) || LastUnresolved(m.slots, ProcKey(m.procs, pid)) >= 0)
  {
    PassWrites(m, pid);
    var k := ProcKey(m.procs, pid);
    var j := LastUnresolved(m.slots, k);
    if j >= 0 {
      LiveMatches(m.procs, Entry(k, SurvivorOf(m.slots[j])));
    }
  }

  // ---- When the dead-man may run -----------------------------------------

  /** Some slot of the key other than its last one is unresolved. */
  predicate OlderUnresolved(slots: seq<DiskRecord>, k: RevertKey) {
    exists i :: 0 <= i < LastSlot(slots, k) && KeyOf(slots[i]) == k && Unresolved(slots[i])
  }

  /** The dead-man says it is safe to run anytime. It is, beside the agent and in any interleaving (see
      CrashSafety.DeadManKeepsInv), unless it reads the journal between the agent's append and its Set:
      then it resolves the slot that was to protect the Set. If the agent sets the mask after the walk and
      dies, the next recovery brings the process back exactly when an older slot of its key is still open. */
  lemma DeadManBetweenAppendAndSet(s: State)
    requires Inv(s) && AllGranted(s.m.procs)
    requires s.ctl.Pinning? && s.ctl.pinStage == PinSet
    requires s.ctl.action.pid in s.m.procs
    requires s.ctl.action.newMask != 0 && s.ctl.action.newMask != s.m.procs[s.ctl.action.pid].orig
    ensures var a := s.ctl.action;
            var m' := RecoveryPass(Set(RecoveryPass(s.m), a.pid, a.newMask));
            && a.pid in m'.procs
            && (Restored(m'.procs, a.pid) <==> OlderUnresolved(s.m.slots, KeyOf(s.ctl.rec)))
  {
    var a, k := s.ctl.action, KeyOf(s.ctl.rec);
    AfterPass(s.m);
    var m1 := RecoveryPass(s.m);
    SetMaskFacts(m1.procs, a.pid, a.newMask);
    var m2 := Set(m1, a.pid, a.newMask);
    MasksDoNotMatter(m1, m2.procs);
    StillUnresolved(s.m, k);
    PassWrites(m2, a.pid);
    var j := LastUnresolved(m2.slots, k);
    if j >= 0 {
      LiveMatches(m2.procs, Entry(k, SurvivorOf(m2.slots[j])));
    }
  }

  lemma AfterPass(m: Machine)
    requires m.journalOpen && ProcsOk(m.procs) && AllGranted(m.procs) && RowsOk(m.procs, m.rows)
    requires SlotsTruthful(m.procs, m.slots) && Covered(m.procs, m.slots)
    ensures var m' := RecoveryPass(m);
            && m'.journalOpen && m'.rows == m.rows && m'.procs.Keys == m.procs.Keys
            && SameProcesses(m'.procs, m.procs) && AllGranted(m'.procs)
            && (forall p :: p in m'.procs ==> Restored(m'.procs, p))
            && ProcsOk(m'.procs) && SlotsTruthful(m'.procs, m'.slots) && Covered(m'.procs, m'.slots)
            && RowsOk(m'.procs, m'.rows)
  {
    PassResolves(m);
    PassRestores(m);
    PassKeepsJournalOpen(m);
    MasksDoNotMatter(m, RecoveryPass(m).procs);
  }

  lemma StillUnresolved(m: Machine, k: RevertKey)
    requires m.journalOpen
    ensures LastUnresolved(RecoveryPass(m).slots, k) >= 0 <==> OlderUnresolved(m.slots, k)
  {
    PassResolves(m);
    var slots := RecoveryPass(m).slots;
    if OlderUnresolved(m.slots, k) {
      var i :| 0 <= i < LastSlot(m.slots, k) && KeyOf(m.slots[i]) == k && Unresolved(m.slots[i]);
      assert slots[i] == m.slots[i];
      HasUnresolved(slots, k, i);
    }
  }

  // ---- What a pin must find ----------------------------------------------

  /** Recovery brings a process back to where its last pin found it. So a process that is pinned while it
      is moved - its row was pruned, say, although it lives - is not brought back to its original mask. */
  lemma LastPinWins(m: Machine, q: PinRequest)
    requires m.journalOpen && ProcsOk(m.procs) && q.pid in m.procs && PinAllowed(State(m, Idle, NoTool), q)
    requires SetSucceeds(m.procs, q.pid, q.coreMask) && m.procs[q.pid].mask != 0
    ensures var t := RecoveryPass(Pin(m, q));
            && q.pid in t.procs && t.procs[q.pid].mask == m.procs[q.pid].mask
            && (Restored(t.procs, q.pid) <==> Restored(m.procs, q.pid))
  {
    var rec := PinRecord(m.procs, q);
    var k, slots, t := KeyOf(rec), m.slots + [rec], Pin(m, q);
    LastMatchAppend(m.slots, rec, k);
    assert t.slots == Flip(slots, k, APPLIED) == m.slots + [rec.(status := APPLIED)];
    LastUnresolvedAppend(m.slots, rec.(status := APPLIED), k);
    PassWrites(t, q.pid);
    PinnedMatches(m, q);
  }

  /** The record of a pin fits the process it was made for. */
  lemma PinnedMatches(m: Machine, q: PinRequest)
    requires m.journalOpen && ProcsOk(m.procs) && q.pid in m.procs && PinAllowed(State(m, Idle, NoTool), q)
    requires SetSucceeds(m.procs, q.pid, q.coreMask)
    ensures StillMatches(Pin(m, q).procs, Entry(KeyOf(PinRecord(m.procs, q)), SurvivorOf(PinRecord(m.procs, q).(status := APPLIED))))
  {
    CopyStrReadBack(PinName(m.procs, q));
    CStrTwice(CStr(m.procs[q.pid].exe, 63), 63);
  }

  // ---- A pin that was not journaled --------------------------------------

  /** An agent without a journal, or one whose PENDING record did not reach the file, sets the mask all the
      same. The next recovery then brings the process back exactly when an older slot of its key speaks for
      it: an unresolved one, or, if the journal is open, any - the flip to APPLIED reopens the last one. */
  lemma UnloggedPin(m: Machine, q: PinRequest)
    requires MachineOk(m) && AllGranted(m.procs) && q.pid in m.procs && Restored(m.procs, q.pid)
    requires PinKeyTime(m.procs, q) == m.procs[q.pid].creationTime
    requires q.coreMask != 0 && q.coreMask != m.procs[q.pid].orig
    ensures var t, k := RecoveryPass(PinUnlogged(m, q).(journalOpen := true)), ProcKey(m.procs, q.pid);
            && q.pid in t.procs
            && (Restored(t.procs, q.pid) <==> (if m.journalOpen then LastSlot(m.slots, k) else LastUnresolved(m.slots, k)) >= 0)
  {
    var k, t := ProcKey(m.procs, q.pid), PinUnlogged(m, q).(journalOpen := true);
    SetMaskFacts(m.procs, q.pid, q.coreMask);
    MasksDoNotMatter(m, t.procs);
    assert SlotsTruthful(t.procs, t.slots);
    var i := LastSlot(m.slots, k);
    if m.journalOpen && i >= 0 {
      HasUnresolved(t.slots, k, i);
    }
    PassWrites(t, q.pid);
    var j := LastUnresolved(t.slots, k);
    if j >= 0 {
      LiveMatches(t.procs, Entry(k, SurvivorOf(t.slots[j])));
    }
  }
}
