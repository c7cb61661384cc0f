/** Crash safety of journaled placement, over whole runs. The agent, the dead-man tool and the
    operating system run side by side and interleave effect by effect; the agent or the tool may die
    between any two effects and be started again any number of times. */
module CrashSafety {
  import opened Common
  import opened DiskRecords
  import opened KeyedLists
  import opened JournalSpec
  import opened Placement

  // ---- Control -----------------------------------------------------------

  datatype PinStage = PinAppend | PinSet | PinFlip | PinActivate
  datatype RevertStage = RevSet | RevFlip | RevRetire
  datatype RecoverStage = RecCheck | RecSet | RecFlip

  datatype Control =
    | Down
    | Idle
    | Pinning(pinStage: PinStage, rec: DiskRecord, action: ActiveAction)
    | Reverting(targets: seq<ActiveAction>, revertStage: RevertStage)
    | Recovering(rest: seq<RevertRecord>, recoverStage: RecoverStage)

  /** The dead-man is a process of its own. It knows the slots as it found them when it opened the file,
      and flips a record where it was then. `alone`: no agent was up at any time of its walk. */
  datatype Tool =
    | NoTool
    | Walking(found: seq<DiskRecord>, left: seq<RevertRecord>, toolStage: RecoverStage, alone: bool)

  datatype State = State(m: Machine, ctl: Control, tool: Tool)

  datatype Step =
    | StartAgent(journalOk: bool)
    | StartTool
    | ToolStep
    | ToolStops
    | BeginPin(q: PinRequest)
    | BeginRevert(sel: Selector)
    | BeginRevertAll
    | Prune(live: set<U32>)
    | Continue
    | Crash
    | Spawn(newPid: U32, proc: Proc)
    | Exit(gone: U32)
    | Rights(who: U32, readable: bool, settable: bool, named: bool)

  // ---- Effects of the operation in flight --------------------------------

  /** The next effect of the agent's operation in flight. */
  function Advance(s: State): State {
    match s.ctl
    case Down => s
    case Idle => s
    case Pinning(stage, rec, a) => (
      match stage
      case PinAppend => s.(m := Append(s.m, rec), ctl := Pinning(PinSet, rec, a))
      case PinSet =>
        if SetSucceeds(s.m.procs, a.pid, a.newMask)
        then s.(m := Set(s.m, a.pid, a.newMask), ctl := Pinning(PinFlip, rec, a))
        else s.(ctl := Idle)
      case PinFlip => s.(m := FlipSlot(s.m, KeyOf(rec), APPLIED), ctl := Pinning(PinActivate, rec, a))
      case PinActivate => s.(m := Activate(s.m, a), ctl := Idle)
    )
    case Reverting(targets, stage) => (
      if targets == [] then s.(ctl := Idle)
      else
        var a := targets[0];
        match stage
        case RevSet => s.(m := SetBack(s.m, a.pid, a.prevMask), ctl := Reverting(targets, RevFlip))
        case RevFlip => s.(m := FlipSlot(s.m, ActionKey(a), REVERTED), ctl := Reverting(targets, RevRetire))
        case RevRetire => s.(m := Retire(s.m, a), ctl := Reverting(targets[1..], RevSet))
    )
    case Recovering(rest, stage) => (
      if rest == [] then s.(ctl := Idle)
      else
        var rec := rest[0];
        match stage
        case RecCheck => s.(ctl := Recovering(rest, if StillMatches(s.m.procs, rec) then RecSet else RecFlip))
        case RecSet => s.(m := SetBack(s.m, rec.key.pid, rec.value.prevMask), ctl := Recovering(rest, RecFlip))
        case RecFlip => s.(m := FlipSlot(s.m, rec.key, REVERTED), ctl := Recovering(rest[1..], RecCheck))
    )
  }

  function SetBack(m: Machine, pid: U32, prevMask: U64): Machine {
    if prevMask != 0 then Set(m, pid, prevMask) else m
  }

  /** The dead-man's flip, at the place its own index has for the key. */
  function FlipFound(slots: seq<DiskRecord>, found: seq<DiskRecord>, k: RevertKey): seq<DiskRecord> {
    var i := LastSlot(found, k);
    if 0 <= i < |slots| then slots[i := slots[i].(status := REVERTED)] else slots
  }

  /** The next effect of the dead-man. */
  function ToolAdvance(s: State): State {
    match s.tool
    case NoTool => s
    case Walking(found, left, stage, alone) =>
      if left == [] then s.(tool := NoTool)
      else
        var rec := left[0];
        match stage
        case RecCheck =>
          s.(tool := Walking(found, left, if StillMatches(s.m.procs, rec) then RecSet else RecFlip, alone))
        case RecSet =>
          s.(m := SetBack(s.m, rec.key.pid, rec.value.prevMask), tool := Walking(found, left, RecFlip, alone))
        case RecFlip =>
          s.(m := s.m.(slots := FlipFound(s.m.slots, found, rec.key)), tool := Walking(found, left[1..], RecCheck, alone))
  }

  function BesideAgent(tool: Tool): Tool {
    if tool.Walking? then tool.(alone := false) else tool
  }

  /** A start that cannot open the journal recovers nothing. */
  function Start(s: State, journalOk: bool): State {
    State(s.m.(journalOpen := journalOk, rows := [], log := []),
          if journalOk then Recovering(Recovered(s.m.slots), RecCheck) else Idle,
          BesideAgent(s.tool))
  }

  function Exec(s: State, step: Step): State {
    match step
    case StartAgent(journalOk) => Start(s, journalOk)
    case StartTool => s.(tool := Walking(s.m.slots, Recovered(s.m.slots), RecCheck, s.ctl == Down))
    case ToolStep => ToolAdvance(s)
    case ToolStops => s.(tool := NoTool)
    case BeginPin(q) => s.(ctl := Pinning(PinAppend, PinRecord(s.m.procs, q), PinAction(s.m.procs, q)))
    case BeginRevert(sel) => s.(ctl := Reverting(Select(s.m.rows, sel), RevSet))
    case BeginRevertAll => s.(ctl := Reverting(s.m.rows, RevSet))
    case Prune(live) => s.(m := PruneDead(s.m, live))
    case Continue => Advance(s)
    case Crash => s.(m := s.m.(rows := [], log := []), ctl := Down)
    case Spawn(pid, proc) => s.(m := s.m.(procs := s.m.procs[pid := proc]))
    case Exit(pid) => s.(m := s.m.(procs := s.m.procs - {pid}))
    case Rights(pid, r, w, n) =>
      if pid !in s.m.procs then s
      else s.(m := s.m.(procs := s.m.procs[pid := s.m.procs[pid].(readable := r, settable := w, named := n)]))
  }

  // ---- What the environment is trusted with ------------------------------

  /** The pids the operation in flight still refers to. */
  predicate InFlight(ctl: Control, pid: U32) {
    match ctl
    case Down => false
    case Idle => false
    case Pinning(_, _, a) => a.pid == pid
    case Reverting(targets, _) => Holds(targets, pid)
    case Recovering(rest, _) => rest != [] && rest[0].key.pid == pid
  }

  predicate ToolInFlight(tool: Tool, pid: U32) {
    tool.Walking? && tool.left != [] && tool.left[0].key.pid == pid
  }

  predicate KeyInSlots(slots: seq<DiskRecord>, k: RevertKey) {
    exists i :: 0 <= i < |slots| && KeyOf(slots[i]) == k
  }

  /** What a pin needs: the journal is open; the mask and creation time of the process can be read; a
      caller that supplies the creation time or the exe name supplies the true one. */
  predicate PinAllowed(s: State, q: PinRequest) {
    && s.ctl == Idle && s.m.journalOpen
    && !Holds(s.m.rows, q.pid)
    && |s.m.rows| < MAX_ACTIVE
    && (q.pid in s.m.procs ==>
          && s.m.procs[q.pid].readable
          && (q.creationTime == 0 || q.creationTime == s.m.procs[q.pid].creationTime)
          && (CStr(q.exeName, 63) == [] || SameName(CStr(q.exeName, 63), CStr(s.m.procs[q.pid].exe, 63))))
  }

  /** The steps a run may take. Besides "no operation of the agent starts before the previous one has
      ended", these are the assumptions of the theorem:
      a pin finds what PinAllowed says, and the process at its original mask;
      a new process has a creation time that no slot of its pid carries, and starts at its own mask;
      its number is not that of a dead process the agent still holds a row for, or that the agent or the
      dead-man is busy with;
      a Set that restores the mask of a live process succeeds;
      the dead-man does not read the journal between an append of the agent and its Set. */
  predicate Enabled(s: State, step: Step) {
    match step
    case StartAgent(_) => s.ctl == Down
    case StartTool => s.tool == NoTool && (s.ctl.Pinning? ==> s.ctl.pinStage != PinSet)
    case ToolStep => s.tool.Walking? && ToolWorks(s)
    case ToolStops => s.tool.Walking?
    case BeginPin(q) => PinAllowed(s, q) && (q.pid in s.m.procs ==> Restored(s.m.procs, q.pid))
    case BeginRevert(_) => s.ctl == Idle
    case BeginRevertAll => s.ctl == Idle
    case Prune(live) => s.ctl == Idle
    case Continue => s.ctl != Down && s.ctl != Idle && RestoreWorks(s)
    case Crash => true
    case Spawn(pid, proc) =>
      && pid != 0
      && pid !in s.m.procs
      && !Holds(s.m.rows, pid)
      && !InFlight(s.ctl, pid) && !ToolInFlight(s.tool, pid)
      && !KeyInSlots(s.m.slots, RevertKey(pid, proc.creationTime))
      && proc.creationTime != 0
      && proc.mask == proc.orig != 0
    case Exit(pid) => pid in s.m.procs
    case Rights(pid, _, _, _) => pid in s.m.procs
  }

  /** The check and the restoring Set of a record are granted, if its process lives. */
  predicate WalkWorks(procs: Procs, rest: seq<RevertRecord>, stage: RecoverStage) {
    rest != [] && rest[0].key.pid in procs ==>
      && (stage == RecCheck ==> procs[rest[0].key.pid].readable)
      && (stage == RecSet ==> procs[rest[0].key.pid].settable)
  }

  /** Forward Sets may fail; a restoring Set on a live process does not, nor does the check before it. */
  predicate RestoreWorks(s: State) {
    match s.ctl
    case Down => true
    case Idle => true
    case Pinning(_, _, _) => true
    case Reverting(targets, stage) =>
      targets != [] && stage == RevSet && targets[0].pid in s.m.procs ==> s.m.procs[targets[0].pid].settable
    case Recovering(rest, stage) => WalkWorks(s.m.procs, rest, stage)
  }

  predicate ToolWorks(s: State) {
    s.tool.Walking? ==> WalkWorks(s.m.procs, s.tool.left, s.tool.toolStage)
  }

  predicate Legal(s: State, run: seq<Step>)
    decreases run
  {
    run == [] || (Enabled(s, run[0]) && Legal(Exec(s, run[0]), run[1..]))
  }

  function Final(s: State, run: seq<Step>): State
    decreases run
  {
    if run == [] then s else Final(Exec(s, run[0]), run[1..])
  }

  /** A machine on which nothing was placed yet. */
  predicate Initial(s: State) {
    && s.ctl == Down && s.tool == NoTool
    && s.m.slots == []
    && s.m.rows == []
    && s.m.log == []
    && forall pid :: pid in s.m.procs ==>
         && pid != 0
         && s.m.procs[pid].creationTime != 0
         && s.m.procs[pid].mask == s.m.procs[pid].orig != 0
  }

  // ---- The invariant -----------------------------------------------------

  predicate Restored(procs: Procs, pid: U32)
    requires pid in procs
  {
    procs[pid].mask == procs[pid].orig
  }

  ghost predicate ProcsOk(procs: Procs) {
    forall pid :: pid in procs ==> pid != 0 && procs[pid].creationTime != 0 && procs[pid].orig != 0
  }

  /** A captured mask and name describe the process with that key truthfully. */
  predicate Truthful(procs: Procs, k: RevertKey, prevMask: U64, exeName: Name) {
    k.pid in procs && procs[k.pid].creationTime == k.creationTime ==>
      && prevMask == procs[k.pid].orig
      && (exeName == [] || SameName(CStr(procs[k.pid].exe, 63), exeName))
  }

  ghost predicate SlotsTruthful(procs: Procs, slots: seq<DiskRecord>) {
    forall i :: 0 <= i < |slots| ==>
      Truthful(procs, KeyOf(slots[i]), slots[i].prevMask, CStr(slots[i].exeName, 63))
  }

  /** Write-ahead: whatever is not at its original mask has an unresolved slot. */
  ghost predicate Covered(procs: Procs, slots: seq<DiskRecord>) {
    forall pid :: pid in procs && !Restored(procs, pid) ==>
      LastUnresolved(slots, ProcKey(procs, pid)) >= 0
  }

  predicate RowTrue(procs: Procs, a: ActiveAction) {
    a.pid in procs ==> a.creationTime == procs[a.pid].creationTime && a.prevMask == procs[a.pid].orig
  }

  ghost predicate RowsOk(procs: Procs, rows: seq<ActiveAction>) {
    && UniquePids(rows)
    && forall a <- rows :: RowTrue(procs, a)
  }

  ghost predicate RestCovers(procs: Procs, rest: seq<RevertRecord>) {
    forall pid :: pid in procs && !Restored(procs, pid) ==> HasKey(rest, ProcKey(procs, pid))
  }

  ghost predicate RestTruthful(procs: Procs, rest: seq<RevertRecord>) {
    forall rec <- rest :: Truthful(procs, rec.key, rec.value.prevMask, rec.value.exeName)
  }

  /** The process with key k, if it still lives, is back at its original mask. */
  predicate KeyRestored(procs: Procs, k: RevertKey) {
    k.pid in procs && procs[k.pid].creationTime == k.creationTime ==> Restored(procs, k.pid)
  }

  /** What a walk of the journal knows. */
  ghost predicate WalkOk(procs: Procs, slots: seq<DiskRecord>, rest: seq<RevertRecord>, stage: RecoverStage) {
    && RestTruthful(procs, rest)
    && (forall rec <- rest :: KeyInSlots(slots, rec.key))
    && (rest != [] && stage == RecSet && rest[0].key.pid in procs ==>
          procs[rest[0].key.pid].creationTime == rest[0].key.creationTime)
  }

  /** Slots that the dead-man has not seen start here. */
  function Unseen(tool: Tool): nat {
    if tool.Walking? then |tool.found| else 0
  }

  /** An unresolved slot of the key at or after `base`. */
  ghost predicate OpenFrom(slots: seq<DiskRecord>, k: RevertKey, base: nat) {
    exists j :: base <= j < |slots| && KeyOf(slots[j]) == k && Unresolved(slots[j])
  }

  ghost predicate ControlOk(m: Machine, ctl: Control, base: nat) {
    match ctl
    case Down => m.rows == []
    case Idle => true
    case Pinning(stage, rec, a) =>
      && m.journalOpen
      && !Holds(m.rows, a.pid)
      && KeyOf(rec) == ActionKey(a)
      && RowTrue(m.procs, a)
      && Truthful(m.procs, KeyOf(rec), rec.prevMask, CStr(rec.exeName, 63))
      && Unresolved(rec)
      && rec.magic == MAGIC
      && (stage == PinSet ==> OpenFrom(m.slots, KeyOf(rec), base))
    case Reverting(targets, stage) =>
      && UniquePids(targets)
      && (forall a <- targets :: a in m.rows)
      && (targets != [] && stage != RevSet ==> KeyRestored(m.procs, ActionKey(targets[0])))
    case Recovering(rest, stage) =>
      && m.journalOpen && m.rows == []
      && WalkOk(m.procs, m.slots, rest, stage)
      && RestCovers(m.procs, rest)
      && (rest != [] && stage == RecFlip ==> KeyRestored(m.procs, rest[0].key))
  }

  /** The dead-man may flip the slot it found for a key: the process is back, or another slot speaks for it. */
  ghost predicate FlipSafe(m: Machine, found: seq<DiskRecord>, k: RevertKey) {
    KeyRestored(m.procs, k) ||
    exists j :: 0 <= j < |m.slots| && j != LastSlot(found, k) && KeyOf(m.slots[j]) == k && Unresolved(m.slots[j])
  }

  ghost predicate ToolOk(m: Machine, ctl: Control, tool: Tool) {
    match tool
    case NoTool => true
    case Walking(found, left, stage, alone) =>
      && |found| <= |m.slots| && SameKeys(found, m.slots[..|found|])
      && WalkOk(m.procs, m.slots, left, stage)
      && (left != [] && stage == RecFlip ==> FlipSafe(m, found, left[0].key))
      && (alone ==>
            && ctl == Down && RestCovers(m.procs, left)
            && (left != [] && stage == RecFlip ==> KeyRestored(m.procs, left[0].key)))
  }

  /** Whatever the control: the processes, the slots and the rows tell the truth, and write-ahead holds. */
  ghost predicate MachineOk(m: Machine) {
    && ProcsOk(m.procs)
    && SlotsTruthful(m.procs, m.slots)
    && Covered(m.procs, m.slots)
    && RowsOk(m.procs, m.rows)
  }

  ghost predicate Inv(s: State) {
    MachineOk(s.m) && ControlOk(s.m, s.ctl, Unseen(s.tool)) && ToolOk(s.m, s.ctl, s.tool)
  }

  // ---- Facts about slots -------------------------------------------------

  lemma LastUnresolvedAppend(slots: seq<DiskRecord>, r: DiskRecord, k: RevertKey)
    ensures LastUnresolved(slots + [r], k)
         == if KeyOf(r) == k && Unresolved(r) then |slots| else LastUnresolved(slots, k)
  {
    assert (slots + [r])[..|slots|] == slots;
  }

  lemma HasUnresolved(slots: seq<DiskRecord>, k: RevertKey, i: nat)
    requires i < |slots| && KeyOf(slots[i]) == k && Unresolved(slots[i])
    ensures LastUnresolved(slots, k) >= i
  {
  }

  /** Resolving one key leaves every other key as it was. */
  lemma FlipOthers(slots: seq<DiskRecord>, k: RevertKey, v: U32, other: RevertKey)
    requires other != k || v == PENDING || v == APPLIED
    requires LastUnresolved(slots, other) >= 0
    ensures LastUnresolved(Flip(slots, k, v), other) >= 0
  {
    HasUnresolved(Flip(slots, k, v), other, LastUnresolved(slots, other));
  }

  /** The dead-man's flip touches one slot that it found, and no other. */
  lemma FlipFoundSlots(slots: seq<DiskRecord>, found: seq<DiskRecord>, k: RevertKey)
    requires |found| <= |slots| && SameKeys(found, slots[..|found|])
    ensures var out := FlipFound(slots, found, k);
            && SameKeys(slots, out)
            && (forall i :: 0 <= i < |slots| && KeyOf(slots[i]) != k ==> out[i] == slots[i])
            && (forall i :: 0 <= i < |slots| && i != LastSlot(found, k) ==> out[i] == slots[i])
            && (forall i :: 0 <= i < |slots| ==> out[i] == slots[i].(status := out[i].status))
  {
    var i := LastSlot(found, k);
    assert i >= 0 ==> KeyOf(slots[..|found|][i]) == k;
  }

  // ---- What keeps the machine in order -----------------------------------

  lemma StartsInv(s: State)
    requires Initial(s)
    ensures Inv(s)
  {
  }

  lemma AppendKeeps(procs: Procs, slots: seq<DiskRecord>, rec: DiskRecord)
    requires SlotsTruthful(procs, slots) && Covered(procs, slots)
    requires Truthful(procs, KeyOf(rec), rec.prevMask, CStr(rec.exeName, 63))
    ensures SlotsTruthful(procs, slots + [rec]) && Covered(procs, slots + [rec])
  {
    forall pid | pid in procs && !Restored(procs, pid)
      ensures LastUnresolved(slots + [rec], ProcKey(procs, pid)) >= 0
    {
      LastUnresolvedAppend(slots, rec, ProcKey(procs, pid));
    }
  }

  /** A flip hides no process that is not yet back where it was. */
  lemma FlipKeeps(procs: Procs, slots: seq<DiskRecord>, k: RevertKey, v: U32)
    requires SlotsTruthful(procs, slots) && Covered(procs, slots)
    requires v == APPLIED || KeyRestored(procs, k)
    ensures SlotsTruthful(procs, Flip(slots, k, v)) && Covered(procs, Flip(slots, k, v))
  {
    forall pid | pid in procs && !Restored(procs, pid)
      ensures LastUnresolved(Flip(slots, k, v), ProcKey(procs, pid)) >= 0
    {
      FlipOthers(slots, k, v, ProcKey(procs, pid));
    }
  }

  lemma FlipFoundKeeps(m: Machine, found: seq<DiskRecord>, k: RevertKey)
    requires MachineOk(m) && FlipSafe(m, found, k)
    requires |found| <= |m.slots| && SameKeys(found, m.slots[..|found|])
    ensures MachineOk(m.(slots := FlipFound(m.slots, found, k)))
  {
    var slots := FlipFound(m.slots, found, k);
    FlipFoundSlots(m.slots, found, k);
    forall pid | pid in m.procs && !Restored(m.procs, pid)
      ensures LastUnresolved(slots, ProcKey(m.procs, pid)) >= 0
    {
      var key := ProcKey(m.procs, pid);
      if key == k {
        var j :| 0 <= j < |m.slots| && j != LastSlot(found, k) && KeyOf(m.slots[j]) == k && Unresolved(m.slots[j]);
        HasUnresolved(slots, key, j);
      } else {
        HasUnresolved(slots, key, LastUnresolved(m.slots, key));
      }
    }
  }

  /** The processes are the same ones, wherever they are running now. */
  predicate SameProcesses(a: Procs, b: Procs) {
    && a.Keys == b.Keys
    && forall p :: p in a ==>
         a[p].creationTime == b[p].creationTime && a[p].orig == b[p].orig && a[p].exe == b[p].exe
  }

  lemma SetMaskFacts(procs: Procs, pid: U32, mask: U64)
    ensures SameProcesses(SetMask(procs, pid, mask), procs)
    ensures forall p :: p in procs && p != pid ==> SetMask(procs, pid, mask)[p] == procs[p]
    ensures SetSucceeds(procs, pid, mask) ==> SetMask(procs, pid, mask)[pid].mask == mask
  {
  }

  /** Facts about which processes live and where they started do not depend on their masks. */
  lemma MasksDoNotMatter(m: Machine, procs: Procs)
    requires ProcsOk(m.procs) && SlotsTruthful(m.procs, m.slots) && RowsOk(m.procs, m.rows)
    requires SameProcesses(procs, m.procs)
    ensures ProcsOk(procs) && SlotsTruthful(procs, m.slots) && RowsOk(procs, m.rows)
  {
  }

  /** The processes are the same ones, and none moved away from its original mask. */
  ghost predicate Calmer(m: Machine, t: Machine) {
    && t == m.(procs := t.procs)
    && SameProcesses(t.procs, m.procs)
    && forall p :: p in m.procs && Restored(m.procs, p) ==> Restored(t.procs, p)
  }

  lemma CalmerMachine(m: Machine, t: Machine)
    requires MachineOk(m) && Calmer(m, t)
    ensures MachineOk(t)
  {
    MasksDoNotMatter(m, t.procs);
  }

  lemma CalmerWalk(m: Machine, t: Machine, rest: seq<RevertRecord>, stage: RecoverStage)
    requires Calmer(m, t) && WalkOk(m.procs, m.slots, rest, stage)
    ensures WalkOk(t.procs, t.slots, rest, stage)
    ensures RestCovers(m.procs, rest) ==> RestCovers(t.procs, rest)
  {
    forall rec | rec in rest ensures Truthful(t.procs, rec.key, rec.value.prevMask, rec.value.exeName) {
      assert Truthful(m.procs, rec.key, rec.value.prevMask, rec.value.exeName);
    }
    forall pid | pid in t.procs ensures ProcKey(t.procs, pid) == ProcKey(m.procs, pid) {
    }
  }

  lemma CalmerControl(m: Machine, t: Machine, ctl: Control, base: nat)
    requires Calmer(m, t) && ControlOk(m, ctl, base)
    ensures ControlOk(t, ctl, base)
  {
    match ctl
    case Down =>
    case Idle =>
    case Pinning(_, _, _) =>
    case Reverting(_, _) =>
    case Recovering(rest, stage) => CalmerWalk(m, t, rest, stage);
  }

  lemma CalmerTool(m: Machine, t: Machine, ctl: Control, tool: Tool)
    requires Calmer(m, t) && ToolOk(m, ctl, tool)
    ensures ToolOk(t, ctl, tool)
  {
    if tool.Walking? {
      CalmerWalk(m, t, tool.left, tool.toolStage);
    }
  }

  /** A restoring Set of the true mask of a live process. */
  lemma RestoreKeeps(m: Machine, k: RevertKey, prevMask: U64)
    requires MachineOk(m)
    requires k.pid in m.procs ==>
               && m.procs[k.pid].creationTime == k.creationTime
               && prevMask == m.procs[k.pid].orig
               && m.procs[k.pid].settable
    ensures Calmer(m, SetBack(m, k.pid, prevMask)) && KeyRestored(SetBack(m, k.pid, prevMask).procs, k)
  {
    SetMaskFacts(m.procs, k.pid, prevMask);
  }

  // ---- Statuses that change under an operation ---------------------------

  lemma KeysStay(slots: seq<DiskRecord>, out: seq<DiskRecord>, k: RevertKey)
    requires SameKeys(slots, out) && KeyInSlots(slots, k)
    ensures KeyInSlots(out, k)
  {
    var i :| 0 <= i < |slots| && KeyOf(slots[i]) == k;
    assert KeyOf(out[i]) == k;
  }

  lemma WalkKeysStay(procs: Procs, slots: seq<DiskRecord>, out: seq<DiskRecord>, rest: seq<RevertRecord>, stage: RecoverStage)
    requires SameKeys(slots, out) && WalkOk(procs, slots, rest, stage)
    ensures WalkOk(procs, out, rest, stage)
  {
    forall rec | rec in rest ensures KeyInSlots(out, rec.key) {
      KeysStay(slots, out, rec.key);
    }
  }

  /** The agent's flip of a restored key, or to APPLIED. */
  lemma FlipTool(m: Machine, ctl: Control, tool: Tool, k: RevertKey, v: U32)
    requires ToolOk(m, ctl, tool) && (v == APPLIED || (v == REVERTED && KeyRestored(m.procs, k)))
    ensures ToolOk(m.(slots := Flip(m.slots, k, v)), ctl, tool)
  {
    if tool.Walking? {
      var slots := Flip(m.slots, k, v);
      WalkKeysStay(m.procs, m.slots, slots, tool.left, tool.toolStage);
      assert SameKeys(tool.found, slots[..|tool.found|]);
      if tool.left != [] && tool.toolStage == RecFlip && !KeyRestored(m.procs, tool.left[0].key) {
        var key := tool.left[0].key;
        var j :| 0 <= j < |m.slots| && j != LastSlot(tool.found, key) && KeyOf(m.slots[j]) == key && Unresolved(m.slots[j]);
        assert KeyOf(slots[j]) == key && Unresolved(slots[j]);
      }
    }
  }

  // ---- The steps of a pin ------------------------------------------------

  lemma PinAppendKeeps(s: State)
    requires Inv(s) && s.ctl.Pinning? && s.ctl.pinStage == PinAppend
    ensures Inv(Advance(s))
  {
    var rec, slots := s.ctl.rec, s.m.slots;
    AppendKeeps(s.m.procs, slots, rec);
    assert KeyOf((slots + [rec])[|slots|]) == KeyOf(rec) && Unresolved((slots + [rec])[|slots|]);
    AppendTool(s.m, s.ctl, s.tool, rec);
  }

  lemma AppendTool(m: Machine, ctl: Control, tool: Tool, rec: DiskRecord)
    requires ToolOk(m, ctl, tool)
    ensures ToolOk(m.(slots := m.slots + [rec]), ctl, tool)
  {
    if tool.Walking? {
      var slots := m.slots + [rec];
      assert slots[..|tool.found|] == m.slots[..|tool.found|];
      forall r | r in tool.left ensures KeyInSlots(slots, r.key) {
        var i :| 0 <= i < |m.slots| && KeyOf(m.slots[i]) == r.key;
        assert KeyOf(slots[i]) == r.key;
      }
      if tool.left != [] && tool.toolStage == RecFlip && !KeyRestored(m.procs, tool.left[0].key) {
        var key := tool.left[0].key;
        var j :| 0 <= j < |m.slots| && j != LastSlot(tool.found, key) && KeyOf(m.slots[j]) == key && Unresolved(m.slots[j]);
        assert KeyOf(slots[j]) == key && Unresolved(slots[j]);
      }
    }
  }

  lemma PinSetKeeps(s: State)
    requires Inv(s) && s.ctl.Pinning? && s.ctl.pinStage == PinSet
    ensures Inv(Advance(s))
  {
    var a := s.ctl.action;
    if SetSucceeds(s.m.procs, a.pid, a.newMask) {
      var procs := SetMask(s.m.procs, a.pid, a.newMask);
      SetMaskFacts(s.m.procs, a.pid, a.newMask);
      MasksDoNotMatter(s.m, procs);
      PinSetCovered(s);
      PinSetTool(s);
    }
  }

  lemma PinSetCovered(s: State)
    requires Inv(s) && s.ctl.Pinning? && s.ctl.pinStage == PinSet
    ensures Covered(SetMask(s.m.procs, s.ctl.action.pid, s.ctl.action.newMask), s.m.slots)
  {
    var a, k := s.ctl.action, KeyOf(s.ctl.rec);
    SetMaskFacts(s.m.procs, a.pid, a.newMask);
    var j :| Unseen(s.tool) <= j < |s.m.slots| && KeyOf(s.m.slots[j]) == k && Unresolved(s.m.slots[j]);
    HasUnresolved(s.m.slots, k, j);
  }

  /** The dead-man started before the append, so the slot it may still flip is an older one. */
  lemma PinSetTool(s: State)
    requires Inv(s) && s.ctl.Pinning? && s.ctl.pinStage == PinSet
    ensures ToolOk(Set(s.m, s.ctl.action.pid, s.ctl.action.newMask), Advance(s).ctl, s.tool)
  {
    if s.tool.Walking? {
      var a, k, left := s.ctl.action, KeyOf(s.ctl.rec), s.tool.left;
      var procs := SetMask(s.m.procs, a.pid, a.newMask);
      SetMaskFacts(s.m.procs, a.pid, a.newMask);
      forall rec | rec in left ensures Truthful(procs, rec.key, rec.value.prevMask, rec.value.exeName) {
        assert Truthful(s.m.procs, rec.key, rec.value.prevMask, rec.value.exeName);
      }
      if left != [] && s.tool.toolStage == RecFlip && left[0].key == k {
        var j :| Unseen(s.tool) <= j < |s.m.slots| && KeyOf(s.m.slots[j]) == k && Unresolved(s.m.slots[j]);
        assert j != LastSlot(s.tool.found, k);
      }
    }
  }

  lemma PinFlipKeeps(s: State)
    requires Inv(s) && s.ctl.Pinning? && s.ctl.pinStage == PinFlip
    ensures Inv(Advance(s))
  {
    FlipKeeps(s.m.procs, s.m.slots, KeyOf(s.ctl.rec), APPLIED);
    FlipTool(s.m, s.ctl, s.tool, KeyOf(s.ctl.rec), APPLIED);
  }

  lemma PinActivateKeeps(s: State)
    requires Inv(s) && s.ctl.Pinning? && s.ctl.pinStage == PinActivate
    ensures Inv(Advance(s))
  {
    var a, rows := s.ctl.action, s.m.rows;
    assert (rows + [a])[|rows|] == a;
  }

  lemma PinKeepsInv(s: State)
    requires Inv(s) && s.ctl.Pinning?
    ensures Inv(Advance(s))
  {
    match s.ctl.pinStage
    case PinAppend => PinAppendKeeps(s);
    case PinSet => PinSetKeeps(s);
    case PinFlip => PinFlipKeeps(s);
    case PinActivate => PinActivateKeeps(s);
  }

  // ---- The steps of a revert ---------------------------------------------

  lemma RevertKeepsInv(s: State)
    requires Inv(s) && s.ctl.Reverting? && RestoreWorks(s)
    ensures Inv(Advance(s))
  {
    var targets := s.ctl.targets;
    if targets != [] {
      match s.ctl.revertStage
      case RevSet => RevertSetKeeps(s);
      case RevFlip =>
        FlipKeeps(s.m.procs, s.m.slots, ActionKey(targets[0]), REVERTED);
        FlipTool(s.m, s.ctl, s.tool, ActionKey(targets[0]), REVERTED);
      case RevRetire => RetireKeeps(s);
    }
  }

  lemma RevertSetKeeps(s: State)
    requires Inv(s) && s.ctl.Reverting? && s.ctl.targets != [] && s.ctl.revertStage == RevSet && RestoreWorks(s)
    ensures Inv(Advance(s))
  {
    var a := s.ctl.targets[0];
    assert a in s.ctl.targets && a in s.m.rows && RowTrue(s.m.procs, a);
    var t := SetBack(s.m, a.pid, a.prevMask);
    RestoreKeeps(s.m, ActionKey(a), a.prevMask);
    CalmerMachine(s.m, t);
    CalmerTool(s.m, t, s.ctl, s.tool);
  }

  lemma HoldsIn(rows: seq<ActiveAction>, a: ActiveAction)
    requires a in rows
    ensures Holds(rows, a.pid)
  {
    var i :| 0 <= i < |rows| && rows[i] == a;
    assert rows[i].pid == a.pid;
  }

  lemma SelectHolds(rows: seq<ActiveAction>, sel: Selector, pid: U32)
    requires forall a :: a in rows && a.pid == pid ==> Selects(sel, a)
    ensures Holds(rows, pid) ==> Holds(Select(rows, sel), pid)
  {
    if Holds(rows, pid) {
      var i :| 0 <= i < |rows| && rows[i].pid == pid;
      HoldsIn(Select(rows, sel), rows[i]);
    }
  }

  lemma RetireKeeps(s: State)
    requires Inv(s) && s.ctl.Reverting? && s.ctl.targets != [] && s.ctl.revertStage == RevRetire
    ensures Inv(Advance(s))
  {
    var targets, rows := s.ctl.targets, s.m.rows;
    var a := targets[0];
    SelectUnique(rows, NotOfPid(a.pid));
    forall b | b in targets[1..] ensures b in Select(rows, NotOfPid(a.pid)) {
      var i :| 0 <= i < |targets[1..]| && targets[1..][i] == b;
      assert targets[i + 1] == b && b in targets;
    }
  }

  // ---- The steps of a walk -----------------------------------------------

  /** The check lets exactly the right process through. */
  lemma LiveMatches(procs: Procs, rec: RevertRecord)
    requires ProcsOk(procs)
    requires Truthful(procs, rec.key, rec.value.prevMask, rec.value.exeName)
    requires rec.key.pid in procs ==> procs[rec.key.pid].readable
    ensures StillMatches(procs, rec) <==>
            rec.key.pid in procs && procs[rec.key.pid].creationTime == rec.key.creationTime
  {
  }

  lemma RestShrinks(procs: Procs, rest: seq<RevertRecord>)
    requires rest != [] && RestCovers(procs, rest) && KeyRestored(procs, rest[0].key)
    ensures RestCovers(procs, rest[1..])
  {
    forall pid | pid in procs && !Restored(procs, pid)
      ensures HasKey(rest[1..], ProcKey(procs, pid))
    {
      var i :| 0 <= i < |rest| && rest[i].key == ProcKey(procs, pid);
      assert i > 0 && rest[1..][i - 1] == rest[i];
    }
  }

  lemma WalkShrinks(procs: Procs, slots: seq<DiskRecord>, rest: seq<RevertRecord>, stage: RecoverStage)
    requires WalkOk(procs, slots, rest, stage) && rest != []
    ensures WalkOk(procs, slots, rest[1..], RecCheck)
  {
    forall rec | rec in rest[1..] ensures rec in rest {
    }
  }

  /** Both walks set a record's process back, and nothing else. */
  lemma WalkSetKeeps(m: Machine, rest: seq<RevertRecord>)
    requires MachineOk(m) && WalkOk(m.procs, m.slots, rest, RecSet) && WalkWorks(m.procs, rest, RecSet) && rest != []
    ensures var t := SetBack(m, rest[0].key.pid, rest[0].value.prevMask);
            Calmer(m, t) && MachineOk(t) && KeyRestored(t.procs, rest[0].key) && WalkOk(t.procs, t.slots, rest, RecFlip)
  {
    var rec := rest[0];
    assert Truthful(m.procs, rec.key, rec.value.prevMask, rec.value.exeName);
    var t := SetBack(m, rec.key.pid, rec.value.prevMask);
    RestoreKeeps(m, rec.key, rec.value.prevMask);
    CalmerMachine(m, t);
    CalmerWalk(m, t, rest, RecSet);
  }

  /** The check of a record: whichever way it goes, the next step may be taken. */
  lemma WalkCheckKeeps(m: Machine, rest: seq<RevertRecord>)
    requires MachineOk(m) && WalkOk(m.procs, m.slots, rest, RecCheck) && WalkWorks(m.procs, rest, RecCheck) && rest != []
    ensures StillMatches(m.procs, rest[0]) ==> WalkOk(m.procs, m.slots, rest, RecSet)
    ensures !StillMatches(m.procs, rest[0]) ==> KeyRestored(m.procs, rest[0].key)
  {
    var rec := rest[0];
    assert Truthful(m.procs, rec.key, rec.value.prevMask, rec.value.exeName);
    LiveMatches(m.procs, rec);
  }

  lemma RecoverKeepsInv(s: State)
    requires Inv(s) && s.ctl.Recovering? && RestoreWorks(s)
    ensures Inv(Advance(s))
  {
    var rest := s.ctl.rest;
    if rest != [] {
      match s.ctl.recoverStage
      case RecCheck => WalkCheckKeeps(s.m, rest);
      case RecSet =>
        WalkSetKeeps(s.m, rest);
        CalmerWalk(s.m, SetBack(s.m, rest[0].key.pid, rest[0].value.prevMask), rest, RecSet);
        CalmerTool(s.m, SetBack(s.m, rest[0].key.pid, rest[0].value.prevMask), s.ctl, s.tool);
      case RecFlip => RecoverFlipKeeps(s);
    }
  }

  lemma RecoverFlipKeeps(s: State)
    requires Inv(s) && s.ctl.Recovering? && s.ctl.rest != [] && s.ctl.recoverStage == RecFlip
    ensures Inv(Advance(s))
  {
    var rest, k := s.ctl.rest, s.ctl.rest[0].key;
    var slots := Flip(s.m.slots, k, REVERTED);
    FlipKeeps(s.m.procs, s.m.slots, k, REVERTED);
    FlipTool(s.m, s.ctl, s.tool, k, REVERTED);
    RestShrinks(s.m.procs, rest);
    WalkKeysStay(s.m.procs, s.m.slots, slots, rest, RecFlip);
    WalkShrinks(s.m.procs, slots, rest, RecFlip);
  }

  // ---- The steps of the dead-man -----------------------------------------

  lemma ToolSetKeeps(s: State)
    requires Inv(s) && s.tool.Walking? && s.tool.left != [] && s.tool.toolStage == RecSet && ToolWorks(s)
    ensures Inv(ToolAdvance(s))
  {
    var left := s.tool.left;
    var t := SetBack(s.m, left[0].key.pid, left[0].value.prevMask);
    WalkSetKeeps(s.m, left);
    CalmerWalk(s.m, t, left, RecSet);
    CalmerControl(s.m, t, s.ctl, Unseen(s.tool));
  }

  lemma ToolFlipKeeps(s: State)
    requires Inv(s) && s.tool.Walking? && s.tool.left != [] && s.tool.toolStage == RecFlip
    ensures Inv(ToolAdvance(s))
  {
    var Walking(found, left, _, alone) := s.tool;
    var k := left[0].key;
    var slots := FlipFound(s.m.slots, found, k);
    FlipFoundSlots(s.m.slots, found, k);
    FlipFoundKeeps(s.m, found, k);
    WalkKeysStay(s.m.procs, s.m.slots, slots, left, RecFlip);
    WalkShrinks(s.m.procs, slots, left, RecFlip);
    assert SameKeys(found, slots[..|found|]);
    if alone {
      RestShrinks(s.m.procs, left);
    }
    ToolFlipControl(s);
  }

  lemma ToolFlipControl(s: State)
    requires Inv(s) && s.tool.Walking? && s.tool.left != [] && s.tool.toolStage == RecFlip
    ensures ControlOk(ToolAdvance(s).m, s.ctl, Unseen(s.tool))
  {
    var found, k := s.tool.found, s.tool.left[0].key;
    var slots := FlipFound(s.m.slots, found, k);
    FlipFoundSlots(s.m.slots, found, k);
    match s.ctl
    case Down =>
    case Idle =>
    case Reverting(_, _) =>
    case Pinning(stage, rec, _) =>
      if stage == PinSet {
        var j :| |found| <= j < |s.m.slots| && KeyOf(s.m.slots[j]) == KeyOf(rec) && Unresolved(s.m.slots[j]);
        assert slots[j] == s.m.slots[j];
      }
    case Recovering(rest, stage) => WalkKeysStay(s.m.procs, s.m.slots, slots, rest, stage);
  }

  /** The dead-man may run anytime beside the agent: each of its steps keeps the invariant, whatever the
      agent has done since the dead-man read the journal. */
  lemma DeadManKeepsInv(s: State)
    requires Inv(s) && s.tool.Walking? && ToolWorks(s)
    ensures Inv(ToolAdvance(s))
  {
    if s.tool.left == [] {
      ToolGone(s);
    } else {
      match s.tool.toolStage
      case RecCheck => WalkCheckKeeps(s.m, s.tool.left);
      case RecSet => ToolSetKeeps(s);
      case RecFlip => ToolFlipKeeps(s);
    }
  }

  lemma ToolGone(s: State)
    requires Inv(s)
    ensures Inv(s.(tool := NoTool))
  {
    if s.ctl.Pinning? && s.ctl.pinStage == PinSet {
      var k := KeyOf(s.ctl.rec);
      var j :| Unseen(s.tool) <= j < |s.m.slots| && KeyOf(s.m.slots[j]) == k && Unresolved(s.m.slots[j]);
    }
  }

  // ---- Steps that begin an operation -------------------------------------

  lemma MemberHasKey(recs: seq<RevertRecord>, rec: RevertRecord)
    requires Distinct(recs) && rec in recs
    ensures rec.key in ToMap(recs) && ToMap(recs)[rec.key] == rec.value
  {
    var i :| 0 <= i < |recs| && recs[i] == rec;
    ToMapAt(recs, i);
  }

  lemma KeyHasMember(recs: seq<RevertRecord>, k: RevertKey)
    requires k in ToMap(recs)
    ensures HasKey(recs, k)
  {
    if !HasKey(recs, k) {
      ToMapAbsent(recs, k);
    }
  }

  /** Recovery starts with a list that names every process still to be restored. */
  lemma RecoveredCovers(procs: Procs, slots: seq<DiskRecord>)
    requires SlotsTruthful(procs, slots) && Covered(procs, slots)
    ensures WalkOk(procs, slots, Recovered(slots), RecCheck) && RestCovers(procs, Recovered(slots))
  {
    var recs := Recovered(slots);
    RecoveredMeaning(slots);
    forall rec | rec in recs
      ensures Truthful(procs, rec.key, rec.value.prevMask, rec.value.exeName) && KeyInSlots(slots, rec.key)
    {
      MemberHasKey(recs, rec);
      var i := LastUnresolved(slots, rec.key);
      assert rec.value == SurvivorOf(slots[i]);
    }
    forall pid | pid in procs && !Restored(procs, pid)
      ensures HasKey(recs, ProcKey(procs, pid))
    {
      KeyHasMember(recs, ProcKey(procs, pid));
    }
  }

  lemma StartKeeps(s: State, journalOk: bool)
    requires Inv(s) && s.ctl == Down
    ensures Inv(Start(s, journalOk))
  {
    RecoveredCovers(s.m.procs, s.m.slots);
    if s.tool.Walking? {
      assert FlipSafe(s.m, s.tool.found, if s.tool.left == [] then RevertKey(0, 0) else s.tool.left[0].key)
        ==> FlipSafe(Start(s, journalOk).m, s.tool.found, if s.tool.left == [] then RevertKey(0, 0) else s.tool.left[0].key);
    }
  }

  lemma StartToolKeeps(s: State)
    requires Inv(s) && Enabled(s, StartTool)
    ensures Inv(Exec(s, StartTool))
  {
    RecoveredCovers(s.m.procs, s.m.slots);
    assert s.m.slots[..|s.m.slots|] == s.m.slots;
  }

  lemma {:induction false} CStrTwice(t: seq<Byte>, limit: nat)
    requires 0 !in t && |t| <= limit
    ensures CStr(t, limit) == t
  {
    if t != [] {
      CStrTwice(t[1..], limit - 1);
    }
  }

  lemma BeginPinKeeps(s: State, q: PinRequest)
    requires Inv(s) && Enabled(s, BeginPin(q))
    ensures Inv(Exec(s, BeginPin(q)))
  {
    var name := PinName(s.m.procs, q);
    CopyStrReadBack(name);
    if q.pid in s.m.procs {
      CStrTwice(CStr(s.m.procs[q.pid].exe, 63), 63);
    }
  }

  // ---- Steps of the environment ------------------------------------------

  lemma SpawnKeeps(s: State, pid: U32, proc: Proc)
    requires Inv(s) && Enabled(s, Spawn(pid, proc))
    ensures Inv(Exec(s, Spawn(pid, proc)))
  {
    var procs := s.m.procs[pid := proc];
    forall i | 0 <= i < |s.m.slots|
      ensures Truthful(procs, KeyOf(s.m.slots[i]), s.m.slots[i].prevMask, CStr(s.m.slots[i].exeName, 63))
    {
    }
    forall p | p in procs && !Restored(procs, p)
      ensures LastUnresolved(s.m.slots, ProcKey(procs, p)) >= 0
    {
      assert ProcKey(procs, p) == ProcKey(s.m.procs, p);
    }
    forall a | a in s.m.rows ensures RowTrue(procs, a) {
      HoldsIn(s.m.rows, a);
    }
    SpawnKeepsControl(s, pid, proc);
    SpawnKeepsTool(s, pid, proc);
  }

  lemma SpawnKeepsWalk(m: Machine, pid: U32, proc: Proc, rest: seq<RevertRecord>, stage: RecoverStage)
    requires WalkOk(m.procs, m.slots, rest, stage) && pid !in m.procs && proc.mask == proc.orig
    requires !KeyInSlots(m.slots, RevertKey(pid, proc.creationTime)) && (rest != [] ==> rest[0].key.pid != pid)
    ensures WalkOk(m.procs[pid := proc], m.slots, rest, stage)
    ensures RestCovers(m.procs, rest) ==> RestCovers(m.procs[pid := proc], rest)
  {
    var procs := m.procs[pid := proc];
    forall rec | rec in rest ensures Truthful(procs, rec.key, rec.value.prevMask, rec.value.exeName) {
      assert Truthful(m.procs, rec.key, rec.value.prevMask, rec.value.exeName);
    }
    forall p | p in procs && !Restored(procs, p) ensures ProcKey(procs, p) == ProcKey(m.procs, p) {
    }
  }

  lemma SpawnKeepsControl(s: State, pid: U32, proc: Proc)
    requires Inv(s) && Enabled(s, Spawn(pid, proc))
    ensures ControlOk(s.m.(procs := s.m.procs[pid := proc]), s.ctl, Unseen(s.tool))
  {
    match s.ctl
    case Down =>
    case Idle =>
    case Pinning(_, _, _) =>
    case Reverting(targets, _) =>
    case Recovering(rest, stage) => SpawnKeepsWalk(s.m, pid, proc, rest, stage);
  }

  lemma SpawnKeepsTool(s: State, pid: U32, proc: Proc)
    requires Inv(s) && Enabled(s, Spawn(pid, proc))
    ensures ToolOk(s.m.(procs := s.m.procs[pid := proc]), s.ctl, s.tool)
  {
    if s.tool.Walking? {
      SpawnKeepsWalk(s.m, pid, proc, s.tool.left, s.tool.toolStage);
    }
  }

  lemma ExitKeeps(s: State, pid: U32)
    requires Inv(s) && pid in s.m.procs
    ensures Inv(Exec(s, Exit(pid)))
  {
    var procs := s.m.procs - {pid};
    forall p | p in procs ensures procs[p] == s.m.procs[p] {
    }
  }

  lemma RightsKeep(s: State, pid: U32, r: bool, w: bool, n: bool)
    requires Inv(s) && pid in s.m.procs
    ensures Inv(Exec(s, Rights(pid, r, w, n)))
  {
    var t := Exec(s, Rights(pid, r, w, n)).m;
    CalmerMachine(s.m, t);
    CalmerControl(s.m, t, s.ctl, Unseen(s.tool));
    CalmerTool(s.m, t, s.ctl, s.tool);
  }

  // ---- All runs ----------------------------------------------------------

  lemma StepKeepsInv(s: State, step: Step)
    requires Inv(s) && Enabled(s, step)
    ensures Inv(Exec(s, step))
  {
    match step
    case StartAgent(journalOk) => StartKeeps(s, journalOk);
    case StartTool => StartToolKeeps(s);
    case ToolStep => DeadManKeepsInv(s);
    case ToolStops => ToolGone(s);
    case BeginPin(q) => BeginPinKeeps(s, q);
    case BeginRevert(sel) => SelectUnique(s.m.rows, sel);
    case BeginRevertAll =>
    case Prune(live) => SelectUnique(s.m.rows, OfLive(live));
    case Continue => ContinueKeeps(s);
    case Crash =>
    case Spawn(pid, proc) => SpawnKeeps(s, pid, proc);
    case Exit(pid) => ExitKeeps(s, pid);
    case Rights(pid, r, w, n) => RightsKeep(s, pid, r, w, n);
  }

  lemma ContinueKeeps(s: State)
    requires Inv(s) && Enabled(s, Continue)
    ensures Inv(Advance(s))
  {
    match s.ctl
    case Pinning(_, _, _) => PinKeepsInv(s);
    case Reverting(_, _) => RevertKeepsInv(s);
    case Recovering(_, _) => RecoverKeepsInv(s);
  }

  lemma {:induction false} RunKeepsInv(s: State, run: seq<Step>)
    requires Inv(s) && Legal(s, run)
    ensures Inv(Final(s, run))
    decreases run
  {
    if run != [] {
      StepKeepsInv(s, run[0]);
      RunKeepsInv(Exec(s, run[0]), run[1..]);
    }
  }

  /** The crash theorem. From a fresh machine, whatever was pinned, reverted or pruned, however often and
      wherever the agent or the dead-man died, and however the two interleaved: when the recovery walk of
      a starting agent has come to its end, or that of a dead-man without an agent, every living process
      is at its original mask. */
  lemma CrashSafe(s: State, run: seq<Step>)
    requires Initial(s) && Legal(s, run)
    ensures var t := Final(s, run);
            (t.ctl.Recovering? && t.ctl.rest == []) || (t.tool.Walking? && t.tool.alone && t.tool.left == []) ==>
              forall pid :: pid in t.m.procs ==> Restored(t.m.procs, pid)
  {
    StartsInv(s);
    RunKeepsInv(s, run);
  }
}
