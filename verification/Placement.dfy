/** The world the agent acts on - live processes and their affinity masks - together with the
    journal slots, the table of active actions and the action log. Each function below is one
    indivisible effect of ActionExecutor, or one of its operations as a sequence of effects. */
module Placement {
  import opened Common
  import opened DiskRecords
  import opened JournalSpec

  type Name = seq<Byte>

  /** A live process. `orig` is its affinity when it started: a history value that no code reads.
      The three flags say which requests the system grants for it. */
  datatype Proc = Proc(creationTime: U64, exe: Name, mask: U64, orig: U64,
                       readable: bool, settable: bool, named: bool)

  type Procs = map<U32, Proc>

  function ProcKey(procs: Procs, pid: U32): RevertKey
    requires pid in procs
  {
    RevertKey(pid, procs[pid].creationTime)
  }

  // ---- System calls ------------------------------------------------------

  /** get_process_affinity, 0 when it fails. */
  function ReadMask(procs: Procs, pid: U32): U64 {
    if pid in procs && procs[pid].readable then procs[pid].mask else 0
  }

  /** query_creation_time, 0 when it fails. */
  function ReadCreationTime(procs: Procs, pid: U32): U64 {
    if pid != 0 && pid in procs && procs[pid].readable then procs[pid].creationTime else 0
  }

  /** query_exe_basename into a char[64]; the empty name when it fails. */
  function ReadName(procs: Procs, pid: U32): Name {
    if pid != 0 && pid in procs && procs[pid].named then CStr(procs[pid].exe, 63) else []
  }

  predicate SetSucceeds(procs: Procs, pid: U32, mask: U64) {
    pid in procs && procs[pid].settable && mask != 0
  }

  function SetMask(procs: Procs, pid: U32, mask: U64): Procs {
    if SetSucceeds(procs, pid, mask) then procs[pid := procs[pid].(mask := mask)] else procs
  }

  function LowerByte(c: Byte): Byte {
    if 65 <= c <= 90 then c + 32 else c
  }

  predicate SameName(a: Name, b: Name) {
    |a| == |b| && forall i :: 0 <= i < |a| ==> LowerByte(a[i]) == LowerByte(b[i])
  }

  /** process_still_matches */
  predicate StillMatches(procs: Procs, rec: RevertRecord) {
    var ct := ReadCreationTime(procs, rec.key.pid);
    && ct != 0
    && ct == rec.key.creationTime
    && (rec.value.exeName != [] && ReadName(procs, rec.key.pid) != [] ==>
          SameName(ReadName(procs, rec.key.pid), rec.value.exeName))
  }

  // ---- The machine -------------------------------------------------------

  datatype ActiveAction = ActiveAction(
    pid: U32,
    ruleId: U32,
    prevMask: U64,
    prevPriority: U32,
    newMask: U64,
    newPriority: U32,
    creationTime: U64,
    exeName: Name,
    active: bool)

  function ActionKey(a: ActiveAction): RevertKey {
    RevertKey(a.pid, a.creationTime)
  }

  datatype LogEntry = LogEntry(isRevert: bool, pid: U32, ruleId: U32, prevMask: U64, newMask: U64)

  function LogOf(a: ActiveAction, isRevert: bool): LogEntry {
    LogEntry(isRevert, a.pid, a.ruleId, a.prevMask, if isRevert then a.prevMask else a.newMask)
  }

  datatype Machine = Machine(
    procs: Procs,
    journalOpen: bool,
    slots: seq<DiskRecord>,
    rows: seq<ActiveAction>,
    log: seq<LogEntry>)

  const MAX_ACTIVE := 32

  predicate Holds(rows: seq<ActiveAction>, pid: U32) {
    exists i :: 0 <= i < |rows| && rows[i].pid == pid
  }

  predicate UniquePids(rows: seq<ActiveAction>) {
    forall i, j :: 0 <= i < j < |rows| ==> rows[i].pid != rows[j].pid
  }

  /** Which rows of the table an operation is about. */
  datatype Selector =
    | OfPid(pid: U32)
    | NotOfPid(pid: U32)
    | OfRule(ruleId: U32)
    | OfRuleAndName(ruleId: U32, exeFilter: Name)
    | OfLive(live: set<U32>)

  predicate Selects(sel: Selector, a: ActiveAction) {
    match sel
    case OfPid(pid) => a.pid == pid
    case NotOfPid(pid) => a.pid != pid
    case OfRule(ruleId) => a.ruleId == ruleId
    case OfRuleAndName(ruleId, f) => a.ruleId == ruleId && SameName(a.exeName, f)
    case OfLive(live) => a.pid in live
  }

  /** The selected rows, in table order. */
  function Select(rows: seq<ActiveAction>, sel: Selector): (out: seq<ActiveAction>)
    ensures forall a :: a in out <==> a in rows && Selects(sel, a)
  {
    if rows == [] then []
    else (if Selects(sel, rows[0]) then [rows[0]] else []) + Select(rows[1..], sel)
  }

  lemma {:induction false} SelectUnique(rows: seq<ActiveAction>, sel: Selector)
    requires UniquePids(rows)
    ensures UniquePids(Select(rows, sel))
  {
    if rows != [] {
      SelectUnique(rows[1..], sel);
      var more := Select(rows[1..], sel);
      forall j | 0 <= j < |more| ensures more[j].pid != rows[0].pid {
        assert more[j] in more && more[j] in rows[1..];
      }
    }
  }

  // ---- Effects -----------------------------------------------------------

  function Append(m: Machine, rec: DiskRecord): Machine {
    if m.journalOpen then m.(slots := m.slots + [rec]) else m
  }

  function FlipSlot(m: Machine, k: RevertKey, status: U32): Machine {
    if m.journalOpen then m.(slots := Flip(m.slots, k, status)) else m
  }

  function Set(m: Machine, pid: U32, mask: U64): Machine {
    m.(procs := SetMask(m.procs, pid, mask))
  }

  function Activate(m: Machine, a: ActiveAction): Machine {
    m.(rows := m.rows + [a], log := m.log + [LogOf(a, false)])
  }

  function Retire(m: Machine, a: ActiveAction): Machine {
    m.(rows := Select(m.rows, NotOfPid(a.pid)), log := m.log + [LogOf(a, true)])
  }

  // ---- Operations --------------------------------------------------------

  /** The restoring half of every revert: the captured mask when there is one, then the flip. */
  function Restore(m: Machine, k: RevertKey, prevMask: U64): Machine {
    FlipSlot(if prevMask != 0 then Set(m, k.pid, prevMask) else m, k, REVERTED)
  }

  function RevertRow(m: Machine, a: ActiveAction): Machine {
    Retire(Restore(m, ActionKey(a), a.prevMask), a)
  }

  function RevertRows(m: Machine, targets: seq<ActiveAction>): Machine
    decreases |targets|
  {
    if targets == [] then m else RevertRows(RevertRow(m, targets[0]), targets[1..])
  }

  /** A request to pin: what a PolicyDecision, the caller's exe name and the clock supply. */
  datatype PinRequest = PinRequest(pid: U32, ruleId: U32, coreMask: U64, exeName: Name, creationTime: U64,
                                   wallTimeMs: U64)

  function PinKeyTime(procs: Procs, q: PinRequest): U64 {
    if q.creationTime != 0 then q.creationTime else ReadCreationTime(procs, q.pid)
  }

  function PinName(procs: Procs, q: PinRequest): Name {
    if CStr(q.exeName, 63) != [] then q.exeName else ReadName(procs, q.pid)
  }

  function PinRecord(procs: Procs, q: PinRequest): DiskRecord {
    PendingRecord(q.pid, PinName(procs, q), PinKeyTime(procs, q), ReadMask(procs, q.pid), q.coreMask, q.wallTimeMs)
  }

  function PinAction(procs: Procs, q: PinRequest): ActiveAction {
    ActiveAction(q.pid, q.ruleId, ReadMask(procs, q.pid), 0, q.coreMask, 0, PinKeyTime(procs, q),
                 CStr(PinName(procs, q), 63), true)
  }

  /** apply() of a PinAffinity decision on a pid without an active row and with room in the table. */
  function Pin(m: Machine, q: PinRequest): Machine {
    var rec, a := PinRecord(m.procs, q), PinAction(m.procs, q);
    var m1 := Append(m, rec);
    if SetSucceeds(m1.procs, q.pid, q.coreMask) then
      Activate(FlipSlot(Set(m1, q.pid, q.coreMask), KeyOf(rec), APPLIED), a)
    else
      m1
  }

  /** The same when the PENDING record does not reach the file: nothing stops the Set, and the flip finds
      an older slot of the key or none. */
  function PinUnlogged(m: Machine, q: PinRequest): Machine {
    if SetSucceeds(m.procs, q.pid, q.coreMask) then
      Activate(FlipSlot(Set(m, q.pid, q.coreMask), RevertKey(q.pid, PinKeyTime(m.procs, q)), APPLIED), PinAction(m.procs, q))
    else
      m
  }

  function PinAs(m: Machine, q: PinRequest, logged: bool): Machine {
    if logged then Pin(m, q) else PinUnlogged(m, q)
  }

  datatype PriorityResult = PriorityDenied | PriorityWas(previous: U32)

  function PriorityAction(q: PinRequest, previous: U32, priorityClass: U32): ActiveAction {
    ActiveAction(q.pid, q.ruleId, 0, previous, 0, priorityClass, 0, [], true)
  }

  /** prune_dead: rows of dead processes go, with a log entry each and no system call. */
  function PruneDead(m: Machine, live: set<U32>): Machine {
    m.(rows := Select(m.rows, OfLive(live)), log := m.log + PruneLog(m.rows, live))
  }

  function PruneLog(rows: seq<ActiveAction>, live: set<U32>): seq<LogEntry> {
    if rows == [] then []
    else (if rows[0].pid in live then [] else [LogOf(rows[0], true)]) + PruneLog(rows[1..], live)
  }

  function RecoverOne(m: Machine, rec: RevertRecord): Machine {
    if StillMatches(m.procs, rec) then Restore(m, rec.key, rec.value.prevMask)
    else FlipSlot(m, rec.key, REVERTED)
  }

  function RecoverAll(m: Machine, recs: seq<RevertRecord>): Machine
    decreases |recs|
  {
    if recs == [] then m else RecoverAll(RecoverOne(m, recs[0]), recs[1..])
  }

  /** The pass of the constructor, and of the dead-man. */
  function RecoveryPass(m: Machine): Machine {
    if m.journalOpen then RecoverAll(m, Recovered(m.slots)) else m
  }
}
