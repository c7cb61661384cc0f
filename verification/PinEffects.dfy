/** What a pin does, said of the processes, the rows, the log and the journal before and after. */
module PinEffects {
  import opened Common
  import opened DiskRecords
  import opened JournalSpec
  import opened Placement
  import opened RevertEffects

  /** The system grants the Set. */
  predicate Granted(m: Machine, q: PinRequest) {
    q.pid in m.procs && m.procs[q.pid].settable && q.coreMask != 0
  }

  /** The mask before the pin, 0 when it cannot be read. */
  function Captured(m: Machine, pid: U32): U64 {
    if pid in m.procs && m.procs[pid].readable then m.procs[pid].mask else 0
  }

  /** The identity that goes into the journal: what the caller gives, else what the system answers. */
  function Identity(m: Machine, q: PinRequest): U64 {
    if q.creationTime != 0 then q.creationTime
    else if q.pid != 0 && q.pid in m.procs && m.procs[q.pid].readable then m.procs[q.pid].creationTime
    else 0
  }

  /** The new row, and the log entry for it. */
  ghost predicate RowAdded(m: Machine, n: Machine, q: PinRequest) {
    exists a: ActiveAction ::
      && n.rows == m.rows + [a] && n.log == m.log + [LogEntry(false, q.pid, q.ruleId, Captured(m, q.pid), q.coreMask)]
      && a.pid == q.pid && a.ruleId == q.ruleId && a.newMask == q.coreMask && a.active
      && a.prevMask == Captured(m, q.pid) && a.creationTime == Identity(m, q)
  }

  /** The record of the pin is the last one: 2 (APPLIED) when the Set was granted, otherwise 1 (PENDING). */
  ghost predicate SlotAdded(m: Machine, n: Machine, q: PinRequest) {
    exists r: DiskRecord ::
      && n.slots == m.slots + [r] && r.status == (if Granted(m, q) then 2 else 1)
      && r.pid == q.pid && r.creationTime == Identity(m, q)
      && r.prevMask == Captured(m, q.pid) && r.newMask == q.coreMask
  }

  /** Without a record the flip goes to the last older slot of the process, if there is one. */
  ghost predicate OlderApplied(m: Machine, n: Machine, q: PinRequest) {
    && |n.slots| == |m.slots|
    && forall i :: 0 <= i < |m.slots| ==>
         n.slots[i] == if Granted(m, q) && IsLast(m.slots, i, q.pid, Identity(m, q)) then m.slots[i].(status := 2) else m.slots[i]
  }

  /** The process is on the new mask, with a row that remembers the old one; a denied pin leaves processes,
      rows and log alone. */
  ghost predicate PinnedTo(m: Machine, n: Machine, q: PinRequest, logged: bool) {
    && n.journalOpen == m.journalOpen
    && (if Granted(m, q)
        then n.procs == m.procs[q.pid := m.procs[q.pid].(mask := q.coreMask)] && RowAdded(m, n, q)
        else n.procs == m.procs && n.rows == m.rows && n.log == m.log)
    && (if !m.journalOpen then n.slots == m.slots else if logged then SlotAdded(m, n, q) else OlderApplied(m, n, q))
  }

  lemma PinMeaning(m: Machine, q: PinRequest, logged: bool)
    ensures PinnedTo(m, PinAs(m, q, logged), q, logged)
  {
    var n := PinAs(m, q, logged);
    if Granted(m, q) {
      PinRow(m, n, q, logged);
    }
    if m.journalOpen {
      if logged {
        PinSlot(m, q);
      } else {
        PinFlipsOlder(m, q);
      }
    }
  }

  lemma PinRow(m: Machine, n: Machine, q: PinRequest, logged: bool)
    requires n == PinAs(m, q, logged) && Granted(m, q)
    ensures RowAdded(m, n, q)
  {
    hide PinRecord, PinName;
    var a := PinAction(m.procs, q);
    assert n.rows == m.rows + [a] && n.log == m.log + [LogOf(a, false)];
  }

  lemma PinSlot(m: Machine, q: PinRequest)
    requires m.journalOpen
    ensures SlotAdded(m, Pin(m, q), q)
  {
    hide PinName;
    var r := PinRecord(m.procs, q);
    LastMatchAppend(m.slots, r, KeyOf(r));
    assert Flip(m.slots + [r], KeyOf(r), APPLIED) == m.slots + [r.(status := APPLIED)];
  }

  lemma PinFlipsOlder(m: Machine, q: PinRequest)
    requires m.journalOpen
    ensures OlderApplied(m, PinUnlogged(m, q), q)
  {
    var n, k := PinUnlogged(m, q), RevertKey(q.pid, PinKeyTime(m.procs, q));
    forall i | 0 <= i < |m.slots|
      ensures n.slots[i] == if Granted(m, q) && IsLast(m.slots, i, q.pid, Identity(m, q)) then m.slots[i].(status := 2) else m.slots[i]
    {
      LastIsLast(m.slots, i, k);
    }
  }

  /** A raised or lowered process gets a row that remembers its class, and nothing else changes. */
  ghost predicate PriorityRow(m: Machine, n: Machine, q: PinRequest, previous: U32, class_: U32) {
    exists a: ActiveAction ::
      && n == m.(rows := m.rows + [a], log := m.log + [LogEntry(false, q.pid, q.ruleId, 0, 0)])
      && a.pid == q.pid && a.ruleId == q.ruleId && a.prevPriority == previous && a.newPriority == class_
      && a.prevMask == 0 && a.active
  }

  lemma PriorityMeaning(m: Machine, q: PinRequest, previous: U32, class_: U32)
    ensures PriorityRow(m, Activate(m, PriorityAction(q, previous, class_)), q, previous, class_)
  {
  }
}
