/** From the bytes of the file to the crash theorem: what each step of a run does to the file, what a crash in
    the middle of a write leaves, and what a new executor makes of it. */
module JournalOnDisk {
  import opened Common
  import opened Bytes
  import opened DiskRecords
  import opened JournalSpec
  import opened RevertJournals
  import opened Placement
  import opened CrashSafety
  import opened CrashRuns
  import opened ActionExecutors

  // ---- What the slots of a run look like ---------------------------------

  /** Records as the journal writes them. */
  predicate Written(slots: seq<DiskRecord>) {
    forall r <- slots :: r.magic == MAGIC && (r.status == PENDING || r.status == APPLIED || r.status == REVERTED)
  }

  lemma StepWritten(s: State, step: Step)
    requires Inv(s) && Enabled(s, step) && Written(s.m.slots)
    ensures Written(Exec(s, step).m.slots)
  {
    hide Inv, Enabled, RecoverAll, Recovered, PruneLog;
    if s.ctl.Pinning? {
      PinIsPending(s);
    }
  }

  lemma PinIsPending(s: State)
    requires Inv(s) && s.ctl.Pinning?
    ensures s.ctl.rec.magic == MAGIC && (s.ctl.rec.status == PENDING || s.ctl.rec.status == APPLIED)
  {
  }

  lemma {:induction false} RunWritten(s: State, run: seq<Step>)
    requires Inv(s) && Legal(s, run) && Written(s.m.slots)
    ensures Written(Final(s, run).m.slots)
    decreases run
  {
    hide Inv, Enabled, Exec;
    if run != [] {
      StepKeepsInv(s, run[0]);
      StepWritten(s, run[0]);
      RunWritten(Exec(s, run[0]), run[1..]);
    }
  }

  // ---- The effects as writes ---------------------------------------------

  /** An append writes the record behind the slots. */
  lemma AppendIsWrite(m: Machine, rec: DiskRecord)
    requires m.journalOpen
    ensures EncodeAll(Append(m, rec).slots) == EncodeAll(m.slots) + Encode(rec)
  {
    EncodeAllLast(m.slots, rec);
  }

  lemma StatusIsWrite(slots: seq<DiskRecord>, i: nat, v: U32)
    requires i < |slots|
    ensures EncodeAll(slots[i := slots[i].(status := v)]) == Patch(EncodeAll(slots), i * SLOT + 4, Le(v, 4))
  {
    var after := slots[i := slots[i].(status := v)];
    FlipIsOneField(slots, [], i, v);
    assert EncodeAll(slots) + [] == EncodeAll(slots) && EncodeAll(after) + [] == EncodeAll(after);
  }

  /** The agent's flip writes four bytes at the offset that its index has for the key. */
  lemma FlipIsWrite(m: Machine, k: RevertKey, v: U32)
    requires m.journalOpen && LastMatch(m.slots, k) >= 0
    ensures EncodeAll(FlipSlot(m, k, v).slots) == Patch(EncodeAll(m.slots), LastMatch(m.slots, k) + 4, Le(v, 4))
  {
    StatusIsWrite(m.slots, LastSlot(m.slots, k), v);
  }

  /** The dead-man's flip writes them at the offset that its own index has. */
  lemma ToolFlipIsWrite(slots: seq<DiskRecord>, found: seq<DiskRecord>, k: RevertKey)
    requires 0 <= LastSlot(found, k) < |slots|
    ensures EncodeAll(FlipFound(slots, found, k)) == Patch(EncodeAll(slots), LastMatch(found, k) + 4, Le(REVERTED, 4))
  {
    StatusIsWrite(slots, LastSlot(found, k), REVERTED);
  }

  // ---- Writes cut short --------------------------------------------------

  lemma SmallNumber(v: U32)
    requires v < 256
    ensures Le(v, 4) == [v, 0, 0, 0]
  {
    assert Le(v, 4) == [v % 256] + Le(v / 256, 3);
    assert Le(0, 3) == [0] + Le(0, 2);
    assert Le(0, 2) == [0] + Le(0, 1);
    assert Le(0, 1) == [0] + Le(0, 0);
  }

  lemma StatusBytes(r: DiskRecord)
    requires r.status < 256
    ensures Encode(r)[4..8] == [r.status, 0, 0, 0]
  {
    SmallNumber(r.status);
    assert Encode(r)[4..8] == Le(r.status, 4) by {
      PatchStatus(r, r.status);
      assert r.(status := r.status) == r;
      assert Patch(Encode(r), 4, Le(r.status, 4))[4..8] == Le(r.status, 4);
    }
  }

  /** A status write that stops after n of its four bytes has written the status or nothing: the other
      three bytes are zero before and after. */
  lemma TornStatus(file: seq<Byte>, at: nat, was: U32, v: U32, n: nat)
    requires at + 4 <= |file| && file[at..at + 4] == [was, 0, 0, 0] && was < 256 && v < 256 && n <= 4
    ensures Patch(file, at, Le(v, 4)[..n]) == if n == 0 then file else Patch(file, at, Le(v, 4))
  {
    SmallNumber(v);
    var torn := Patch(file, at, Le(v, 4)[..n]);
    assert file[at] == file[at..at + 4][0] && file[at + 1] == file[at..at + 4][1];
    assert file[at + 2] == file[at..at + 4][2] && file[at + 3] == file[at..at + 4][3];
    if n == 0 {
      assert torn == file;
    } else {
      var full := Patch(file, at, Le(v, 4));
      forall i | 0 <= i < |file| ensures torn[i] == full[i] {
      }
      assert torn == full;
    }
  }

  /** So a flip that a crash interrupts has happened or has not. */
  lemma TornFlip(slots: seq<DiskRecord>, i: nat, v: U32, n: nat)
    requires i < |slots| && Written(slots) && v < 256 && n <= 4
    ensures Patch(EncodeAll(slots), i * SLOT + 4, Le(v, 4)[..n])
         == EncodeAll(if n == 0 then slots else slots[i := slots[i].(status := v)])
  {
    var file := EncodeAll(slots);
    SlotBytes(slots, i);
    assert slots[i] in slots;
    StatusBytes(slots[i]);
    assert file[i * SLOT + 4..i * SLOT + 8] == file[i * SLOT..(i + 1) * SLOT][4..8];
    TornStatus(file, i * SLOT + 4, slots[i].status, v, n);
    StatusIsWrite(slots, i, v);
  }

  lemma SlotBytes(slots: seq<DiskRecord>, i: nat)
    requires i < |slots|
    ensures EncodeAll(slots)[i * SLOT..(i + 1) * SLOT] == Encode(slots[i])
  {
    EncodeAllSplit(slots, i);
    var before := EncodeAll(slots[..i]);
    assert |before| == i * SLOT;
  }

  // ---- A restart on these bytes ------------------------------------------

  /** What the file may hold when the machine stops in this state: the slots, and possibly the beginning of a
      record that was being appended. A flip in progress is covered by TornFlip. */
  predicate OnDisk(slots: seq<DiskRecord>, disk: seq<Byte>) {
    |EncodeAll(slots)| <= |disk| < |EncodeAll(slots)| + SLOT && disk[..|EncodeAll(slots)|] == EncodeAll(slots)
  }

  lemma DiskIsRead(slots: seq<DiskRecord>, disk: seq<Byte>)
    requires Written(slots) && OnDisk(slots, disk)
    ensures Scan(disk) == slots
  {
    var tail := disk[|EncodeAll(slots)|..];
    assert disk == EncodeAll(slots) + tail;
    ScanEncoded(slots, tail);
  }

  /** Whatever happened before, and wherever in a write the machine stopped: recovery from the bytes of the
      file leaves every living process at its original mask. */
  lemma BytesRestore(s: State, run: seq<Step>, disk: seq<Byte>)
    requires Initial(s) && Legal(s, run) && OnDisk(Final(s, run).m.slots, disk) && AllGranted(Final(s, run).m.procs)
    ensures var procs := Final(s, run).m.procs;
            var procs' := RecoveryPass(Machine(procs, true, Scan(disk), [], [])).procs;
            && procs'.Keys == procs.Keys
            && forall pid <- procs' :: procs'[pid] == procs[pid].(mask := procs[pid].orig)
  {
    hide Legal, Final, RecoveryPass;
    StartsInv(s);
    RunKeepsInv(s, run);
    RunWritten(s, run);
    var t := Final(s, run).m;
    DiskIsRead(t.slots, disk);
    PassRestores(Machine(t.procs, true, t.slots, [], []));
  }

  /** The next start of the agent, on the file and the processes that the run has left. */
  method Restart(ghost s: State, ghost run: seq<Step>, world: ProcessTable, journal: RevertJournal, disk: seq<Byte>)
    returns (agent: ActionExecutor)
    requires Initial(s) && Legal(s, run) && OnDisk(Final(s, run).m.slots, disk)
    requires world.procs == Final(s, run).m.procs && AllGranted(world.procs)
    requires journal.Valid() && !journal.isOpen
    modifies world, journal
    ensures agent.world == world && agent.journal == journal && agent.Valid() && agent.Rows() == []
    ensures world.procs.Keys == old(world.procs).Keys
    ensures forall pid <- world.procs :: world.procs[pid] == old(world.procs)[pid].(mask := old(world.procs)[pid].orig)
  {
    hide Legal, Final, RecoveryPass;
    BytesRestore(s, run, disk);
    agent := new ActionExecutor(world, journal, disk, true);
  }
}
