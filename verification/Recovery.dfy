/** What one recovery walk does to an arbitrary journal and an arbitrary process table. */
module Recovery {
  import opened Common
  import opened DiskRecords
  import opened KeyedLists
  import opened JournalSpec
  import opened Placement
  import opened RevertEffects

  // ---- Effect on the processes -------------------------------------------

  /** The mask a recovery that knows `known` leaves on a live process. */
  function RestoredMask(procs: Procs, known: map<RevertKey, Survivor>, pid: U32): U64
    requires pid in procs
  {
    var k := ProcKey(procs, pid);
    if k in known && StillMatches(procs, Entry(k, known[k])) && SetSucceeds(procs, pid, known[k].prevMask)
    then known[k].prevMask
    else procs[pid].mask
  }

  predicate OnlyMasksDiffer(a: Procs, b: Procs) {
    a.Keys == b.Keys && forall p :: p in a ==> a[p] == b[p].(mask := a[p].mask)
  }

  lemma SameChecks(a: Procs, b: Procs, rec: RevertRecord)
    requires OnlyMasksDiffer(a, b)
    ensures StillMatches(a, rec) <==> StillMatches(b, rec)
    ensures forall pid, mask :: SetSucceeds(a, pid, mask) <==> SetSucceeds(b, pid, mask)
  {
    var pid := rec.key.pid;
    assert pid in a ==> a[pid] == b[pid].(mask := a[pid].mask);
    forall pid, mask ensures SetSucceeds(a, pid, mask) <==> SetSucceeds(b, pid, mask) {
    }
  }

  lemma RecoverOneProcs(m: Machine, rec: RevertRecord)
    ensures var m' := RecoverOne(m, rec);
            && m'.journalOpen == m.journalOpen && m'.rows == m.rows && m'.log == m.log
            && m'.slots == (if m.journalOpen then Flip(m.slots, rec.key, REVERTED) else m.slots)
            && OnlyMasksDiffer(m'.procs, m.procs)
            && forall p :: p in m.procs ==>
                 m'.procs[p].mask == RestoredMask(m.procs, map[rec.key := rec.value], p)
  {
  }

  lemma {:induction false} RecoverAllProcs(m: Machine, recs: seq<RevertRecord>)
    requires Distinct(recs)
    ensures var m' := RecoverAll(m, recs);
            && m'.journalOpen == m.journalOpen && m'.rows == m.rows && m'.log == m.log
            && OnlyMasksDiffer(m'.procs, m.procs)
            && forall p :: p in m.procs ==> m'.procs[p].mask == RestoredMask(m.procs, ToMap(recs), p)
    decreases |recs|
  {
    if recs != [] {
      var rec, m1 := recs[0], RecoverOne(m, recs[0]);
      RecoverOneProcs(m, rec);
      RecoverAllProcs(m1, recs[1..]);
      ToMapAbsent(recs[1..], rec.key);
      var m' := RecoverAll(m, recs);
      forall p | p in m.procs ensures m'.procs[p].mask == RestoredMask(m.procs, ToMap(recs), p) {
        var k := ProcKey(m.procs, p);
        assert ProcKey(m1.procs, p) == k;
        if k in ToMap(recs) {
          SameChecks(m1.procs, m.procs, Entry(k, ToMap(recs)[k]));
        }
      }
    }
  }

  // ---- Effect on the slots -----------------------------------------------

  /** Slot i of a journal after the keys in `resolved` had their last slot flipped. */
  function ResolvedSlot(slots: seq<DiskRecord>, resolved: set<RevertKey>, i: nat): DiskRecord
    requires i < |slots|
  {
    if KeyOf(slots[i]) in resolved && i == LastSlot(slots, KeyOf(slots[i]))
    then slots[i].(status := REVERTED)
    else slots[i]
  }

  lemma {:induction false} RecoverAllSlots(m: Machine, recs: seq<RevertRecord>)
    requires m.journalOpen
    ensures var m' := RecoverAll(m, recs);
            && SameKeys(m.slots, m'.slots)
            && forall i :: 0 <= i < |m.slots| ==> m'.slots[i] == ResolvedSlot(m.slots, ToMap(recs).Keys, i)
    decreases |recs|
  {
    if recs != [] {
      var m1 := RecoverOne(m, recs[0]);
      RecoverOneProcs(m, recs[0]);
      RecoverAllSlots(m1, recs[1..]);
      SameKeysSameIndex(m.slots, m1.slots);
      assert ToMap(recs).Keys == ToMap(recs[1..]).Keys + {recs[0].key};
    }
  }

  // ---- The walk as a whole -----------------------------------------------

  /** A recovery walk writes to a live process exactly when the last unresolved slot of its own
      key matches it, and then writes that slot's captured mask. Recycled pids are never touched. */
  lemma PassWrites(m: Machine, pid: U32)
    requires m.journalOpen && pid in m.procs
    ensures var m', k := RecoveryPass(m), ProcKey(m.procs, pid);
            var j := LastUnresolved(m.slots, k);
            && pid in m'.procs
            && m'.procs[pid] ==
                 if && j >= 0
                    && StillMatches(m.procs, Entry(k, SurvivorOf(m.slots[j])))
                    && SetSucceeds(m.procs, pid, m.slots[j].prevMask)
                 then m.procs[pid].(mask := m.slots[j].prevMask)
                 else m.procs[pid]
  {
    RecoveredMeaning(m.slots);
    RecoverAllProcs(m, Recovered(m.slots));
  }

  /** Slot i is the last open one (1 PENDING, 2 APPLIED) of a process. */
  ghost predicate LastOpen(slots: seq<DiskRecord>, i: nat, pid: U32, creationTime: U64) {
    && i < |slots| && slots[i].pid == pid && slots[i].creationTime == creationTime
    && OpenStatus(slots[i])
    && forall j :: i < j < |slots| ==> slots[j].pid != pid || slots[j].creationTime != creationTime || !OpenStatus(slots[j])
  }

  predicate OpenStatus(r: DiskRecord) {
    r.status == 1 || r.status == 2
  }

  /** The process can be identified, its name - where both are known - is the recorded one up to case, and the
      Set of the recorded mask is granted. */
  predicate Restorable(pid: U32, p: Proc, r: DiskRecord) {
    && pid != 0 && p.readable && p.creationTime != 0 && p.settable && r.prevMask != 0
    && (CStr(r.exeName, 63) == [] || !p.named || CStr(p.exe, 63) == [] || !NamesDiffer(CStr(p.exe, 63), CStr(r.exeName, 63)))
  }

  /** The same from the slots directly: which process gets which mask. */
  lemma PassSetsMasks(m: Machine, pid: U32)
    requires m.journalOpen && pid in m.procs
    ensures var p, n := m.procs[pid], RecoveryPass(m);
            && n.procs.Keys == m.procs.Keys
            && (forall i: nat :: LastOpen(m.slots, i, pid, p.creationTime) ==>
                  n.procs[pid] == if Restorable(pid, p, m.slots[i]) then p.(mask := m.slots[i].prevMask) else p)
            && ((forall i: nat :: !LastOpen(m.slots, i, pid, p.creationTime)) ==> n.procs[pid] == p)
  {
    hide RecoveryPass, NamesDiffer;
    PassWrites(m, pid);
    PassResolves(m);
    var p, k := m.procs[pid], ProcKey(m.procs, pid);
    var j := LastUnresolved(m.slots, k);
    forall i: nat ensures LastOpen(m.slots, i, pid, p.creationTime) <==> i == j {
    }
    if j >= 0 {
      SameNameMeaning(CStr(p.exe, 63), CStr(m.slots[j].exeName, 63));
    }
  }

  /** The walk spawns and kills nothing, and resolves the last slot of every key that still had
      an unresolved one; no other slot changes. */
  lemma PassResolves(m: Machine)
    requires m.journalOpen
    ensures var m' := RecoveryPass(m);
            && m'.procs.Keys == m.procs.Keys && m'.rows == m.rows && m'.log == m.log
            && SameKeys(m.slots, m'.slots)
            && forall i :: 0 <= i < |m.slots| ==>
                 m'.slots[i] == if && i == LastSlot(m.slots, KeyOf(m.slots[i]))
                                   && LastUnresolved(m.slots, KeyOf(m.slots[i])) >= 0
                                then m.slots[i].(status := REVERTED)
                                else m.slots[i]
  {
    RecoveredMeaning(m.slots);
    RecoverAllProcs(m, Recovered(m.slots));
    RecoverAllSlots(m, Recovered(m.slots));
  }

  /** Every slot that a later slot of the same key supersedes is resolved. */
  predicate Tidy(slots: seq<DiskRecord>) {
    forall i :: 0 <= i < |slots| && Unresolved(slots[i]) ==> i == LastSlot(slots, KeyOf(slots[i]))
  }

  lemma NothingRecovered(slots: seq<DiskRecord>)
    ensures Recovered(slots) == [] <==> forall i :: 0 <= i < |slots| ==> !Unresolved(slots[i])
  {
    RecoveredMeaning(slots);
    var recs := Recovered(slots);
    if recs != [] {
      ToMapAt(recs, 0);
      assert LastUnresolved(slots, recs[0].key) >= 0;
    } else {
      forall i | 0 <= i < |slots| ensures !Unresolved(slots[i]) {
        assert KeyOf(slots[i]) !in ToMap(recs);
      }
    }
  }

  /** The tool calls its walk idempotent: a second one finds nothing to do. That holds exactly on
      tidy journals. */
  lemma SecondPassIdleIffTidy(m: Machine)
    requires m.journalOpen
    ensures Recovered(RecoveryPass(m).slots) == [] <==> Tidy(m.slots)
  {
    var slots := RecoveryPass(m).slots;
    PassResolves(m);
    NothingRecovered(slots);
    if Tidy(m.slots) {
      forall i | 0 <= i < |slots| ensures !Unresolved(slots[i]) {
      }
    } else {
      var i :| 0 <= i < |m.slots| && Unresolved(m.slots[i]) && i != LastSlot(m.slots, KeyOf(m.slots[i]));
      assert Unresolved(slots[i]);
    }
  }

  lemma PassTwiceIsOnce(m: Machine)
    requires m.journalOpen && Tidy(m.slots)
    ensures RecoveryPass(RecoveryPass(m)) == RecoveryPass(m)
  {
    SecondPassIdleIffTidy(m);
    PassKeepsJournalOpen(m);
  }

  lemma PassKeepsJournalOpen(m: Machine)
    ensures RecoveryPass(m).journalOpen == m.journalOpen
  {
    if m.journalOpen {
      RecoveredMeaning(m.slots);
      RecoverAllProcs(m, Recovered(m.slots));
    }
  }
}
