/** phynned-revert: the second client of the journal. */
module DeadMan {
  import opened Common
  import opened KeyedLists
  import opened JournalSpec
  import opened RevertJournals
  import opened Placement
  import opened Recovery
  import opened ActionExecutors

  datatype Stats = Stats(reverted: nat, stale: nat, failed: nat)

  /** How the tool counts one survivor. */
  function Count(s: Stats, procs: Procs, rec: RevertRecord, dryRun: bool): Stats {
    if !StillMatches(procs, rec) then s.(stale := s.stale + 1)
    else if dryRun || SetSucceeds(procs, rec.key.pid, rec.value.prevMask) then s.(reverted := s.reverted + 1)
    else s.(failed := s.failed + 1)
  }

  function CountAll(procs: Procs, recs: seq<RevertRecord>, dryRun: bool): Stats {
    if recs == [] then Stats(0, 0, 0)
    else Count(CountAll(procs, recs[..|recs| - 1], dryRun), procs, recs[|recs| - 1], dryRun)
  }

  /** What the tool works on. */
  ghost function Seen(j: RevertJournal, world: ProcessTable): Machine
    reads j, world
  {
    Machine(world.procs, true, j.Records(), [], [])
  }

  /** One walk over the survivors. A dry run changes nothing; otherwise the walk is the recovery pass
      that the agent's constructor performs. */
  method RunDeadMan(j: RevertJournal, world: ProcessTable, dryRun: bool) returns (s: Stats)
    requires j.Valid() && j.Synced()
    modifies j`file, world
    ensures j.Valid() && j.Synced() && (old(j.Exact()) ==> j.Exact())
    ensures s == CountAll(old(world.procs), Recovered(old(j.Records())), dryRun)
    ensures dryRun ==> j.file == old(j.file) && world.procs == old(world.procs)
    ensures !dryRun ==> Seen(j, world) == RecoveryPass(old(Seen(j, world)))
  {
    var recs := j.Recover();
    ghost var procs0, now := world.procs, Seen(j, world);
    ghost var m := RecoveryPass(now);
    s := Stats(0, 0, 0);
    for i := 0 to |recs|
      invariant j.Valid() && j.Synced() && (old(j.Exact()) ==> j.Exact())
      invariant OnlyMasksDiffer(world.procs, procs0)
      invariant s == CountAll(procs0, recs[..i], dryRun)
      invariant dryRun ==> j.file == old(j.file) && world.procs == procs0
      invariant !dryRun ==> now == Seen(j, world) && m == RecoverAll(now, recs[i..])
    {
      var rec := recs[i];
      assert recs[i..][1..] == recs[i + 1..] && recs[..i + 1] == recs[..i] + [rec];
      SameCount(s, world.procs, procs0, rec, dryRun);
      s := VisitSurvivor(j, world, dryRun, rec, s);
      now := RecoverOne(now, rec);
      CountNext(procs0, recs, i, dryRun);
    }
    assert recs[..|recs|] == recs;
  }

  method VisitSurvivor(j: RevertJournal, world: ProcessTable, dryRun: bool, rec: RevertRecord, s: Stats)
    returns (t: Stats)
    requires j.Valid() && j.Synced()
    modifies j`file, world
    ensures j.Valid() && j.Synced() && (old(j.Exact()) ==> j.Exact())
    ensures t == Count(s, old(world.procs), rec, dryRun)
    ensures OnlyMasksDiffer(world.procs, old(world.procs))
    ensures dryRun ==> j.file == old(j.file) && world.procs == old(world.procs)
    ensures !dryRun ==> Seen(j, world) == RecoverOne(old(Seen(j, world)), rec)
  {
    var live := StillMatches(world.procs, rec);
    if dryRun {
      return if live then s.(reverted := s.reverted + 1) else s.(stale := s.stale + 1);
    }
    if live {
      var ok := RevertToPrev(world, rec.key.pid, rec.value.prevMask);
      t := if ok then s.(reverted := s.reverted + 1) else s.(failed := s.failed + 1);
    } else {
      t := s.(stale := s.stale + 1);
    }
    j.MarkReverted(rec.key);
  }

  method RevertToPrev(world: ProcessTable, pid: U32, prevMask: U64) returns (ok: bool)
    modifies world
    ensures world.procs == SetMask(old(world.procs), pid, prevMask)
    ensures ok == SetSucceeds(old(world.procs), pid, prevMask)
  {
    if prevMask == 0 {
      return false;
    }
    ok := world.SetAffinity(pid, prevMask);
  }

  lemma SameCount(s: Stats, a: Procs, b: Procs, rec: RevertRecord, dryRun: bool)
    requires OnlyMasksDiffer(a, b)
    ensures Count(s, a, rec, dryRun) == Count(s, b, rec, dryRun)
  {
    SameChecks(a, b, rec);
  }

  lemma CountNext(procs: Procs, recs: seq<RevertRecord>, i: nat, dryRun: bool)
    requires i < |recs|
    ensures CountAll(procs, recs[..i + 1], dryRun) == Count(CountAll(procs, recs[..i], dryRun), procs, recs[i], dryRun)
  {
    assert recs[..i + 1][..i] == recs[..i];
  }

  /** Every survivor is counted once, and `failed` is 0 exactly when the Set of every live survivor is
      granted. */
  lemma {:induction false} NoFailureMeansRestored(procs: Procs, recs: seq<RevertRecord>)
    requires Distinct(recs)
    ensures var s := CountAll(procs, recs, false);
            && s.reverted + s.stale + s.failed == |recs|
            && (s.failed == 0 <==>
                  forall rec :: rec in recs && StillMatches(procs, rec) ==>
                    SetSucceeds(procs, rec.key.pid, rec.value.prevMask))
  {
    if recs != [] {
      var n := |recs| - 1;
      NoFailureMeansRestored(procs, recs[..n]);
      assert recs == recs[..n] + [recs[n]];
    }
  }

  predicate Grants(procs: Procs, rec: RevertRecord) {
    rec.key.pid in procs && procs[rec.key.pid].settable && rec.value.prevMask != 0
  }

  /** The survivors whose process is gone, back, or could not be set back. */
  ghost function Stale(procs: Procs, recs: seq<RevertRecord>): set<int> {
    set i | 0 <= i < |recs| && !StillMatches(procs, recs[i])
  }

  ghost function Back(procs: Procs, recs: seq<RevertRecord>, dryRun: bool): set<int> {
    set i | 0 <= i < |recs| && StillMatches(procs, recs[i]) && (dryRun || Grants(procs, recs[i]))
  }

  ghost function NotBack(procs: Procs, recs: seq<RevertRecord>, dryRun: bool): set<int> {
    set i | 0 <= i < |recs| && StillMatches(procs, recs[i]) && !dryRun && !Grants(procs, recs[i])
  }

  lemma OneMoreStale(procs: Procs, recs: seq<RevertRecord>, n: nat)
    requires |recs| == n + 1
    ensures |Stale(procs, recs)| == |Stale(procs, recs[..n])| + (if StillMatches(procs, recs[n]) then 0 else 1)
  {
    hide StillMatches;
    assert Stale(procs, recs) == Stale(procs, recs[..n]) + (if StillMatches(procs, recs[n]) then {} else {n});
  }

  lemma OneMoreBack(procs: Procs, recs: seq<RevertRecord>, n: nat, dryRun: bool)
    requires |recs| == n + 1
    ensures |Back(procs, recs, dryRun)|
         == |Back(procs, recs[..n], dryRun)| + (if StillMatches(procs, recs[n]) && (dryRun || Grants(procs, recs[n])) then 1 else 0)
  {
    hide StillMatches, Grants;
    assert Back(procs, recs, dryRun) == Back(procs, recs[..n], dryRun) +
             (if StillMatches(procs, recs[n]) && (dryRun || Grants(procs, recs[n])) then {n} else {});
  }

  lemma OneMoreNotBack(procs: Procs, recs: seq<RevertRecord>, n: nat, dryRun: bool)
    requires |recs| == n + 1
    ensures |NotBack(procs, recs, dryRun)|
         == |NotBack(procs, recs[..n], dryRun)| + (if StillMatches(procs, recs[n]) && !dryRun && !Grants(procs, recs[n]) then 1 else 0)
  {
    hide StillMatches, Grants;
    assert NotBack(procs, recs, dryRun) == NotBack(procs, recs[..n], dryRun) +
             (if StillMatches(procs, recs[n]) && !dryRun && !Grants(procs, recs[n]) then {n} else {});
  }

  /** Each survivor is counted under what became of it; a dry run counts every live one as reverted. */
  lemma {:induction false} CountsExact(procs: Procs, recs: seq<RevertRecord>, dryRun: bool)
    ensures CountAll(procs, recs, dryRun) == Stats(|Back(procs, recs, dryRun)|, |Stale(procs, recs)|, |NotBack(procs, recs, dryRun)|)
  {
    if recs == [] {
      assert Stale(procs, recs) == Back(procs, recs, dryRun) == NotBack(procs, recs, dryRun) == {};
    } else {
      hide StillMatches, Stale, Back, NotBack;
      var n := |recs| - 1;
      CountsExact(procs, recs[..n], dryRun);
      OneMoreStale(procs, recs, n);
      OneMoreBack(procs, recs, n, dryRun);
      OneMoreNotBack(procs, recs, n, dryRun);
    }
  }

  /** So the exit code is honest: without failures every live survivor is at its captured mask after the walk. */
  lemma NoFailureMeansAtMask(m: Machine, recs: seq<RevertRecord>)
    requires Distinct(recs) && CountAll(m.procs, recs, false).failed == 0
    ensures var procs := RecoverAll(m, recs).procs;
            forall rec <- recs :: StillMatches(m.procs, rec) ==>
              rec.key.pid in procs && procs[rec.key.pid].mask == rec.value.prevMask
  {
    hide RecoverAll;
    NoFailureMeansRestored(m.procs, recs);
    RecoverAllProcs(m, recs);
    forall rec | rec in recs && StillMatches(m.procs, rec)
      ensures rec.key.pid in RecoverAll(m, recs).procs && RecoverAll(m, recs).procs[rec.key.pid].mask == rec.value.prevMask
    {
      var i :| 0 <= i < |recs| && recs[i] == rec;
      ToMapAt(recs, i);
      assert Entry(rec.key, rec.value) == rec;
    }
  }

  /** A dry run predicts the walk: it reports as reverted what the walk reverts or fails to revert. */
  lemma {:induction false} DryRunPredicts(procs: Procs, recs: seq<RevertRecord>)
    ensures var dry, wet := CountAll(procs, recs, true), CountAll(procs, recs, false);
            dry.stale == wet.stale && dry.reverted == wet.reverted + wet.failed && dry.failed == 0
  {
    if recs != [] {
      DryRunPredicts(procs, recs[..|recs| - 1]);
    }
  }
}
