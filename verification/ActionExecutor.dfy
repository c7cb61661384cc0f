/** The executor: a fixed table of active actions compacted in place, the journal, the action log,
    and the processes of the system it acts on. Every method is proved to be the operation of the
    same name on the machine of module Placement, whose runs CrashSafety is about. */
module ActionExecutors {
  import opened Common
  import opened DiskRecords
  import opened JournalSpec
  import opened RevertJournals
  import opened Placement
  import opened ActiveTable
  import opened RevertEffects
  import opened PinEffects

  /** The processes of the system, as the hw:: calls see them. */
  class ProcessTable {
    var procs: Procs

    constructor (procs: Procs)
      ensures this.procs == procs
    {
      this.procs := procs;
    }

    method SetAffinity(pid: U32, mask: U64) returns (ok: bool)
      modifies this
      ensures procs == SetMask(old(procs), pid, mask)
      ensures ok == SetSucceeds(old(procs), pid, mask)
    {
      ok := pid in procs && procs[pid].settable && mask != 0;
      if ok {
        procs := procs[pid := procs[pid].(mask := mask)];
      }
    }
  }

  /** The rows of a stretch of the table that are still active. */
  function ActiveRows(table: seq<ActiveAction>): seq<ActiveAction> {
    if table == [] then []
    else ActiveRows(table[..|table| - 1]) + (if table[|table| - 1].active then [table[|table| - 1]] else [])
  }

  lemma {:induction false} ActiveRowsShort(table: seq<ActiveAction>)
    ensures |ActiveRows(table)| <= |table|
    ensures forall a :: a in ActiveRows(table) ==> a.active
  {
    if table != [] {
      ActiveRowsShort(table[..|table| - 1]);
    }
  }

  /** A table between operations: no gaps, no pid twice. */
  predicate GoodRows(rows: seq<ActiveAction>) {
    UniquePids(rows) && forall i :: 0 <= i < |rows| ==> rows[i].active
  }

  class ActionExecutor {
    const world: ProcessTable
    const journal: RevertJournal
    const active: array<ActiveAction>
    var nActive: nat
    var log: seq<LogEntry>

    /** The index of the journal is what a reader of the file would compute. A pin behind torn bytes ends this:
        which slots the file then holds is not followed any further, and the state has none. */
    ghost var tracked: bool

    ghost predicate Owned()
      reads this, journal, active
    {
      && active.Length == MAX_ACTIVE
      && nActive <= MAX_ACTIVE
      && journal.Valid()
      && (tracked && journal.isOpen ==> journal.Synced())
    }

    ghost predicate Valid()
      reads this, journal, active
    {
      Owned() && GoodRows(active[..nActive])
    }

    ghost function Rows(): seq<ActiveAction>
      reads this, active
      requires nActive <= active.Length
    {
      active[..nActive]
    }

    /** The machine this executor is, with the given table. */
    ghost function With(rows: seq<ActiveAction>): Machine
      reads this, journal, world
    {
      Machine(world.procs, journal.isOpen, if tracked then journal.Records() else [], rows, log)
    }

    ghost function State(): Machine
      reads this, journal, world, active
      requires nActive <= active.Length
    {
      With(Rows())
    }

    /** Open the journal - `disk` is what the file holds, `ok` whether it opens - and reconcile what a
        previous instance left behind, before anything else. */
    constructor (world: ProcessTable, journal: RevertJournal, disk: seq<Byte>, ok: bool)
      requires journal.Valid() && !journal.isOpen
      modifies world, journal
      ensures this.world == world && this.journal == journal && fresh(active)
      ensures nActive == 0 && log == []
      ensures ok ==> journal.Synced() && With([]) == RecoveryPass(Machine(old(world.procs), true, Scan(disk), [], []))
      ensures !ok ==> !journal.isOpen && world.procs == old(world.procs)
      ensures Valid() && tracked && (!ok || WholeSlots(disk) ==> Untorn())
    {
      this.world := world;
      this.journal := journal;
      var blank := ActiveAction(0, 0, 0, 0, 0, 0, 0, [], false);
      active := new ActiveAction[MAX_ACTIVE](_ => blank);
      nActive, log, tracked := 0, [], true;
      new;
      var opened' := journal.Open(disk, ok);
      if opened' {
        Reconcile();
      }
      assert Rows() == [];
    }

    /** The recovery loop of the constructor. */
    method Reconcile()
      requires journal.Valid() && journal.Synced() && log == [] && tracked
      modifies world, journal`file
      ensures journal.Valid() && journal.Synced()
      ensures old(journal.Exact()) ==> journal.Exact()
      ensures With([]) == RecoveryPass(old(With([])))
    {
      var residual := journal.Recover();
      ghost var m := RecoveryPass(With([]));
      for i := 0 to |residual|
        invariant journal.Valid() && journal.Synced()
        invariant old(journal.Exact()) ==> journal.Exact()
        invariant m == RecoverAll(With([]), residual[i..])
      {
        hide RecoverOne, RevertJournal.Valid, RevertJournal.Synced, RevertJournal.Exact;
        assert residual[i..][1..] == residual[i + 1..];
        ReconcileOne(residual[i]);
      }
    }

    method ReconcileOne(rec: RevertRecord)
      requires journal.Valid() && journal.Synced() && tracked
      modifies world, journal`file
      ensures journal.Valid() && journal.Synced()
      ensures old(journal.Exact()) ==> journal.Exact()
      ensures With([]) == RecoverOne(old(With([])), rec)
    {
      if StillMatches(world.procs, rec) {
        if rec.value.prevMask != 0 {
          var _ := world.SetAffinity(rec.key.pid, rec.value.prevMask);
        }
      }
      journal.MarkReverted(rec.key);
    }

    method FindActive(pid: U32) returns (found: bool, at: nat)
      requires Valid()
      ensures found ==> at < nActive && active[at].pid == pid
      ensures found <==> Holds(Rows(), pid)
    {
      for i := 0 to nActive
        invariant forall j :: 0 <= j < i ==> active[j].pid != pid
      {
        if active[i].active && active[i].pid == pid {
          assert Rows()[i].pid == pid;
          return true, i;
        }
      }
      found, at := false, 0;
    }

    method LogAction(a: ActiveAction, isRevert: bool)
      modifies this`log
      ensures log == old(log) + [LogOf(a, isRevert)]
    {
      log := log + [LogOf(a, isRevert)];
    }

    /** What holds between the operations as long as every append was written whole, or not at all. */
    ghost predicate Untorn()
      reads this, journal
    {
      tracked && (journal.isOpen ==> journal.Exact())
    }

    /** What is appended can be followed: it goes behind whole slots, or nothing of it reaches the file. */
    ghost predicate Follows(written: nat)
      reads this, journal
    {
      Untorn() || (tracked && written == 0)
    }

    /** The state as far as it can be followed through such an append. */
    ghost function Followed(rows: seq<ActiveAction>, written: nat): Machine
      reads this, journal, world
    {
      if Follows(written) then With(rows) else With(rows).(slots := [])
    }

    /** apply(): at most one action per pid, and PENDING on disk before the mask changes - if all of it gets
        there: `written` is how many of its 112 bytes do. For SetPriority the system's answer is `priority`. */
    method Apply(q: PinRequest, kind: ActionKind, priorityClass: U32, priority: PriorityResult, written: nat)
      returns (ok: bool)
      requires Valid() && written <= SLOT
      modifies this, world, journal, active
      ensures Valid() && (old(Untorn()) && (written == 0 || written == SLOT) ==> Untorn())
      ensures ok <==> Holds(old(Rows()), q.pid) ||
                      (|old(Rows())| < MAX_ACTIVE && Succeeds(old(world.procs), q, kind, priority))
      ensures tracked == (old(tracked) && (kind != PinAffinity || !HasRoomFor(old(State()), q.pid) || old(Follows(written))))
      ensures State() == match kind
                         case PinAffinity =>
                           if HasRoomFor(old(State()), q.pid)
                           then Perform(old(Followed(Rows(), written)), PinOp(q, tracked && written == SLOT))
                           else old(State())
                         case SetPriority => Perform(old(State()), PriorityOp(q, priority, priorityClass))
                         case _ => old(State())
      ensures if (exists r <- old(Rows()) :: r.pid == q.pid) || |old(Rows())| >= 32 then State() == old(State())
              else match kind
                   case PinAffinity => PinnedTo(old(Followed(Rows(), written)), State(), q, tracked && written == 112)
                   case SetPriority =>
                     if priority.PriorityWas? then PriorityRow(old(State()), State(), q, priority.previous, priorityClass)
                     else State() == old(State())
                   case _ => State() == old(State())
    {
      hide PinnedTo, PriorityRow, PinAs, RevertJournal.Valid, RevertJournal.Synced, RevertJournal.Exact, TakenBack, GoodRows;
      ApplyMeaning(Followed(Rows(), written), State(), q, Follows(written) && written == SLOT, priority, priorityClass);
      var held, _ := FindActive(q.pid);
      if held {
        return true;
      }
      if nActive >= MAX_ACTIVE {
        return false;
      }
      match kind
      case PinAffinity =>
        ok := PinInRoom(q, written);
      case SetPriority =>
        ok := priority.PriorityWas?;
        if ok {
          AddRow(PriorityAction(q, priority.previous, priorityClass));
        }
      case RevertAction =>
        NoneSelected(Rows(), OfPid(q.pid));
        Revert(q.pid);
        ok := true;
      case NoAction =>
        ok := true;
    }

    method PinInRoom(q: PinRequest, written: nat) returns (ok: bool)
      requires Valid() && written <= SLOT && HasRoomFor(State(), q.pid)
      modifies this, world, journal, active
      ensures Valid() && (old(Untorn()) && (written == 0 || written == SLOT) ==> Untorn())
      ensures tracked == old(Follows(written)) && ok == SetSucceeds(old(world.procs), q.pid, q.coreMask)
      ensures State() == PinAs(old(Followed(Rows(), written)), q, tracked && written == SLOT)
    {
      hide RevertJournal.Valid, RevertJournal.Exact, RevertJournal.Synced, RevertJournal.Records, PinAs, GoodRows, Holds;
      var a: ActiveAction;
      PinRows(Followed(Rows(), written), q, Follows(written) && written == SLOT);
      ok, a := ApplyPin(q, written);
      if ok {
        AddRow(a);
      }
    }

    method AddRow(a: ActiveAction)
      requires Valid() && nActive < MAX_ACTIVE && a.active && !Holds(Rows(), a.pid)
      modifies this`nActive, this`log, active
      ensures Valid() && State() == Activate(old(State()), a)
    {
      ghost var rows := Rows();
      active[nActive] := a;
      nActive := nActive + 1;
      assert Rows() == rows + [a];
      LogAction(a, false);
    }

    /** Capture, journal, Set, and flip: the pin without its row. */
    method ApplyPin(q: PinRequest, written: nat) returns (ok: bool, a: ActiveAction)
      requires Owned() && written <= SLOT
      modifies this`tracked, world, journal
      ensures Owned() && tracked == old(Follows(written))
      ensures old(Untorn()) && (written == 0 || written == SLOT) ==> Untorn()
      ensures a == PinAction(old(world.procs), q) && ok == SetSucceeds(old(world.procs), q.pid, q.coreMask)
      ensures PinAs(old(Followed([], written)), q, tracked && written == SLOT) == if ok then Activate(With([]), a) else With([])
    {
      hide RevertJournal.Valid, RevertJournal.Exact, RevertJournal.Synced, Flip;
      var prev := ReadMask(world.procs, q.pid);
      var ct := if q.creationTime != 0 then q.creationTime else ReadCreationTime(world.procs, q.pid);
      var exe := q.exeName;
      if CStr(exe, 63) == [] {
        exe := ReadName(world.procs, q.pid);
      }
      a := ActiveAction(q.pid, q.ruleId, prev, 0, q.coreMask, 0, ct, CStr(exe, 63), true);
      WriteAhead(q, exe, ct, prev, written);
      ok := SetAndFlip(q.pid, q.coreMask, ct);
    }

    /** The PENDING record, or the part of it that gets to the file. */
    method WriteAhead(q: PinRequest, exe: Name, ct: U64, prev: U64, written: nat)
      requires Owned() && written <= SLOT
      modifies this`tracked, journal
      ensures Owned() && tracked == old(Follows(written)) && journal.isOpen == old(journal.isOpen)
      ensures old(Untorn()) && (written == 0 || written == SLOT) ==> Untorn()
      ensures With([]) == if !tracked then old(With([])).(slots := [])
                          else if written == SLOT
                          then Append(old(With([])), PendingRecord(q.pid, exe, ct, prev, q.coreMask, q.wallTimeMs))
                          else old(With([]))
    {
      tracked := Follows(written);
      if journal.isOpen {
        assert written == 0 ==> journal.file + [] == journal.file;
        journal.RecordPending(q.pid, exe, ct, prev, q.coreMask, q.wallTimeMs, written);
      }
    }

    method SetAndFlip(pid: U32, mask: U64, ct: U64) returns (ok: bool)
      requires Owned()
      modifies world, journal`file
      ensures Owned() && (old(Untorn()) ==> Untorn()) && ok == SetSucceeds(old(world.procs), pid, mask)
      ensures With([]) == if ok then FlipSlot(Set(old(With([])), pid, mask), RevertKey(pid, ct), APPLIED) else old(With([]))
    {
      ok := world.SetAffinity(pid, mask);
      if ok && journal.isOpen {
        journal.MarkApplied(RevertKey(pid, ct));
      }
    }

    /** What revert(), revert_all() and revert_by_rule_id() do for one row. The priority class of a
        process is not part of the process table. */
    method RestoreRow(a: ActiveAction)
      requires Owned()
      modifies this`log, world, journal`file
      ensures Owned() && (old(Untorn()) ==> Untorn())
      ensures With([]) == RevertRow(old(With([])), a)
    {
      if a.prevMask != 0 {
        var _ := world.SetAffinity(a.pid, a.prevMask);
      }
      if journal.isOpen {
        journal.MarkReverted(RevertKey(a.pid, a.creationTime));
      }
      LogAction(a, true);
    }

    /** Slide the active rows of the table together, in order. */
    method Compact()
      requires active.Length == MAX_ACTIVE && nActive <= MAX_ACTIVE
      modifies this`nActive, active
      ensures nActive <= MAX_ACTIVE
      ensures active[..nActive] == ActiveRows(old(active[..nActive]))
    {
      var write := 0;
      ghost var was := active[..nActive];
      for i := 0 to nActive
        invariant write <= i && nActive == |was|
        invariant active[..write] == ActiveRows(was[..i])
        invariant forall j :: i <= j < nActive ==> active[j] == was[j]
      {
        assert was[..i + 1][..i] == was[..i];
        if active[i].active {
          write := Slide(i, write);
        }
      }
      assert was[..nActive] == was;
      nActive := write;
    }

    /** revert(): the row of one pid, if there is one. */
    method Revert(pid: U32)
      requires Valid()
      modifies this`nActive, this`log, world, journal`file, active
      ensures old(Untorn()) ==> Untorn()
      ensures Valid() && State() == RevertRows(old(State()), Select(old(Rows()), OfPid(pid)))
      ensures TakenBack(old(State()), State()) && forall r :: r in Rows() <==> r in old(Rows()) && r.pid != pid
    {
      PidTakenBack(State(), pid);
      var found, i := FindActive(pid);
      if found {
        RetireFound(i);
      } else {
        NoneSelected(Rows(), OfPid(pid));
      }
    }

    method RetireFound(i: nat)
      requires Valid() && i < nActive
      modifies this`nActive, this`log, world, journal`file, active
      ensures old(Untorn()) ==> Untorn()
      ensures Valid() && State() == RevertRows(old(State()), Select(old(Rows()), OfPid(old(active[i].pid))))
    {
      ghost var rows, m, sel := Rows(), State(), OfPid(active[i].pid);
      OneReverted(With([]), rows, i);
      SwitchOff(i);
      assert active[..nActive] == Marked(rows, sel);
      assert With([]) == RevertRows(m.(rows := []), Select(rows, sel));
      Compact();
      FinishSelection(rows, sel, m);
    }

    /** The body of those loops for a selected row. */
    method SwitchOff(i: nat)
      requires Owned() && i < nActive
      modifies this`log, world, journal`file, active
      ensures Owned() && (old(Untorn()) ==> Untorn())
      ensures active[i] == old(active[i]).(active := false)
      ensures forall j :: 0 <= j < nActive && j != i ==> active[j] == old(active[j])
      ensures With([]) == RevertRow(old(With([])), old(active[i]))
    {
      RestoreRow(active[i]);
      active[i] := active[i].(active := false);
    }

    /** revert_all(): every row, in table order; the table is emptied at the end. */
    method RevertAll()
      requires Valid()
      modifies this`nActive, this`log, world, journal`file, active
      ensures old(Untorn()) ==> Untorn()
      ensures Valid() && Rows() == []
      ensures State() == RevertRows(old(State()), old(Rows())) && TakenBack(old(State()), State())
    {
      AllTakenBack(State());
      ghost var rows, m := Rows(), State();
      var every := OfLive(PidsOf(active[..nActive]));
      SelectEvery(rows);
      var _ := RestoreSelected(every);
      nActive := 0;
      FinishSelection(rows, every, m);
    }

    /** revert_by_rule_id(): the rows of one rule, restricted to one exe name when a filter is given. */
    method RevertByRuleId(ruleId: U32, filtered: bool, exeFilter: Name) returns (reverted: nat)
      requires Valid()
      modifies this`nActive, this`log, world, journal`file, active
      ensures old(Untorn()) ==> Untorn()
      ensures Valid()
      ensures var sel := if filtered then OfRuleAndName(ruleId, exeFilter) else OfRule(ruleId);
              && State() == RevertRows(old(State()), Select(old(Rows()), sel))
              && Rows() == Leave(old(Rows()), sel)
              && reverted == |Select(old(Rows()), sel)|
      ensures TakenBack(old(State()), State()) && reverted == |old(Rows())| - |Rows()|
      ensures forall r :: r in Rows() <==>
                r in old(Rows()) && (r.ruleId != ruleId || (filtered && NamesDiffer(r.exeName, exeFilter)))
    {
      hide TakenBack, RevertRows, RevertJournal.Valid, RevertJournal.Synced, RevertJournal.Exact, GoodRows;
      ghost var m := State();
      var sel := if filtered then OfRuleAndName(ruleId, exeFilter) else OfRule(ruleId);
      TableUnique(m.rows);
      RuleTakenBack(m, ruleId, filtered, exeFilter);
      SelectLeaveSizes(m.rows, sel);
      reverted := RevertSelected(sel);
    }

    /** Restore, switch off and compact. */
    method RevertSelected(sel: Selector) returns (reverted: nat)
      requires Valid()
      modifies this`nActive, this`log, world, journal`file, active
      ensures Valid() && (old(Untorn()) ==> Untorn())
      ensures State() == RevertRows(old(State()), Select(old(Rows()), sel)) && Rows() == Leave(old(Rows()), sel)
      ensures reverted == |Select(old(Rows()), sel)|
    {
      ghost var rows, m := Rows(), State();
      reverted := RestoreSelected(sel);
      Compact();
      FinishSelection(rows, sel, m);
    }

    /** The rows before i are marked, the others as they were. */
    ghost predicate MarkedUpTo(rows: seq<ActiveAction>, sel: Selector, i: nat)
      reads this, active
    {
      && nActive == |rows| && active.Length == MAX_ACTIVE && i <= |rows| <= MAX_ACTIVE
      && (forall j :: 0 <= j < i ==> active[j] == Mark(rows[j], sel))
      && (forall j :: i <= j < |rows| ==> active[j] == rows[j])
    }

    method RestoreIfSelected(i: nat, ghost rows: seq<ActiveAction>, sel: Selector) returns (selected: bool)
      requires Owned() && i < |rows| && rows[i].active && MarkedUpTo(rows, sel, i)
      modifies this`log, world, journal`file, active
      ensures Owned() && (old(Untorn()) ==> Untorn()) && MarkedUpTo(rows, sel, i + 1)
      ensures selected == Selects(sel, rows[i])
      ensures With([]) == if selected then RevertRow(old(With([])), rows[i]) else old(With([]))
    {
      selected := active[i].active && Selects(sel, active[i]);
      if selected {
        SwitchOff(i);
      }
    }

    /** The loop shared by the reverts: restore, mark, log and switch off each selected row. */
    method RestoreSelected(sel: Selector) returns (reverted: nat)
      requires Valid()
      modifies this`log, world, journal`file, active
      ensures Owned() && nActive == old(nActive) && (old(Untorn()) ==> Untorn())
      ensures active[..nActive] == Marked(old(Rows()), sel)
      ensures With([]) == RevertRows(old(With([])), Select(old(Rows()), sel))
      ensures reverted == |Select(old(Rows()), sel)|
    {
      ghost var rows, m0, done: seq<ActiveAction> := Rows(), With([]), [];
      reverted := 0;
      for i := 0 to nActive
        invariant Owned() && (old(Untorn()) ==> Untorn())
        invariant MarkedUpTo(rows, sel, i)
        invariant reverted == |done| && RevertedSoFar(m0, With([]), rows[..i], sel, done)
      {
        hide RevertedSoFar, RevertRow, MarkedUpTo;
        RevertedNext(m0, With([]), rows, i, sel, done);
        var selected := RestoreIfSelected(i, rows, sel);
        if selected {
          reverted := reverted + 1;
          done := done + [rows[i]];
        }
      }
      assert rows[..|rows|] == rows;
    }

    /** prune_dead(): rows whose pid is not listed go, without a system call. */
    method Prune(livePids: seq<U32>) returns (pruned: nat)
      requires Valid()
      modifies this`nActive, this`log, active
      ensures Valid()
      ensures var live := set p | p in livePids;
              && State() == PruneDead(old(State()), live)
              && pruned == |Leave(old(Rows()), OfLive(live))|
      ensures world.procs == old(world.procs) && InOrder(Rows(), old(Rows())) && Logged(old(State()), State())
      ensures pruned == |old(Rows())| - |Rows()| && forall r :: r in Rows() <==> r in old(Rows()) && r.pid in livePids
    {
      ghost var rows := Rows();
      ghost var live := set p | p in livePids;
      Pruned(State(), live);
      SelectLeaveSizes(rows, OfLive(live));
      var write;
      write, pruned := KeepListed(livePids, live);
      nActive := write;
      SelectUnique(rows, OfLive(live));
      SelectIsActive(rows, OfLive(live));
    }

    method KeepListed(livePids: seq<U32>, ghost live: set<U32>) returns (write: nat, pruned: nat)
      requires active.Length == MAX_ACTIVE && nActive <= MAX_ACTIVE
      requires live == set p | p in livePids
      modifies this`log, active
      ensures write <= nActive
      ensures active[..write] == Select(old(Rows()), OfLive(live))
      ensures pruned == |Leave(old(Rows()), OfLive(live))|
      ensures log == old(log) + PruneLog(old(Rows()), live)
    {
      ghost var rows, before := Rows(), log;
      ghost var kept: seq<ActiveAction>, lost: seq<LogEntry> := [], [];
      write, pruned := 0, 0;
      for i := 0 to nActive
        invariant write <= i && nActive == |rows|
        invariant forall j :: i <= j < nActive ==> active[j] == rows[j]
        invariant active[..write] == kept
        invariant log == before + lost
        invariant PrunedSoFar(rows[..i], live, kept, lost, pruned)
      {
        hide PrunedSoFar;
        PruneNext(rows, i, live, kept, lost, pruned);
        var a := active[i];
        var isLive := IsLive(livePids, a.pid);
        if isLive {
          write := Slide(i, write);
          kept := kept + [a];
        } else {
          LogAction(a, true);
          pruned := pruned + 1;
          lost := lost + [LogOf(a, true)];
        }
      }
      assert rows[..|rows|] == rows;
    }

    /** Move row `from` down to position `write`. */
    method Slide(from: nat, write: nat) returns (next: nat)
      requires write <= from < active.Length
      modifies active
      ensures next == write + 1
      ensures active[..next] == old(active[..write]) + [old(active[from])]
      ensures forall j :: from < j < active.Length ==> active[j] == old(active[j])
    {
      if write != from {
        active[write] := active[from];
      }
      next := write + 1;
    }

    /** active_applied_mask(), for process-level rows: the mask held on a pid, or 0. */
    method AppliedMask(pid: U32) returns (mask: U64)
      requires Valid()
      ensures Holds(Rows(), pid) ==> exists a :: a in Rows() && a.pid == pid && mask == a.newMask
      ensures !Holds(Rows(), pid) ==> mask == 0
    {
      var found, i := FindActive(pid);
      if found {
        assert Rows()[i] in Rows();
        return active[i].newMask;
      }
      mask := 0;
    }
  }

  method IsLive(livePids: seq<U32>, pid: U32) returns (live: bool)
    ensures live == (pid in livePids)
  {
    for i := 0 to |livePids|
      invariant pid !in livePids[..i]
    {
      if livePids[i] == pid {
        return true;
      }
    }
    live := false;
  }

  /** The system grants what an action asks for. */
  predicate Succeeds(procs: Procs, q: PinRequest, kind: ActionKind, priority: PriorityResult) {
    match kind
    case PinAffinity => SetSucceeds(procs, q.pid, q.coreMask)
    case SetPriority => priority.PriorityWas?
    case _ => true
  }

  /** What a pin does to processes, slots and log does not depend on the rows, and what it adds to
      the rows goes to the end. */
  lemma PinRows(m: Machine, q: PinRequest, logged: bool)
    ensures var alone := PinAs(m.(rows := []), q, logged); PinAs(m, q, logged) == alone.(rows := m.rows + alone.rows)
  {
    assert m.rows + [] == m.rows;
    assert [] + [PinAction(m.procs, q)] == [PinAction(m.procs, q)];
  }

  // ---- Lemmas on tables --------------------------------------------------

  lemma {:induction false} RevertRowsAppend(m: Machine, targets: seq<ActiveAction>, a: ActiveAction)
    ensures RevertRows(m, targets + [a]) == RevertRow(RevertRows(m, targets), a)
    decreases |targets|
  {
    if targets == [] {
      assert ([] + [a])[1..] == [];
    } else {
      assert (targets + [a])[1..] == targets[1..] + [a];
      RevertRowsAppend(RevertRow(m, targets[0]), targets[1..], a);
    }
  }

  /** What a revert does to processes, slots and log is independent of the table it is started with. */
  lemma {:induction false} RowsDoNotMatter(m: Machine, targets: seq<ActiveAction>)
    ensures RevertRows(m.(rows := []), targets) == RevertRows(m, targets).(rows := [])
    decreases |targets|
  {
    if targets != [] {
      assert RevertRow(m.(rows := []), targets[0]) == RevertRow(m, targets[0]).(rows := []);
      RowsDoNotMatter(RevertRow(m, targets[0]), targets[1..]);
    }
  }

  /** Selecting row by row. */
  lemma SelectNext(rows: seq<ActiveAction>, i: nat, sel: Selector)
    requires i < |rows|
    ensures rows[..i + 1] == rows[..i] + [rows[i]]
    ensures Select(rows[..i + 1], sel) == Select(rows[..i], sel) + (if Selects(sel, rows[i]) then [rows[i]] else [])
    ensures |Leave(rows[..i + 1], sel)| == |Leave(rows[..i], sel)| + (if Selects(sel, rows[i]) then 0 else 1)
  {
    assert rows[..i + 1] == rows[..i] + [rows[i]];
    SelectAppend(rows[..i], rows[i], sel);
    SelectLeaveSizes(rows[..i], sel);
    SelectLeaveSizes(rows[..i + 1], sel);
  }

  lemma {:induction false} SelectAppend(rows: seq<ActiveAction>, a: ActiveAction, sel: Selector)
    ensures Select(rows + [a], sel) == Select(rows, sel) + (if Selects(sel, a) then [a] else [])
  {
    if rows == [] {
      assert [] + [a] == [a];
    } else {
      assert (rows + [a])[1..] == rows[1..] + [a];
      SelectAppend(rows[1..], a, sel);
    }
  }

  ghost predicate RevertedSoFar(m0: Machine, m: Machine, rows: seq<ActiveAction>, sel: Selector,
                               done: seq<ActiveAction>)
  {
    done == Select(rows, sel) && m == RevertRows(m0, done)
  }

  lemma RevertedNext(m0: Machine, m: Machine, rows: seq<ActiveAction>, i: nat, sel: Selector, done: seq<ActiveAction>)
    requires i < |rows| && RevertedSoFar(m0, m, rows[..i], sel, done)
    ensures Selects(sel, rows[i]) ==> RevertedSoFar(m0, RevertRow(m, rows[i]), rows[..i + 1], sel, done + [rows[i]])
    ensures !Selects(sel, rows[i]) ==> RevertedSoFar(m0, m, rows[..i + 1], sel, done)
  {
    SelectNext(rows, i, sel);
    RevertRowsAppend(m0, done, rows[i]);
  }

  ghost predicate PrunedSoFar(rows: seq<ActiveAction>, live: set<U32>, kept: seq<ActiveAction>, lost: seq<LogEntry>,
                             pruned: nat)
  {
    && kept == Select(rows, OfLive(live))
    && lost == PruneLog(rows, live)
    && pruned == |Leave(rows, OfLive(live))|
  }

  lemma PruneNext(rows: seq<ActiveAction>, i: nat, live: set<U32>, kept: seq<ActiveAction>, lost: seq<LogEntry>,
                  pruned: nat)
    requires i < |rows| && PrunedSoFar(rows[..i], live, kept, lost, pruned)
    ensures rows[i].pid in live ==> PrunedSoFar(rows[..i + 1], live, kept + [rows[i]], lost, pruned)
    ensures rows[i].pid !in live ==>
              PrunedSoFar(rows[..i + 1], live, kept, lost + [LogOf(rows[i], true)], pruned + 1)
  {
    SelectNext(rows, i, OfLive(live));
    PruneLogAppend(rows[..i], rows[i], live);
  }

  function Mark(a: ActiveAction, sel: Selector): ActiveAction {
    if Selects(sel, a) then a.(active := false) else a
  }

  /** The table once the selected rows are switched off and before it is compacted. */
  function Marked(rows: seq<ActiveAction>, sel: Selector): seq<ActiveAction> {
    seq(|rows|, i requires 0 <= i < |rows| => Mark(rows[i], sel))
  }

  lemma {:induction false} MarkedRows(rows: seq<ActiveAction>, sel: Selector)
    requires forall a :: a in rows ==> a.active
    ensures ActiveRows(Marked(rows, sel)) == Leave(rows, sel)
  {
    if rows != [] {
      var n := |rows| - 1;
      assert rows == rows[..n] + [rows[n]];
      MarkedRows(rows[..n], sel);
      LeaveAppend(rows[..n], rows[n], sel);
      var t := Marked(rows, sel);
      assert t[..n] == Marked(rows[..n], sel) && t[n] == Mark(rows[n], sel);
      assert rows[n] in rows;
      assert ActiveRows(t) == ActiveRows(t[..n]) + (if t[n].active then [t[n]] else []);
    }
  }

  lemma {:induction false} LeaveAppend(rows: seq<ActiveAction>, a: ActiveAction, sel: Selector)
    ensures Leave(rows + [a], sel) == Leave(rows, sel) + (if Selects(sel, a) then [] else [a])
  {
    if rows == [] {
      assert [] + [a] == [a];
    } else {
      assert (rows + [a])[1..] == rows[1..] + [a];
      LeaveAppend(rows[1..], a, sel);
    }
  }

  /** Reverting the row of one pid is one revert, and marks one row. */
  lemma OneReverted(m: Machine, rows: seq<ActiveAction>, i: nat)
    requires GoodRows(rows) && i < |rows|
    ensures RevertRows(m, Select(rows, OfPid(rows[i].pid))) == RevertRow(m, rows[i])
    ensures Marked(rows, OfPid(rows[i].pid)) == rows[i := rows[i].(active := false)]
  {
    SelectOne(rows, i);
    RevertRowsAppend(m, [], rows[i]);
    assert [] + [rows[i]] == [rows[i]];
  }

  lemma HoldsMeaning(rows: seq<ActiveAction>, pid: U32)
    ensures Holds(rows, pid) <==> exists r <- rows :: r.pid == pid
  {
    if Holds(rows, pid) {
      var i :| 0 <= i < |rows| && rows[i].pid == pid;
      assert rows[i] in rows;
    }
  }

  lemma ApplyMeaning(m: Machine, s: Machine, q: PinRequest, logged: bool, priority: PriorityResult, priorityClass: U32)
    ensures HasRoomFor(s, q.pid) <==> !((exists r <- s.rows :: r.pid == q.pid) || |s.rows| >= 32)
    ensures PinnedTo(m, PinAs(m, q, logged), q, logged)
    ensures priority.PriorityWas? ==>
      PriorityRow(s, Activate(s, PriorityAction(q, priority.previous, priorityClass)), q, priority.previous, priorityClass)
  {
    hide Pin, PinUnlogged;
    HoldsMeaning(s.rows, q.pid);
    PinMeaning(m, q, logged);
    if priority.PriorityWas? {
      PriorityMeaning(s, q, priority.previous, priorityClass);
    }
  }

  lemma TableUnique(rows: seq<ActiveAction>)
    requires GoodRows(rows)
    ensures UniquePids(rows)
  {
  }

  /** After compaction the table is what reverting the selection leaves. */
  lemma FinishSelection(rows: seq<ActiveAction>, sel: Selector, m: Machine)
    requires m.rows == rows && GoodRows(rows)
    ensures var left := ActiveRows(Marked(rows, sel));
            && left == Leave(rows, sel) && GoodRows(left)
            && RevertRows(m, Select(rows, sel)) == RevertRows(m.(rows := []), Select(rows, sel)).(rows := left)
  {
    MarkedRows(rows, sel);
    RevertSelection(m, sel);
    RowsDoNotMatter(m, Select(rows, sel));
    LeaveUnique(rows, sel);
    ActiveRowsShort(Marked(rows, sel));
  }

  lemma {:induction false} PruneLogAppend(rows: seq<ActiveAction>, a: ActiveAction, live: set<U32>)
    ensures PruneLog(rows + [a], live) == PruneLog(rows, live) + (if a.pid in live then [] else [LogOf(a, true)])
  {
    if rows != [] {
      assert (rows + [a])[1..] == rows[1..] + [a];
      PruneLogAppend(rows[1..], a, live);
    }
  }

  lemma SelectIsActive(rows: seq<ActiveAction>, sel: Selector)
    requires forall a :: a in rows ==> a.active
    ensures forall i :: 0 <= i < |Select(rows, sel)| ==> Select(rows, sel)[i].active
  {
    forall i | 0 <= i < |Select(rows, sel)| ensures Select(rows, sel)[i].active {
      assert Select(rows, sel)[i] in Select(rows, sel);
    }
  }

  lemma {:induction false} NoneSelected(rows: seq<ActiveAction>, sel: Selector)
    requires forall i :: 0 <= i < |rows| ==> !Selects(sel, rows[i])
    ensures Select(rows, sel) == []
  {
    if rows != [] {
      assert !Selects(sel, rows[0]);
      NoneSelected(rows[1..], sel);
    }
  }

  function PidsOf(rows: seq<ActiveAction>): set<U32> {
    set a | a in rows :: a.pid
  }

  lemma SelectEvery(rows: seq<ActiveAction>)
    ensures Select(rows, OfLive(PidsOf(rows))) == rows && Leave(rows, OfLive(PidsOf(rows))) == []
  {
    SelectAll(rows, OfLive(PidsOf(rows)));
  }

  /** In a pid-unique table a pid selects its one row. */
  lemma {:induction false} SelectOne(rows: seq<ActiveAction>, i: nat)
    requires UniquePids(rows) && i < |rows|
    ensures Select(rows, OfPid(rows[i].pid)) == [rows[i]]
  {
    if i > 0 {
      SelectOne(rows[1..], i - 1);
    } else {
      NoneSelected(rows[1..], OfPid(rows[0].pid));
    }
  }
}
