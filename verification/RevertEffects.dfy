/** What a revert does, said of the rows, the processes, the journal and the log before and after, without
    the steps in between. */
module RevertEffects {
  import opened Common
  import opened DiskRecords
  import opened JournalSpec
  import opened Placement
  import opened ActiveTable

  // ---- Names -------------------------------------------------------------

  /** The same letter, in whatever case, or the same byte. */
  predicate SameLetter(c: Byte, d: Byte) {
    c == d || (65 <= c <= 90 && d == c + 32) || (65 <= d <= 90 && c == d + 32)
  }

  predicate NamesDiffer(a: Name, b: Name) {
    |a| != |b| || exists i :: 0 <= i < |a| && !SameLetter(a[i], b[i])
  }

  lemma SameNameMeaning(a: Name, b: Name)
    ensures SameName(a, b) <==> !NamesDiffer(a, b)
  {
    if |a| == |b| {
      forall i | 0 <= i < |a| ensures LowerByte(a[i]) == LowerByte(b[i]) <==> SameLetter(a[i], b[i]) {
      }
    }
  }

  // ---- Taking rows back --------------------------------------------------

  /** x stands somewhere in front of y. */
  ghost predicate Before(a: seq<ActiveAction>, x: ActiveAction, y: ActiveAction) {
    exists p, q :: 0 <= p < q < |a| && a[p] == x && a[q] == y
  }

  /** The rows of b come from a, in a's order. */
  ghost predicate InOrder(b: seq<ActiveAction>, a: seq<ActiveAction>) {
    && (forall r <- b :: r in a)
    && forall i, j :: 0 <= i < j < |b| ==> Before(a, b[i], b[j])
  }

  predicate Went(m: Machine, n: Machine, r: ActiveAction) {
    r in m.rows && r !in n.rows
  }

  /** The process of a row that went is on the captured mask, if the system grants the Set. */
  function BackOn(p: Proc, prevMask: U64): Proc {
    if p.settable && prevMask != 0 then p.(mask := prevMask) else p
  }

  ghost predicate ProcessesBack(m: Machine, n: Machine) {
    && n.procs.Keys == m.procs.Keys
    && (forall r <- m.rows :: Went(m, n, r) && r.pid in m.procs ==> n.procs[r.pid] == BackOn(m.procs[r.pid], r.prevMask))
    && (forall pid <- m.procs :: (forall r <- m.rows :: Went(m, n, r) ==> r.pid != pid) ==> n.procs[pid] == m.procs[pid])
  }

  /** The i-th slot is the last one of a process. */
  predicate IsLast(slots: seq<DiskRecord>, i: nat, pid: U32, creationTime: U64)
    requires i < |slots|
  {
    && slots[i].pid == pid && slots[i].creationTime == creationTime
    && forall j :: i < j < |slots| ==> slots[j].pid != pid || slots[j].creationTime != creationTime
  }

  /** In an open journal the last slot of each row that went is REVERTED, and no other slot has changed. */
  ghost predicate SlotsResolved(m: Machine, n: Machine) {
    && n.journalOpen == m.journalOpen && |n.slots| == |m.slots|
    && (!m.journalOpen ==> n.slots == m.slots)
    && forall i :: 0 <= i < |m.slots| ==>
         n.slots[i] == if m.journalOpen && exists r :: Went(m, n, r) && IsLast(m.slots, i, r.pid, r.creationTime)
                       then m.slots[i].(status := 3) else m.slots[i]
  }

  /** The entry is the revert of a row that went. */
  ghost predicate LogsWent(m: Machine, n: Machine, e: LogEntry) {
    exists r :: Went(m, n, r) && e == LogEntry(true, r.pid, r.ruleId, r.prevMask, r.prevMask)
  }

  ghost predicate Logged(m: Machine, n: Machine) {
    && m.log <= n.log && |n.log| - |m.log| == |m.rows| - |n.rows|
    && forall k :: |m.log| <= k < |n.log| ==> LogsWent(m, n, n.log[k])
  }

  /** Some rows of m are gone in n, and with them exactly what they stood for. */
  ghost predicate TakenBack(m: Machine, n: Machine) {
    InOrder(n.rows, m.rows) && ProcessesBack(m, n) && SlotsResolved(m, n) && Logged(m, n)
  }

  lemma NothingTakenBack(m: Machine)
    ensures TakenBack(m, m)
  {
    forall i, j | 0 <= i < j < |m.rows| ensures Before(m.rows, m.rows[i], m.rows[j]) {
    }
  }

  // ---- Two times taking back is taking back ------------------------------

  lemma InOrderTwice(a: seq<ActiveAction>, b: seq<ActiveAction>, c: seq<ActiveAction>)
    requires UniquePids(a) && UniquePids(b) && InOrder(b, a) && InOrder(c, b)
    ensures InOrder(c, a)
  {
    forall i, j | 0 <= i < j < |c| ensures Before(a, c[i], c[j]) {
      assert Before(b, c[i], c[j]);
      var k, l :| 0 <= k < l < |b| && b[k] == c[i] && b[l] == c[j];
      assert Before(a, b[k], b[l]);
    }
  }

  lemma SameRow(rows: seq<ActiveAction>, r: ActiveAction, s: ActiveAction)
    requires UniquePids(rows) && r in rows && s in rows && r.pid == s.pid
    ensures r == s
  {
  }

  lemma ProcessesTwice(m: Machine, n: Machine, o: Machine)
    requires UniquePids(m.rows) && InOrder(n.rows, m.rows) && InOrder(o.rows, n.rows)
    requires ProcessesBack(m, n) && ProcessesBack(n, o)
    ensures ProcessesBack(m, o)
  {
    forall r | r in m.rows && Went(m, o, r) && r.pid in m.procs
      ensures o.procs[r.pid] == BackOn(m.procs[r.pid], r.prevMask)
    {
      if r in n.rows {
        forall s | s in m.rows && Went(m, n, s) ensures s.pid != r.pid {
          if s.pid == r.pid {
            SameRow(m.rows, r, s);
          }
        }
        assert Went(n, o, r);
      } else {
        forall s | s in n.rows && Went(n, o, s) ensures s.pid != r.pid {
          if s.pid == r.pid {
            SameRow(m.rows, r, s);
          }
        }
        assert Went(m, n, r);
      }
    }
    forall pid | pid in m.procs && (forall r <- m.rows :: Went(m, o, r) ==> r.pid != pid) ensures o.procs[pid] == m.procs[pid] {
      assert forall r <- m.rows :: Went(m, n, r) ==> Went(m, o, r);
      assert forall r <- n.rows :: Went(n, o, r) ==> Went(m, o, r);
    }
  }

  lemma SlotsTwice(m: Machine, n: Machine, o: Machine)
    requires InOrder(n.rows, m.rows) && InOrder(o.rows, n.rows) && SlotsResolved(m, n) && SlotsResolved(n, o)
    ensures SlotsResolved(m, o)
  {
    forall i | 0 <= i < |m.slots|
      ensures o.slots[i] == if m.journalOpen && exists r :: Went(m, o, r) && IsLast(m.slots, i, r.pid, r.creationTime)
                            then m.slots[i].(status := 3) else m.slots[i]
    {
      forall pid, ct ensures IsLast(n.slots, i, pid, ct) <==> IsLast(m.slots, i, pid, ct) {
        SameIdentities(m, n);
      }
      if r :| Went(m, o, r) && IsLast(m.slots, i, r.pid, r.creationTime) {
        assert Went(m, n, r) || Went(n, o, r);
      }
      if r :| Went(m, n, r) && IsLast(m.slots, i, r.pid, r.creationTime) {
        assert Went(m, o, r);
      }
      if r :| Went(n, o, r) && IsLast(n.slots, i, r.pid, r.creationTime) {
        assert Went(m, o, r);
      }
    }
  }

  lemma SameIdentities(m: Machine, n: Machine)
    requires SlotsResolved(m, n)
    ensures forall i :: 0 <= i < |m.slots| ==> n.slots[i].pid == m.slots[i].pid && n.slots[i].creationTime == m.slots[i].creationTime
  {
  }

  lemma LoggedTwice(m: Machine, n: Machine, o: Machine)
    requires InOrder(n.rows, m.rows) && InOrder(o.rows, n.rows) && Logged(m, n) && Logged(n, o)
    ensures Logged(m, o)
  {
    forall k | |m.log| <= k < |o.log| ensures LogsWent(m, o, o.log[k]) {
      if k < |n.log| {
        assert o.log[k] == n.log[k] && LogsWent(m, n, n.log[k]);
        var r :| Went(m, n, r) && n.log[k] == LogEntry(true, r.pid, r.ruleId, r.prevMask, r.prevMask);
        assert Went(m, o, r);
      } else {
        assert LogsWent(n, o, o.log[k]);
        var r :| Went(n, o, r) && o.log[k] == LogEntry(true, r.pid, r.ruleId, r.prevMask, r.prevMask);
        assert Went(m, o, r);
      }
    }
  }

  lemma TakenBackTwice(m: Machine, n: Machine, o: Machine)
    requires UniquePids(m.rows) && UniquePids(n.rows) && TakenBack(m, n) && TakenBack(n, o)
    ensures TakenBack(m, o)
  {
    InOrderTwice(m.rows, n.rows, o.rows);
    ProcessesTwice(m, n, o);
    SlotsTwice(m, n, o);
    LoggedTwice(m, n, o);
  }

  // ---- One row, and a selection ------------------------------------------

  lemma DropInOrder(rows: seq<ActiveAction>, i: nat)
    requires i < |rows|
    ensures InOrder(rows[..i] + rows[i + 1..], rows)
  {
    var left := rows[..i] + rows[i + 1..];
    forall k | 0 <= k < |left| ensures left[k] == rows[if k < i then k else k + 1] {
    }
    forall k, l | 0 <= k < l < |left| ensures Before(rows, left[k], left[l]) {
      var p, q := if k < i then k else k + 1, if l < i then l else l + 1;
      assert rows[p] == left[k] && rows[q] == left[l];
    }
  }

  /** Exactly the row itself goes. */
  lemma OneRowWent(m: Machine, a: ActiveAction)
    requires UniquePids(m.rows) && a in m.rows
    ensures var n := RevertRow(m, a);
            && InOrder(n.rows, m.rows) && UniquePids(n.rows) && |n.rows| == |m.rows| - 1
            && forall r :: Went(m, n, r) <==> r == a
  {
    var i :| 0 <= i < |m.rows| && m.rows[i] == a;
    RetireOne(m.rows, i);
    DropInOrder(m.rows, i);
    SelectUnique(m.rows, NotOfPid(a.pid));
    forall r | r in m.rows && r.pid == a.pid ensures r == a {
      SameRow(m.rows, r, a);
    }
  }

  lemma OneRowTakenBack(m: Machine, a: ActiveAction)
    requires UniquePids(m.rows) && a in m.rows
    ensures TakenBack(m, RevertRow(m, a)) && UniquePids(RevertRow(m, a).rows)
  {
    hide UniquePids, InOrder;
    OneRowWent(m, a);
    OneRowSlots(m, a);
    assert RevertRow(m, a).log == m.log + [LogEntry(true, a.pid, a.ruleId, a.prevMask, a.prevMask)];
  }

  lemma LastIsLast(slots: seq<DiskRecord>, i: nat, k: RevertKey)
    requires i < |slots|
    ensures i == LastSlot(slots, k) <==> IsLast(slots, i, k.pid, k.creationTime)
  {
  }

  lemma OneRowSlots(m: Machine, a: ActiveAction)
    requires UniquePids(m.rows) && a in m.rows
    ensures SlotsResolved(m, RevertRow(m, a))
  {
    hide UniquePids, InOrder;
    OneRowWent(m, a);
    var n := RevertRow(m, a);
    assert n.slots == if m.journalOpen then Flip(m.slots, ActionKey(a), REVERTED) else m.slots;
    forall i | 0 <= i < |m.slots|
      ensures n.slots[i] == if m.journalOpen && exists r :: Went(m, n, r) && IsLast(m.slots, i, r.pid, r.creationTime)
                            then m.slots[i].(status := 3) else m.slots[i]
    {
      LastIsLast(m.slots, i, ActionKey(a));
      assert Went(m, n, a);
    }
  }

  lemma {:induction false} RowsTakenBack(m: Machine, targets: seq<ActiveAction>)
    requires UniquePids(m.rows) && UniquePids(targets) && forall a <- targets :: a in m.rows
    ensures TakenBack(m, RevertRows(m, targets)) && UniquePids(RevertRows(m, targets).rows)
    decreases |targets|
  {
    hide TakenBack, RevertRow;
    if targets == [] {
      NothingTakenBack(m);
    } else {
      var a, n := targets[0], RevertRow(m, targets[0]);
      OneRowTakenBack(m, a);
      OthersStay(m, a, targets);
      RowsTakenBack(n, targets[1..]);
      TakenBackTwice(m, n, RevertRows(n, targets[1..]));
    }
  }

  lemma OthersStay(m: Machine, a: ActiveAction, targets: seq<ActiveAction>)
    requires UniquePids(m.rows) && UniquePids(targets) && targets != [] && a == targets[0]
    requires forall r <- targets :: r in m.rows
    ensures UniquePids(targets[1..]) && forall r <- targets[1..] :: r in RevertRow(m, a).rows
  {
    OneRowWent(m, a);
    forall r | r in targets[1..] ensures r in RevertRow(m, a).rows {
      var i :| 0 <= i < |targets[1..]| && targets[1..][i] == r;
      assert targets[i + 1] == r && targets[0].pid != targets[i + 1].pid;
      assert r in targets && !Went(m, RevertRow(m, a), r);
    }
  }

  /** Reverting a selection takes the selected rows back, and those alone. */
  lemma SelectionTakenBack(m: Machine, sel: Selector)
    requires UniquePids(m.rows)
    ensures var n := RevertRows(m, Select(m.rows, sel));
            && TakenBack(m, n) && UniquePids(n.rows)
            && forall r :: r in n.rows <==> r in m.rows && !Selects(sel, r)
  {
    SelectUnique(m.rows, sel);
    RowsTakenBack(m, Select(m.rows, sel));
    RevertSelection(m, sel);
  }

  lemma AllTakenBack(m: Machine)
    requires UniquePids(m.rows)
    ensures TakenBack(m, RevertRows(m, m.rows)) && RevertRows(m, m.rows).rows == []
  {
    var every := OfLive(set r <- m.rows :: r.pid);
    SelectAll(m.rows, every);
    SelectionTakenBack(m, every);
    RevertSelection(m, every);
  }

  // ---- The reverts of the executor ---------------------------------------

  /** The row of one pid goes, if there is one. */
  lemma PidTakenBack(m: Machine, pid: U32)
    requires UniquePids(m.rows)
    ensures var n := RevertRows(m, Select(m.rows, OfPid(pid)));
            TakenBack(m, n) && forall r :: r in n.rows <==> r in m.rows && r.pid != pid
  {
    SelectionTakenBack(m, OfPid(pid));
  }

  /** The rows of a rule go; with a filter only those whose exe name is the filter up to case. */
  lemma RuleTakenBack(m: Machine, ruleId: U32, filtered: bool, exeFilter: Name)
    requires UniquePids(m.rows)
    ensures var n := RevertRows(m, Select(m.rows, if filtered then OfRuleAndName(ruleId, exeFilter) else OfRule(ruleId)));
            && TakenBack(m, n) && UniquePids(n.rows)
            && forall r :: r in n.rows <==> r in m.rows && (r.ruleId != ruleId || (filtered && NamesDiffer(r.exeName, exeFilter)))
  {
    var sel := if filtered then OfRuleAndName(ruleId, exeFilter) else OfRule(ruleId);
    SelectionTakenBack(m, sel);
    forall r ensures Selects(sel, r) <==> r.ruleId == ruleId && !(filtered && NamesDiffer(r.exeName, exeFilter)) {
      SameNameMeaning(r.exeName, exeFilter);
    }
  }

  /** The rows of a pruned table, in order, and a log entry for each one dropped. */
  lemma Pruned(m: Machine, live: set<U32>)
    requires UniquePids(m.rows)
    ensures var n := PruneDead(m, live);
            && n.procs == m.procs && n.slots == m.slots && n.journalOpen == m.journalOpen
            && InOrder(n.rows, m.rows) && Logged(m, n)
            && forall r :: r in n.rows <==> r in m.rows && r.pid in live
  {
    hide InOrder, Select;
    var n := PruneDead(m, live);
    PrunedInOrder(m.rows, live);
    SelectLeaveSizes(m.rows, OfLive(live));
    PrunedLog(m.rows, live);
    forall k | |m.log| <= k < |n.log| ensures LogsWent(m, n, n.log[k]) {
      var e := PruneLog(m.rows, live)[k - |m.log|];
      assert n.log[k] == e && e in PruneLog(m.rows, live);
      var r :| r in m.rows && r.pid !in live && e == LogEntry(true, r.pid, r.ruleId, r.prevMask, r.prevMask);
      assert Went(m, n, r);
    }
  }

  lemma {:induction false} PrunedLog(rows: seq<ActiveAction>, live: set<U32>)
    ensures |PruneLog(rows, live)| == |Leave(rows, OfLive(live))|
    ensures forall e <- PruneLog(rows, live) ::
              exists r :: r in rows && r.pid !in live && e == LogEntry(true, r.pid, r.ruleId, r.prevMask, r.prevMask)
  {
    if rows != [] {
      PrunedLog(rows[1..], live);
      assert rows[0] in rows;
      forall e | e in PruneLog(rows[1..], live)
        ensures exists r :: r in rows && r.pid !in live && e == LogEntry(true, r.pid, r.ruleId, r.prevMask, r.prevMask)
      {
        var r :| r in rows[1..] && r.pid !in live && e == LogEntry(true, r.pid, r.ruleId, r.prevMask, r.prevMask);
        assert r in rows;
      }
    }
  }

  lemma {:induction false} PrunedInOrder(rows: seq<ActiveAction>, live: set<U32>)
    ensures InOrder(Select(rows, OfLive(live)), rows)
  {
    if rows != [] {
      var some, all := Select(rows[1..], OfLive(live)), Select(rows, OfLive(live));
      PrunedInOrder(rows[1..], live);
      forall i, j | 0 <= i < j < |all| ensures Before(rows, all[i], all[j]) {
        if rows[0].pid !in live {
          InTail(rows, all[i], all[j]);
        } else if i > 0 {
          assert all[i] == some[i - 1] && all[j] == some[j - 1];
          InTail(rows, all[i], all[j]);
        } else {
          assert all[j] == some[j - 1] && some[j - 1] in rows[1..];
          var q :| 0 <= q < |rows[1..]| && rows[1..][q] == all[j];
          assert rows[0] == all[0] && rows[q + 1] == all[j];
        }
      }
    }
  }

  lemma InTail(rows: seq<ActiveAction>, x: ActiveAction, y: ActiveAction)
    requires rows != [] && Before(rows[1..], x, y)
    ensures Before(rows, x, y)
  {
    var p, q :| 0 <= p < q < |rows[1..]| && rows[1..][p] == x && rows[1..][q] == y;
    assert rows[p + 1] == x && rows[q + 1] == y;
  }
}
