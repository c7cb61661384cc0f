/** The active table and the action log under the executor's operations: which rows go, in which
    order the others stay, and that the log accounts for every row. */
module ActiveTable {
  import opened Common
  import opened DiskRecords
  import opened Placement

  /** The rows a selection leaves, in table order. */
  function Leave(rows: seq<ActiveAction>, sel: Selector): (out: seq<ActiveAction>)
    ensures forall a :: a in out <==> a in rows && !Selects(sel, a)
  {
    if rows == [] then []
    else (if Selects(sel, rows[0]) then [] else [rows[0]]) + Leave(rows[1..], sel)
  }

  lemma {:induction false} SelectLeaveSizes(rows: seq<ActiveAction>, sel: Selector)
    ensures |Select(rows, sel)| + |Leave(rows, sel)| == |rows|
  {
    if rows != [] {
      SelectLeaveSizes(rows[1..], sel);
    }
  }

  lemma {:induction false} LeaveUnique(rows: seq<ActiveAction>, sel: Selector)
    requires UniquePids(rows)
    ensures UniquePids(Leave(rows, sel))
  {
    if rows != [] {
      LeaveUnique(rows[1..], sel);
      var more := Leave(rows[1..], sel);
      forall j | 0 <= j < |more| ensures more[j].pid != rows[0].pid {
        assert more[j] in more && more[j] in rows[1..];
      }
    }
  }

  lemma {:induction false} SelectAll(rows: seq<ActiveAction>, sel: Selector)
    requires forall a :: a in rows ==> Selects(sel, a)
    ensures Select(rows, sel) == rows && Leave(rows, sel) == []
  {
    if rows != [] {
      SelectAll(rows[1..], sel);
    }
  }

  /** Retiring one row of a pid-unique table takes out that row alone. */
  lemma {:induction false} RetireOne(rows: seq<ActiveAction>, i: nat)
    requires UniquePids(rows) && i < |rows|
    ensures Select(rows, NotOfPid(rows[i].pid)) == rows[..i] + rows[i + 1..]
  {
    var pid := rows[i].pid;
    if i == 0 {
      forall a | a in rows[1..] ensures Selects(NotOfPid(pid), a) {
      }
      SelectAll(rows[1..], NotOfPid(pid));
    } else {
      RetireOne(rows[1..], i - 1);
      assert rows[..i] + rows[i + 1..] == [rows[0]] + (rows[1..][..i - 1] + rows[1..][i..]);
    }
  }

  // ---- Reverting a selection ---------------------------------------------

  lemma RevertRowTable(m: Machine, a: ActiveAction)
    ensures var m' := RevertRow(m, a);
            && m'.rows == Select(m.rows, NotOfPid(a.pid))
            && m'.log == m.log + [LogOf(a, true)]
            && m'.journalOpen == m.journalOpen
  {
  }

  function RevertLog(targets: seq<ActiveAction>): seq<LogEntry> {
    if targets == [] then [] else [LogOf(targets[0], true)] + RevertLog(targets[1..])
  }

  lemma {:induction false} SelectTwice(rows: seq<ActiveAction>, first: ActiveAction, sel: Selector)
    requires UniquePids(rows) && Select(rows, sel) != [] && first == Select(rows, sel)[0]
    ensures Select(Select(rows, NotOfPid(first.pid)), sel) == Select(rows, sel)[1..]
    ensures Leave(Select(rows, NotOfPid(first.pid)), sel) == Leave(rows, sel)
  {
    var others := Select(rows, NotOfPid(first.pid));
    if Selects(sel, rows[0]) {
      RetireOne(rows, 0);
      assert others == rows[1..];
    } else {
      var more := rows[1..];
      assert Select(rows, sel) == Select(more, sel) && Leave(rows, sel) == [rows[0]] + Leave(more, sel);
      SelectTwice(more, first, sel);
      assert first in Select(more, sel);
      assert first in more && rows[0].pid != first.pid;
      var othersMore := Select(more, NotOfPid(first.pid));
      assert others == [rows[0]] + othersMore;
      assert others[0] == rows[0] && others[1..] == othersMore;
    }
  }

  /** Reverting a selection removes exactly the selected rows, keeps the order of the rest, and
      logs one revert per row in table order. */
  lemma {:induction false} RevertSelection(m: Machine, sel: Selector)
    requires UniquePids(m.rows)
    ensures var m' := RevertRows(m, Select(m.rows, sel));
            && m'.rows == Leave(m.rows, sel)
            && m'.log == m.log + RevertLog(Select(m.rows, sel))
            && m'.journalOpen == m.journalOpen
    decreases |Select(m.rows, sel)|
  {
    var targets := Select(m.rows, sel);
    if targets == [] {
      NothingSelected(m.rows, sel);
      assert m.log + [] == m.log;
    } else {
      var m1 := RevertRow(m, targets[0]);
      RevertRowTable(m, targets[0]);
      SelectTwice(m.rows, targets[0], sel);
      SelectUnique(m.rows, NotOfPid(targets[0].pid));
      RevertSelection(m1, sel);
      AddAssociates(m.log, [LogOf(targets[0], true)], RevertLog(targets[1..]));
    }
  }

  lemma {:induction false} NothingSelected(rows: seq<ActiveAction>, sel: Selector)
    requires Select(rows, sel) == []
    ensures Leave(rows, sel) == rows
  {
    if rows != [] {
      NothingSelected(rows[1..], sel);
    }
  }

  // ---- The log accounts for the table ------------------------------------

  /** Apply entries minus revert entries. */
  function Balance(log: seq<LogEntry>): int {
    if log == [] then 0 else Balance(log[..|log| - 1]) + (if log[|log| - 1].isRevert then -1 else 1)
  }

  lemma {:induction false} BalanceConcat(a: seq<LogEntry>, b: seq<LogEntry>)
    ensures Balance(a + b) == Balance(a) + Balance(b)
  {
    if b == [] {
      assert a + b == a;
    } else {
      assert (a + b)[..|a + b| - 1] == a + b[..|b| - 1];
      BalanceConcat(a, b[..|b| - 1]);
    }
  }

  lemma {:induction false} RevertLogBalance(targets: seq<ActiveAction>)
    ensures Balance(RevertLog(targets)) == -|targets|
  {
    if targets != [] {
      RevertLogBalance(targets[1..]);
      BalanceConcat([LogOf(targets[0], true)], RevertLog(targets[1..]));
      assert [LogOf(targets[0], true)][..0] == [];
    }
  }

  lemma {:induction false} PruneLogBalance(rows: seq<ActiveAction>, live: set<U32>)
    ensures Balance(PruneLog(rows, live)) == -|Leave(rows, OfLive(live))|
  {
    if rows != [] {
      PruneLogBalance(rows[1..], live);
      if rows[0].pid !in live {
        BalanceConcat([LogOf(rows[0], true)], PruneLog(rows[1..], live));
        assert [LogOf(rows[0], true)][..0] == [];
      } else {
        assert [] + PruneLog(rows[1..], live) == PruneLog(rows[1..], live);
      }
    }
  }

  // ---- The operations, in any order --------------------------------------

  /** One call of the executor, or a change of the world around it. `logged`: the PENDING record of a pin
      reaches the journal. */
  datatype Op =
    | PinOp(q: PinRequest, logged: bool)
    | PriorityOp(q: PinRequest, answer: PriorityResult, priorityClass: U32)
    | RevertOp(sel: Selector)
    | RevertAllOp
    | PruneOp(live: set<U32>)
    | Outside(procs: Procs, journalOpen: bool, slots: seq<DiskRecord>)

  predicate HasRoomFor(m: Machine, pid: U32) {
    !Holds(m.rows, pid) && |m.rows| < MAX_ACTIVE
  }

  function Perform(m: Machine, op: Op): Machine {
    match op
    case PinOp(q, logged) => if HasRoomFor(m, q.pid) then PinAs(m, q, logged) else m
    case PriorityOp(q, answer, priorityClass) =>
      if HasRoomFor(m, q.pid) && answer.PriorityWas? then Activate(m, PriorityAction(q, answer.previous, priorityClass)) else m
    case RevertOp(sel) => RevertRows(m, Select(m.rows, sel))
    case RevertAllOp => RevertRows(m, m.rows)
    case PruneOp(live) => PruneDead(m, live)
    case Outside(procs, journalOpen, slots) => m.(procs := procs, journalOpen := journalOpen, slots := slots)
  }

  function PerformAll(m: Machine, ops: seq<Op>): Machine
    decreases |ops|
  {
    if ops == [] then m else PerformAll(Perform(m, ops[0]), ops[1..])
  }

  /** The table holds each pid once, has not outgrown its array, and is what the log says it is. */
  predicate Accounted(m: Machine) {
    Balance(m.log) == |m.rows| <= MAX_ACTIVE && UniquePids(m.rows)
  }

  lemma ActivateAccounted(m: Machine, a: ActiveAction)
    requires Accounted(m) && HasRoomFor(m, a.pid)
    ensures Accounted(Activate(m, a))
  {
    BalanceConcat(m.log, [LogOf(a, false)]);
    assert [LogOf(a, false)][..0] == [];
  }

  /** A pin adds the one row or none, and logs exactly that. */
  lemma PinAccounted(m: Machine, q: PinRequest, logged: bool)
    requires Accounted(m)
    ensures Accounted(Perform(m, PinOp(q, logged)))
  {
    if HasRoomFor(m, q.pid) {
      var a, t := PinAction(m.procs, q), Perform(m, PinOp(q, logged));
      ActivateAccounted(m, a);
      assert (t.rows == m.rows && t.log == m.log) || (t.rows == m.rows + [a] && t.log == m.log + [LogOf(a, false)]);
    }
  }

  lemma RevertAccounted(m: Machine, sel: Selector)
    requires Accounted(m)
    ensures Accounted(RevertRows(m, Select(m.rows, sel)))
  {
    RevertSelection(m, sel);
    RevertLogBalance(Select(m.rows, sel));
    SelectLeaveSizes(m.rows, sel);
    LeaveUnique(m.rows, sel);
    BalanceConcat(m.log, RevertLog(Select(m.rows, sel)));
  }

  lemma PruneAccounted(m: Machine, live: set<U32>)
    requires Accounted(m)
    ensures Accounted(PruneDead(m, live))
  {
    PruneLogBalance(m.rows, live);
    SelectLeaveSizes(m.rows, OfLive(live));
    SelectUnique(m.rows, OfLive(live));
    BalanceConcat(m.log, PruneLog(m.rows, live));
  }

  lemma PerformAccounted(m: Machine, op: Op)
    requires Accounted(m)
    ensures Accounted(Perform(m, op))
  {
    match op
    case PinOp(q, logged) => PinAccounted(m, q, logged);
    case PriorityOp(q, answer, priorityClass) =>
      if HasRoomFor(m, q.pid) && answer.PriorityWas? {
        ActivateAccounted(m, PriorityAction(q, answer.previous, priorityClass));
      }
    case RevertOp(sel) => RevertAccounted(m, sel);
    case RevertAllOp =>
      var every := OfLive(set a <- m.rows :: a.pid);
      SelectAll(m.rows, every);
      RevertAccounted(m, every);
    case PruneOp(live) => PruneAccounted(m, live);
    case Outside(_, _, _) =>
  }

  /** Over any sequence of calls, whatever the system grants and whatever becomes of processes and journal
      in between: the applies logged minus the reverts logged are the rows of the table, which never holds
      more than 32 or the same pid twice. */
  lemma {:induction false} LogAccountsForTable(m: Machine, ops: seq<Op>)
    requires Accounted(m)
    ensures var t := PerformAll(m, ops);
            Balance(t.log) == |t.rows| <= MAX_ACTIVE && UniquePids(t.rows)
    decreases |ops|
  {
    if ops != [] {
      PerformAccounted(m, ops[0]);
      LogAccountsForTable(Perform(m, ops[0]), ops[1..]);
    }
  }
}
