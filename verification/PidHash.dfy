/** The pid table of the metrics collector: an open-addressing hash with tombstones, and the slot
    allocator with its free list above it. */
module PidHashes {
  import opened Common

  const SIZE := 2048

  /** Never a real pid. */
  const TOMBSTONE: U32 := 0xFFFF_FFFF

  datatype Entry = Entry(pid: U32, slotPlus1: nat)

  /** The cell that probe p of a pid looks at: (pid + p) & (SIZE - 1). */
  function Cell(pid: U32, p: nat): (i: nat)
    ensures i < SIZE
  {
    (pid % SIZE + p) % SIZE
  }

  /** How many probes lead from a pid's home cell to cell i. */
  function Distance(pid: U32, i: nat): (p: nat)
    requires i < SIZE
    ensures p < SIZE && Cell(pid, p) == i
  {
    (i - pid % SIZE) % SIZE
  }

  predicate Live(e: Entry) {
    e.pid != 0 && e.pid != TOMBSTONE
  }

  lemma DistanceUnique(pid: U32, p: nat)
    requires p < SIZE
    ensures Distance(pid, Cell(pid, p)) == p
  {
  }

  class PidHash {
    const cells: array<Entry>

    /** Where each stored pid is. */
    ghost var at: map<U32, nat>

    ghost predicate Located()
      reads this, cells
    {
      && cells.Length == SIZE
      && (forall pid <- at :: pid != 0 && pid != TOMBSTONE && at[pid] < SIZE && cells[at[pid]].pid == pid)
      && (forall i :: 0 <= i < SIZE && Live(cells[i]) ==> cells[i].pid in at && at[cells[i].pid] == i)
      && (forall i :: 0 <= i < SIZE ==> (Live(cells[i]) <==> cells[i].slotPlus1 > 0))
    }

    /** No empty cell lies between a pid's home and the cell that holds it. */
    ghost predicate Reachable()
      reads this, cells
      requires Located()
    {
      forall pid, p :: pid in at && 0 <= p < Distance(pid, at[pid]) ==> cells[Cell(pid, p)].pid != 0
    }

    ghost predicate Valid()
      reads this, cells
    {
      Located() && Reachable()
    }

    ghost function Contents(): (c: map<U32, nat>)
      reads this, cells
      requires Located()
      ensures c.Keys == at.Keys
    {
      map pid | pid in at :: cells[at[pid]].slotPlus1 - 1
    }

    constructor ()
      ensures Valid() && fresh(cells) && Contents() == map[]
    {
      cells := new Entry[SIZE](_ => Entry(0, 0));
      at := map[];
    }

    /** pid_hash_lookup: the slot, or -1. */
    method Lookup(pid: U32) returns (slot: int)
      requires Valid()
      ensures slot == if pid in Contents() then Contents()[pid] else -1
    {
      if pid == 0 {
        return -1;
      }
      for p := 0 to SIZE
        invariant forall q :: 0 <= q < p ==> cells[Cell(pid, q)].pid != pid
      {
        var e := cells[Cell(pid, p)];
        if e.pid == 0 {
          NotBehindEmpty(pid, p);
          return -1;
        }
        if e.pid == pid {
          return e.slotPlus1 - 1;
        }
      }
      OnItsProbes(pid);
      slot := -1;
    }

    lemma OnItsProbes(pid: U32)
      requires Valid()
      ensures pid in at ==> Distance(pid, at[pid]) < SIZE && cells[Cell(pid, Distance(pid, at[pid]))].pid == pid
    {
    }

    /** A probe sequence that meets an empty cell leads to the pid before that, or not at all. */
    lemma NotBehindEmpty(pid: U32, p: nat)
      requires Valid() && p < SIZE && cells[Cell(pid, p)].pid == 0
      ensures pid in at ==> Distance(pid, at[pid]) < p && cells[Cell(pid, Distance(pid, at[pid]))].pid == pid
    {
    }

    /** pid_hash_insert: the first empty or tombstoned cell of the probe sequence. */
    method Insert(pid: U32, slot: nat)
      requires Valid() && pid != 0 && pid != TOMBSTONE && pid !in Contents() && |Contents()| < SIZE
      modifies this, cells
      ensures Valid() && Contents() == old(Contents())[pid := slot]
    {
      for p := 0 to SIZE
        invariant Valid() && at == old(at) && Contents() == old(Contents()) && cells[..] == old(cells[..])
        invariant forall q :: 0 <= q < p ==> Live(cells[Cell(pid, q)])
      {
        var i := Cell(pid, p);
        if cells[i].pid == 0 || cells[i].pid == TOMBSTONE {
          Store(pid, slot, p);
          return;
        }
      }
      FullTable(pid);
    }

    method Store(pid: U32, slot: nat, p: nat)
      requires Valid() && pid != 0 && pid != TOMBSTONE && pid !in Contents()
      requires p < SIZE && !Live(cells[Cell(pid, p)]) && forall q :: 0 <= q < p ==> Live(cells[Cell(pid, q)])
      modifies this, cells
      ensures Valid() && Contents() == old(Contents())[pid := slot]
    {
      var i := Cell(pid, p);
      DistanceUnique(pid, p);
      cells[i] := Entry(pid, slot + 1);
      at := at[pid := i];
    }

    /** pid_hash_remove: a tombstone keeps the probe sequences through the cell connected. */
    method Remove(pid: U32)
      requires Valid()
      modifies this, cells
      ensures Valid() && Contents() == old(Contents()) - {pid}
    {
      if pid == 0 {
        return;
      }
      for p := 0 to SIZE
        invariant Valid() && at == old(at) && Contents() == old(Contents())
        invariant forall q :: 0 <= q < p ==> cells[Cell(pid, q)].pid != pid
      {
        var i := Cell(pid, p);
        if cells[i].pid == 0 {
          NotBehindEmpty(pid, p);
          return;
        }
        if cells[i].pid == pid {
          Bury(pid, i);
          return;
        }
      }
      OnItsProbes(pid);
    }

    method Bury(pid: U32, i: nat)
      requires Valid() && i < SIZE && cells[i].pid == pid && pid != 0
      modifies this, cells
      ensures Valid() && Contents() == old(Contents()) - {pid}
    {
      cells[i] := Entry(TOMBSTONE, 0);
      at := at - {pid};
    }

    /** With every cell of the probe sequence taken, the table holds SIZE pids. */
    lemma FullTable(pid: U32)
      requires Valid() && forall q :: 0 <= q < SIZE ==> Live(cells[Cell(pid, q)])
      ensures |at.Keys| >= SIZE
    {
      forall i | 0 <= i < SIZE ensures Live(cells[i]) {
        assert Cell(pid, Distance(pid, i)) == i;
      }
      CountLive(SIZE);
    }

    ghost function PidsBelow(n: nat): set<U32>
      reads this, cells
      requires Located() && n <= SIZE
    {
      set pid | pid in at && at[pid] < n
    }

    lemma {:induction false} CountLive(n: nat)
      requires Located() && n <= SIZE && forall i :: 0 <= i < n ==> Live(cells[i])
      ensures |PidsBelow(n)| >= n && PidsBelow(n) <= at.Keys && |at.Keys| >= n
    {
      Subset(PidsBelow(n), at.Keys);
      if n > 0 {
        CountLive(n - 1);
        assert PidsBelow(n) == PidsBelow(n - 1) + {cells[n - 1].pid};
        assert cells[n - 1].pid !in PidsBelow(n - 1);
      }
    }
  }

  lemma Subset<T>(a: set<T>, b: set<T>)
    requires a <= b
    ensures |a| <= |b|
  {
    if a != {} {
      var x :| x in a;
      Subset(a - {x}, b - {x});
    }
  }
}
