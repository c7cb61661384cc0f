/** The slots of the metrics collector: one per observed pid, with a free list for evicted ones. The
    hash from pids to slots stands here as the map that module PidHashes proves it to be. */
module PidSlots {
  import opened Common
  import opened PidHashes

  const MAX_PID_STATES := 1024

  datatype PidState = PidState(pid: U32, valid: bool)

  const NO_STATE := PidState(0, false)

  // ---- The table as a value ----------------------------------------------

  /** The states below the high-water mark, the free list, where each free slot is in that list, and
      the slot of every pid that has one. */
  datatype Slots = Slots(states: seq<PidState>, free: seq<nat>, at: map<nat, nat>, hash: map<U32, nat>)

  /** The free list holds each unused slot once. */
  ghost predicate Partition(states: seq<PidState>, free: seq<nat>, at: map<nat, nat>) {
    && |free| == |at|
    && (forall k :: 0 <= k < |free| ==> free[k] in at && at[free[k]] == k)
    && (forall s <- at :: s < |states| && at[s] < |free| && free[at[s]] == s)
    && (forall s :: 0 <= s < |states| ==> (states[s].valid <==> s !in at))
  }

  /** The slots of the pids are exactly the valid ones. */
  ghost predicate Indexed(states: seq<PidState>, hash: map<U32, nat>) {
    && (forall pid <- hash :: pid != 0 && hash[pid] < |states| && states[hash[pid]] == PidState(pid, true))
    && (forall s :: 0 <= s < |states| && states[s].valid ==> states[s].pid in hash && hash[states[s].pid] == s)
  }

  ghost predicate Good(t: Slots) {
    Partition(t.states, t.free, t.at) && Indexed(t.states, t.hash) && |t.hash| + |t.free| == |t.states|
  }

  lemma Without<K, V>(m: map<K, V>, k: K)
    requires k in m
    ensures |m - {k}| == |m| - 1
  {
    assert (m - {k}).Keys == m.Keys - {k};
    assert |(m - {k}).Keys| == |m - {k}| && |m.Keys| == |m|;
  }

  lemma With<K, V>(m: map<K, V>, k: K, v: V)
    requires k !in m
    ensures |m[k := v]| == |m| + 1
  {
    assert m[k := v].Keys == m.Keys + {k};
    assert |m[k := v].Keys| == |m[k := v]| && |m.Keys| == |m|;
  }

  // ---- Taking a slot -----------------------------------------------------

  function TakenFree(t: Slots, pid: U32): Slots
    requires t.free != [] && t.free[|t.free| - 1] < |t.states|
  {
    var s := t.free[|t.free| - 1];
    Slots(t.states[s := PidState(pid, true)], t.free[..|t.free| - 1], t.at - {s}, t.hash[pid := s])
  }

  function TakenNext(t: Slots, pid: U32): Slots {
    Slots(t.states + [PidState(pid, true)], t.free, t.at, t.hash[pid := |t.states|])
  }

  lemma TakeFreeGood(t: Slots, pid: U32)
    requires Good(t) && t.free != [] && pid != 0 && pid !in t.hash
    ensures t.free[|t.free| - 1] < |t.states| && t.free[|t.free| - 1] !in t.hash.Values
    ensures Good(TakenFree(t, pid))
  {
    With(t.hash, pid, t.free[|t.free| - 1]);
    TakenFromFree(t.states, t.free, t.at, pid);
    TakenIsIndexed(t.states, t.hash, t.free[|t.free| - 1], pid);
  }

  lemma TakenIsIndexed(states: seq<PidState>, hash: map<U32, nat>, s: nat, pid: U32)
    requires Indexed(states, hash) && s < |states| && !states[s].valid && pid != 0 && pid !in hash
    ensures s !in hash.Values && Indexed(states[s := PidState(pid, true)], hash[pid := s])
  {
  }

  lemma TakenFromFree(states: seq<PidState>, free: seq<nat>, at: map<nat, nat>, pid: U32)
    requires Partition(states, free, at) && free != []
    ensures var s := free[|free| - 1];
            s < |states| && Partition(states[s := PidState(pid, true)], free[..|free| - 1], at - {s})
  {
    Without(at, free[|free| - 1]);
  }

  lemma TakeNextGood(t: Slots, pid: U32)
    requires Good(t) && pid != 0 && pid !in t.hash
    ensures |t.states| !in t.hash.Values && Good(TakenNext(t, pid))
  {
    With(t.hash, pid, |t.states|);
  }

  // ---- The sweep ---------------------------------------------------------

  function Evicted(t: Slots, s: nat): Slots
    requires s < |t.states|
  {
    Slots(t.states[s := NO_STATE], t.free + [s], t.at[s := |t.free|], t.hash - {t.states[s].pid})
  }

  lemma EvictGood(t: Slots, s: nat)
    requires Good(t) && s < |t.states| && t.states[s].valid
    ensures Good(Evicted(t, s)) && |t.free| < |t.states|
  {
    With(t.at, s, |t.free|);
    Without(t.hash, t.states[s].pid);
  }

  /** The table once the sweep has passed the slots below s. */
  function Swept(t: Slots, live: seq<bool>, s: nat): (u: Slots)
    requires s <= |t.states| <= |live|
    ensures |u.states| == |t.states|
  {
    if s == 0 then t
    else SweptOne(Swept(t, live, s - 1), live, s - 1)
  }

  function SweptOne(t: Slots, live: seq<bool>, s: nat): (u: Slots)
    requires s < |t.states| <= |live|
    ensures |u.states| == |t.states|
  {
    if t.states[s].valid && !live[s] then Evicted(t, s) else t
  }

  /** A valid slot is marked exactly when its pid is tracked. */
  ghost predicate Marks(states: seq<PidState>, live: seq<bool>, tracked: set<U32>) {
    |states| <= |live| && forall k :: 0 <= k < |states| && states[k].valid ==> (live[k] <==> states[k].pid in tracked)
  }

  /** The pids that the sweep keeps once it has passed the slots below s. */
  ghost function Kept(hash: map<U32, nat>, tracked: set<U32>, s: nat): map<U32, nat> {
    map pid | pid in hash && (hash[pid] >= s || pid in tracked) :: hash[pid]
  }

  /** Passing slot s drops its pid, unless it is tracked. */
  lemma KeptNext(states: seq<PidState>, hash: map<U32, nat>, tracked: set<U32>, s: nat, before: map<U32, nat>)
    requires Indexed(states, hash) && s < |states| && hash == Kept(before, tracked, s)
    ensures states[s].valid && states[s].pid !in tracked ==> hash - {states[s].pid} == Kept(before, tracked, s + 1)
    ensures !states[s].valid || states[s].pid in tracked ==> hash == Kept(before, tracked, s + 1)
  {
    forall pid | pid in hash && hash[pid] == s ensures states[s] == PidState(pid, true) {
    }
  }

  /** One more slot of the sweep. */
  lemma SweepStep(u: Slots, live: seq<bool>, tracked: set<U32>, s: nat, before: map<U32, nat>)
    requires Good(u) && s < |u.states| <= |live| && u.hash == Kept(before, tracked, s)
    requires u.states[s].valid ==> (live[s] <==> u.states[s].pid in tracked)
    ensures Good(SweptOne(u, live, s)) && SweptOne(u, live, s).hash == Kept(before, tracked, s + 1)
  {
    KeptNext(u.states, u.hash, tracked, s, before);
    if u.states[s].valid && !live[s] {
      EvictGood(u, s);
    }
  }

  lemma {:induction false} SweepFrame(t: Slots, live: seq<bool>, s: nat, k: nat)
    requires s <= k < |t.states| <= |live|
    ensures Swept(t, live, s).states[k] == t.states[k]
  {
    if s > 0 {
      SweepFrame(t, live, s - 1, k);
    }
  }

  /** A good table that has kept the right pids below s. */
  ghost predicate SweptTo(u: Slots, before: map<U32, nat>, tracked: set<U32>, s: nat) {
    Good(u) && u.hash == Kept(before, tracked, s)
  }

  lemma SweepOn(t: Slots, live: seq<bool>, tracked: set<U32>, s: nat)
    requires Marks(t.states, live, tracked) && 0 < s <= |t.states|
    requires SweptTo(Swept(t, live, s - 1), t.hash, tracked, s - 1)
    ensures SweptTo(Swept(t, live, s), t.hash, tracked, s)
  {
    hide Good, Kept, Evicted, SweptOne;
    SweepFrame(t, live, s - 1, s - 1);
    var u := Swept(t, live, s - 1);
    SweepStep(u, live, tracked, s - 1, t.hash);
    var v := SweptOne(u, live, s - 1);
    assert SweptTo(v, t.hash, tracked, s);
    assert Swept(t, live, s) == v;
  }

  lemma SweepStart(t: Slots, live: seq<bool>, tracked: set<U32>)
    requires Good(t) && |t.states| <= |live|
    ensures SweptTo(Swept(t, live, 0), t.hash, tracked, 0)
  {
    KeptFromStart(t.hash, tracked);
    assert Swept(t, live, 0) == t;
  }

  lemma {:induction false} SweepGood(t: Slots, live: seq<bool>, tracked: set<U32>, s: nat)
    requires Good(t) && Marks(t.states, live, tracked) && s <= |t.states|
    ensures SweptTo(Swept(t, live, s), t.hash, tracked, s)
  {
    hide Swept, SweptTo;
    if s == 0 {
      SweepStart(t, live, tracked);
    } else {
      SweepGood(t, live, tracked, s - 1);
      SweepOn(t, live, tracked, s);
    }
  }

  lemma KeptFromStart(hash: map<U32, nat>, tracked: set<U32>)
    ensures Kept(hash, tracked, 0) == hash
  {
  }

  /** The guard on the free list never refuses a slot. */
  lemma RoomForOne(t: Slots, live: seq<bool>, tracked: set<U32>, s: nat)
    requires Good(t) && Marks(t.states, live, tracked) && s < |t.states|
    ensures var u := Swept(t, live, s); u.states[s].valid ==> |u.free| < |u.states|
  {
    SweepGood(t, live, tracked, s);
    if Swept(t, live, s).states[s].valid {
      EvictGood(Swept(t, live, s), s);
    }
  }

  function PidsIn(pids: seq<U32>): set<U32> {
    set pid | pid in pids
  }

  lemma MarkNext(states: seq<PidState>, hash: map<U32, nat>, live: seq<bool>, pids: seq<U32>, i: nat)
    requires Indexed(states, hash) && i < |pids| && Marks(states, live, PidsIn(pids[..i]))
    ensures pids[i] in hash ==> Marks(states, live[hash[pids[i]] := true], PidsIn(pids[..i + 1]))
    ensures pids[i] !in hash ==> Marks(states, live, PidsIn(pids[..i + 1]))
  {
    assert pids[..i + 1] == pids[..i] + [pids[i]];
  }

  /** A sweep leaves exactly the pids that are tracked, each in its own slot. */
  lemma SweepKeepsTracked(t: Slots, live: seq<bool>, pids: seq<U32>)
    requires Good(t) && Marks(t.states, live, PidsIn(pids))
    ensures Good(Swept(t, live, |t.states|))
    ensures Swept(t, live, |t.states|).hash == map pid | pid in t.hash && pid in pids :: t.hash[pid]
  {
    SweepGood(t, live, PidsIn(pids), |t.states|);
    KeptAll(t.states, t.hash, pids);
  }

  lemma KeptAll(states: seq<PidState>, hash: map<U32, nat>, pids: seq<U32>)
    requires Indexed(states, hash)
    ensures Kept(hash, PidsIn(pids), |states|) == map pid | pid in hash && pid in pids :: hash[pid]
  {
  }

  // ---- The table in place ------------------------------------------------

  class SlotTable {
    const states: array<PidState>
    var n: nat
    const free: array<nat>
    var nFree: nat
    ghost var freeAt: map<nat, nat>
    var hash: map<U32, nat>

    ghost predicate Shape()
      reads this
    {
      states.Length == free.Length == MAX_PID_STATES && nFree <= MAX_PID_STATES && n <= MAX_PID_STATES
    }

    ghost function State(): Slots
      reads this, states, free
      requires Shape()
    {
      Slots(states[..n], free[..nFree], freeAt, hash)
    }

    ghost predicate Valid()
      reads this, states, free
    {
      Shape() && Good(State())
    }

    constructor ()
      ensures Valid() && fresh(states) && fresh(free) && hash == map[]
    {
      states := new PidState[MAX_PID_STATES](_ => NO_STATE);
      free := new nat[MAX_PID_STATES](_ => 0);
      hash, n, nFree, freeAt := map[], 0, 0, map[];
    }

    /** find_or_create_pid_state: -1 for no slot. It fails for pid 0, and for a new pid exactly when
        all 1024 slots belong to other pids. */
    method FindOrCreate(pid: U32) returns (slot: int)
      requires Valid() && pid != TOMBSTONE
      modifies this, states
      ensures Valid()
      ensures slot == -1 <==> pid == 0 || (pid !in old(hash) && |old(hash)| == MAX_PID_STATES)
      ensures slot == -1 || pid in old(hash) ==> hash == old(hash)
      ensures pid in old(hash) ==> slot == old(hash)[pid]
      ensures slot != -1 && pid !in old(hash) ==>
        0 <= slot < MAX_PID_STATES && hash == old(hash)[pid := slot] && slot !in old(hash).Values
    {
      if pid == 0 {
        return -1;
      }
      slot := if pid in hash then hash[pid] else -1;
      if slot >= 0 && states[slot].valid && states[slot].pid == pid {
        return;
      }
      if nFree > 0 {
        TakeFreeGood(State(), pid);
        slot := free[nFree - 1];
        TakeFree(pid, slot);
      } else if n < MAX_PID_STATES {
        TakeNextGood(State(), pid);
        slot := n;
        TakeNext(pid);
      } else {
        slot := -1;
      }
    }

    method TakeFree(pid: U32, slot: nat)
      requires Shape() && nFree > 0 && slot == free[nFree - 1] < n
      modifies this, states
      ensures Shape() && State() == TakenFree(old(State()), pid)
    {
      ghost var t := TakenFree(State(), pid);
      nFree, freeAt := nFree - 1, freeAt - {slot};
      states[slot] := PidState(pid, true);
      hash := hash[pid := slot];
      assert states[..n] == t.states && free[..nFree] == t.free;
    }

    method TakeNext(pid: U32)
      requires Shape() && n < MAX_PID_STATES
      modifies this, states
      ensures Shape() && State() == TakenNext(old(State()), pid)
    {
      ghost var t := TakenNext(State(), pid);
      states[n] := PidState(pid, true);
      hash := hash[pid := n];
      n := n + 1;
      assert states[..n] == t.states;
    }

    /** evict_absent_pids: exactly the tracked pids keep their slots; the high-water mark stays. */
    method EvictAbsent(pids: seq<U32>)
      requires Valid()
      modifies this, states, free
      ensures Valid() && n == old(n)
      ensures hash == map pid | pid in old(hash) && pid in pids :: old(hash)[pid]
    {
      ghost var t := State();
      var live := MarkLive(pids);
      SweepAll(live, PidsIn(pids));
      SweepKeepsTracked(t, live, pids);
    }

    method SweepAll(live: seq<bool>, ghost tracked: set<U32>)
      requires Valid() && |live| == MAX_PID_STATES && Marks(states[..n], live, tracked)
      modifies this, states, free
      ensures Shape() && n == old(n) && State() == Swept(old(State()), live, old(n))
    {
      hide Good, Evicted, Marks;
      ghost var t := State();
      var s := 0;
      while s < n
        invariant s <= n == |t.states| && Shape() && State() == Swept(t, live, s)
      {
        RoomForOne(t, live, tracked, s);
        if states[s].valid && !live[s] {
          Evict(s);
        }
        s := s + 1;
      }
    }

    /** The bit set of the slots that belong to tracked pids. */
    method MarkLive(pids: seq<U32>) returns (live: seq<bool>)
      requires Valid()
      ensures |live| == MAX_PID_STATES && Marks(states[..n], live, PidsIn(pids))
    {
      ghost var now := states[..n];
      live := seq(MAX_PID_STATES, _ => false);
      for i := 0 to |pids|
        invariant |live| == MAX_PID_STATES && Marks(now, live, PidsIn(pids[..i]))
      {
        var slot := if pids[i] in hash then hash[pids[i]] else -1;
        MarkNext(now, hash, live, pids, i);
        if slot >= 0 {
          live := live[slot := true];
        }
      }
      assert pids[..|pids|] == pids;
    }

    method Evict(s: nat)
      requires Shape() && s < n && nFree < MAX_PID_STATES
      modifies this, states, free
      ensures Shape() && n == old(n) && State() == Evicted(old(State()), s)
    {
      ghost var t := Evicted(State(), s);
      hash := hash - {states[s].pid};
      states[s] := NO_STATE;
      free[nFree] := s;
      nFree, freeAt := nFree + 1, freeAt[s := nFree];
      assert states[..n] == t.states && free[..nFree] == t.free;
    }
  }
}
