/** Lists of keyed entries updated in place: the offset index of the journal and the result
    of recover() are both built with this replace-or-append loop. */
module KeyedLists {
  import opened DiskRecords

  datatype Entry<+V> = Entry(key: RevertKey, value: V)

  predicate Distinct<V>(s: seq<Entry<V>>) {
    forall i, j :: 0 <= i < j < |s| ==> s[i].key != s[j].key
  }

  predicate HasKey<V>(s: seq<Entry<V>>, k: RevertKey) {
    exists i :: 0 <= i < |s| && s[i].key == k
  }

  function Upsert<V>(s: seq<Entry<V>>, k: RevertKey, v: V): seq<Entry<V>> {
    if s == [] then [Entry(k, v)]
    else if s[0].key == k then [Entry(k, v)] + s[1..]
    else [s[0]] + Upsert(s[1..], k, v)
  }

  /** The finite map a list of entries denotes (the first entry of a key counts). */
  function ToMap<V>(s: seq<Entry<V>>): map<RevertKey, V> {
    if s == [] then map[] else ToMap(s[1..])[s[0].key := s[0].value]
  }

  lemma {:induction false} ToMapAt<V>(s: seq<Entry<V>>, i: nat)
    requires Distinct(s) && i < |s|
    ensures s[i].key in ToMap(s) && ToMap(s)[s[i].key] == s[i].value
  {
    if i > 0 {
      ToMapAt(s[1..], i - 1);
    }
  }

  lemma {:induction false} ToMapAbsent<V>(s: seq<Entry<V>>, k: RevertKey)
    requires !HasKey(s, k)
    ensures k !in ToMap(s)
  {
    if s != [] {
      assert s[0].key != k;
      forall i | 0 <= i < |s[1..]| ensures s[1..][i].key != k {
        assert s[i + 1].key != k;
      }
      ToMapAbsent(s[1..], k);
    }
  }

  /** Replace-or-append is map update, and keeps the keys apart. */
  lemma {:induction false} UpsertMeaning<V>(s: seq<Entry<V>>, k: RevertKey, v: V)
    requires Distinct(s)
    ensures Distinct(Upsert(s, k, v))
    ensures ToMap(Upsert(s, k, v)) == ToMap(s)[k := v]
  {
    UpsertDistinct(s, k, v);
    UpsertToMap(s, k, v);
  }

  lemma {:induction false} UpsertToMap<V>(s: seq<Entry<V>>, k: RevertKey, v: V)
    ensures ToMap(Upsert(s, k, v)) == ToMap(s)[k := v]
  {
    if s != [] && s[0].key != k {
      UpsertToMap(s[1..], k, v);
      assert Upsert(s, k, v)[1..] == Upsert(s[1..], k, v);
    } else if s != [] {
      assert Upsert(s, k, v)[1..] == s[1..];
    }
  }

  lemma {:induction false} UpsertDistinct<V>(s: seq<Entry<V>>, k: RevertKey, v: V)
    requires Distinct(s)
    ensures Distinct(Upsert(s, k, v))
    ensures forall e :: e in Upsert(s, k, v) ==> e == Entry(k, v) || e in s
  {
    if s != [] && s[0].key != k {
      UpsertDistinct(s[1..], k, v);
      var t := Upsert(s[1..], k, v);
      forall j | 0 <= j < |t|
        ensures s[0].key != t[j].key
      {
        assert t[j] in t;
      }
    }
  }

  lemma {:induction false} UpsertAt<V>(s: seq<Entry<V>>, k: RevertKey, v: V, i: nat)
    requires i < |s| && s[i].key == k
    requires forall j :: 0 <= j < i ==> s[j].key != k
    ensures Upsert(s, k, v) == s[i := Entry(k, v)]
  {
    if i > 0 {
      UpsertAt(s[1..], k, v, i - 1);
    }
  }

  lemma {:induction false} UpsertNew<V>(s: seq<Entry<V>>, k: RevertKey, v: V)
    requires forall j :: 0 <= j < |s| ==> s[j].key != k
    ensures Upsert(s, k, v) == s + [Entry(k, v)]
  {
    if s != [] {
      UpsertNew(s[1..], k, v);
    }
  }

  method UpsertInPlace<V>(s: seq<Entry<V>>, k: RevertKey, v: V) returns (t: seq<Entry<V>>)
    ensures t == Upsert(s, k, v)
  {
    for i := 0 to |s|
      invariant forall j :: 0 <= j < i ==> s[j].key != k
    {
      if s[i].key == k {
        UpsertAt(s, k, v, i);
        return s[i := Entry(k, v)];
      }
    }
    UpsertNew(s, k, v);
    t := s + [Entry(k, v)];
  }
}

/** What the journal says, as functions of the sequence of slots in the file. */
module JournalSpec {
  import opened Common
  import opened DiskRecords
  import opened KeyedLists

  // ---- The offset index --------------------------------------------------

  /** The last slot of a key, or -1. */
  function LastSlot(recs: seq<DiskRecord>, k: RevertKey): (i: int)
    ensures -1 <= i < |recs|
    ensures i >= 0 ==> KeyOf(recs[i]) == k
    ensures forall j :: i < j < |recs| ==> KeyOf(recs[j]) != k
  {
    if recs == [] then -1
    else if KeyOf(recs[|recs| - 1]) == k then |recs| - 1
    else LastSlot(recs[..|recs| - 1], k)
  }

  /** A plain scan of the file for a key: the byte offset of its last slot. */
  function LastMatch(recs: seq<DiskRecord>, k: RevertKey): int {
    if LastSlot(recs, k) < 0 then -1 else LastSlot(recs, k) * SLOT
  }

  type OffsetIndex = seq<Entry<int>>

  function IndexOf(recs: seq<DiskRecord>): OffsetIndex {
    if recs == [] then []
    else
      var n := |recs| - 1;
      Upsert(IndexOf(recs[..n]), KeyOf(recs[n]), n * SLOT)
  }

  /** The index holds each key of the file once, at the offset a plain scan would find. */
  lemma {:induction false} IndexMeaning(recs: seq<DiskRecord>)
    ensures Distinct(IndexOf(recs))
    ensures forall k :: k in ToMap(IndexOf(recs)) <==> LastSlot(recs, k) >= 0
    ensures forall k :: k in ToMap(IndexOf(recs)) ==> ToMap(IndexOf(recs))[k] == LastMatch(recs, k)
  {
    if recs != [] {
      var n := |recs| - 1;
      IndexMeaning(recs[..n]);
      UpsertMeaning(IndexOf(recs[..n]), KeyOf(recs[n]), n * SLOT);
    }
  }

  lemma IndexAppend(recs: seq<DiskRecord>, r: DiskRecord)
    ensures IndexOf(recs + [r]) == Upsert(IndexOf(recs), KeyOf(r), |recs| * SLOT)
  {
    assert (recs + [r])[..|recs|] == recs;
  }

  lemma RecoveredAppend(recs: seq<DiskRecord>, r: DiskRecord)
    ensures Recovered(recs + [r])
         == if Unresolved(r) then Upsert(Recovered(recs), KeyOf(r), SurvivorOf(r)) else Recovered(recs)
  {
    assert (recs + [r])[..|recs|] == recs;
  }

  lemma LastMatchAppend(recs: seq<DiskRecord>, r: DiskRecord, k: RevertKey)
    ensures LastSlot(recs + [r], k) == if KeyOf(r) == k then |recs| else LastSlot(recs, k)
    ensures LastMatch(recs + [r], k) == if KeyOf(r) == k then |recs| * SLOT else LastMatch(recs, k)
  {
    assert (recs + [r])[..|recs|] == recs;
  }

  predicate SameKeys(a: seq<DiskRecord>, b: seq<DiskRecord>) {
    |a| == |b| && forall i :: 0 <= i < |a| ==> KeyOf(a[i]) == KeyOf(b[i])
  }

  /** Status flips do not move anything, in the index or in the slots. */
  lemma {:induction false} SameKeysSameIndex(a: seq<DiskRecord>, b: seq<DiskRecord>)
    requires SameKeys(a, b)
    ensures IndexOf(a) == IndexOf(b)
    ensures forall k :: LastSlot(a, k) == LastSlot(b, k)
  {
    if a != [] {
      SameKeysSameIndex(a[..|a| - 1], b[..|b| - 1]);
    }
  }

  // ---- Status flips ------------------------------------------------------

  /** set_status: the last slot of the key changes its status. */
  function Flip(recs: seq<DiskRecord>, k: RevertKey, v: U32): (out: seq<DiskRecord>)
    ensures SameKeys(recs, out)
    ensures AllMagic(recs) ==> AllMagic(out)
  {
    var i := LastSlot(recs, k);
    if i < 0 then recs else recs[i := recs[i].(status := v)]
  }

  // ---- recover() ---------------------------------------------------------

  /** What recover() hands back about one key. */
  datatype Survivor = Survivor(prevMask: U64, newMask: U64, wallTimeMs: U64, status: U32, exeName: seq<Byte>)

  type RevertRecord = Entry<Survivor>

  function SurvivorOf(r: DiskRecord): Survivor {
    Survivor(r.prevMask, r.newMask, r.wallTimeMs, r.status, CStr(r.exeName, 63))
  }

  function Recovered(recs: seq<DiskRecord>): seq<RevertRecord> {
    if recs == [] then []
    else
      var r := recs[|recs| - 1];
      var before := Recovered(recs[..|recs| - 1]);
      if Unresolved(r) then Upsert(before, KeyOf(r), SurvivorOf(r)) else before
  }

  /** The last unresolved slot of a key, or -1. */
  function LastUnresolved(recs: seq<DiskRecord>, k: RevertKey): (i: int)
    ensures -1 <= i < |recs|
    ensures i >= 0 ==> KeyOf(recs[i]) == k && Unresolved(recs[i])
    ensures forall j :: i < j < |recs| ==> KeyOf(recs[j]) != k || !Unresolved(recs[j])
  {
    if recs == [] then -1
    else
      var r := recs[|recs| - 1];
      if KeyOf(r) == k && Unresolved(r) then |recs| - 1
      else LastUnresolved(recs[..|recs| - 1], k)
  }

  /** recover() returns every key with an unresolved slot exactly once, described by the last
      such slot. Slots that are already resolved do not hide older unresolved ones. */
  lemma {:induction false} RecoveredMeaning(recs: seq<DiskRecord>)
    ensures Distinct(Recovered(recs))
    ensures forall k :: k in ToMap(Recovered(recs)) <==> LastUnresolved(recs, k) >= 0
    ensures forall k :: k in ToMap(Recovered(recs)) ==>
              ToMap(Recovered(recs))[k] == SurvivorOf(recs[LastUnresolved(recs, k)])
  {
    if recs != [] {
      var n := |recs| - 1;
      RecoveredMeaning(recs[..n]);
      if Unresolved(recs[n]) {
        UpsertMeaning(Recovered(recs[..n]), KeyOf(recs[n]), SurvivorOf(recs[n]));
      }
    }
  }
}

/** The crash-durable journal as the agent holds it: the bytes of the file, and the index of
    the latest slot of each key. */
module RevertJournals {
  import opened Common
  import opened Bytes
  import opened DiskRecords
  import opened KeyedLists
  import opened JournalSpec

  class RevertJournal {
    var isOpen: bool
    var file: seq<Byte>
    var index: OffsetIndex

    /** Every indexed slot lies inside the file. */
    ghost predicate Valid()
      reads this
    {
      && (!isOpen ==> index == [])
      && InBounds(index, |file|)
    }

    /** Moreover no torn bytes end the file. */
    ghost predicate Exact()
      reads this
    {
      Synced() && WholeSlots(file)
    }

    /** The index is what rebuild_index would compute; torn bytes may follow the slots. */
    ghost predicate Synced()
      reads this
    {
      isOpen && index == IndexOf(Scan(file))
    }

    ghost function Records(): seq<DiskRecord>
      reads this
    {
      Scan(file)
    }

    constructor ()
      ensures Valid() && !isOpen && file == []
    {
      isOpen, file, index := false, [], [];
    }

    /** `disk` is the content found under the path and `ok` says whether it could be opened. */
    method Open(disk: seq<Byte>, ok: bool) returns (success: bool)
      requires Valid()
      modifies this
      ensures Valid()
      ensures success == isOpen == (old(isOpen) || ok)
      ensures old(isOpen) ==> file == old(file) && index == old(index)
      ensures !old(isOpen) && ok ==> file == disk && index == IndexOf(Scan(disk))
      ensures !old(isOpen) && ok ==> Synced()
    {
      if isOpen {
        return true;
      }
      if !ok {
        return false;
      }
      isOpen, file := true, disk;
      RebuildIndex();
      success := true;
    }

    method Close()
      modifies this
      ensures Valid() && !isOpen && file == old(file)
    {
      isOpen, index := false, [];
    }

    /** fread of the slot at an offset, and the check of its magic. */
    method ReadSlot(off: nat) returns (more: bool, dr: DiskRecord)
      requires off % SLOT == 0 && off / SLOT <= |Records()|
      ensures more <==> off / SLOT < |Records()|
      ensures more ==> off + SLOT <= |file| && dr == Records()[off / SLOT]
    {
      ScanAt(file, off / SLOT);
      if off + SLOT > |file| {
        return false, Blank();
      }
      dr := Decode(file[off..off + SLOT]);
      more := dr.magic == MAGIC;
    }

    method RebuildIndex()
      requires isOpen
      modifies this`index
      ensures Valid()
      ensures index == IndexOf(Scan(file))
    {
      index := [];
      var off := 0;
      ghost var recs, k := Records(), 0;
      var more, dr := ReadSlot(off);
      while more
        invariant off == k * SLOT <= |file| && k <= |recs|
        invariant more <==> k < |recs|
        invariant more ==> dr == recs[k]
        invariant index == IndexOf(recs[..k])
        decreases |recs| - k
      {
        assert recs[..k + 1] == recs[..k] + [dr];
        IndexAppend(recs[..k], dr);
        index := UpsertInPlace(index, RevertKey(dr.pid, dr.creationTime), off);
        off, k := off + SLOT, k + 1;
        SlotNumber(off, k);
        more, dr := ReadSlot(off);
      }
      assert recs[..k] == recs;
      IndexInBounds(Scan(file));
    }

    /** The offset of the key's latest slot: from the index, else by scanning the file. */
    method FindOffset(key: RevertKey) returns (off: int)
      requires Valid() && (isOpen || index == [])
      ensures off == -1 || (0 <= off && off + SLOT <= |file|)
      ensures !isOpen ==> off == -1
      ensures Synced() ==> off == LastMatch(Records(), key)
    {
      for i := 0 to |index|
        invariant forall j :: 0 <= j < i ==> index[j].key != key
      {
        if index[i].key == key {
          if Synced() {
            IndexMeaning(Records());
            ToMapAt(index, i);
          }
          assert index[i] in index;
          return index[i].value;
        }
      }
      if Synced() {
        IndexMeaning(Records());
        ToMapAbsent(index, key);
      }
      if !isOpen {
        return -1;
      }
      off := ScanForKey(key);
    }

    method ScanForKey(key: RevertKey) returns (hit: int)
      ensures hit == LastMatch(Records(), key)
      ensures hit == -1 || (0 <= hit && hit + SLOT <= |file|)
    {
      var off := 0;
      hit := -1;
      ghost var recs, k := Records(), 0;
      var more, dr := ReadSlot(off);
      while more
        invariant off == k * SLOT <= |file| && k <= |recs|
        invariant more <==> k < |recs|
        invariant more ==> dr == recs[k]
        invariant hit == LastMatch(recs[..k], key)
        invariant hit == -1 || 0 <= hit <= off - SLOT
        decreases |recs| - k
      {
        assert recs[..k + 1] == recs[..k] + [dr];
        LastMatchAppend(recs[..k], dr, key);
        if dr.pid == key.pid && dr.creationTime == key.creationTime {
          hit := off;
        }
        off, k := off + SLOT, k + 1;
        SlotNumber(off, k);
        more, dr := ReadSlot(off);
      }
      assert recs[..k] == recs;
    }

    /** `written` bytes of the slot reach the file: fewer than 112 when the write fails, or when
        the machine stops in the middle of it. */
    method AppendRecord(dr: DiskRecord, written: nat) returns (off: int)
      requires isOpen && dr.magic == MAGIC && written <= SLOT
      modifies this`file
      ensures file == old(file) + Encode(dr)[..written]
      ensures off == if written < SLOT then -1 else |old(file)|
      ensures WholeSlots(old(file)) && written < SLOT ==> Scan(file) == Scan(old(file))
      ensures WholeSlots(old(file)) && written == SLOT ==>
                WholeSlots(file) && Scan(file) == Scan(old(file)) + [dr]
    {
      if WholeSlots(file) {
        AppendWhole(file, dr);
        if written < SLOT {
          TornAppend(file, dr, written);
        }
      }
      off := if written < SLOT then -1 else |file|;
      assert written == SLOT ==> Encode(dr)[..written] == Encode(dr);
      file := file + Encode(dr)[..written];
    }

    /** Write a PENDING slot ahead of the Set; `written` as in AppendRecord. */
    method RecordPending(pid: U32, exeName: seq<Byte>, creationTime: U64, prevMask: U64, newMask: U64,
                         wallTimeMs: U64, written: nat)
      requires Valid() && written <= SLOT
      modifies this
      ensures Valid() && isOpen == old(isOpen)
      ensures !isOpen ==> file == old(file) && index == old(index)
      ensures isOpen ==>
                file == old(file) + Encode(PendingRecord(pid, exeName, creationTime, prevMask, newMask, wallTimeMs))[..written]
      ensures isOpen ==>
                index == if written < SLOT then old(index)
                         else Upsert(old(index), RevertKey(pid, creationTime), |old(file)|)
      ensures old(Exact()) && written == SLOT ==>
                && Exact()
                && Records() == old(Records()) + [PendingRecord(pid, exeName, creationTime, prevMask, newMask, wallTimeMs)]
      ensures old(Exact()) && written < SLOT ==> Records() == old(Records())
    {
      if !isOpen {
        return;
      }
      var dr := PendingRecord(pid, exeName, creationTime, prevMask, newMask, wallTimeMs);
      IndexAppend(Records(), dr);
      var off := AppendRecord(dr, written);
      if off < 0 {
        return;
      }
      UpsertBounded(index, RevertKey(pid, creationTime), off, |file|);
      index := UpsertInPlace(index, RevertKey(pid, creationTime), off);
    }

    /** Flip the key's latest slot in place; nothing happens when there is no such slot. */
    method SetStatus(key: RevertKey, to: U32)
      requires Valid()
      modifies this`file
      ensures Valid() && |file| == |old(file)|
      ensures !isOpen ==> file == old(file)
      ensures old(Synced()) ==> Synced() && Records() == Flip(old(Records()), key, to)
      ensures old(Exact()) ==> Exact()
    {
      if !isOpen {
        return;
      }
      var off := FindOffset(key);
      if off < 0 {
        return;
      }
      if Synced() {
        FlipSeen(file, LastSlot(Records(), key), to);
        SameKeysSameIndex(Records(), Flip(Records(), key, to));
      }
      file := Patch(file, off + 4, Le(to, 4));
    }

    method MarkApplied(key: RevertKey)
      requires Valid()
      modifies this`file
      ensures Valid() && |file| == |old(file)|
      ensures !isOpen ==> file == old(file)
      ensures old(Synced()) ==> Synced() && Records() == Flip(old(Records()), key, APPLIED)
      ensures old(Exact()) ==> Exact()
    {
      SetStatus(key, APPLIED);
    }

    method MarkReverted(key: RevertKey)
      requires Valid()
      modifies this`file
      ensures Valid() && |file| == |old(file)|
      ensures !isOpen ==> file == old(file)
      ensures old(Synced()) ==> Synced() && Records() == Flip(old(Records()), key, REVERTED)
      ensures old(Exact()) ==> Exact()
    {
      SetStatus(key, REVERTED);
    }

    /** Every surviving PENDING or APPLIED record, one per key. No condition on the file's tail. */
    method Recover() returns (out: seq<RevertRecord>)
      ensures out == if isOpen then Recovered(Records()) else []
    {
      out := [];
      if !isOpen {
        return;
      }
      var off := 0;
      ghost var recs, k := Records(), 0;
      var more, dr := ReadSlot(off);
      while more
        invariant off == k * SLOT <= |file| && k <= |recs|
        invariant more <==> k < |recs|
        invariant more ==> dr == recs[k]
        invariant out == Recovered(recs[..k])
        decreases |recs| - k
      {
        assert recs[..k + 1] == recs[..k] + [dr];
        RecoveredAppend(recs[..k], dr);
        off, k := off + SLOT, k + 1;
        if dr.status == PENDING || dr.status == APPLIED {
          out := UpsertInPlace(out, RevertKey(dr.pid, dr.creationTime), SurvivorOf(dr));
        }
        SlotNumber(off, k);
        more, dr := ReadSlot(off);
      }
      assert recs[..k] == recs;
    }
  }

  lemma SlotNumber(off: nat, k: nat)
    requires off == k * SLOT
    ensures off % SLOT == 0 && off / SLOT == k
  {
  }

  // ---- Loop steps --------------------------------------------------------

  lemma {:induction false} IndexInBounds(recs: seq<DiskRecord>)
    ensures InBounds(IndexOf(recs), |recs| * SLOT)
  {
    if recs != [] {
      var n := |recs| - 1;
      IndexInBounds(recs[..n]);
      UpsertBounded(IndexOf(recs[..n]), KeyOf(recs[n]), n * SLOT, |recs| * SLOT);
    }
  }

  predicate InBounds(s: OffsetIndex, bound: nat) {
    forall e <- s :: 0 <= e.value && e.value + SLOT <= bound
  }

  lemma {:induction false} UpsertBounded(s: OffsetIndex, k: RevertKey, off: int, bound: nat)
    requires 0 <= off && off + SLOT <= bound
    requires InBounds(s, bound)
    ensures InBounds(Upsert(s, k, off), bound)
  {
    if s != [] && s[0].key != k {
      UpsertBounded(s[1..], k, off, bound);
    }
  }
}
