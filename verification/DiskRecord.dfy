/** The 112-byte slot of the revert journal, its byte image, and the scan that every
    reader of the file performs. */
module DiskRecords {
  import opened Common
  import opened Bytes

  const MAGIC: U32 := 0x314A5250
  const SLOT := 112

  // RevertStatus
  const PENDING: U32 := 1
  const APPLIED: U32 := 2
  const REVERTED: U32 := 3

  type CharArray64 = a: seq<Byte> | |a| == 64 witness seq(64, _ => 0)

  datatype DiskRecord = DiskRecord(
    magic: U32,
    status: U32,
    pid: U32,
    pad0: U32,
    creationTime: U64,
    prevMask: U64,
    newMask: U64,
    wallTimeMs: U64,
    exeName: CharArray64
  )

  /** What record_pending fills in. */
  function PendingRecord(pid: U32, exeName: seq<Byte>, creationTime: U64, prevMask: U64, newMask: U64,
                         wallTimeMs: U64): DiskRecord
  {
    DiskRecord(MAGIC, PENDING, pid, 0, creationTime, prevMask, newMask, wallTimeMs, CopyStr64(exeName))
  }

  datatype RevertKey = RevertKey(pid: U32, creationTime: U64)

  function KeyOf(r: DiskRecord): RevertKey {
    RevertKey(r.pid, r.creationTime)
  }

  /** recover() keeps exactly these. */
  predicate Unresolved(r: DiskRecord) {
    r.status == PENDING || r.status == APPLIED
  }

  // ---- C strings ---------------------------------------------------------

  /** The characters before the first NUL, at most `limit` of them: what copy_str copies. */
  function CStr(s: seq<Byte>, limit: nat): (t: seq<Byte>)
    ensures |t| <= limit && t <= s && 0 !in t
    ensures |t| < limit ==> |t| == |s| || s[|t|] == 0
  {
    if limit == 0 || s == [] || s[0] == 0 then []
    else
      var t := [s[0]] + CStr(s[1..], limit - 1);
      t
  }

  /** copy_str into a zeroed char[64]. */
  function CopyStr64(s: seq<Byte>): (a: CharArray64)
  {
    var t := CStr(s, 63);
    t + seq(64 - |t|, _ => 0)
  }

  /** What a reader of the array gets back is the name truncated to 63 characters. */
  lemma {:induction false} CopyStrReadBack(s: seq<Byte>)
    ensures CStr(CopyStr64(s), 63) == CStr(s, 63)
  {
    CStrStops(CStr(s, 63), seq(64 - |CStr(s, 63)|, _ => 0), 63);
  }

  lemma {:induction false} CStrStops(t: seq<Byte>, zeros: seq<Byte>, limit: nat)
    requires 0 !in t && |t| <= limit
    requires zeros != [] && zeros[0] == 0
    ensures CStr(t + zeros, limit) == t
  {
    if t == [] {
      assert t + zeros == zeros;
    } else {
      assert (t + zeros)[1..] == t[1..] + zeros;
      CStrStops(t[1..], zeros, limit - 1);
    }
  }

  // ---- The byte image ----------------------------------------------------

  function Encode(r: DiskRecord): (s: seq<Byte>)
    ensures |s| == SLOT
  {
    Le(r.magic, 4) + Le(r.status, 4) + EncodeBody(r)
  }

  /** Everything behind the status field. */
  function EncodeBody(r: DiskRecord): (s: seq<Byte>)
    ensures |s| == SLOT - 8
  {
    Le(r.pid, 4) + Le(r.pad0, 4) + Le(r.creationTime, 8) + Le(r.prevMask, 8) +
    Le(r.newMask, 8) + Le(r.wallTimeMs, 8) + r.exeName
  }

  function Decode(s: seq<Byte>): DiskRecord
    requires |s| == SLOT
  {
    DiskRecord(Get32(s[0..4]), Get32(s[4..8]), Get32(s[8..12]), Get32(s[12..16]),
               Get64(s[16..24]), Get64(s[24..32]), Get64(s[32..40]), Get64(s[40..48]),
               s[48..112])
  }

  lemma BodyFields(r: DiskRecord)
    ensures EncodeBody(r)[0..4] == Le(r.pid, 4) && EncodeBody(r)[4..8] == Le(r.pad0, 4)
    ensures EncodeBody(r)[8..16] == Le(r.creationTime, 8) && EncodeBody(r)[16..24] == Le(r.prevMask, 8)
    ensures EncodeBody(r)[24..32] == Le(r.newMask, 8) && EncodeBody(r)[32..40] == Le(r.wallTimeMs, 8)
    ensures EncodeBody(r)[40..104] == r.exeName
  {
  }

  lemma EncodeFields(r: DiskRecord)
    ensures Encode(r)[0..4] == Le(r.magic, 4) && Encode(r)[4..8] == Le(r.status, 4)
    ensures Encode(r)[8..] == EncodeBody(r)
    ensures forall i, j :: 8 <= i <= j <= SLOT ==> Encode(r)[i..j] == EncodeBody(r)[i - 8..j - 8]
  {
  }

  lemma DecodeEncode(r: DiskRecord)
    ensures Decode(Encode(r)) == r
  {
    EncodeFields(r);
    BodyFields(r);
    Put32(r.magic); Put32(r.status); Put32(r.pid); Put32(r.pad0);
    Put64(r.creationTime); Put64(r.prevMask); Put64(r.newMask); Put64(r.wallTimeMs);
  }

  /** Where each field is in a slot, and that its least significant byte comes first. */
  lemma Layout(r: DiskRecord)
    ensures var e := Encode(r);
            && Word(e, 0) == r.magic && Word(e, 4) == r.status && Word(e, 8) == r.pid && Word(e, 12) == r.pad0
            && DoubleWord(e, 16) == r.creationTime && DoubleWord(e, 24) == r.prevMask
            && DoubleWord(e, 32) == r.newMask && DoubleWord(e, 40) == r.wallTimeMs
            && forall i :: 0 <= i < 64 ==> e[48 + i] == r.exeName[i]
  {
    hide Word, DoubleWord, Get32, Get64, Encode;
    var e := Encode(r);
    DecodeEncode(r);
    WordIs(e, 0); WordIs(e, 4); WordIs(e, 8); WordIs(e, 12);
    DoubleWordIs(e, 16); DoubleWordIs(e, 24); DoubleWordIs(e, 32); DoubleWordIs(e, 40);
    assert forall i :: 0 <= i < 64 ==> e[48..112][i] == e[48 + i];
  }

  /** Every 112-byte string is the image of exactly one record, so no slot is ambiguous. */
  lemma EncodeDecode(s: seq<Byte>)
    requires |s| == SLOT
    ensures Encode(Decode(s)) == s
  {
    BodyDecode(s);
    FromLeRoundTrip(s[0..4]);
    FromLeRoundTrip(s[4..8]);
    assert s == s[0..4] + s[4..8] + s[8..];
  }

  lemma BodyDecode(s: seq<Byte>)
    requires |s| == SLOT
    ensures EncodeBody(Decode(s)) == s[8..]
  {
    FromLeRoundTrip(s[8..12]); FromLeRoundTrip(s[12..16]);
    FromLeRoundTrip(s[16..24]); FromLeRoundTrip(s[24..32]);
    FromLeRoundTrip(s[32..40]); FromLeRoundTrip(s[40..48]);
    SplitBody(s);
  }

  lemma SplitBody(s: seq<Byte>)
    requires |s| == SLOT
    ensures s[8..] == s[8..12] + s[12..16] + s[16..24] + s[24..32] + s[32..40] + s[40..48] + s[48..112]
  {
  }

  /** fseek + fwrite: overwrite |v| bytes at offset `at`. */
  function Patch(file: seq<Byte>, at: nat, v: seq<Byte>): (s: seq<Byte>)
    requires at + |v| <= |file|
    ensures |s| == |file|
  {
    file[..at] + v + file[at + |v|..]
  }

  lemma PatchStatus(r: DiskRecord, v: U32)
    ensures Patch(Encode(r), 4, Le(v, 4)) == Encode(r.(status := v))
  {
    assert EncodeBody(r.(status := v)) == EncodeBody(r);
    PatchInside(Le(r.magic, 4), Le(r.status, 4), EncodeBody(r), 0, Le(v, 4));
    assert Patch(Le(r.status, 4), 0, Le(v, 4)) == Le(v, 4);
  }

  lemma PatchInside(a: seq<Byte>, b: seq<Byte>, c: seq<Byte>, at: nat, v: seq<Byte>)
    requires at + |v| <= |b|
    ensures Patch(a + b + c, |a| + at, v) == a + Patch(b, at, v) + c
  {
  }

  // ---- The file ----------------------------------------------------------

  /** The records a reader sees: whole slots from the front, up to the first one whose
      magic is wrong or the end of the file. */
  function Scan(file: seq<Byte>): (recs: seq<DiskRecord>)
    ensures |recs| * SLOT <= |file|
    decreases |file|
  {
    if |file| < SLOT then []
    else
      var r := Decode(file[..SLOT]);
      if r.magic != MAGIC then [] else [r] + Scan(file[SLOT..])
  }

  predicate AllMagic(recs: seq<DiskRecord>) {
    forall r <- recs :: r.magic == MAGIC
  }

  /** Slot by slot: where the k-th record lies, and why there is none after the last. */
  lemma {:induction false} ScanAt(file: seq<Byte>, k: nat)
    requires k <= |Scan(file)|
    ensures k < |Scan(file)| ==>
              && (k + 1) * SLOT <= |file|
              && Decode(file[k * SLOT..(k + 1) * SLOT]) == Scan(file)[k]
              && Scan(file)[k].magic == MAGIC
    ensures k == |Scan(file)| && (k + 1) * SLOT <= |file| ==>
              Decode(file[k * SLOT..(k + 1) * SLOT]).magic != MAGIC
  {
    hide Decode;
    if k > 0 {
      ScanAt(file[SLOT..], k - 1);
      if (k + 1) * SLOT <= |file| {
        SliceOfRest(file, (k - 1) * SLOT);
      }
    }
  }

  lemma SliceOfRest(file: seq<Byte>, at: nat)
    requires at + 2 * SLOT <= |file|
    ensures file[SLOT..][at..at + SLOT] == file[at + SLOT..at + 2 * SLOT]
  {
  }

  lemma {:induction false} ScanMagic(file: seq<Byte>)
    ensures AllMagic(Scan(file))
    decreases |file|
  {
    if |file| >= SLOT {
      ScanMagic(file[SLOT..]);
    }
  }

  function EncodeAll(recs: seq<DiskRecord>): (s: seq<Byte>)
    ensures |s| == |recs| * SLOT
  {
    if recs == [] then [] else Encode(recs[0]) + EncodeAll(recs[1..])
  }

  /** Bytes at which every reader stops: less than a slot, or a slot with a wrong magic. */
  predicate StopsReader(tail: seq<Byte>) {
    |tail| < SLOT || Get32(tail[0..4]) != MAGIC
  }

  lemma ScanCons(r: DiskRecord, rest: seq<Byte>)
    requires r.magic == MAGIC
    ensures Scan(Encode(r) + rest) == [r] + Scan(rest)
  {
    var e := Encode(r);
    assert (e + rest)[..SLOT] == e && (e + rest)[SLOT..] == rest;
    DecodeEncode(r);
  }

  lemma ScanStops(tail: seq<Byte>)
    requires StopsReader(tail)
    ensures Scan(tail) == []
  {
    if |tail| >= SLOT {
      assert tail[..SLOT][0..4] == tail[0..4];
    }
  }

  lemma {:induction false} ScanPrefix(recs: seq<DiskRecord>, rest: seq<Byte>)
    requires AllMagic(recs)
    ensures Scan(EncodeAll(recs) + rest) == recs + Scan(rest)
  {
    if recs == [] {
      assert EncodeAll(recs) + rest == rest;
    } else {
      var r, more := recs[0], recs[1..];
      var e, b := Encode(r), EncodeAll(more);
      ScanPrefix(more, rest);
      calc {
        Scan(EncodeAll(recs) + rest);
        { AddAssociates(e, b, rest); }
        Scan(e + (b + rest));
        { ScanCons(r, b + rest); }
        [r] + (more + Scan(rest));
        { AddAssociates([r], more, Scan(rest)); assert [r] + more == recs; }
        recs + Scan(rest);
      }
    }
  }

  lemma AddAssociates<T>(a: seq<T>, b: seq<T>, c: seq<T>)
    ensures a + (b + c) == a + b + c
  {
  }

  lemma ScanEncoded(recs: seq<DiskRecord>, tail: seq<Byte>)
    requires AllMagic(recs) && StopsReader(tail)
    ensures Scan(EncodeAll(recs) + tail) == recs
  {
    ScanPrefix(recs, tail);
    ScanStops(tail);
  }

  /** The part of the file behind the records that a reader sees. */
  function TailOf(file: seq<Byte>): seq<Byte> {
    file[|Scan(file)| * SLOT..]
  }

  lemma {:induction false} ScanSplits(file: seq<Byte>)
    ensures file == EncodeAll(Scan(file)) + TailOf(file)
    ensures StopsReader(TailOf(file))
    decreases |file|
  {
    if |file| < SLOT {
    } else if Decode(file[..SLOT]).magic != MAGIC {
      assert file[..SLOT][0..4] == file[0..4];
    } else {
      var rest := file[SLOT..];
      ScanSplits(rest);
      EncodeDecode(file[..SLOT]);
      assert Scan(file)[1..] == Scan(rest);
      assert file == file[..SLOT] + rest;
      assert TailOf(file) == TailOf(rest);
    }
  }

  lemma {:induction false} EncodeAllAppend(a: seq<DiskRecord>, b: seq<DiskRecord>)
    ensures EncodeAll(a + b) == EncodeAll(a) + EncodeAll(b)
  {
    if a == [] {
      assert a + b == b;
    } else {
      assert (a + b)[1..] == a[1..] + b;
      EncodeAllAppend(a[1..], b);
    }
  }

  lemma EncodeAllHead(recs: seq<DiskRecord>)
    requires recs != []
    ensures EncodeAll(recs) == Encode(recs[0]) + EncodeAll(recs[1..])
  {
  }

  lemma EncodeAllSplit(recs: seq<DiskRecord>, i: nat)
    requires i < |recs|
    ensures EncodeAll(recs) == EncodeAll(recs[..i]) + Encode(recs[i]) + EncodeAll(recs[i + 1..])
  {
    hide Encode, EncodeAll;
    var front, back := recs[..i], recs[i..];
    assert recs == front + back && back[0] == recs[i] && back[1..] == recs[i + 1..];
    EncodeAllAppend(front, back);
    EncodeAllHead(back);
    AddAssociates(EncodeAll(front), Encode(recs[i]), EncodeAll(recs[i + 1..]));
  }

  /** The in-place flip of set_status changes the status of one slot and nothing else,
      neither in the other slots nor in what follows them. */
  lemma FlipIsOneField(recs: seq<DiskRecord>, tail: seq<Byte>, i: nat, v: U32)
    requires i < |recs|
    ensures Patch(EncodeAll(recs) + tail, i * SLOT + 4, Le(v, 4))
         == EncodeAll(recs[i := recs[i].(status := v)]) + tail
  {
    hide Encode, Patch;
    var recs' := recs[i := recs[i].(status := v)];
    EncodeAllSplit(recs, i);
    EncodeAllSplit(recs', i);
    assert recs'[..i] == recs[..i] && recs'[i + 1..] == recs[i + 1..];
    PatchStatus(recs[i], v);
    PatchInside(EncodeAll(recs[..i]), Encode(recs[i]), EncodeAll(recs[i + 1..]) + tail, 4, Le(v, 4));
    assert EncodeAll(recs) + tail
        == EncodeAll(recs[..i]) + Encode(recs[i]) + (EncodeAll(recs[i + 1..]) + tail);
  }

  /** The same in terms of what readers see, whatever follows the readable slots. */
  lemma FlipSeen(file: seq<Byte>, i: nat, v: U32)
    requires i < |Scan(file)|
    ensures Scan(Patch(file, i * SLOT + 4, Le(v, 4))) == Scan(file)[i := Scan(file)[i].(status := v)]
  {
    var recs := Scan(file);
    ScanSplits(file);
    ScanMagic(file);
    FlipIsOneField(recs, TailOf(file), i, v);
    ScanEncoded(recs[i := recs[i].(status := v)], TailOf(file));
  }

  // ---- Appending ---------------------------------------------------------

  /** No bytes follow the readable slots. */
  predicate WholeSlots(file: seq<Byte>) {
    |Scan(file)| * SLOT == |file|
  }

  lemma EncodeAllLast(recs: seq<DiskRecord>, r: DiskRecord)
    ensures EncodeAll(recs + [r]) == EncodeAll(recs) + Encode(r)
  {
    EncodeAllAppend(recs, [r]);
    EncodeAllHead([r]);
    assert Encode(r) + [] == Encode(r);
  }

  lemma WholeIsEncoded(file: seq<Byte>)
    requires WholeSlots(file)
    ensures file == EncodeAll(Scan(file)) && AllMagic(Scan(file))
  {
    ScanSplits(file);
    ScanMagic(file);
    assert EncodeAll(Scan(file)) + [] == EncodeAll(Scan(file));
  }

  lemma AppendWhole(file: seq<Byte>, r: DiskRecord)
    requires WholeSlots(file) && r.magic == MAGIC
    ensures Scan(file + Encode(r)) == Scan(file) + [r]
    ensures WholeSlots(file + Encode(r))
  {
    hide Scan, Encode;
    var recs := Scan(file);
    WholeIsEncoded(file);
    EncodeAllLast(recs, r);
    ScanEncoded(recs + [r], []);
    assert file + Encode(r) + [] == file + Encode(r);
  }

  /** A crash in the middle of an append: the torn slot is invisible to every reader. */
  lemma TornAppend(file: seq<Byte>, r: DiskRecord, k: nat)
    requires WholeSlots(file) && k < SLOT
    ensures Scan(file + Encode(r)[..k]) == Scan(file)
  {
    WholeIsEncoded(file);
    ScanEncoded(Scan(file), Encode(r)[..k]);
  }

  /** The file is not truncated when it is opened, so appending is safe exactly on files of
      whole slots: behind any other tail some record is written but never read back. */
  lemma AppendVisibleIffWhole(file: seq<Byte>)
    ensures WholeSlots(file) <==>
            forall r: DiskRecord :: r.magic == MAGIC ==> Scan(file + Encode(r)) == Scan(file) + [r]
  {
    if WholeSlots(file) {
      forall r: DiskRecord | r.magic == MAGIC
        ensures Scan(file + Encode(r)) == Scan(file) + [r]
      {
        AppendWhole(file, r);
      }
    } else {
      var r := LostRecord(file);
    }
  }

  /** Seen behind a tail, a blank record would have to repeat its own first byte inside itself. */
  lemma LostRecord(file: seq<Byte>) returns (r: DiskRecord)
    requires !WholeSlots(file)
    ensures r.magic == MAGIC && Scan(file + Encode(r)) != Scan(file) + [r]
  {
    r := Blank();
    var recs, tail, e := Scan(file), TailOf(file), Encode(r);
    ScanSplits(file);
    ScanMagic(file);
    AddAssociates(EncodeAll(recs), tail, e);
    ScanPrefix(recs, tail + e);
    BehindTail(tail);
    ConcatCancels(recs, Scan(tail + e), [r]);
  }

  lemma ConcatCancels(a: seq<DiskRecord>, b: seq<DiskRecord>, c: seq<DiskRecord>)
    ensures a + b == a + c ==> b == c
  {
    assert (a + b)[|a|..] == b && (a + c)[|a|..] == c;
  }

  function Blank(): DiskRecord {
    DiskRecord(MAGIC, PENDING, 0, 0, 0, 0, 0, 0, seq(64, _ => 0))
  }

  lemma BehindTail(tail: seq<Byte>)
    requires tail != [] && StopsReader(tail)
    ensures Scan(tail + Encode(Blank())) != [Blank()]
  {
    var e := Encode(Blank());
    if |tail| >= SLOT {
      assert (tail + e)[0..4] == tail[0..4];
      ScanStops(tail + e);
    } else {
      var slot := (tail + e)[..SLOT];
      BlankBytes(|tail|);
      assert slot[|tail|] == e[0];
      EncodeDecode(slot);
      assert Encode(Decode(slot)) != e;
      assert Scan(tail + e) == [] || Scan(tail + e)[0] == Decode(slot);
    }
  }

  lemma BlankBytes(i: nat)
    requires 0 < i < SLOT
    ensures Encode(Blank())[i] != Encode(Blank())[0]
  {
    var r := Blank();
    assert Le(MAGIC, 4) == [0x50, 0x52, 0x4A, 0x31];
    assert Le(PENDING, 4) == [1, 0, 0, 0];
    assert Le(0, 4) == [0, 0, 0, 0];
    assert Le(0, 8) == [0, 0, 0, 0, 0, 0, 0, 0];
    BodyFields(r);
    assert EncodeBody(r) == seq(104, _ => 0);
    assert i >= 8 ==> Encode(r)[i] == EncodeBody(r)[i - 8];
  }
}
