/** The anti-cheat gate: the verdicts of the per-game memory, and the probe that opens a game's process
    at most once per identity. */
module AcProbes {
  import opened Common
  import opened GregorianDays
  import opened AcOracles

  // ---- The memory --------------------------------------------------------

  datatype Label = NeverProbed | LabelAllowed | LabelBlocked

  datatype LearnedEntry = LearnedEntry(
    exe: string,
    hardwareId: string,
    bestAction: string,
    bestCoreMask: U64,
    sampleCount: nat,
    lastValidated: string,
    userLocked: bool,
    verdict: Label)

  const MAX_ENTRIES := 256
  const EXE_FIELD := 64
  const HARDWARE_FIELD := 32

  datatype Memory = Memory(entries: seq<LearnedEntry>, hardwareId: string)

  predicate IsKeyed(e: LearnedEntry, exe: string, hardwareId: string) {
    SameText(e.exe, exe) && e.hardwareId == hardwareId
  }

  /** The first entry with a key, or the length. */
  function FindKey(entries: seq<LearnedEntry>, exe: string, hardwareId: string): (i: nat)
    ensures i <= |entries| && (i < |entries| ==> IsKeyed(entries[i], exe, hardwareId))
    ensures forall j :: 0 <= j < i ==> !IsKeyed(entries[j], exe, hardwareId)
  {
    if entries == [] || IsKeyed(entries[0], exe, hardwareId) then 0 else 1 + FindKey(entries[1..], exe, hardwareId)
  }

  function Upsert(m: Memory, e: LearnedEntry): Memory {
    var i := FindKey(m.entries, e.exe, e.hardwareId);
    if i < |m.entries| then m.(entries := m.entries[i := e])
    else if |m.entries| < MAX_ENTRIES then m.(entries := m.entries + [e])
    else m
  }

  /** A copy into a field of `size` characters. */
  function Fitted(s: string, size: nat): string
    requires size > 0
  {
    if |s| < size then s else s[..size - 1]
  }

  /** set_label: stamps an existing entry, or adds one that holds only the verdict. */
  function SetLabel(m: Memory, exe: string, verdict: Label): Memory {
    if exe == "" then m
    else
      var i := FindKey(m.entries, exe, m.hardwareId);
      if i < |m.entries| then m.(entries := m.entries[i := m.entries[i].(verdict := verdict)])
      else Upsert(m, LearnedEntry(Fitted(exe, EXE_FIELD), Fitted(m.hardwareId, HARDWARE_FIELD), "", 0, 0, "", false, verdict))
  }

  function LabelOf(m: Memory, exe: string): Label {
    var i := FindKey(m.entries, exe, m.hardwareId);
    if exe == "" || i == |m.entries| then NeverProbed else m.entries[i].verdict
  }

  function Expired(e: LearnedEntry, today: Date, maxAgeDays: nat): LearnedEntry
    requires IsDate(today) && maxAgeDays < 0x1_0000_0000
  {
    if e.exe == "" || !NeedsRevalidation(e.userLocked, e.sampleCount, e.bestAction, e.lastValidated, today, maxAgeDays) then e
    else e.(bestAction := "", bestCoreMask := 0, sampleCount := 0, lastValidated := "")
  }

  function ExpireAll(entries: seq<LearnedEntry>, today: Date, maxAgeDays: nat): (out: seq<LearnedEntry>)
    requires IsDate(today) && maxAgeDays < 0x1_0000_0000
    ensures |out| == |entries|
  {
    seq(|entries|, i requires 0 <= i < |entries| => Expired(entries[i], today, maxAgeDays))
  }

  // ---- The probe ---------------------------------------------------------

  datatype ProbeResult = RefusedDoNotProbe | AlreadyBlocked | AlreadyAllowed | Allowed | Blocked

  /** What the box and the process answer: running drivers and services, and whether the open, the read
      of the mask and the no-op set succeed. */
  datatype Answers = Answers(drivers: seq<string>, services: seq<string>, openOk: bool, readOk: bool, setOk: bool)

  /** An audit row ACOPEN is one OpenProcess attempt. */
  datatype AuditRow = AcOpen(pid: nat) | AcProbe(pid: nat, success: bool)

  /** Whether a probe opens the process. */
  predicate Opens(m: Memory, exe: string, a: Answers) {
    LabelOf(m, exe) == NeverProbed && ProbeAllowed(Decide(exe, a.drivers, a.services))
  }

  function Verdict(a: Answers): Label {
    if a.openOk && a.readOk && a.setOk then LabelAllowed else LabelBlocked
  }

  /** What a probe reports. */
  function Outcome(m: Memory, exe: string, a: Answers): ProbeResult {
    match LabelOf(m, exe)
    case LabelBlocked => AlreadyBlocked
    case LabelAllowed => AlreadyAllowed
    case NeverProbed =>
      if !ProbeAllowed(Decide(exe, a.drivers, a.services)) then RefusedDoNotProbe
      else if Verdict(a) == LabelAllowed then Allowed else Blocked
  }

  /** The agent places nothing on a process after such a result. */
  predicate Refuses(r: ProbeResult) {
    r == RefusedDoNotProbe || r == Blocked || r == AlreadyBlocked
  }

  function AfterProbe(m: Memory, exe: string, a: Answers): Memory {
    if Opens(m, exe, a) then SetLabel(m, exe, Verdict(a)) else m
  }

  datatype Event = DoProbe(exe: string, answers: Answers) | DoExpire(today: Date, maxAgeDays: nat)

  predicate Proper(e: Event) {
    e.DoExpire? ==> IsDate(e.today) && e.maxAgeDays < 0x1_0000_0000
  }

  function After(m: Memory, e: Event): Memory
    requires Proper(e)
  {
    match e
    case DoProbe(exe, a) => AfterProbe(m, exe, a)
    case DoExpire(today, days) => m.(entries := ExpireAll(m.entries, today, days))
  }

  predicate AllProper(es: seq<Event>) {
    forall i :: 0 <= i < |es| ==> Proper(es[i])
  }

  function AfterAll(m: Memory, es: seq<Event>): Memory
    requires AllProper(es)
    decreases |es|
  {
    if es == [] then m else AfterAll(After(m, es[0]), es[1..])
  }

  /** Opens a process under this identity. */
  predicate OpensFor(m: Memory, e: Event, exe: string) {
    e.DoProbe? && SameText(e.exe, exe) && Opens(m, e.exe, e.answers)
  }

  function OpenCount(m: Memory, es: seq<Event>, exe: string): nat
    requires AllProper(es)
    decreases |es|
  {
    if es == [] then 0
    else (if OpensFor(m, es[0], exe) then 1 else 0) + OpenCount(After(m, es[0]), es[1..], exe)
  }

  // ---- Labels ------------------------------------------------------------

  /** Lookups depend on the name only up to case, and on the keys only. */
  lemma {:induction false} FindKeySame(a: seq<LearnedEntry>, b: seq<LearnedEntry>, x: string, y: string, hw: string)
    requires SameText(x, y) && |a| == |b|
    requires forall i :: 0 <= i < |a| ==> a[i].exe == b[i].exe && a[i].hardwareId == b[i].hardwareId
    ensures FindKey(a, x, hw) == FindKey(b, y, hw)
  {
    if a != [] {
      SameTextIsEquivalence(a[0].exe, x, y);
      SameTextIsEquivalence(a[0].exe, y, x);
      SameTextIsEquivalence(x, y, x);
      FindKeySame(a[1..], b[1..], x, y, hw);
    }
  }

  lemma LabelIgnoresCase(m: Memory, x: string, y: string)
    requires SameText(x, y)
    ensures LabelOf(m, x) == LabelOf(m, y)
  {
    FindKeySame(m.entries, m.entries, x, y, m.hardwareId);
  }

  lemma ExpiryKeepsLabels(m: Memory, today: Date, days: nat, exe: string)
    requires IsDate(today) && days < 0x1_0000_0000
    ensures LabelOf(m.(entries := ExpireAll(m.entries, today, days)), exe) == LabelOf(m, exe)
  {
    SameTextIsEquivalence(exe, exe, exe);
    FindKeySame(m.entries, ExpireAll(m.entries, today, days), exe, exe, m.hardwareId);
  }

  lemma {:induction false} FindKeyAppend(entries: seq<LearnedEntry>, e: LearnedEntry, exe: string, hw: string)
    ensures FindKey(entries + [e], exe, hw) == if FindKey(entries, exe, hw) < |entries| then FindKey(entries, exe, hw)
                                               else if IsKeyed(e, exe, hw) then |entries| else |entries| + 1
  {
    if entries != [] {
      assert (entries + [e])[1..] == entries[1..] + [e];
      FindKeyAppend(entries[1..], e, exe, hw);
    }
  }

  /** Where the verdict for a name has a place: its entry, or a new one that its key fits into. */
  predicate Storable(m: Memory, exe: string) {
    exe != "" &&
    (FindKey(m.entries, exe, m.hardwareId) < |m.entries| ||
     (|m.entries| < MAX_ENTRIES && |exe| < EXE_FIELD && |m.hardwareId| < HARDWARE_FIELD))
  }

  lemma StampedKey(m: Memory, exe: string, verdict: Label)
    requires exe != "" && FindKey(m.entries, exe, m.hardwareId) < |m.entries|
    ensures LabelOf(SetLabel(m, exe, verdict), exe) == verdict
  {
    SameTextIsEquivalence(exe, exe, exe);
    FindKeySame(m.entries, SetLabel(m, exe, verdict).entries, exe, exe, m.hardwareId);
  }

  lemma {:induction false} SameKeyedAt(entries: seq<LearnedEntry>, i: nat, e: LearnedEntry, exe: string, hw: string)
    requires i < |entries| && (IsKeyed(entries[i], exe, hw) <==> IsKeyed(e, exe, hw))
    ensures FindKey(entries[i := e], exe, hw) == FindKey(entries, exe, hw)
  {
    if i == 0 {
      assert entries[i := e][1..] == entries[1..];
    } else {
      assert entries[i := e][1..] == entries[1..][i - 1 := e];
      SameKeyedAt(entries[1..], i - 1, e, exe, hw);
    }
  }

  lemma NewKey(m: Memory, exe: string, verdict: Label)
    requires exe != "" && FindKey(m.entries, exe, m.hardwareId) == |m.entries| && verdict != NeverProbed
    ensures LabelOf(SetLabel(m, exe, verdict), exe) == verdict <==> Storable(m, exe)
    ensures Storable(m, exe) || LabelOf(SetLabel(m, exe, verdict), exe) == NeverProbed
  {
    var hw := m.hardwareId;
    var e := LearnedEntry(Fitted(exe, EXE_FIELD), Fitted(hw, HARDWARE_FIELD), "", 0, 0, "", false, verdict);
    SameTextIsEquivalence(exe, exe, exe);
    assert IsKeyed(e, exe, hw) <==> |exe| < EXE_FIELD && |hw| < HARDWARE_FIELD;
    var i := FindKey(m.entries, e.exe, e.hardwareId);
    if i < |m.entries| {
      if !IsKeyed(e, exe, hw) {
        SameKeyedAt(m.entries, i, e, exe, hw);
      }
    } else {
      FindKeyAppend(m.entries, e, exe, hw);
    }
  }

  /** The verdict of a probe is found again exactly when it had a place to go. */
  lemma LabelSticksIff(m: Memory, exe: string, verdict: Label)
    requires verdict != NeverProbed && LabelOf(m, exe) == NeverProbed
    ensures LabelOf(SetLabel(m, exe, verdict), exe) == verdict <==> Storable(m, exe)
    ensures !Storable(m, exe) ==> LabelOf(SetLabel(m, exe, verdict), exe) == NeverProbed
  {
    if exe != "" {
      if FindKey(m.entries, exe, m.hardwareId) < |m.entries| {
        StampedKey(m, exe, verdict);
      } else {
        NewKey(m, exe, verdict);
      }
    }
  }

  /** A probe under a name that fits the exe field; the agent's tracked names are shorter still. */
  predicate NameFits(e: Event) {
    e.DoProbe? ==> |e.exe| < EXE_FIELD
  }

  /** A probe of `other` has no entry of its own, and its name, cut to the field, is that of exe. */
  predicate Overwrites(m: Memory, other: string, exe: string) {
    && other != "" && FindKey(m.entries, other, m.hardwareId) == |m.entries|
    && SameText(Fitted(other, EXE_FIELD), exe) && Fitted(m.hardwareId, HARDWARE_FIELD) == m.hardwareId
  }

  lemma KeyedAlike(e: LearnedEntry, x: string, y: string, hw: string)
    requires SameText(x, y)
    ensures IsKeyed(e, x, hw) <==> IsKeyed(e, y, hw)
  {
    SameTextIsEquivalence(e.exe, x, y);
    SameTextIsEquivalence(e.exe, y, x);
    SameTextIsEquivalence(x, y, x);
  }

  /** The entry that stands for the verdict on `other`, stamped where another entry had its key. */
  lemma AddedElsewhere(m: Memory, e: LearnedEntry, exe: string)
    requires exe != "" && FindKey(m.entries, exe, m.hardwareId) < |m.entries|
    ensures LabelOf(Upsert(m, e), exe) == if IsKeyed(e, exe, m.hardwareId) then e.verdict else LabelOf(m, exe)
  {
    var hw := m.hardwareId;
    var i := FindKey(m.entries, e.exe, e.hardwareId);
    if IsKeyed(e, exe, hw) {
      FindKeySame(m.entries, m.entries, e.exe, exe, hw);
      KeyedAlike(m.entries[i], e.exe, exe, hw);
      SameKeyedAt(m.entries, i, e, exe, hw);
    } else if i < |m.entries| {
      if e.hardwareId == hw && IsKeyed(m.entries[i], exe, hw) {
        SameTextIsEquivalence(m.entries[i].exe, e.exe, exe);
        SameTextIsEquivalence(e.exe, m.entries[i].exe, exe);
      }
      SameKeyedAt(m.entries, i, e, exe, hw);
    } else {
      FindKeyAppend(m.entries, e, exe, hw);
    }
  }

  /** What stamping one unprobed name does to a probed one. */
  lemma SetLabelElsewhere(m: Memory, other: string, verdict: Label, exe: string)
    requires LabelOf(m, exe) != NeverProbed && LabelOf(m, other) == NeverProbed
    ensures LabelOf(SetLabel(m, other, verdict), exe) == if Overwrites(m, other, exe) then verdict else LabelOf(m, exe)
  {
    var hw := m.hardwareId;
    var i := FindKey(m.entries, other, hw);
    if other != "" && i < |m.entries| {
      if IsKeyed(m.entries[i], exe, hw) {
        SameTextIsEquivalence(other, m.entries[i].exe, exe);
        SameTextIsEquivalence(m.entries[i].exe, other, exe);
        LabelIgnoresCase(m, other, exe);
      }
      SameKeyedAt(m.entries, i, m.entries[i].(verdict := verdict), exe, hw);
    } else if other != "" {
      AddedElsewhere(m, LearnedEntry(Fitted(other, EXE_FIELD), Fitted(hw, HARDWARE_FIELD), "", 0, 0, "", false, verdict), exe);
    }
  }

  /** A name that fits its field is no other name's, cut or not. */
  lemma FittingNamesDoNotOverwrite(m: Memory, other: string, exe: string)
    requires |other| < EXE_FIELD && LabelOf(m, exe) != NeverProbed
    ensures !Overwrites(m, other, exe)
  {
    if SameText(other, exe) {
      FindKeySame(m.entries, m.entries, other, exe, m.hardwareId);
    }
  }

  /** A verdict is permanent under every expiry and every probe, with one exception: a probe that opens a
      process under a name too long for its field, which cut is this one, and ends with the other verdict. */
  lemma VerdictsArePermanent(m: Memory, e: Event, exe: string)
    requires Proper(e) && LabelOf(m, exe) != NeverProbed
    ensures After(m, e).hardwareId == m.hardwareId && LabelOf(After(m, e), exe) != NeverProbed
    ensures LabelOf(After(m, e), exe) == LabelOf(m, exe)
       <==> !(&& e.DoProbe? && Opens(m, e.exe, e.answers) && Overwrites(m, e.exe, exe)
              && Verdict(e.answers) != LabelOf(m, exe))
    ensures NameFits(e) ==> LabelOf(After(m, e), exe) == LabelOf(m, exe)
  {
    match e
    case DoExpire(today, days) => ExpiryKeepsLabels(m, today, days, exe);
    case DoProbe(other, a) =>
      if Opens(m, other, a) {
        SetLabelElsewhere(m, other, Verdict(a), exe);
      }
      if NameFits(e) {
        FittingNamesDoNotOverwrite(m, other, exe);
      }
  }

  /** Once a name carries a verdict, nothing that follows opens a process under it. */
  lemma {:induction false} NoOpenWithVerdict(m: Memory, es: seq<Event>, exe: string)
    requires AllProper(es) && LabelOf(m, exe) != NeverProbed
    ensures OpenCount(m, es, exe) == 0
    decreases |es|
  {
    if es != [] {
      VerdictsArePermanent(m, es[0], exe);
      if es[0].DoProbe? && SameText(es[0].exe, exe) {
        LabelIgnoresCase(m, es[0].exe, exe);
      }
      NoOpenWithVerdict(After(m, es[0]), es[1..], exe);
    }
  }

  /** The first probe that opens a process under this name finds a place for its verdict. */
  predicate FirstOpenStores(m: Memory, es: seq<Event>, exe: string)
    requires AllProper(es)
    decreases |es|
  {
    if es == [] then true
    else if OpensFor(m, es[0], exe) then Storable(m, es[0].exe)
    else FirstOpenStores(After(m, es[0]), es[1..], exe)
  }

  lemma AfterKeepsHardware(m: Memory, e: Event)
    requires Proper(e)
    ensures After(m, e).hardwareId == m.hardwareId
  {
  }

  /** Over any sequence of probes and expiries, under any spelling of the name, each identity causes at
      most one OpenProcess attempt - if the verdict of the first one has a place to go. */
  lemma {:induction false} AtMostOneOpen(m: Memory, es: seq<Event>, exe: string)
    requires AllProper(es) && FirstOpenStores(m, es, exe)
    ensures OpenCount(m, es, exe) <= 1
    decreases |es|
  {
    if es != [] {
      var next := After(m, es[0]);
      AfterKeepsHardware(m, es[0]);
      if OpensFor(m, es[0], exe) {
        LabelSticksIff(m, es[0].exe, Verdict(es[0].answers));
        LabelIgnoresCase(next, es[0].exe, exe);
        NoOpenWithVerdict(next, es[1..], exe);
      } else {
        AtMostOneOpen(next, es[1..], exe);
      }
    }
  }

  /** Without a place for the verdict the next probe of the same name opens the process again. */
  lemma FullTableForgets(m: Memory, exe: string, a: Answers)
    requires Opens(m, exe, a)
    ensures Opens(AfterProbe(m, exe, a), exe, a) <==> !Storable(m, exe)
  {
    LabelSticksIff(m, exe, Verdict(a));
  }

  lemma OccursIgnoresCase(a: string, b: string, needle: string, i: int)
    requires SameText(a, b)
    ensures OccursAt(a, needle, i) == OccursAt(b, needle, i)
  {
  }

  lemma ContainsIgnoresCase(a: string, b: string, needle: string)
    requires SameText(a, b)
    ensures Contains(a, needle) == Contains(b, needle)
  {
    forall i ensures OccursAt(a, needle, i) == OccursAt(b, needle, i) {
      OccursIgnoresCase(a, b, needle, i);
    }
  }

  lemma {:induction false} TitleIgnoresCase(a: string, b: string, titles: seq<Title>)
    requires SameText(a, b)
    ensures FirstTitle(a, titles) == FirstTitle(b, titles)
  {
    if titles != [] {
      ContainsIgnoresCase(a, b, titles[0].needle);
      TitleIgnoresCase(a, b, titles[1..]);
    }
  }

  /** Entry i is the first one with that exe and that hardware id. */
  ghost predicate FirstKeyed(entries: seq<LearnedEntry>, exe: string, hardwareId: string, i: nat) {
    && i < |entries| && !TextsDiffer(entries[i].exe, exe) && entries[i].hardwareId == hardwareId
    && forall j :: 0 <= j < i ==> TextsDiffer(entries[j].exe, exe) || entries[j].hardwareId != hardwareId
  }

  ghost predicate HasKeyed(entries: seq<LearnedEntry>, exe: string, hardwareId: string) {
    exists i: nat :: FirstKeyed(entries, exe, hardwareId, i)
  }

  /** Entry i is the first one of that exe on this machine. */
  ghost predicate FirstEntry(m: Memory, exe: string, i: nat) {
    FirstKeyed(m.entries, exe, m.hardwareId, i)
  }

  lemma KeyMeaning(entries: seq<LearnedEntry>, exe: string, hardwareId: string)
    ensures FindKey(entries, exe, hardwareId) < |entries| <==> HasKeyed(entries, exe, hardwareId)
    ensures forall i: nat :: FirstKeyed(entries, exe, hardwareId, i) <==> i < |entries| && i == FindKey(entries, exe, hardwareId)
  {
    hide TextsDiffer, SameText;
    forall j | 0 <= j < |entries|
      ensures IsKeyed(entries[j], exe, hardwareId) <==> !TextsDiffer(entries[j].exe, exe) && entries[j].hardwareId == hardwareId
    {
      SameTextMeaning(entries[j].exe, exe);
    }
    var k := FindKey(entries, exe, hardwareId);
    assert k < |entries| ==> FirstKeyed(entries, exe, hardwareId, k);
  }

  /** How a verdict gets into the memory: into the first entry of the exe on this machine, of which nothing else
      changes; without one, as an entry that holds only the verdict, its key cut to 63 and 31 characters. That takes
      the place of the first entry with the cut key, or goes to the end, or is lost if there are 256. */
  ghost predicate Labelled(m: Memory, n: Memory, exe: string, verdict: Label) {
    var cut, hw := if |exe| < 64 then exe else exe[..63], if |m.hardwareId| < 32 then m.hardwareId else m.hardwareId[..31];
    var e := LearnedEntry(cut, hw, "", 0, 0, "", false, verdict);
    && n.hardwareId == m.hardwareId
    && (exe == "" ==> n == m)
    && (exe != "" ==> forall i: nat :: FirstEntry(m, exe, i) ==> n.entries == m.entries[i := m.entries[i].(verdict := verdict)])
    && (exe != "" && !HasKeyed(m.entries, exe, m.hardwareId) ==> PutIn(m.entries, n.entries, e))
  }

  ghost predicate PutIn(before: seq<LearnedEntry>, after: seq<LearnedEntry>, e: LearnedEntry) {
    && (forall i: nat :: FirstKeyed(before, e.exe, e.hardwareId, i) ==> after == before[i := e])
    && (!HasKeyed(before, e.exe, e.hardwareId) ==> after == if |before| < 256 then before + [e] else before)
  }

  lemma LabelledMeaning(m: Memory, exe: string, verdict: Label)
    ensures Labelled(m, SetLabel(m, exe, verdict), exe, verdict)
  {
    hide FirstKeyed, HasKeyed, TextsDiffer, SameText;
    KeyMeaning(m.entries, exe, m.hardwareId);
    KeyMeaning(m.entries, Fitted(exe, EXE_FIELD), Fitted(m.hardwareId, HARDWARE_FIELD));
  }

  ghost predicate Known(m: Memory, exe: string, verdict: Label) {
    exe != "" && exists i: nat :: FirstEntry(m, exe, i) && m.entries[i].verdict == verdict
  }

  ghost predicate HasVerdict(m: Memory, exe: string) {
    Known(m, exe, LabelAllowed) || Known(m, exe, LabelBlocked)
  }

  lemma LabelMeaning(m: Memory, exe: string)
    ensures LabelOf(m, exe) == LabelAllowed <==> Known(m, exe, LabelAllowed)
    ensures LabelOf(m, exe) == LabelBlocked <==> Known(m, exe, LabelBlocked)
  {
    hide FirstKeyed;
    KeyMeaning(m.entries, exe, m.hardwareId);
    var i := FindKey(m.entries, exe, m.hardwareId);
    assert i < |m.entries| ==> FirstEntry(m, exe, i);
  }

  /** A probe of a title with a verdict, or of one that must not be opened, leaves the memory as it is; any other
      leaves its verdict there. */
  ghost predicate ProbeEffect(m: Memory, n: Memory, exe: string, a: Answers) {
    if HasVerdict(m, exe) || MustNotOpen(exe, a.drivers, a.services) then n == m
    else Labelled(m, n, exe, if a.openOk && a.readOk && a.setOk then LabelAllowed else LabelBlocked)
  }

  lemma ProbeMeaning(m: Memory, exe: string, a: Answers)
    ensures ProbeEffect(m, AfterProbe(m, exe, a), exe, a)
  {
    hide MustNotOpen, Decide, Known, Labelled, LabelOf, SetLabel;
    LabelMeaning(m, exe);
    OracleMeaning(exe, a.drivers, a.services);
    LabelledMeaning(m, exe, Verdict(a));
  }

  /** While an anti-cheat is live, a title the oracle does not know stays closed: whatever else is probed
      or expires, no probe under its name opens a process. */
  lemma {:induction false} LiveAntiCheatStaysClosed(m: Memory, es: seq<Event>, exe: string)
    requires AllProper(es)
    requires forall e <- es :: e.DoProbe? && !TextsDiffer(e.exe, exe) ==> MustNotOpen(e.exe, e.answers.drivers, e.answers.services)
    ensures OpenCount(m, es, exe) == 0
    decreases |es|
  {
    hide MustNotOpen, Decide, TextsDiffer, SameText, LabelOf, After;
    if es != [] {
      if es[0].DoProbe? {
        assert es[0] in es;
        SameTextMeaning(es[0].exe, exe);
        OracleMeaning(es[0].exe, es[0].answers.drivers, es[0].answers.services);
      }
      forall e | e in es[1..] ensures e in es {
      }
      LiveAntiCheatStaysClosed(After(m, es[0]), es[1..], exe);
    }
  }

  /** A do-not-probe title is never opened, whatever runs on the box and whatever the memory holds. */
  lemma {:induction false} ForbiddenTitlesStayClosed(m: Memory, es: seq<Event>, exe: string)
    requires AllProper(es) && !ProbeAllowed(ClassifyTitle(exe))
    ensures OpenCount(m, es, exe) == 0
    decreases |es|
  {
    if es != [] {
      if es[0].DoProbe? && SameText(es[0].exe, exe) {
        TitleIgnoresCase(es[0].exe, exe, KnownTitles());
      }
      ForbiddenTitlesStayClosed(After(m, es[0]), es[1..], exe);
    }
  }

  // ---- What expiry does --------------------------------------------------

  /** A learned result is dropped whole or kept; the identity, the lock and the verdict stay, and an entry that
      the user has locked stays as it is. */
  predicate ExpiryEffect(e: LearnedEntry, f: LearnedEntry) {
    && (f == e || f == e.(bestAction := "", bestCoreMask := 0, sampleCount := 0, lastValidated := ""))
    && (e.userLocked || e.exe == "" ==> f == e)
    && (!e.userLocked && e.exe != "" && (e.sampleCount == 0 || e.bestAction == "" || |e.lastValidated| < 8) ==> f.sampleCount == 0 && f.bestCoreMask == 0)
  }

  predicate IsDue(e: LearnedEntry, today: Date, maxAgeDays: nat)
    requires IsDate(today) && maxAgeDays < 0x1_0000_0000
  {
    e.exe != "" && NeedsRevalidation(e.userLocked, e.sampleCount, e.bestAction, e.lastValidated, today, maxAgeDays)
  }

  lemma ExpiryMeaning(e: LearnedEntry, today: Date, maxAgeDays: nat)
    requires IsDate(today) && maxAgeDays < 0x1_0000_0000
    ensures ExpiryEffect(e, Expired(e, today, maxAgeDays))
  {
  }

  /** The entries that have a result to drop, among the first upTo. */
  ghost function DueEntries(es: seq<LearnedEntry>, upTo: nat, today: Date, maxAgeDays: nat): set<nat>
    requires upTo <= |es| && IsDate(today) && maxAgeDays < 0x1_0000_0000
  {
    set k: nat | k < upTo && IsDue(es[k], today, maxAgeDays)
  }

  lemma NoneDueYet(es: seq<LearnedEntry>, today: Date, maxAgeDays: nat)
    requires IsDate(today) && maxAgeDays < 0x1_0000_0000
    ensures DueEntries(es, 0, today, maxAgeDays) == {}
  {
  }

  lemma DueNext(es: seq<LearnedEntry>, i: nat, today: Date, maxAgeDays: nat)
    requires i < |es| && IsDate(today) && maxAgeDays < 0x1_0000_0000
    ensures |DueEntries(es, i + 1, today, maxAgeDays)| == |DueEntries(es, i, today, maxAgeDays)| + (if IsDue(es[i], today, maxAgeDays) then 1 else 0)
  {
    hide IsDue;
    assert DueEntries(es, i + 1, today, maxAgeDays) == DueEntries(es, i, today, maxAgeDays) + (if IsDue(es[i], today, maxAgeDays) then {i} else {});
  }

  lemma ExpireAllNext(es: seq<LearnedEntry>, e: LearnedEntry, today: Date, maxAgeDays: nat)
    requires IsDate(today) && maxAgeDays < 0x1_0000_0000
    ensures ExpireAll(es + [e], today, maxAgeDays) == ExpireAll(es, today, maxAgeDays) + [Expired(e, today, maxAgeDays)]
  {
    hide Expired;
  }

  lemma ExpireAllMeaning(es: seq<LearnedEntry>, today: Date, maxAgeDays: nat)
    requires IsDate(today) && maxAgeDays < 0x1_0000_0000
    ensures forall k :: 0 <= k < |es| ==> ExpiryEffect(es[k], ExpireAll(es, today, maxAgeDays)[k])
  {
    forall k | 0 <= k < |es| ensures ExpiryEffect(es[k], ExpireAll(es, today, maxAgeDays)[k]) {
      ExpiryMeaning(es[k], today, maxAgeDays);
    }
  }

  // ---- The code ----------------------------------------------------------

  const NO_ENTRY := LearnedEntry("", "", "", 0, 0, "", false, NeverProbed)

  class PerGameMemory {
    const entries: array<LearnedEntry>
    var n: nat
    const hardwareId: string

    ghost predicate Valid()
      reads this
    {
      entries.Length == MAX_ENTRIES && n <= MAX_ENTRIES
    }

    ghost function State(): Memory
      reads this, entries
      requires Valid()
    {
      Memory(entries[..n], hardwareId)
    }

    constructor (hardwareId: string)
      ensures Valid() && fresh(entries) && State() == Memory([], hardwareId)
    {
      entries := new LearnedEntry[MAX_ENTRIES](_ => NO_ENTRY);
      n := 0;
      this.hardwareId := hardwareId;
    }

    method Find(exe: string, hw: string) returns (at: nat)
      requires Valid()
      ensures at == FindKey(entries[..n], exe, hw)
    {
      at := 0;
      while at < n && !IsKeyed(entries[at], exe, hw)
        invariant at <= n && forall j :: 0 <= j < at ==> !IsKeyed(entries[..n][j], exe, hw)
      {
        at := at + 1;
      }
    }

    method UpsertEntry(e: LearnedEntry)
      requires Valid()
      modifies this, entries
      ensures Valid() && State() == Upsert(old(State()), e)
    {
      ghost var m := Upsert(State(), e);
      var i := Find(e.exe, e.hardwareId);
      if i < n {
        entries[i] := e;
      } else if n < MAX_ENTRIES {
        entries[n] := e;
        n := n + 1;
      }
      assert entries[..n] == m.entries;
    }

    method StampLabel(exe: string, verdict: Label)
      requires Valid()
      modifies this, entries
      ensures Valid() && State() == SetLabel(old(State()), exe, verdict) && Labelled(old(State()), State(), exe, verdict)
    {
      hide Labelled;
      LabelledMeaning(State(), exe, verdict);
      if exe == "" {
        return;
      }
      ghost var before := entries[..n];
      var i := Find(exe, hardwareId);
      if i < n {
        entries[i] := entries[i].(verdict := verdict);
        assert entries[..n] == before[i := entries[i]];
      } else {
        UpsertEntry(LearnedEntry(Fitted(exe, EXE_FIELD), Fitted(hardwareId, HARDWARE_FIELD), "", 0, 0, "", false, verdict));
      }
    }

    method ExpireStale(today: Date, maxAgeDays: nat) returns (expired: nat)
      requires Valid() && IsDate(today) && maxAgeDays < 0x1_0000_0000
      modifies entries
      ensures Valid() && State() == old(State()).(entries := ExpireAll(old(entries[..n]), today, maxAgeDays))
      ensures forall k :: 0 <= k < n ==> ExpiryEffect(old(entries[..n])[k], entries[k])
      ensures expired == |DueEntries(old(entries[..n]), n, today, maxAgeDays)|
    {
      hide ExpiryEffect, NeedsRevalidation, DueEntries;
      ghost var before := entries[..n];
      NoneDueYet(before, today, maxAgeDays);
      expired := 0;
      for i := 0 to n
        invariant expired == |DueEntries(before, i, today, maxAgeDays)|
        invariant entries[..i] == ExpireAll(before[..i], today, maxAgeDays) && entries[i..n] == before[i..]
      {
        var e := entries[i];
        assert e == before[i] && before[..i + 1] == before[..i] + [e];
        DueNext(before, i, today, maxAgeDays);
        if IsDue(e, today, maxAgeDays) {
          entries[i] := e.(bestAction := "", bestCoreMask := 0, sampleCount := 0, lastValidated := "");
          expired := expired + 1;
        }
        assert entries[..i + 1] == entries[..i] + [Expired(e, today, maxAgeDays)];
        ExpireAllNext(before[..i], e, today, maxAgeDays);
      }
      assert before[..n] == before;
      ExpireAllMeaning(before, today, maxAgeDays);
    }
  }

  function OpenRows(audit: seq<AuditRow>): nat {
    if audit == [] then 0 else OpenRows(audit[..|audit| - 1]) + (if audit[|audit| - 1].AcOpen? then 1 else 0)
  }

  class ProbeAudit {
    var rows: seq<AuditRow>

    method Write(row: AuditRow)
      modifies this
      ensures rows == old(rows) + [row]
    {
      rows := rows + [row];
    }
  }

  /** probe_and_label: an ACOPEN row stands in front of every OpenProcess attempt, and nothing is
      opened or written without one. */
  method ProbeAndLabel(pid: nat, exe: string, a: Answers, mem: PerGameMemory, audit: ProbeAudit) returns (r: ProbeResult)
    requires mem.Valid()
    modifies mem, mem.entries, audit
    ensures mem.Valid() && mem.State() == AfterProbe(old(mem.State()), exe, a)
    ensures OpenRows(audit.rows) == OpenRows(old(audit.rows)) + (if Opens(old(mem.State()), exe, a) then 1 else 0)
    ensures !Opens(old(mem.State()), exe, a) ==> audit.rows == old(audit.rows)
    ensures r == Outcome(old(mem.State()), exe, a)
    ensures r == AlreadyBlocked <==> Known(old(mem.State()), exe, LabelBlocked)
    ensures r == AlreadyAllowed <==> Known(old(mem.State()), exe, LabelAllowed)
    ensures r == RefusedDoNotProbe <==> !HasVerdict(old(mem.State()), exe) && MustNotOpen(exe, a.drivers, a.services)
    ensures r == Allowed || r == Blocked <==> !HasVerdict(old(mem.State()), exe) && !MustNotOpen(exe, a.drivers, a.services)
    ensures if r == Allowed || r == Blocked
            then && (r == Allowed <==> a.openOk && a.readOk && a.setOk)
                 && audit.rows == old(audit.rows) + [AcOpen(pid), AcProbe(pid, r == Allowed)]
            else audit.rows == old(audit.rows) && mem.State() == old(mem.State())
    ensures ProbeEffect(old(mem.State()), mem.State(), exe, a)
  {
    hide MustNotOpen, Decide, Labelled, ProbeEffect, Known;
    ProbeMeaning(mem.State(), exe, a);
    OracleMeaning(exe, a.drivers, a.services);
    LabelMeaning(mem.State(), exe);
    if exe != "" {
      var i := mem.Find(exe, mem.hardwareId);
      if i < mem.n && mem.entries[i].verdict == LabelBlocked {
        return AlreadyBlocked;
      }
      if i < mem.n && mem.entries[i].verdict == LabelAllowed {
        return AlreadyAllowed;
      }
    }
    if !ProbeAllowed(Decide(exe, a.drivers, a.services)) {
      return RefusedDoNotProbe;
    }
    audit.Write(AcOpen(pid));
    if !a.openOk || !a.readOk || !a.setOk {
      mem.StampLabel(exe, LabelBlocked);
      audit.Write(AcProbe(pid, false));
      return Blocked;
    }
    mem.StampLabel(exe, LabelAllowed);
    audit.Write(AcProbe(pid, true));
    r := Allowed;
  }
}
