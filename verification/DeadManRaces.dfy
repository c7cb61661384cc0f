/** The one moment at which the dead-man is not safe beside the agent: it reads the journal between an append
    and its Set. Here its steps and the rest of the pin interleave in any way, and it is said exactly when
    the process is lost if the agent then dies. */
module DeadManRaces {
  import opened Common
  import opened DiskRecords
  import opened KeyedLists
  import opened JournalSpec
  import opened Placement
  import opened CrashSafety
  import opened CrashRuns

  /** How far the dead-man has come with a key: 0 not checked yet, 1 about to set the mask back, 2 about to
      flip the slot, 3 done with it. */
  function Phase(tool: Tool, k: RevertKey): (phase: nat)
    ensures phase <= 3
  {
    if tool.NoTool? || !HasKey(tool.left, k) then 3
    else if tool.left[0].key != k then 0
    else match tool.toolStage case RecCheck => 0 case RecSet => 1 case RecFlip => 2
  }

  /** A state, and how far the dead-man was when the agent set the mask and when it flipped the slot. */
  datatype Course = Course(s: State, atSet: nat, atFlip: nat)

  datatype Mover = AgentMoves | ToolMoves

  /** The next effect of one of the two. The agent's pin ends in Idle; what it does then is not looked at. */
  function Move(c: Course, k: RevertKey, who: Mover): Course {
    if who == ToolMoves then c.(s := ToolAdvance(c.s))
    else if !c.s.ctl.Pinning? then c
    else
      Course(Advance(c.s),
             if c.s.ctl.pinStage == PinSet then Phase(c.s.tool, k) else c.atSet,
             if c.s.ctl.pinStage == PinFlip then Phase(c.s.tool, k) else c.atFlip)
  }

  function Moves(c: Course, k: RevertKey, run: seq<Mover>): Course {
    if run == [] then c else Move(Moves(c, k, run[..|run| - 1]), k, run[|run| - 1])
  }

  predicate HasSet(ctl: Control) {
    !(ctl.Pinning? && ctl.pinStage == PinSet)
  }

  predicate HasFlipped(ctl: Control) {
    !(ctl.Pinning? && (ctl.pinStage == PinSet || ctl.pinStage == PinFlip))
  }

  // ---- The pin and the walk ----------------------------------------------

  /** A pin whose record is written and whose Set is to come; the system grants everything. */
  ghost predicate BeforeSet(s: State) {
    && Inv(s) && s.tool.NoTool? && AllGranted(s.m.procs)
    && s.ctl.Pinning? && s.ctl.pinStage == PinSet && s.ctl.action.pid in s.m.procs
    && s.ctl.action.newMask != 0 && s.ctl.action.newMask != s.m.procs[s.ctl.action.pid].orig
  }

  /** The machine since then: the same processes, and the same slots up to their statuses; the older slots of
      the key are as they were. */
  ghost predicate SameBut(s: State, m: Machine, k: RevertKey) {
    && m.journalOpen && SameProcesses(m.procs, s.m.procs) && AllGranted(m.procs) && SameKeys(s.m.slots, m.slots)
    && (forall i :: 0 <= i < |m.slots| ==> m.slots[i] == s.m.slots[i].(status := m.slots[i].status))
    && (forall i :: 0 <= i < LastSlot(s.m.slots, k) && KeyOf(s.m.slots[i]) == k ==> m.slots[i] == s.m.slots[i])
  }

  ghost predicate WalkFrom(s: State, m: Machine, tool: Tool) {
    tool.Walking? ==> tool.found == s.m.slots && Distinct(tool.left) && WalkOk(m.procs, m.slots, tool.left, tool.toolStage)
  }

  predicate SamePin(s: State, ctl: Control) {
    ctl == Idle || (ctl.Pinning? && s.ctl.Pinning? && ctl.pinStage != PinAppend && ctl.action == s.ctl.action && ctl.rec == s.ctl.rec)
  }

  /** Where the process runs, and whether the slot of the pin is open. */
  ghost predicate Raced(s: State, c: Course, k: RevertKey, pid: U32, newMask: U64) {
    var m, now, j := c.s.m, Phase(c.s.tool, k), LastSlot(s.m.slots, k);
    && pid in m.procs && 0 <= j < |m.slots|
    && (HasSet(c.s.ctl) ==>
          c.atSet <= now && m.procs[pid].mask == if c.atSet <= 1 && now >= 2 then m.procs[pid].orig else newMask)
    && (HasFlipped(c.s.ctl) ==> c.atFlip <= now)
    && (Unresolved(m.slots[j]) <==>
          if HasFlipped(c.s.ctl) then c.atFlip == 3 || now < 3 else now < 3 && Unresolved(s.m.slots[j]))
  }

  ghost predicate OnCourse(s: State, c: Course) {
    && s.ctl.Pinning?
    && SameBut(s, c.s.m, KeyOf(s.ctl.rec)) && WalkFrom(s, c.s.m, c.s.tool) && SamePin(s, c.s.ctl)
    && Raced(s, c, KeyOf(s.ctl.rec), s.ctl.action.pid, s.ctl.action.newMask)
  }

  lemma OpenBeforeSet(s: State)
    requires BeforeSet(s)
    ensures LastUnresolved(s.m.slots, KeyOf(s.ctl.rec)) >= 0 && LastSlot(s.m.slots, KeyOf(s.ctl.rec)) >= 0
    ensures KeyOf(s.ctl.rec) == ProcKey(s.m.procs, s.ctl.action.pid)
  {
    var k := KeyOf(s.ctl.rec);
    var j :| 0 <= j < |s.m.slots| && KeyOf(s.m.slots[j]) == k && Unresolved(s.m.slots[j]);
    HasUnresolved(s.m.slots, k, j);
  }

  lemma CourseStarts(s: State)
    requires BeforeSet(s)
    ensures OnCourse(s, Course(Exec(s, StartTool), 0, 0))
  {
    OpenBeforeSet(s);
    RecoveredMeaning(s.m.slots);
    RecoveredCovers(s.m.procs, s.m.slots);
    KeyHasMember(Recovered(s.m.slots), KeyOf(s.ctl.rec));
  }

  // ---- The agent's steps -------------------------------------------------

  lemma AgentOnCourse(s: State, c: Course)
    requires BeforeSet(s) && OnCourse(s, c) && c.s.ctl.Pinning?
    ensures OnCourse(s, Move(c, KeyOf(s.ctl.rec), AgentMoves))
  {
    match c.s.ctl.pinStage
    case PinSet => AgentSets(s, c);
    case PinFlip => AgentFlips(s, c);
    case PinActivate =>
  }

  lemma AgentSets(s: State, c: Course)
    requires BeforeSet(s) && OnCourse(s, c) && c.s.ctl.Pinning? && c.s.ctl.pinStage == PinSet
    ensures OnCourse(s, Move(c, KeyOf(s.ctl.rec), AgentMoves))
  {
    hide SameBut, WalkFrom, Inv;
    var a := s.ctl.action;
    GrantedNow(s, c.s.m, a.pid);
    SetMaskFacts(c.s.m.procs, a.pid, a.newMask);
    SetOnCourse(s, c.s.m, c.s.tool, a.pid, a.newMask);
  }

  lemma GrantedNow(s: State, m: Machine, pid: U32)
    requires s.ctl.Pinning? && SameBut(s, m, KeyOf(s.ctl.rec)) && pid in m.procs
    ensures m.procs[pid].settable
  {
  }

  lemma AgentFlips(s: State, c: Course)
    requires BeforeSet(s) && OnCourse(s, c) && c.s.ctl.Pinning? && c.s.ctl.pinStage == PinFlip
    ensures OnCourse(s, Move(c, KeyOf(s.ctl.rec), AgentMoves))
  {
    hide WalkFrom, Inv;
    var m, k := c.s.m, KeyOf(s.ctl.rec);
    SameKeysSameIndex(s.m.slots, m.slots);
    WalkSlots(s, m, c.s.tool, Flip(m.slots, k, APPLIED));
  }

  /** A Set leaves the slots and the list of the walk in order. */
  lemma SetOnCourse(s: State, m: Machine, tool: Tool, pid: U32, mask: U64)
    requires s.ctl.Pinning? && SameBut(s, m, KeyOf(s.ctl.rec)) && WalkFrom(s, m, tool)
    ensures SameBut(s, Set(m, pid, mask), KeyOf(s.ctl.rec)) && WalkFrom(s, Set(m, pid, mask), tool)
  {
    SetMaskFacts(m.procs, pid, mask);
    if tool.Walking? {
      forall rec | rec in tool.left ensures Truthful(SetMask(m.procs, pid, mask), rec.key, rec.value.prevMask, rec.value.exeName) {
        assert Truthful(m.procs, rec.key, rec.value.prevMask, rec.value.exeName);
      }
    }
  }

  lemma WalkSlots(s: State, m: Machine, tool: Tool, slots: seq<DiskRecord>)
    requires WalkFrom(s, m, tool) && SameKeys(m.slots, slots)
    ensures WalkFrom(s, m.(slots := slots), tool)
  {
    if tool.Walking? {
      WalkKeysStay(m.procs, m.slots, slots, tool.left, tool.toolStage);
    }
  }

  // ---- The dead-man's steps ----------------------------------------------

  lemma ToolOnCourse(s: State, c: Course)
    requires BeforeSet(s) && OnCourse(s, c)
    ensures OnCourse(s, Move(c, KeyOf(s.ctl.rec), ToolMoves))
  {
    if c.s.tool.Walking? && c.s.tool.left != [] {
      match c.s.tool.toolStage
      case RecCheck => CheckOnCourse(s, c);
      case RecSet => SetBackOnCourse(s, c);
      case RecFlip => FlipOnCourse(s, c);
    }
  }

  lemma Walked(s: State, m: Machine)
    requires BeforeSet(s) && SameBut(s, m, KeyOf(s.ctl.rec))
    ensures ProcsOk(m.procs) && SlotsTruthful(m.procs, m.slots)
    ensures s.ctl.action.pid in m.procs && ProcKey(m.procs, s.ctl.action.pid) == KeyOf(s.ctl.rec)
  {
    OpenBeforeSet(s);
    forall i | 0 <= i < |m.slots|
      ensures Truthful(m.procs, KeyOf(m.slots[i]), m.slots[i].prevMask, CStr(m.slots[i].exeName, 63))
    {
      assert Truthful(s.m.procs, KeyOf(s.m.slots[i]), s.m.slots[i].prevMask, CStr(s.m.slots[i].exeName, 63));
    }
  }

  lemma CheckOnCourse(s: State, c: Course)
    requires BeforeSet(s) && OnCourse(s, c)
    requires c.s.tool.Walking? && c.s.tool.left != [] && c.s.tool.toolStage == RecCheck
    ensures OnCourse(s, c.(s := ToolAdvance(c.s)))
  {
    Walked(s, c.s.m);
    var rec := c.s.tool.left[0];
    assert Truthful(c.s.m.procs, rec.key, rec.value.prevMask, rec.value.exeName);
    LiveMatches(c.s.m.procs, rec);
  }

  lemma SetBackOnCourse(s: State, c: Course)
    requires BeforeSet(s) && OnCourse(s, c)
    requires c.s.tool.Walking? && c.s.tool.left != [] && c.s.tool.toolStage == RecSet
    ensures OnCourse(s, c.(s := ToolAdvance(c.s)))
  {
    Walked(s, c.s.m);
    var rec := c.s.tool.left[0];
    assert Truthful(c.s.m.procs, rec.key, rec.value.prevMask, rec.value.exeName);
    SetMaskFacts(c.s.m.procs, rec.key.pid, rec.value.prevMask);
    SetOnCourse(s, c.s.m, c.s.tool, rec.key.pid, rec.value.prevMask);
  }

  lemma RestPhase(left: seq<RevertRecord>, k: RevertKey)
    requires left != [] && Distinct(left)
    ensures Distinct(left[1..])
    ensures HasKey(left[1..], k) <==> HasKey(left, k) && left[0].key != k
  {
    if HasKey(left, k) && left[0].key != k {
      var i :| 0 <= i < |left| && left[i].key == k;
      assert left[1..][i - 1].key == k;
    }
    if HasKey(left[1..], k) {
      var i :| 0 <= i < |left[1..]| && left[1..][i].key == k;
      assert left[i + 1].key == k;
    }
  }

  /** The dead-man's flip, as far as the slots and its own list go. */
  lemma FlipKeepsWalk(s: State, m: Machine, tool: Tool)
    requires s.ctl.Pinning? && SameBut(s, m, KeyOf(s.ctl.rec)) && WalkFrom(s, m, tool)
    requires tool.Walking? && tool.left != [] && tool.toolStage == RecFlip
    ensures var slots := FlipFound(m.slots, tool.found, tool.left[0].key);
            SameBut(s, m.(slots := slots), KeyOf(s.ctl.rec)) &&
            WalkFrom(s, m.(slots := slots), Walking(tool.found, tool.left[1..], RecCheck, tool.alone))
  {
    var left := tool.left;
    var slots := FlipFound(m.slots, s.m.slots, left[0].key);
    assert m.slots[..|s.m.slots|] == m.slots;
    FlipFoundSlots(m.slots, s.m.slots, left[0].key);
    WalkKeysStay(m.procs, m.slots, slots, left, RecFlip);
    WalkShrinks(m.procs, slots, left, RecFlip);
    RestPhase(left, KeyOf(s.ctl.rec));
  }

  /** It is the end of the walk for its own key, and nothing for the others. */
  lemma PhaseAfterFlip(tool: Tool, k: RevertKey)
    requires tool.Walking? && tool.left != [] && tool.toolStage == RecFlip && Distinct(tool.left)
    ensures var after := Phase(Walking(tool.found, tool.left[1..], RecCheck, tool.alone), k);
            if tool.left[0].key == k then Phase(tool, k) == 2 && after == 3 else after == Phase(tool, k)
  {
    RestPhase(tool.left, k);
  }

  /** The last slot of a key is flipped with its own record only. */
  lemma SlotAfterFlip(found: seq<DiskRecord>, slots: seq<DiskRecord>, k: RevertKey, flipped: RevertKey)
    requires SameKeys(found, slots) && LastSlot(found, k) >= 0
    ensures var j, out := LastSlot(found, k), FlipFound(slots, found, flipped);
            |out| == |slots| && out[j] == if flipped == k then slots[j].(status := REVERTED) else slots[j]
  {
    var i := LastSlot(found, flipped);
    assert i >= 0 ==> KeyOf(found[i]) == flipped;
  }

  lemma FlipOnCourse(s: State, c: Course)
    requires BeforeSet(s) && OnCourse(s, c)
    requires c.s.tool.Walking? && c.s.tool.left != [] && c.s.tool.toolStage == RecFlip
    ensures OnCourse(s, c.(s := ToolAdvance(c.s)))
  {
    var m, k := c.s.m, KeyOf(s.ctl.rec);
    FlipKeepsWalk(s, m, c.s.tool);
    PhaseAfterFlip(c.s.tool, k);
    SlotAfterFlip(s.m.slots, m.slots, k, c.s.tool.left[0].key);
    assert c.s.tool.found == s.m.slots;
    hide Inv, WalkOk, SameBut, WalkFrom, FlipFound, BeforeSet, SamePin, Phase;
  }

  // ---- Every interleaving ------------------------------------------------

  lemma {:induction false} StaysOnCourse(s: State, run: seq<Mover>)
    requires BeforeSet(s)
    ensures OnCourse(s, Moves(Course(Exec(s, StartTool), 0, 0), KeyOf(s.ctl.rec), run))
  {
    var k := KeyOf(s.ctl.rec);
    if run == [] {
      CourseStarts(s);
    } else {
      var c := Moves(Course(Exec(s, StartTool), 0, 0), k, run[..|run| - 1]);
      StaysOnCourse(s, run[..|run| - 1]);
      if run[|run| - 1] == ToolMoves {
        ToolOnCourse(s, c);
      } else if c.s.ctl.Pinning? {
        AgentOnCourse(s, c);
      }
    }
  }

  lemma OpenNow(s: State, m: Machine, k: RevertKey)
    requires SameBut(s, m, k) && LastSlot(s.m.slots, k) >= 0
    ensures LastUnresolved(m.slots, k) >= 0 <==> Unresolved(m.slots[LastSlot(s.m.slots, k)]) || OlderUnresolved(s.m.slots, k)
  {
    var j, i := LastSlot(s.m.slots, k), LastUnresolved(m.slots, k);
    if Unresolved(m.slots[j]) {
      HasUnresolved(m.slots, k, j);
    }
    if OlderUnresolved(s.m.slots, k) {
      var o :| 0 <= o < j && KeyOf(s.m.slots[o]) == k && Unresolved(s.m.slots[o]);
      HasUnresolved(m.slots, k, o);
    }
    if 0 <= i != j {
      assert KeyOf(s.m.slots[i]) == k && i < j;
    }
  }

  /** What a recovery finds if the agent dies here. */
  ghost predicate Lost(c: Course, pid: U32) {
    var procs := RecoveryPass(c.s.m).procs;
    pid in procs && !Restored(procs, pid)
  }

  /** The dead-man had set the mask back before the agent's Set, has flipped the slot, the agent has not
      flipped it after that, and no older slot of the key is unresolved. */
  ghost predicate LosingCourse(s: State, c: Course, k: RevertKey) {
    && c.atSet >= 2 && Phase(c.s.tool, k) == 3
    && !(HasFlipped(c.s.ctl) && c.atFlip == 3)
    && !OlderUnresolved(s.m.slots, k)
  }

  lemma LostNow(s: State, c: Course)
    requires BeforeSet(s) && OnCourse(s, c) && HasSet(c.s.ctl)
    ensures Lost(c, s.ctl.action.pid) <==> LosingCourse(s, c, KeyOf(s.ctl.rec))
  {
    hide WalkFrom, Inv, Phase, RecoveryPass, OlderUnresolved, SamePin;
    var k := KeyOf(s.ctl.rec);
    Walked(s, c.s.m);
    OpenBeforeSet(s);
    OpenNow(s, c.s.m, k);
    OpenAtRead(s, k);
    RestoredIff(c.s.m, s.ctl.action.pid);
  }

  /** The dead-man reads the journal between the append and the Set of a pin; then the two interleave in any
      way, and at some point after the Set the agent dies. The next recovery fails to bring the process back
      exactly on a losing course. */
  lemma LostIff(s: State, run: seq<Mover>)
    requires BeforeSet(s)
    ensures var k := KeyOf(s.ctl.rec);
            var c := Moves(Course(Exec(s, StartTool), 0, 0), k, run);
            HasSet(c.s.ctl) ==> (Lost(c, s.ctl.action.pid) <==> LosingCourse(s, c, k))
  {
    hide Moves, OnCourse, Lost, LosingCourse, BeforeSet;
    StaysOnCourse(s, run);
    var c := Moves(Course(Exec(s, StartTool), 0, 0), KeyOf(s.ctl.rec), run);
    if HasSet(c.s.ctl) {
      LostNow(s, c);
    }
  }

  lemma OpenAtRead(s: State, k: RevertKey)
    requires LastUnresolved(s.m.slots, k) >= 0
    ensures 0 <= LastSlot(s.m.slots, k) < |s.m.slots|
    ensures Unresolved(s.m.slots[LastSlot(s.m.slots, k)]) || OlderUnresolved(s.m.slots, k)
  {
    var i := LastUnresolved(s.m.slots, k);
    assert KeyOf(s.m.slots[i]) == k;
  }
}
