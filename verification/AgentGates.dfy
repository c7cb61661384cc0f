/** The agent's tick as far as it decides about placements: the commands of the UI, the profile, the
    quiet mode for anti-cheat games, and the three passes that feed the executor. */
module AgentGates {
  import opened Common
  import opened Placement
  import opened ActiveTable
  import opened UserRules
  import AcProbes
  import AcOracles

  const CORRAL_RULE: U32 := 20
  const USER_RULE: U32 := 21
  const AC_SCAN_INTERVAL := 3

  /** Full is reserved and behaves as GamesCorral. */
  function Effective(p: Profile): Profile {
    if p == Full then GamesCorral else p
  }

  function ProfileOf(v: nat): Profile
    requires v <= 3
  {
    match v case 0 => Monitor case 1 => Games case 2 => GamesCorral case _ => Full
  }

  datatype Agent = Agent(
    m: Machine,
    selfPid: U32,
    profile: Profile,
    paused: bool,
    corralLive: bool,
    keepOnDisable: bool,
    quiet: bool,
    scans: nat,
    differential: bool,
    table: Table,
    verdicts: AcProbes.Memory)

  // ---- Commands ----------------------------------------------------------

  datatype Command =
    | NoCommand
    | PausePolicies
    | ResumePolicies
    | ForceRevertAll
    | SetDifferentialPin(arg1: nat)
    | SetCorralLive(arg1: nat, arg2: nat)
    | SetProcessRule(resolved: Name, arg1: nat)
    | RemoveProcessRule(arg1: nat, arg2: nat)
    | SetProfile(arg1: nat)
    | Unknown

  function RevertAll(m: Machine): Machine {
    RevertRows(m, m.rows)
  }

  function RevertBy(m: Machine, sel: Selector): Machine {
    RevertRows(m, Select(m.rows, sel))
  }

  /** set_profile: leaving the corral profile reverts the corral, Monitor reverts the user pins too. */
  function SwitchProfile(a: Agent, p: Profile): Agent {
    var b := a.(profile := p);
    if Effective(p) == Monitor then b.(m := RevertBy(RevertBy(a.m, OfRule(CORRAL_RULE)), OfRule(USER_RULE)))
    else if Effective(a.profile) == GamesCorral && Effective(p) != GamesCorral
    then b.(m := RevertBy(a.m, OfRule(CORRAL_RULE)))
    else b
  }

  function RemoveRuleAt(a: Agent, slot: nat, gen: U32): Agent {
    var c := RemoveRule(slot, gen);
    if Accepted(a.table, c)
    then a.(table := Changed(a.table, c), m := RevertBy(a.m, OfRuleAndName(USER_RULE, a.table.rules[slot].name)))
    else a
  }

  function Handle(a: Agent, c: Command): Agent {
    match c
    case PausePolicies => a.(m := RevertAll(a.m), paused := true)
    case ForceRevertAll => a.(m := RevertAll(a.m), paused := true)
    case ResumePolicies => a.(paused := false)
    case SetDifferentialPin(arg1) =>
      if (arg1 != 0) == a.differential then a else a.(m := RevertAll(a.m), differential := arg1 != 0)
    case SetCorralLive(arg1, arg2) =>
      var off := a.corralLive && arg1 == 0 && arg2 == 0;
      a.(m := if off then RevertBy(a.m, OfRule(CORRAL_RULE)) else a.m, keepOnDisable := arg2 != 0, corralLive := arg1 != 0)
    case SetProcessRule(resolved, arg1) => a.(table := Changed(a.table, SetRule(resolved, arg1 % 256)))
    case RemoveProcessRule(arg1, arg2) => RemoveRuleAt(a, arg1 % TWO_32, arg2 % TWO_32)
    case SetProfile(arg1) => if arg1 % 256 <= 3 then SwitchProfile(a, ProfileOf(arg1 % 256)) else a
    case NoCommand => a
    case Unknown => a
  }

  // ---- What a tick sees --------------------------------------------------

  /** A tracked process. The last three fields are what other parts of the agent and the system answer:
      the image path, what a probe would meet, and whether the corral backs off from it after failures. */
  datatype Target = Target(
    pid: U32,
    exe: Name,
    kind: TargetKind,
    eligible: bool,
    corralDenied: bool,
    cacheAdvised: bool,
    busy: bool,
    currentMask: bv32,
    threadPinMask: U64,
    bad: bool,
    imagePath: Option<Name>,
    answers: AcProbes.Answers,
    backingOff: bool)

  /** The core masks of the machine; all zero without an X3D split. */
  datatype Ccds = Ccds(vcache: bv32, all: bv32, vcacheMask: U64, freqMask: U64)

  datatype TickInput = TickInput(
    world: Procs,
    command: Command,
    targets: seq<Target>,
    acRunning: bool,
    coexist: bool,
    ccds: Ccds,
    decisions: seq<PinRequest>,
    clock: U64)

  /** A title that never gets a handle of any kind. */
  predicate DoNotProbe(t: Target) {
    !AcOracles.ProbeAllowed(AcOracles.ClassifyTitle(Text(t.exe)))
  }

  function UserRuleOf(a: Agent, t: Target): Option<UserRule> {
    FindUserRule(a.table.rules, t.exe, DoNotProbe(t), t.imagePath)
  }

  /** active_applied_mask: the row of the pid, else its differential pin, else 0. */
  function AppliedMask(rows: seq<ActiveAction>, t: Target): U64 {
    if rows == [] then t.threadPinMask
    else if rows[0].pid == t.pid then rows[0].newMask
    else AppliedMask(rows[1..], t)
  }

  // ---- The executor ------------------------------------------------------

  /** apply() of a PinAffinity decision. */
  function Apply(m: Machine, q: PinRequest): Machine {
    if Holds(m.rows, q.pid) || |m.rows| >= MAX_ACTIVE then m else Pin(m, q)
  }

  function ApplyTo(a: Agent, t: Target, mask: U64, ruleId: U32, clock: U64): Agent {
    a.(m := Apply(a.m, PinRequest(t.pid, ruleId, mask, t.exe, 0, clock)))
  }

  // ---- Housekeeping and quiet mode ---------------------------------------

  function Prune(a: Agent, targets: seq<Target>): Agent {
    a.(m := PruneDead(a.m, set t <- targets :: t.pid))
  }

  /** Every third tick the running processes are scanned; entering quiet mode reverts the corral and
      the user pins. */
  function AcScan(a: Agent, acRunning: bool): Agent {
    if a.scans + 1 < AC_SCAN_INTERVAL then a.(scans := a.scans + 1)
    else
      var m := if acRunning && !a.quiet then RevertBy(RevertBy(a.m, OfRule(CORRAL_RULE)), OfRule(USER_RULE)) else a.m;
      a.(m := m, scans := 0, quiet := acRunning)
  }

  // ---- The anti-cheat gate -----------------------------------------------

  function Text(name: Name): (s: string)
    ensures |s| == |name|
  {
    seq(|name|, i requires 0 <= i < |name| => name[i] as char)
  }

  /** probe_and_label for a tracked process. */
  function Probed(a: Agent, t: Target): Agent {
    a.(verdicts := AcProbes.AfterProbe(a.verdicts, Text(t.exe), t.answers))
  }

  predicate Refused(a: Agent, t: Target) {
    AcProbes.Refuses(AcProbes.Outcome(a.verdicts, Text(t.exe), t.answers))
  }

  // ---- User pins ---------------------------------------------------------

  predicate PlacementAllowed(a: Agent) {
    Effective(a.profile) != Monitor
  }

  function PinTarget(action: nat, ccds: Ccds): U64 {
    if action == 1 then ccds.freqMask else if action == 2 then ccds.vcacheMask else 0
  }

  /** evaluate_user_pin */
  predicate WouldPin(action: nat, t: Target, held: U64, ccds: Ccds) {
    && PinTarget(action, ccds) != 0 && ccds.vcache != 0 && ccds.freqMask != 0
    && if held != 0 then held % 0x1_0000_0000 != PinTarget(action, ccds) % 0x1_0000_0000
       else t.currentMask == 0 || t.currentMask == ccds.all
  }

  predicate NeedsAcGate(t: Target) {
    t.kind == Game || t.kind == UnknownKind
  }

  function UserPin(a: Agent, t: Target, ccds: Ccds, clock: U64): Agent {
    var rule := UserRuleOf(a, t);
    if t.pid == a.selfPid || rule.None? || rule.value.action == 0 then a
    else if !WouldPin(rule.value.action, t, AppliedMask(a.m.rows, t), ccds) then a
    else
      var b := if NeedsAcGate(t) then Probed(a, t) else a;
      if NeedsAcGate(t) && Refused(a, t) then b
      else ApplyTo(b, t, PinTarget(rule.value.action, ccds), USER_RULE, clock)
  }

  function UserPins(a: Agent, ts: seq<Target>, ccds: Ccds, clock: U64): Agent {
    if ts == [] then a else UserPin(UserPins(a, ts[..|ts| - 1], ccds, clock), ts[|ts| - 1], ccds, clock)
  }

  function UserPass(a: Agent, i: TickInput): Agent {
    if PlacementAllowed(a) && !a.paused && !a.quiet && a.table.rules != [] then UserPins(a, i.targets, i.ccds, i.clock) else a
  }

  // ---- The corral --------------------------------------------------------

  /** evaluate_corral */
  predicate WouldCorral(t: Target, ccds: Ccds) {
    && t.kind != Game && !t.eligible && t.kind != System && !t.corralDenied
    && ccds.vcache != 0 && ccds.freqMask != 0
    && !t.cacheAdvised && t.busy
    && t.currentMask != 0 && t.currentMask & ccds.vcache != 0 && t.currentMask == ccds.all
  }

  predicate CorralOpen(a: Agent, coexist: bool) {
    a.corralLive && !coexist && PlacementAllowed(a) && !a.quiet && Effective(a.profile) == GamesCorral
  }

  function CorralOne(a: Agent, t: Target, ccds: Ccds, clock: U64): Agent {
    if t.pid == a.selfPid || UserRuleOf(a, t).Some? || !WouldCorral(t, ccds) then a
    else if AppliedMask(a.m.rows, t) == ccds.freqMask || t.backingOff then a
    else ApplyTo(a, t, ccds.freqMask, CORRAL_RULE, clock)
  }

  function CorralAll(a: Agent, ts: seq<Target>, ccds: Ccds, clock: U64): Agent {
    if ts == [] then a else CorralOne(CorralAll(a, ts[..|ts| - 1], ccds, clock), ts[|ts| - 1], ccds, clock)
  }

  /** Without the gate the corral only reports what it would do. */
  function CorralPass(a: Agent, i: TickInput): Agent {
    if CorralOpen(a, i.coexist) then CorralAll(a, i.targets, i.ccds, i.clock) else a
  }

  // ---- The automatic decisions -------------------------------------------

  function TargetOf(ts: seq<Target>, pid: U32): Option<Target> {
    if ts == [] then None else if ts[0].pid == pid then Some(ts[0]) else TargetOf(ts[1..], pid)
  }

  predicate Withheld(a: Agent, ts: seq<Target>, d: PinRequest) {
    var t := TargetOf(ts, d.pid);
    t.Some? && (t.value.bad || UserRuleOf(a, t.value).Some?)
  }

  /** Decisions of the policy engine (rules 1 to 8) and of the per-game memory (99). Rule 7 goes to
      the table of thread pins. */
  predicate Automatic(d: PinRequest) {
    1 <= d.ruleId <= 8 || d.ruleId == 99
  }

  function ApplyOne(a: Agent, ts: seq<Target>, d: PinRequest): Agent {
    if a.paused || !PlacementAllowed(a) || Withheld(a, ts, d) then a
    else
      var t := TargetOf(ts, d.pid);
      var gated := t.Some? && t.value.kind == Game;
      var b := if gated then Probed(a, t.value) else a;
      if d.ruleId == 7 || (gated && Refused(a, t.value)) then b else b.(m := Apply(b.m, d))
  }

  function ApplyPass(a: Agent, ts: seq<Target>, ds: seq<PinRequest>): Agent {
    if ds == [] then a else ApplyOne(ApplyPass(a, ts, ds[..|ds| - 1]), ts, ds[|ds| - 1])
  }

  // ---- One tick ----------------------------------------------------------

  /** Up to the placements: commands first, so that a new profile counts in the same tick. */
  function Prepared(a: Agent, i: TickInput): Agent {
    AcScan(Prune(Handle(a.(m := a.m.(procs := i.world)), i.command), i.targets), i.acRunning)
  }

  function Tick(a: Agent, i: TickInput): Agent {
    ApplyPass(CorralPass(UserPass(Prepared(a, i), i), i), i.targets, i.decisions)
  }

  function Ticks(a: Agent, ins: seq<TickInput>): Agent {
    if ins == [] then a else Tick(Ticks(a, ins[..|ins| - 1]), ins[|ins| - 1])
  }

  /** What the automatic path may contain. */
  predicate Ordinary(ins: seq<TickInput>) {
    forall i <- ins :: forall d <- i.decisions :: Automatic(d)
  }

  // ---- The gates hold ----------------------------------------------------

  /** Who may have a row under the agent's present mode. */
  predicate RowAllowed(a: Agent, r: ActiveAction) {
    && (r.ruleId == CORRAL_RULE ==> Effective(a.profile) == GamesCorral && !a.quiet && r.pid != a.selfPid)
    && (r.ruleId == USER_RULE ==> a.profile != Monitor && !a.quiet && r.pid != a.selfPid)
  }

  predicate Gated(a: Agent) {
    UniquePids(a.m.rows) && forall r <- a.m.rows :: RowAllowed(a, r)
  }

  lemma RevertByRows(m: Machine, sel: Selector)
    requires UniquePids(m.rows)
    ensures RevertBy(m, sel).rows == Leave(m.rows, sel) && UniquePids(RevertBy(m, sel).rows)
  {
    RevertSelection(m, sel);
    LeaveUnique(m.rows, sel);
  }

  lemma RevertAllRows(m: Machine)
    requires UniquePids(m.rows)
    ensures RevertAll(m).rows == []
  {
    var every := OfLive(set r <- m.rows :: r.pid);
    SelectAll(m.rows, every);
    RevertSelection(m, every);
  }

  /** Rows that were allowed and are still there are allowed, if the mode lets them. */
  lemma FewerRows(a: Agent, b: Agent)
    requires Gated(a) && UniquePids(b.m.rows) && b.selfPid == a.selfPid
    requires forall r <- b.m.rows :: r in a.m.rows && (RowAllowed(a, r) ==> RowAllowed(b, r))
    ensures Gated(b)
  {
    forall r | r in b.m.rows ensures RowAllowed(b, r) {
      assert RowAllowed(a, r);
    }
  }

  /** Reverting the corral and then the user pins leaves the other rows. */
  lemma BothReverted(m: Machine)
    requires UniquePids(m.rows)
    ensures var left := RevertBy(RevertBy(m, OfRule(CORRAL_RULE)), OfRule(USER_RULE)).rows;
            && UniquePids(left)
            && forall r <- left :: r in m.rows && r.ruleId != CORRAL_RULE && r.ruleId != USER_RULE
  {
    RevertByRows(m, OfRule(CORRAL_RULE));
    RevertByRows(RevertBy(m, OfRule(CORRAL_RULE)), OfRule(USER_RULE));
  }

  lemma SwitchProfileKeeps(a: Agent, p: Profile)
    requires Gated(a)
    ensures Gated(SwitchProfile(a, p))
  {
    if Effective(p) == Monitor {
      BothReverted(a.m);
    } else {
      RevertByRows(a.m, OfRule(CORRAL_RULE));
    }
    FewerRows(a, SwitchProfile(a, p));
  }

  lemma RemoveRuleKeeps(a: Agent, slot: nat, gen: U32)
    requires Gated(a)
    ensures Gated(RemoveRuleAt(a, slot, gen))
  {
    if Accepted(a.table, RemoveRule(slot, gen)) {
      RevertByRows(a.m, OfRuleAndName(USER_RULE, a.table.rules[slot].name));
      FewerRows(a, RemoveRuleAt(a, slot, gen));
    }
  }

  lemma CorralLiveKeeps(a: Agent, arg1: nat, arg2: nat)
    requires Gated(a)
    ensures Gated(Handle(a, SetCorralLive(arg1, arg2)))
  {
    RevertByRows(a.m, OfRule(CORRAL_RULE));
    FewerRows(a, Handle(a, SetCorralLive(arg1, arg2)));
  }

  lemma HandleKeeps(a: Agent, c: Command)
    requires Gated(a)
    ensures Gated(Handle(a, c))
  {
    match c
    case SetCorralLive(arg1, arg2) => CorralLiveKeeps(a, arg1, arg2);
    case RemoveProcessRule(arg1, arg2) => RemoveRuleKeeps(a, arg1 % TWO_32, arg2 % TWO_32);
    case SetProfile(arg1) =>
      if arg1 % 256 <= 3 {
        SwitchProfileKeeps(a, ProfileOf(arg1 % 256));
      }
    case _ =>
      RevertAllRows(a.m);
      FewerRows(a, Handle(a, c));
  }

  lemma PruneKeeps(a: Agent, targets: seq<Target>)
    requires Gated(a)
    ensures Gated(Prune(a, targets))
  {
    hide PruneLog;
    SelectUnique(a.m.rows, OfLive(set t <- targets :: t.pid));
  }

  lemma AcScanKeeps(a: Agent, acRunning: bool)
    requires Gated(a)
    ensures Gated(AcScan(a, acRunning))
  {
    hide RevertBy;
    BothReverted(a.m);
    FewerRows(a, AcScan(a, acRunning));
  }

  /** apply() adds at most one row: that of the request. */
  lemma ApplyRows(m: Machine, q: PinRequest)
    requires UniquePids(m.rows)
    ensures UniquePids(Apply(m, q).rows)
    ensures Apply(m, q).rows == m.rows ||
            exists r :: Apply(m, q).rows == m.rows + [r] && r.pid == q.pid && r.ruleId == q.ruleId && r.newMask == q.coreMask
  {
    if !Holds(m.rows, q.pid) && |m.rows| < MAX_ACTIVE {
      assert Pin(m, q).rows == m.rows || Pin(m, q).rows == m.rows + [PinAction(m.procs, q)];
    }
  }

  /** The placement passes change the machine and the verdicts only. */
  predicate SameMode(a: Agent, b: Agent) {
    b == a.(m := b.m, verdicts := b.verdicts)
  }

  /** Same mode, and every new row is allowed in it. */
  predicate Extends(a: Agent, b: Agent) {
    SameMode(a, b) && UniquePids(b.m.rows) && forall r <- b.m.rows :: r in a.m.rows || RowAllowed(a, r)
  }

  lemma ApplyToRows(a: Agent, t: Target, mask: U64, ruleId: U32, clock: U64)
    requires UniquePids(a.m.rows)
    ensures var b := ApplyTo(a, t, mask, ruleId, clock);
            && SameMode(a, b) && UniquePids(b.m.rows)
            && forall r <- b.m.rows :: r in a.m.rows || (!Holds(a.m.rows, t.pid) && r.pid == t.pid && r.ruleId == ruleId && r.newMask == mask)
  {
    hide Pin;
    ApplyRows(a.m, PinRequest(t.pid, ruleId, mask, t.exe, 0, clock));
  }

  /** The user pins the process: the gate aside. */
  predicate Asks(a: Agent, t: Target, ccds: Ccds) {
    var rule := UserRuleOf(a, t);
    && t.pid != a.selfPid && rule.Some? && rule.value.action != 0
    && WouldPin(rule.value.action, t, AppliedMask(a.m.rows, t), ccds)
  }

  function MaskFor(a: Agent, t: Target, ccds: Ccds): U64 {
    var rule := UserRuleOf(a, t);
    if rule.Some? then PinTarget(rule.value.action, ccds) else 0
  }

  lemma UserPinIs(a: Agent, t: Target, ccds: Ccds, clock: U64)
    ensures UserPin(a, t, ccds, clock)
         == if !Asks(a, t, ccds) then a
            else if !NeedsAcGate(t) then ApplyTo(a, t, MaskFor(a, t, ccds), USER_RULE, clock)
            else if Refused(a, t) then Probed(a, t)
            else ApplyTo(Probed(a, t), t, MaskFor(a, t, ccds), USER_RULE, clock)
  {
    hide Refused, Probed, ApplyTo, WouldPin, UserRuleOf;
  }

  /** A user pin adds at most its own row, and what that rests on. */
  lemma UserPinRow(a: Agent, t: Target, ccds: Ccds, clock: U64)
    requires UniquePids(a.m.rows)
    ensures var b := UserPin(a, t, ccds, clock);
            && SameMode(a, b) && UniquePids(b.m.rows)
            && forall r <- b.m.rows :: r in a.m.rows || (
                 && !Holds(a.m.rows, t.pid) && r.pid == t.pid && r.ruleId == USER_RULE && r.newMask == MaskFor(a, t, ccds)
                 && Asks(a, t, ccds) && (NeedsAcGate(t) ==> !Refused(a, t)))
  {
    hide Refused, ApplyTo, Asks, UserPin, NeedsAcGate, MaskFor;
    UserPinIs(a, t, ccds, clock);
    ApplyToRows(a, t, MaskFor(a, t, ccds), USER_RULE, clock);
    ApplyToRows(Probed(a, t), t, MaskFor(a, t, ccds), USER_RULE, clock);
  }

  lemma UserPinExtends(a: Agent, t: Target, ccds: Ccds, clock: U64)
    requires UniquePids(a.m.rows) && PlacementAllowed(a) && !a.quiet
    ensures Extends(a, UserPin(a, t, ccds, clock))
  {
    hide UserPin, WouldPin, UserRuleOf, Refused, MaskFor;
    UserPinRow(a, t, ccds, clock);
  }

  lemma {:induction false} UserPinsExtend(a: Agent, ts: seq<Target>, ccds: Ccds, clock: U64)
    requires UniquePids(a.m.rows) && PlacementAllowed(a) && !a.quiet
    ensures Extends(a, UserPins(a, ts, ccds, clock))
  {
    hide UserPin;
    if ts != [] {
      var front := ts[..|ts| - 1];
      UserPinsExtend(a, front, ccds, clock);
      UserPinExtends(UserPins(a, front, ccds, clock), ts[|ts| - 1], ccds, clock);
    }
  }

  lemma CorralOneExtends(a: Agent, t: Target, ccds: Ccds, clock: U64)
    requires UniquePids(a.m.rows) && Effective(a.profile) == GamesCorral && !a.quiet
    ensures Extends(a, CorralOne(a, t, ccds, clock))
  {
    hide UserRuleOf, WouldCorral, ApplyTo;
    ApplyToRows(a, t, ccds.freqMask, CORRAL_RULE, clock);
  }

  lemma {:induction false} CorralAllExtends(a: Agent, ts: seq<Target>, ccds: Ccds, clock: U64)
    requires UniquePids(a.m.rows) && Effective(a.profile) == GamesCorral && !a.quiet
    ensures Extends(a, CorralAll(a, ts, ccds, clock))
  {
    if ts != [] {
      var front := ts[..|ts| - 1];
      CorralAllExtends(a, front, ccds, clock);
      CorralOneExtends(CorralAll(a, front, ccds, clock), ts[|ts| - 1], ccds, clock);
    }
  }

  /** A decision adds at most its own row, and none for a tracked process that a user rule speaks for. */
  lemma ApplyOneRows(a: Agent, ts: seq<Target>, d: PinRequest)
    requires UniquePids(a.m.rows)
    ensures SameMode(a, ApplyOne(a, ts, d)) && UniquePids(ApplyOne(a, ts, d).m.rows)
    ensures forall r <- ApplyOne(a, ts, d).m.rows ::
              r in a.m.rows || (r.pid == d.pid && r.ruleId == d.ruleId && !a.paused && PlacementAllowed(a) && !Withheld(a, ts, d))
  {
    hide Apply, Withheld, Refused, TargetOf, AcProbes.AfterProbe;
    ApplyRows(a.m, d);
  }

  lemma {:induction false} ApplyPassExtends(a: Agent, ts: seq<Target>, ds: seq<PinRequest>)
    requires UniquePids(a.m.rows) && forall d <- ds :: Automatic(d)
    ensures Extends(a, ApplyPass(a, ts, ds))
  {
    hide ApplyOne;
    if ds != [] {
      var front, d := ds[..|ds| - 1], ds[|ds| - 1];
      ApplyPassExtends(a, ts, front);
      assert Automatic(d);
      ApplyOneRows(ApplyPass(a, ts, front), ts, d);
    }
  }

  lemma ExtendsGated(a: Agent, b: Agent)
    requires Gated(a) && Extends(a, b)
    ensures Gated(b)
  {
    forall r | r in b.m.rows ensures RowAllowed(b, r) {
      assert RowAllowed(a, r);
    }
  }

  lemma PreparedGated(a: Agent, i: TickInput)
    requires Gated(a)
    ensures Gated(Prepared(a, i))
  {
    var b := a.(m := a.m.(procs := i.world));
    assert forall r <- b.m.rows :: RowAllowed(a, r);
    HandleKeeps(b, i.command);
    PruneKeeps(Handle(b, i.command), i.targets);
    AcScanKeeps(Prune(Handle(b, i.command), i.targets), i.acRunning);
  }

  lemma TickKeepsGates(a: Agent, i: TickInput)
    requires Gated(a) && forall d <- i.decisions :: Automatic(d)
    ensures Gated(Tick(a, i))
  {
    PreparedGated(a, i);
    var a1 := Prepared(a, i);
    var a2 := UserPass(a1, i);
    if a2 != a1 {
      UserPinsExtend(a1, i.targets, i.ccds, i.clock);
      ExtendsGated(a1, a2);
    }
    var a3 := CorralPass(a2, i);
    if a3 != a2 {
      CorralAllExtends(a2, i.targets, i.ccds, i.clock);
      ExtendsGated(a2, a3);
    }
    ApplyPassExtends(a3, i.targets, i.decisions);
    ExtendsGated(a3, ApplyPass(a3, i.targets, i.decisions));
  }

  /** At the end of every tick of every run: a corral row means that the effective profile is
      GamesCorral, a user-pin row means that the profile is not Monitor, in quiet mode there is
      neither, and neither is on the agent's own process. */
  lemma {:induction false} GatesHold(a: Agent, ins: seq<TickInput>)
    requires a.m.rows == [] && Ordinary(ins)
    ensures Gated(Ticks(a, ins))
  {
    if ins != [] {
      var front, last := ins[..|ins| - 1], ins[|ins| - 1];
      GatesHold(a, front);
      assert last in ins;
      TickKeepsGates(Ticks(a, front), last);
    }
  }

  // ---- What the modes keep out -------------------------------------------

  /** In Monitor a tick places nothing. */
  lemma MonitorPlacesNothing(a: Agent, i: TickInput)
    requires !PlacementAllowed(Prepared(a, i))
    ensures Tick(a, i) == Prepared(a, i)
  {
    NothingApplied(Prepared(a, i), i.targets, i.decisions);
  }

  lemma {:induction false} NothingApplied(a: Agent, ts: seq<Target>, ds: seq<PinRequest>)
    requires a.paused || !PlacementAllowed(a)
    ensures ApplyPass(a, ts, ds) == a
  {
    if ds != [] {
      NothingApplied(a, ts, ds[..|ds| - 1]);
    }
  }

  /** A row that one of the decisions accounts for. */
  predicate Decided(ds: seq<PinRequest>, r: ActiveAction) {
    exists d <- ds :: r.pid == d.pid && r.ruleId == d.ruleId
  }

  lemma {:induction false} DecisionsAccount(a: Agent, ts: seq<Target>, ds: seq<PinRequest>)
    requires UniquePids(a.m.rows)
    ensures UniquePids(ApplyPass(a, ts, ds).m.rows)
    ensures forall r <- ApplyPass(a, ts, ds).m.rows :: r in a.m.rows || Decided(ds, r)
  {
    hide ApplyOne;
    if ds != [] {
      var front, d := ds[..|ds| - 1], ds[|ds| - 1];
      DecisionsAccount(a, ts, front);
      ApplyOneRows(ApplyPass(a, ts, front), ts, d);
      assert d in ds && forall e <- front :: e in ds;
    }
  }

  /** In quiet mode only the automatic decisions are applied: every new row is on the process and for the
      rule of one of them. */
  lemma QuietPlacesNoUserPins(a: Agent, i: TickInput)
    requires Gated(a) && Prepared(a, i).quiet
    ensures Tick(a, i) == ApplyPass(Prepared(a, i), i.targets, i.decisions)
    ensures forall r <- Tick(a, i).m.rows :: r in Prepared(a, i).m.rows || Decided(i.decisions, r)
  {
    hide Prepared, ApplyPass;
    PreparedGated(a, i);
    DecisionsAccount(Prepared(a, i), i.targets, i.decisions);
  }

  /** The corral gets a row for this target. */
  predicate Corralled(a: Agent, t: Target, ccds: Ccds) {
    && t.pid != a.selfPid && UserRuleOf(a, t).None? && WouldCorral(t, ccds) && !t.backingOff
    && !Holds(a.m.rows, t.pid) && AppliedMask(a.m.rows, t) != ccds.freqMask
    && |a.m.rows| < MAX_ACTIVE && SetSucceeds(a.m.procs, t.pid, ccds.freqMask)
  }

  /** A refused request leaves its PENDING record in the journal and nothing else. */
  predicate OnlySlots(a: Agent, b: Agent) {
    b == a.(m := a.m.(slots := b.m.slots))
  }

  lemma CorralOneRow(a: Agent, t: Target, ccds: Ccds, clock: U64)
    ensures Corralled(a, t, ccds) ==> |CorralOne(a, t, ccds, clock).m.rows| == |a.m.rows| + 1
    ensures !Corralled(a, t, ccds) ==> OnlySlots(a, CorralOne(a, t, ccds, clock))
  {
  }

  lemma SameCorralled(a: Agent, b: Agent, t: Target, ccds: Ccds)
    requires OnlySlots(a, b)
    ensures Corralled(a, t, ccds) == Corralled(b, t, ccds)
  {
  }

  lemma {:induction false} CorralRows(a: Agent, ts: seq<Target>, ccds: Ccds, clock: U64)
    ensures |CorralAll(a, ts, ccds, clock).m.rows| >= |a.m.rows|
    ensures (exists t <- ts :: Corralled(a, t, ccds)) ==> |CorralAll(a, ts, ccds, clock).m.rows| > |a.m.rows|
    ensures !(exists t <- ts :: Corralled(a, t, ccds)) ==> OnlySlots(a, CorralAll(a, ts, ccds, clock))
  {
    hide CorralOne, Corralled;
    if ts != [] {
      var front, t := ts[..|ts| - 1], ts[|ts| - 1];
      var b := CorralAll(a, front, ccds, clock);
      CorralRows(a, front, ccds, clock);
      CorralOneRow(b, t, ccds, clock);
      assert ts == front + [t];
      if OnlySlots(a, b) {
        SameCorralled(a, b, t, ccds);
      }
    }
  }

  /** Pausing does not close the corral: a paused tick leaves the placements alone exactly when the
      corral is shut or has no process to move. */
  lemma PausedPlacesNothingIff(a: Agent, i: TickInput)
    requires Prepared(a, i).paused
    ensures Tick(a, i) == CorralPass(Prepared(a, i), i)
    ensures Tick(a, i).m.rows == Prepared(a, i).m.rows
       <==> !CorralOpen(Prepared(a, i), i.coexist) || !(exists t <- i.targets :: Corralled(Prepared(a, i), t, i.ccds))
  {
    var b := Prepared(a, i);
    CorralStaysPaused(b, i);
    NothingApplied(CorralPass(b, i), i.targets, i.decisions);
    CorralRows(b, i.targets, i.ccds, i.clock);
  }

  lemma CorralStaysPaused(a: Agent, i: TickInput)
    ensures CorralPass(a, i).paused == a.paused
  {
    CorralKeepsMode(a, i.targets, i.ccds, i.clock);
  }

  lemma {:induction false} CorralKeepsMode(a: Agent, ts: seq<Target>, ccds: Ccds, clock: U64)
    ensures CorralAll(a, ts, ccds, clock) == a.(m := CorralAll(a, ts, ccds, clock).m)
  {
    if ts != [] {
      CorralKeepsMode(a, ts[..|ts| - 1], ccds, clock);
    }
  }

  // ---- The user comes first ----------------------------------------------

  /** A corral row is new only for a process that may be corralled. */
  lemma CorralOneRespects(a: Agent, t: Target, ccds: Ccds, clock: U64)
    requires UniquePids(a.m.rows)
    ensures UniquePids(CorralOne(a, t, ccds, clock).m.rows)
    ensures forall r <- CorralOne(a, t, ccds, clock).m.rows :: r in a.m.rows || (
              && r.ruleId == CORRAL_RULE && r.newMask == ccds.freqMask && r.pid == t.pid != a.selfPid
              && UserRuleOf(a, t).None? && MayBeCorralled(t, ccds))
  {
    hide UserRuleOf, ApplyTo;
    ApplyToRows(a, t, ccds.freqMask, CORRAL_RULE, clock);
  }

  /** Every row the corral adds is on a busy tracked process with an unrestricted mask that no user rule
      speaks for: no game, no system process, not placement-eligible, not denied, not better off on the
      V-Cache. It goes to the frequency CCD. */
  lemma {:induction false} CorralRespectsUsers(a: Agent, ts: seq<Target>, ccds: Ccds, clock: U64)
    requires UniquePids(a.m.rows)
    ensures UniquePids(CorralAll(a, ts, ccds, clock).m.rows)
    ensures forall r <- CorralAll(a, ts, ccds, clock).m.rows :: r in a.m.rows || CorralRowFor(a, ts, ccds, r)
  {
    hide CorralOne, MayBeCorralled;
    if ts != [] {
      var front, t := ts[..|ts| - 1], ts[|ts| - 1];
      var b := CorralAll(a, front, ccds, clock);
      CorralRespectsUsers(a, front, ccds, clock);
      CorralKeepsMode(a, front, ccds, clock);
      assert ts == front + [t];
      CorralOneRespects(b, t, ccds, clock);
      forall r | r in CorralOne(b, t, ccds, clock).m.rows ensures r in a.m.rows || CorralRowFor(a, ts, ccds, r) {
        if r in b.m.rows {
          assert r in a.m.rows || CorralRowFor(a, front, ccds, r);
        } else {
          assert t in ts;
        }
      }
    }
  }

  predicate MayBeCorralled(t: Target, ccds: Ccds) {
    && t.busy && t.kind != Game && t.kind != System && !t.eligible && !t.corralDenied && !t.cacheAdvised
    && t.currentMask == ccds.all != 0
  }

  ghost predicate CorralRowFor(a: Agent, ts: seq<Target>, ccds: Ccds, r: ActiveAction) {
    && r.ruleId == CORRAL_RULE && r.newMask == ccds.freqMask
    && exists t <- ts :: t.pid == r.pid && t.pid != a.selfPid && UserRuleOf(a, t).None? && MayBeCorralled(t, ccds)
  }

  /** What a user pin rests on: a rule for the CCD it goes to, a probe that did not refuse for games and
      unknown processes, and no foreign manager's mask on the process. */
  ghost predicate UserRowFor(a: Agent, ts: seq<Target>, ccds: Ccds, clock: U64, r: ActiveAction) {
    && r.ruleId == USER_RULE
    && exists k :: 0 <= k < |ts| && ts[k].pid == r.pid && PinFor(UserPins(a, ts[..k], ccds, clock), ts[k], ccds, r)
  }

  predicate PinFor(a: Agent, t: Target, ccds: Ccds, r: ActiveAction) {
    var rule := UserRuleOf(a, t);
    && t.pid != a.selfPid && rule.Some?
    && ((rule.value.action == 1 && r.newMask == ccds.freqMask) || (rule.value.action == 2 && r.newMask == ccds.vcacheMask))
    && (NeedsAcGate(t) ==> !Refused(a, t))
    && (t.threadPinMask != 0 || t.currentMask == 0 || t.currentMask == ccds.all)
  }

  lemma NoRowNoMask(rows: seq<ActiveAction>, t: Target)
    requires !Holds(rows, t.pid)
    ensures AppliedMask(rows, t) == t.threadPinMask
  {
    if rows != [] {
      assert rows[0].pid != t.pid;
      forall i | 0 <= i < |rows[1..]| ensures rows[1..][i].pid != t.pid {
        assert rows[1..][i] == rows[i + 1];
      }
      NoRowNoMask(rows[1..], t);
    }
  }

  lemma AskedPin(a: Agent, t: Target, ccds: Ccds, r: ActiveAction)
    requires Asks(a, t, ccds) && !Holds(a.m.rows, t.pid) && r.newMask == MaskFor(a, t, ccds)
    requires NeedsAcGate(t) ==> !Refused(a, t)
    ensures PinFor(a, t, ccds, r)
  {
    hide Refused, UserRuleOf;
    NoRowNoMask(a.m.rows, t);
  }

  /** Every row the user pass adds follows a rule of the user, to the CCD it names; it never bypasses the
      anti-cheat gate and never fights another manager. */
  lemma {:induction false} UserPinsAreAsked(a: Agent, ts: seq<Target>, ccds: Ccds, clock: U64)
    requires UniquePids(a.m.rows)
    ensures UniquePids(UserPins(a, ts, ccds, clock).m.rows)
    ensures forall r <- UserPins(a, ts, ccds, clock).m.rows :: r in a.m.rows || UserRowFor(a, ts, ccds, clock, r)
  {
    hide UserPin, PinFor, Asks, MaskFor, NeedsAcGate, Refused;
    if ts != [] {
      var n := |ts| - 1;
      var front, t := ts[..n], ts[n];
      var b := UserPins(a, front, ccds, clock);
      UserPinsAreAsked(a, front, ccds, clock);
      UserPinRow(b, t, ccds, clock);
      forall r | r in UserPin(b, t, ccds, clock).m.rows ensures r in a.m.rows || UserRowFor(a, ts, ccds, clock, r) {
        if r in b.m.rows {
          StillAsked(a, ts, n, ccds, clock, r);
        } else {
          AskedPin(b, t, ccds, r);
        }
      }
    }
  }

  lemma StillAsked(a: Agent, ts: seq<Target>, n: nat, ccds: Ccds, clock: U64, r: ActiveAction)
    requires n <= |ts| && (r in a.m.rows || UserRowFor(a, ts[..n], ccds, clock, r))
    ensures r in a.m.rows || UserRowFor(a, ts, ccds, clock, r)
  {
    hide UserPins, PinFor;
    if r !in a.m.rows {
      var k :| 0 <= k < n && ts[..n][k].pid == r.pid && PinFor(UserPins(a, ts[..n][..k], ccds, clock), ts[..n][k], ccds, r);
      assert ts[..n][..k] == ts[..k];
    }
  }

  /** The automatic path never acts on a tracked process that a user rule speaks for. */
  lemma {:induction false} AutomationRespectsUsers(a: Agent, ts: seq<Target>, ds: seq<PinRequest>)
    requires UniquePids(a.m.rows)
    ensures UniquePids(ApplyPass(a, ts, ds).m.rows) && SameMode(a, ApplyPass(a, ts, ds))
    ensures forall r <- ApplyPass(a, ts, ds).m.rows ::
      r in a.m.rows || TargetOf(ts, r.pid).None? || UserRuleOf(a, TargetOf(ts, r.pid).value).None?
  {
    hide ApplyOne;
    if ds != [] {
      AutomationRespectsUsers(a, ts, ds[..|ds| - 1]);
      ApplyOneRows(ApplyPass(a, ts, ds[..|ds| - 1]), ts, ds[|ds| - 1]);
    }
  }
}
