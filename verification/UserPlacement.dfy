/** When a user's Always rule takes effect. The code says that a user pin wins over automatic placement;
    it does on processes that have no row yet, in the order of the targets, while the table has room. */
module UserPlacements {
  import opened Common
  import opened Placement
  import opened ActiveTable
  import opened UserRules
  import opened AgentGates
  import AcProbes

  // ---- One process -------------------------------------------------------

  function UserRequest(a: Agent, t: Target, ccds: Ccds, clock: U64): PinRequest {
    PinRequest(t.pid, USER_RULE, MaskFor(a, t, ccds), t.exe, 0, clock)
  }

  predicate PassesGate(a: Agent, t: Target) {
    NeedsAcGate(t) ==> !Refused(a, t)
  }

  lemma ApplyToEffect(a: Agent, t: Target, mask: U64, clock: U64)
    ensures var b := ApplyTo(a, t, mask, USER_RULE, clock);
            if HasRoomFor(a.m, t.pid) && SetSucceeds(a.m.procs, t.pid, mask)
            then b.m.rows == a.m.rows + [PinAction(a.m.procs, PinRequest(t.pid, USER_RULE, mask, t.exe, 0, clock))]
                 && b.m.procs == SetMask(a.m.procs, t.pid, mask)
            else b.m.rows == a.m.rows && b.m.procs == a.m.procs
  {
    hide PinRecord, PinAction;
  }

  /** A user pin that its rule, the state of the process and the anti-cheat gate speak for adds its row, and
      sets the mask, exactly when the process has no row yet, the table has room and the system grants the
      Set. Otherwise an earlier row stays, whatever its rule and its mask. */
  lemma UserPinTakesIff(a: Agent, t: Target, ccds: Ccds, clock: U64)
    requires Asks(a, t, ccds) && PassesGate(a, t)
    ensures var b, mask := UserPin(a, t, ccds, clock), MaskFor(a, t, ccds);
            if HasRoomFor(a.m, t.pid) && SetSucceeds(a.m.procs, t.pid, mask)
            then b.m.rows == a.m.rows + [PinAction(a.m.procs, UserRequest(a, t, ccds, clock))]
                 && b.m.procs == SetMask(a.m.procs, t.pid, mask)
            else b.m.rows == a.m.rows && b.m.procs == a.m.procs
  {
    hide Asks, Refused, MaskFor, UserPin, ApplyTo, SetSucceeds, HasRoomFor, PinAction, SetMask;
    UserPinIs(a, t, ccds, clock);
    ApplyToEffect(if NeedsAcGate(t) then Probed(a, t) else a, t, MaskFor(a, t, ccds), clock);
  }

  // ---- A pass over the targets -------------------------------------------

  predicate DistinctTargets(ts: seq<Target>) {
    forall i, j :: 0 <= i < j < |ts| ==> ts[i].pid != ts[j].pid
  }

  /** The verdicts after the probes that the pass makes for these targets. */
  function VerdictsAfter(a: Agent, ts: seq<Target>, ccds: Ccds): AcProbes.Memory {
    if ts == [] then a.verdicts
    else
      var v, t := VerdictsAfter(a, ts[..|ts| - 1], ccds), ts[|ts| - 1];
      if Asks(a, t, ccds) && NeedsAcGate(t) then AcProbes.AfterProbe(v, Text(t.exe), t.answers) else v
  }

  /** The pin has everything but room. */
  predicate Ready(a: Agent, t: Target, ccds: Ccds) {
    Asks(a, t, ccds) && PassesGate(a, t) && !Holds(a.m.rows, t.pid) && SetSucceeds(a.m.procs, t.pid, MaskFor(a, t, ccds))
  }

  /** Those targets that are ready when their turn comes. */
  function ReadyOnes(a: Agent, ts: seq<Target>, ccds: Ccds): (out: seq<Target>)
    ensures forall t :: t in out ==> t in ts
  {
    if ts == [] then []
    else
      var front, t := ts[..|ts| - 1], ts[|ts| - 1];
      ReadyOnes(a, front, ccds) + (if Ready(a.(verdicts := VerdictsAfter(a, front, ccds)), t, ccds) then [t] else [])
  }

  function Room(a: Agent): nat {
    if |a.m.rows| < MAX_ACTIVE then MAX_ACTIVE - |a.m.rows| else 0
  }

  /** The ready ones that find room. */
  function Served(a: Agent, ts: seq<Target>, ccds: Ccds): (out: seq<Target>)
    ensures forall t :: t in out ==> t in ts
  {
    var ready := ReadyOnes(a, ts, ccds);
    if |ready| <= Room(a) then ready else ready[..Room(a)]
  }

  function NewRows(a: Agent, ts: seq<Target>, ccds: Ccds, clock: U64): (rows: seq<ActiveAction>)
    ensures |rows| == |ts|
    ensures forall k :: 0 <= k < |ts| ==> rows[k].pid == ts[k].pid && rows[k].newMask == MaskFor(a, ts[k], ccds)
  {
    seq(|ts|, k requires 0 <= k < |ts| => PinAction(a.m.procs, UserRequest(a, ts[k], ccds, clock)))
  }

  predicate SameAt(p: Procs, q: Procs, pid: U32) {
    (pid in p <==> pid in q) && (pid in p ==> p[pid] == q[pid])
  }

  /** What the pass has done after the targets ts. */
  ghost predicate PassedOver(a: Agent, ts: seq<Target>, ccds: Ccds, clock: U64, b: Agent) {
    && SameMode(a, b)
    && b.verdicts == VerdictsAfter(a, ts, ccds)
    && b.m.rows == a.m.rows + NewRows(a, Served(a, ts, ccds), ccds, clock)
    && (forall pid: U32 :: (forall t <- ts :: t.pid != pid) ==> SameAt(a.m.procs, b.m.procs, pid))
    && (forall t <- Served(a, ts, ccds) :: t.pid in b.m.procs && b.m.procs[t.pid].mask == MaskFor(a, t, ccds))
  }

  lemma {:induction false} AppliedElsewhere(rows: seq<ActiveAction>, more: seq<ActiveAction>, t: Target)
    requires forall r <- more :: r.pid != t.pid
    ensures AppliedMask(rows + more, t) == AppliedMask(rows, t)
  {
    if rows == [] {
      assert rows + more == more;
      NotHeld(more, t.pid);
      NoRowNoMask(more, t);
    } else {
      assert (rows + more)[1..] == rows[1..] + more;
      AppliedElsewhere(rows[1..], more, t);
    }
  }

  lemma NotHeld(rows: seq<ActiveAction>, pid: U32)
    requires forall r <- rows :: r.pid != pid
    ensures !Holds(rows, pid)
  {
    forall i | 0 <= i < |rows| ensures rows[i].pid != pid {
      assert rows[i] in rows;
    }
  }

  lemma HoldsAppend(rows: seq<ActiveAction>, more: seq<ActiveAction>, pid: U32)
    ensures Holds(rows + more, pid) <==> Holds(rows, pid) || Holds(more, pid)
  {
    forall i | 0 <= i < |rows| ensures (rows + more)[i] == rows[i] {
    }
    forall i | 0 <= i < |more| ensures (rows + more)[|rows| + i] == more[i] {
    }
  }

  /** For a target whose turn has not come, nothing but the verdicts and the room has changed. */
  lemma SameForNext(a: Agent, ts: seq<Target>, ccds: Ccds, clock: U64, b: Agent, t: Target)
    requires PassedOver(a, ts, ccds, clock, b) && forall s <- ts :: s.pid != t.pid
    ensures AppliedMask(b.m.rows, t) == AppliedMask(a.m.rows, t)
    ensures Holds(b.m.rows, t.pid) <==> Holds(a.m.rows, t.pid)
    ensures SameAt(a.m.procs, b.m.procs, t.pid)
  {
    hide Ready, MaskFor;
    var more := NewRows(a, Served(a, ts, ccds), ccds, clock);
    forall r | r in more ensures r.pid != t.pid {
      var k :| 0 <= k < |more| && more[k] == r;
      assert Served(a, ts, ccds)[k] in ts;
    }
    AppliedElsewhere(a.m.rows, more, t);
    NotHeld(more, t.pid);
    HoldsAppend(a.m.rows, more, t.pid);
  }

  /** So its question is the one it would have asked at the start. */
  lemma SameQuestion(a: Agent, b: Agent, t: Target, ccds: Ccds, clock: U64)
    requires SameMode(a, b)
    requires AppliedMask(b.m.rows, t) == AppliedMask(a.m.rows, t) && (Holds(b.m.rows, t.pid) <==> Holds(a.m.rows, t.pid))
    requires SameAt(a.m.procs, b.m.procs, t.pid)
    ensures Asks(b, t, ccds) <==> Asks(a, t, ccds)
    ensures MaskFor(b, t, ccds) == MaskFor(a, t, ccds)
    ensures Ready(b, t, ccds) <==> Ready(a.(verdicts := b.verdicts), t, ccds)
    ensures PinAction(b.m.procs, UserRequest(b, t, ccds, clock)) == PinAction(a.m.procs, UserRequest(a, t, ccds, clock))
  {
    hide WouldPin, AcProbes.Outcome;
  }

  /** What a user pin does to the verdicts, the rows and the processes. */
  lemma UserPinEffect(b: Agent, t: Target, ccds: Ccds, clock: U64)
    ensures var c := UserPin(b, t, ccds, clock);
            && SameMode(b, c)
            && c.verdicts == (if Asks(b, t, ccds) && NeedsAcGate(t) then AcProbes.AfterProbe(b.verdicts, Text(t.exe), t.answers) else b.verdicts)
            && (if Ready(b, t, ccds) && |b.m.rows| < MAX_ACTIVE
                then c.m.rows == b.m.rows + [PinAction(b.m.procs, UserRequest(b, t, ccds, clock))]
                     && c.m.procs == SetMask(b.m.procs, t.pid, MaskFor(b, t, ccds))
                else c.m.rows == b.m.rows && c.m.procs == b.m.procs)
  {
    hide Asks, Refused, MaskFor, UserPin, PinRecord, AcProbes.AfterProbe;
    UserPinIs(b, t, ccds, clock);
    if Asks(b, t, ccds) && PassesGate(b, t) {
      UserPinTakesIff(b, t, ccds, clock);
    }
  }

  lemma ServedNext(a: Agent, ts: seq<Target>, ccds: Ccds)
    requires ts != []
    ensures var front, t := ts[..|ts| - 1], ts[|ts| - 1];
            Served(a, ts, ccds) == Served(a, front, ccds) +
              (if Ready(a.(verdicts := VerdictsAfter(a, front, ccds)), t, ccds) && |Served(a, front, ccds)| < Room(a) then [t] else [])
  {
    hide Ready;
    var front, t := ts[..|ts| - 1], ts[|ts| - 1];
    var x, y, room := ReadyOnes(a, front, ccds), ReadyOnes(a, ts, ccds), Room(a);
    if |x| >= room {
      assert y[..room] == x[..room];
      assert |y| == room ==> y[..room] == y;
    }
  }

  lemma FrontDiffers(ts: seq<Target>, s: Target)
    requires DistinctTargets(ts) && ts != [] && s in ts[..|ts| - 1]
    ensures s.pid != ts[|ts| - 1].pid
  {
    var k :| 0 <= k < |ts| - 1 && ts[k] == s;
  }

  lemma ReadyIsGranted(a: Agent, t: Target, ccds: Ccds)
    ensures Ready(a, t, ccds) ==> SetSucceeds(a.m.procs, t.pid, MaskFor(a, t, ccds))
  {
  }

  /** One more target. */
  lemma PassOverNext(a: Agent, ts: seq<Target>, ccds: Ccds, clock: U64, b: Agent)
    requires ts != [] && DistinctTargets(ts)
    requires PassedOver(a, ts[..|ts| - 1], ccds, clock, b)
    ensures PassedOver(a, ts, ccds, clock, UserPin(b, ts[|ts| - 1], ccds, clock))
  {
    hide UserPin, Ready, Asks, MaskFor, ReadyOnes, PinAction, NeedsAcGate;
    var front, t := ts[..|ts| - 1], ts[|ts| - 1];
    SameForNext(a, front, ccds, clock, b, t);
    SameQuestion(a, b, t, ccds, clock);
    UserPinEffect(b, t, ccds, clock);
    ServedNext(a, ts, ccds);
    var c := UserPin(b, t, ccds, clock);
    var served, more := Served(a, front, ccds), Served(a, ts, ccds);
    assert more == served || more == served + [t];
    assert NewRows(a, more, ccds, clock) == NewRows(a, served, ccds, clock) +
             (if more == served then [] else [PinAction(a.m.procs, UserRequest(a, t, ccds, clock))]);
    forall pid: U32 | forall s <- ts :: s.pid != pid ensures SameAt(a.m.procs, c.m.procs, pid) {
      assert t in ts && t.pid != pid;
      forall s | s in front ensures s.pid != pid {
        assert s in ts;
      }
      assert SameAt(a.m.procs, b.m.procs, pid);
    }
    forall s | s in more ensures s.pid in c.m.procs && c.m.procs[s.pid].mask == MaskFor(a, s, ccds) {
      if s in served {
        FrontDiffers(ts, s);
      } else {
        ReadyIsGranted(b, t, ccds);
      }
    }
  }

  /** The user pass: the verdicts of its probes, and the rows of the ready targets that find room, in the
      order of the targets. */
  lemma {:induction false} UserPassExact(a: Agent, ts: seq<Target>, ccds: Ccds, clock: U64)
    requires DistinctTargets(ts)
    ensures PassedOver(a, ts, ccds, clock, UserPins(a, ts, ccds, clock))
  {
    hide UserPin;
    if ts == [] {
      assert Served(a, ts, ccds) == [];
      assert a.m.rows + [] == a.m.rows;
    } else {
      UserPassExact(a, ts[..|ts| - 1], ccds, clock);
      PassOverNext(a, ts, ccds, clock, UserPins(a, ts[..|ts| - 1], ccds, clock));
    }
  }

  // ---- The rest of the tick ----------------------------------------------

  /** Rows stay, and the processes they are about are left alone. */
  ghost predicate KeepsHeld(m: Machine, n: Machine) {
    m.rows <= n.rows && forall pid: U32 :: Holds(m.rows, pid) ==> SameAt(m.procs, n.procs, pid)
  }

  lemma ApplyKeepsHeld(m: Machine, q: PinRequest)
    ensures KeepsHeld(m, Apply(m, q))
  {
    hide PinRecord, PinAction;
  }

  lemma KeepsHeldTwice(m: Machine, n: Machine, o: Machine)
    requires KeepsHeld(m, n) && KeepsHeld(n, o)
    ensures KeepsHeld(m, o)
  {
    forall pid: U32 | Holds(m.rows, pid) ensures SameAt(m.procs, o.procs, pid) {
      HoldsAppend(m.rows, n.rows[|m.rows|..], pid);
      assert n.rows == m.rows + n.rows[|m.rows|..];
    }
  }

  lemma {:induction false} CorralKeepsHeld(a: Agent, ts: seq<Target>, ccds: Ccds, clock: U64)
    ensures KeepsHeld(a.m, CorralAll(a, ts, ccds, clock).m)
  {
    hide Apply, UserRuleOf, WouldCorral, AppliedMask, KeepsHeld;
    if ts == [] {
      HeldByItself(a.m);
    } else {
      var t, b := ts[|ts| - 1], CorralAll(a, ts[..|ts| - 1], ccds, clock);
      CorralKeepsHeld(a, ts[..|ts| - 1], ccds, clock);
      var q := PinRequest(t.pid, CORRAL_RULE, ccds.freqMask, t.exe, 0, clock);
      ApplyKeepsHeld(b.m, q);
      KeepsHeldTwice(a.m, b.m, Apply(b.m, q));
    }
  }

  lemma HeldByItself(m: Machine)
    ensures KeepsHeld(m, m)
  {
  }

  lemma {:induction false} DecisionsKeepHeld(a: Agent, ts: seq<Target>, ds: seq<PinRequest>)
    ensures KeepsHeld(a.m, ApplyPass(a, ts, ds).m)
  {
    hide Apply, UserRuleOf, TargetOf, Refused, Probed, KeepsHeld;
    if ds == [] {
      HeldByItself(a.m);
    } else {
      var d, b := ds[|ds| - 1], ApplyPass(a, ts, ds[..|ds| - 1]);
      DecisionsKeepHeld(a, ts, ds[..|ds| - 1]);
      ApplyKeepsHeld(b.m, d);
      KeepsHeldTwice(a.m, b.m, Apply(b.m, d));
      DecisionKeepsMachine(b, ts, d);
    }
  }

  lemma DecisionKeepsMachine(a: Agent, ts: seq<Target>, d: PinRequest)
    ensures ApplyOne(a, ts, d).m == a.m || ApplyOne(a, ts, d).m == Apply(a.m, d)
  {
  }

  lemma {:induction false} TargetOfIs(ts: seq<Target>, t: Target)
    requires DistinctTargets(ts) && t in ts
    ensures TargetOf(ts, t.pid) == Some(t)
  {
    if ts[0] != t {
      var k :| 0 <= k < |ts| && ts[k] == t;
      assert ts[1..][k - 1] == t;
      TargetOfIs(ts[1..], t);
    }
  }

  /** The rule is an Always rule, for either CCD. */
  predicate AlwaysRuled(a: Agent, t: Target) {
    var rule := UserRuleOf(a, t);
    rule.Some? && (rule.value.action == 1 || rule.value.action == 2)
  }

  predicate UserPassOpen(a: Agent) {
    PlacementAllowed(a) && !a.paused && !a.quiet
  }

  /** The process has a row, and the mask in it is this one. */
  ghost predicate OnMask(rows: seq<ActiveAction>, pid: U32, mask: U64) {
    exists r :: r in rows && r.pid == pid && r.newMask == mask
  }

  /** After the user pass no other pass of the tick gives a row to a process with a user rule. */
  lemma OnlyUserRows(a: Agent, i: TickInput, t: Target)
    requires UniquePids(a.m.rows) && DistinctTargets(i.targets) && t in i.targets && UserRuleOf(a, t).Some?
    ensures var e := ApplyPass(CorralPass(a, i), i.targets, i.decisions);
            && KeepsHeld(a.m, e.m)
            && forall r <- e.m.rows :: r.pid == t.pid ==> r in a.m.rows
  {
    hide UserRuleOf, ApplyPass, CorralAll, KeepsHeld;
    var d := CorralPass(a, i);
    CorralRespectsUsers(a, i.targets, i.ccds, i.clock);
    CorralKeepsMode(a, i.targets, i.ccds, i.clock);
    CorralKeepsHeld(a, i.targets, i.ccds, i.clock);
    HeldByItself(a.m);
    forall r | r in d.m.rows && r.pid == t.pid ensures r in a.m.rows {
      OneTargetPerPid(i.targets, t);
    }
    SameRules(a, d, t);
    AutomationRespectsUsers(d, i.targets, i.decisions);
    DecisionsKeepHeld(d, i.targets, i.decisions);
    TargetOfIs(i.targets, t);
    KeepsHeldTwice(a.m, d.m, ApplyPass(d, i.targets, i.decisions).m);
  }

  lemma OneTargetPerPid(ts: seq<Target>, t: Target)
    requires DistinctTargets(ts) && t in ts
    ensures forall s <- ts :: s.pid == t.pid ==> s == t
  {
  }

  lemma SameRules(a: Agent, b: Agent, t: Target)
    requires b.table == a.table
    ensures UserRuleOf(b, t) == UserRuleOf(a, t)
  {
  }

  lemma ServedOnMask(a: Agent, ts: seq<Target>, ccds: Ccds, clock: U64, t: Target, mask: U64)
    requires DistinctTargets(ts) && t in ts && mask == MaskFor(a, t, ccds)
    ensures OnMask(a.m.rows + NewRows(a, Served(a, ts, ccds), ccds, clock), t.pid, mask)
       <==> OnMask(a.m.rows, t.pid, mask) || t in Served(a, ts, ccds)
  {
    hide Served, MaskFor;
    var served := Served(a, ts, ccds);
    var more := NewRows(a, served, ccds, clock);
    if t in served {
      var k :| 0 <= k < |served| && served[k] == t;
      assert more[k] in a.m.rows + more;
    }
    forall r | r in more && r.pid == t.pid ensures t in served {
      var k :| 0 <= k < |more| && more[k] == r;
      assert served[k] in ts;
      OneTargetPerPid(ts, t);
    }
    forall r | r in a.m.rows ensures r in a.m.rows + more {
    }
  }

  /** A user's Always rule against automatic placement. At the end of a tick whose user pass is open, a
      tracked process with such a rule has a row with the mask of its rule exactly when it had one when
      the passes began, or was served by the user pass: it had no row at all, asked, passed the gate, was
      granted the Set, and was not too late for the table. Then its mask is that of the rule. */
  lemma AlwaysRuleTakesEffectIff(a: Agent, i: TickInput, t: Target)
    requires Gated(a) && DistinctTargets(i.targets) && t in i.targets
    requires UserPassOpen(Prepared(a, i)) && AlwaysRuled(Prepared(a, i), t)
    ensures var b, e, mask := Prepared(a, i), Tick(a, i), MaskFor(Prepared(a, i), t, i.ccds);
            && (OnMask(e.m.rows, t.pid, mask) <==> OnMask(b.m.rows, t.pid, mask) || t in Served(b, i.targets, i.ccds))
            && (t in Served(b, i.targets, i.ccds) ==> t.pid in e.m.procs && e.m.procs[t.pid].mask == mask)
  {
    hide Prepared, UserPins, ApplyPass, CorralPass, Served, MaskFor, UserRuleOf;
    var b, mask := Prepared(a, i), MaskFor(Prepared(a, i), t, i.ccds);
    PreparedGated(a, i);
    RuledTableNotEmpty(b, t);
    var c := UserPins(b, i.targets, i.ccds, i.clock);
    var e := ApplyPass(CorralPass(c, i), i.targets, i.decisions);
    UserPassExact(b, i.targets, i.ccds, i.clock);
    UserPinsExtend(b, i.targets, i.ccds, i.clock);
    SameRules(b, c, t);
    OnlyUserRows(c, i, t);
    ServedOnMask(b, i.targets, i.ccds, i.clock, t, mask);
    assert forall r <- c.m.rows :: r in e.m.rows;
    if t in Served(b, i.targets, i.ccds) {
      assert OnMask(c.m.rows, t.pid, mask);
      OnMaskHolds(c.m.rows, t.pid, mask);
      assert SameAt(c.m.procs, e.m.procs, t.pid);
    }
  }

  lemma OnMaskHolds(rows: seq<ActiveAction>, pid: U32, mask: U64)
    requires OnMask(rows, pid, mask)
    ensures Holds(rows, pid)
  {
    var r :| r in rows && r.pid == pid && r.newMask == mask;
    var i :| 0 <= i < |rows| && rows[i] == r;
    assert rows[i].pid == pid;
  }

  lemma RuledTableNotEmpty(a: Agent, t: Target)
    requires UserRuleOf(a, t).Some?
    ensures a.table.rules != []
  {
  }

  // ---- Two runs ----------------------------------------------------------

  const GAME: Name := [103]
  const NO_ANSWERS := AcProbes.Answers([], [], false, false, false)

  /** A browser on all four cores, busy, and a machine with two CCDs of two cores. */
  function Browsing(pid: U32): Target {
    Target(pid, GAME, Browser, false, false, false, true, 15, 0, false, None, NO_ANSWERS, false)
  }

  const TWO_CCDS := Ccds(3, 15, 3, 12)

  function Living(pid: U32): Procs {
    map[pid := Proc(1, GAME, 15, 15, true, true, true)]
  }

  function InputOf(c: Command, ds: seq<PinRequest>): TickInput {
    TickInput(Living(7), c, [Browsing(7)], false, false, TWO_CCDS, ds, 0)
  }

  function Fresh(corralLive: bool): Agent {
    Agent(Machine(Living(7), false, [], [], []), 1, GamesCorral, false, corralLive, false, false, 0, false, Table([], 0),
          AcProbes.Memory([], ""))
  }

  /** The process has its row, on this mask, and the agent is in the corral profile at rest. */
  ghost predicate PlacedOn(a: Agent, mask: U64) {
    && a.m.rows != [] && (forall r <- a.m.rows :: r.pid == 7 && r.newMask == mask)
    && a.table == Table([], 0) && a.profile == GamesCorral && a.selfPid == 1
    && !a.paused && !a.quiet && a.scans == 1 && Gated(a)
  }

  /** The tick in which the corral moves the browser to the frequency CCD. */
  lemma CorralTick(a: Agent, i: TickInput)
    requires a == Fresh(true) && i == InputOf(NoCommand, [])
    ensures PlacedOn(Tick(a, i), 12)
  {
    var b, t := Prepared(a, i), Browsing(7);
    assert b == a.(m := b.m, scans := 1) && b.m.rows == [] && b.m.procs == i.world;
    assert UserRuleOf(b, t) == None by {
      hide DoNotProbe;
    }
    CanCorral(b, t);
    assert t in i.targets;
    hide DoNotProbe, CorralAll, UserRuleOf, Corralled;
    CorralRows(b, i.targets, i.ccds, i.clock);
    CorralRespectsUsers(b, i.targets, i.ccds, i.clock);
    CorralKeepsMode(b, i.targets, i.ccds, i.clock);
    assert Tick(a, i) == CorralAll(b, i.targets, i.ccds, i.clock);
    TickKeepsGates(a, i);
  }

  /** A user pin that loses: the corral gives a browser its row on the frequency CCD; then the user sets
      "always the V-Cache CCD", and the next tick leaves the process where it is. */
  lemma EarlierRowWins()
    ensures exists a: Agent, i1: TickInput, i2: TickInput, t: Target ::
              && a.m.rows == [] && i1.decisions == i2.decisions == [] && t in i2.targets && t.pid != a.selfPid
              && var e := Ticks(a, [i1, i2]);
                 && AlwaysRuled(e, t) && UserPassOpen(e) && e.m.rows != [] && !OnMask(e.m.rows, t.pid, MaskFor(e, t, i2.ccds))
  {
    hide Tick, AlwaysRuled, MaskFor;
    var a, i1, i2, t := Fresh(true), InputOf(NoCommand, []), InputOf(SetProcessRule(GAME, 2), []), Browsing(7);
    CorralTick(a, i1);
    assert [i1, i2][..1] == [i1] && [i1][..0] == [];
    assert Ticks(a, [i1]) == Tick(Ticks(a, []), i1);
    assert Ticks(a, [i1, i2]) == Tick(Tick(a, i1), i2);
    RuleTick(Tick(a, i1), i2);
  }

  /** A tick changes the mode of the agent only while it prepares. */
  lemma TickKeepsMode(a: Agent, i: TickInput)
    requires Gated(a)
    ensures SameMode(Prepared(a, i), Tick(a, i))
  {
    hide Prepared, UserPins, ApplyPass, CorralAll;
    var b := Prepared(a, i);
    PreparedGated(a, i);
    var c := UserPass(b, i);
    if c != b {
      UserPinsExtend(b, i.targets, i.ccds, i.clock);
    }
    var d := CorralPass(c, i);
    CorralRespectsUsers(c, i.targets, i.ccds, i.clock);
    CorralKeepsMode(c, i.targets, i.ccds, i.clock);
    AutomationRespectsUsers(d, i.targets, i.decisions);
  }

  lemma {:induction false} ReadyHaveNoRow(a: Agent, ts: seq<Target>, ccds: Ccds, t: Target)
    requires t in ReadyOnes(a, ts, ccds)
    ensures !Holds(a.m.rows, t.pid)
  {
    hide Asks, PassesGate, MaskFor;
    if t in ReadyOnes(a, ts[..|ts| - 1], ccds) {
      ReadyHaveNoRow(a, ts[..|ts| - 1], ccds, t);
    }
  }

  lemma RuleTick(a: Agent, i: TickInput)
    requires PlacedOn(a, 12) && i == InputOf(SetProcessRule(GAME, 2), [])
    ensures var e, t := Tick(a, i), Browsing(7);
            AlwaysRuled(e, t) && UserPassOpen(e) && e.m.rows != [] && !OnMask(e.m.rows, t.pid, MaskFor(e, t, i.ccds))
  {
    var b, t := Prepared(a, i), Browsing(7);
    RulePrepared(a, i);
    hide Prepared, Tick, Served, UserRuleOf, Ready;
    assert b.m.rows[0] in b.m.rows;
    TickKeepsMode(a, i);
    SameRules(b, Tick(a, i), t);
    assert t in i.targets;
    AlwaysRuleTakesEffectIff(a, i, t);
    NotServed(b, i.targets, i.ccds, t);
    RowsStay(a, i, t);
  }

  lemma NotServed(a: Agent, ts: seq<Target>, ccds: Ccds, t: Target)
    requires Holds(a.m.rows, t.pid)
    ensures t !in Served(a, ts, ccds)
  {
    if t in ReadyOnes(a, ts, ccds) {
      ReadyHaveNoRow(a, ts, ccds, t);
    }
  }

  lemma RowsStay(a: Agent, i: TickInput, t: Target)
    requires Gated(a) && DistinctTargets(i.targets) && t in i.targets
    requires UserPassOpen(Prepared(a, i)) && AlwaysRuled(Prepared(a, i), t)
    ensures Prepared(a, i).m.rows <= Tick(a, i).m.rows
  {
    hide Prepared, UserPins, ApplyPass, CorralPass, Served, UserRuleOf;
    var b := Prepared(a, i);
    PreparedGated(a, i);
    RuledTableNotEmpty(b, t);
    var c := UserPins(b, i.targets, i.ccds, i.clock);
    UserPassExact(b, i.targets, i.ccds, i.clock);
    UserPinsExtend(b, i.targets, i.ccds, i.clock);
    SameRules(b, c, t);
    OnlyUserRows(c, i, t);
  }

  lemma RulePrepared(a: Agent, i: TickInput)
    requires PlacedOn(a, 12) && i == InputOf(SetProcessRule(GAME, 2), [])
    ensures var b, t := Prepared(a, i), Browsing(7);
            b.m.rows == a.m.rows && AlwaysRuled(b, t) && UserPassOpen(b) && MaskFor(b, t, i.ccds) == 3
  {
    hide DoNotProbe, PruneLog;
    var t, h := Browsing(7), Handle(a.(m := a.m.(procs := i.world)), i.command);
    RuleTaken(a.(m := a.m.(procs := i.world)), t);
    assert t in i.targets;
    SelectAll(a.m.rows, OfLive(set s <- i.targets :: s.pid));
    SameRules(h, Prepared(a, i), t);
  }

  lemma RuleTaken(a: Agent, t: Target)
    requires a.table == Table([], 0) && t == Browsing(7)
    ensures UserRuleOf(Handle(a, SetProcessRule(GAME, 2)), t) == Some(UserRule(GAME, [], 2))
  {
    hide DoNotProbe;
  }

  /** Pausing places nothing new, one might think: here the very tick that pauses moves a browser off the
      V-Cache CCD, because the corral does not look at the pause. */
  lemma PausedTickPlaces()
    ensures exists a: Agent, i: TickInput ::
              && a.m.rows == [] && Ordinary([i]) && i.command == PausePolicies
              && Tick(a, i).paused && Tick(a, i).m.rows != []
  {
    var a, i, t := Fresh(true), InputOf(PausePolicies, []), Browsing(7);
    var b := Prepared(a, i);
    assert b.paused && b.m.rows == [] && CorralOpen(b, i.coexist);
    assert UserRuleOf(b, t) == None by {
      hide DoNotProbe;
    }
    CanCorral(b, t);
    assert t in i.targets;
    TickKeepsMode(a, i);
    PausedPlacesNothingIff(a, i);
  }

  lemma CanCorral(a: Agent, t: Target)
    requires t == Browsing(7) && a.m.rows == [] && a.m.procs == Living(7) && a.selfPid == 1 && UserRuleOf(a, t) == None
    ensures Corralled(a, t, TWO_CCDS)
  {
    var x: bv32 := 15;
    assert x & 3 != 0;
  }
}
