/** The A/B/A/B/A benchmark: five captures, the agent paused for the first, third and fifth and
    active for the others, driven by one tick per UI frame. */
module BenchRunners {

  datatype Phase = Idle | CapturingRun | ImportingRun | BetweenRuns | AggregatingStats | Done | Failed

  datatype Protocol = Single | Ababa

  datatype Run = Run(isBaseline: bool, completed: bool, importExit: int)

  /** A pause or resume command, and when it was sent. */
  datatype Sent = Sent(resume: bool, at: nat)

  /** A capture that was started, and the last command before it. */
  datatype Capture = Capture(run: nat, at: nat, after: seq<Sent>)

  const COOLDOWN_MS := 3000
  const ACK_TIMEOUT_MS := 2000
  const TWO_32 := 0x1_0000_0000

  /** The fields of the runner. The clock, the commands, the captures, and whether the client could be
      reached when the last run was imported are history. */
  datatype Runner = Runner(
    phase: Phase,
    protocol: Protocol,
    nRuns: nat,
    runIndex: nat,
    startTick: nat,
    expectedAck: nat,
    waiting: bool,
    runs: seq<Run>,
    clock: nat,
    sent: seq<Sent>,
    captures: seq<Capture>,
    reachedAtEnd: bool)

  datatype Child = Running | Exited(code: int) | WaitFailed

  datatype CaptureState = Recording | Recorded | Broken

  /** What the system answers during one call: the time passed since the last one, the client, and the
      child processes. */
  datatype Env = Env(
    passed: nat,
    hasClient: bool,
    canSend: bool,
    seqNo: nat,
    ack: nat,
    paths: bool,
    spawned: bool,
    capture: CaptureState,
    child: Child)

  /** GetTickCount wraps at 32 bits. */
  function TickCount(r: Runner): nat {
    r.clock % TWO_32
  }

  function Elapsed(r: Runner): nat {
    (TickCount(r) - r.startTick) % TWO_32
  }

  predicate Connected(e: Env) {
    e.hasClient && e.canSend
  }

  // ---- Steps -------------------------------------------------------------

  function Send(r: Runner, resume: bool): Runner {
    r.(sent := r.sent + [Sent(resume, r.clock)])
  }

  /** send_policy_command_for_next_run_, when the client is there. */
  function SendForNextRun(r: Runner, e: Env): Runner
    requires r.runIndex < |r.runs|
  {
    Send(r, !r.runs[r.runIndex].isBaseline).(expectedAck := e.seqNo, waiting := e.seqNo != 0, startTick := TickCount(r))
  }

  function BeginRun(r: Runner, e: Env): Runner {
    if e.spawned
    then r.(phase := CapturingRun, captures := r.captures + [Capture(r.runIndex, r.clock, LastSent(r))])
    else r.(phase := Failed)
  }

  function LastSent(r: Runner): seq<Sent> {
    if r.sent == [] then [] else [r.sent[|r.sent| - 1]]
  }

  /** cancel(): the agent is left resumed if the client can be reached. */
  function Cancel(r: Runner, e: Env): Runner {
    (if r.protocol == Ababa && Connected(e) then Send(r, true) else r).(phase := Idle, waiting := false)
  }

  function Rested(r: Runner, e: Env): Runner {
    if r.phase == Done || r.phase == Failed then Cancel(r, e) else r
  }

  function FreshRuns(n: nat): seq<Run> {
    seq(n, i => Run(i % 2 == 0, false, 0))
  }

  function StartSingle(r: Runner, e: Env): Runner {
    var b := Rested(r, e);
    if b.phase != Idle || !e.paths then b
    else
      var s := BeginRun(b.(protocol := Single, nRuns := 1, runIndex := 0, runs := FreshRuns(1), captures := []), e);
      if e.spawned then s else s.(phase := Idle)
  }

  function StartAbaba(r: Runner, e: Env): Runner {
    var b := Rested(r, e);
    if b.phase != Idle || !Connected(e) || !e.paths then b
    else
      SendForNextRun(b.(protocol := Ababa, nRuns := 5, runIndex := 0, runs := FreshRuns(5), captures := []), e)
        .(phase := BetweenRuns)
  }

  function EnterBetweenOrFinish(r: Runner, e: Env): Runner
    requires r.runIndex < |r.runs| == r.nRuns
  {
    if r.runIndex + 1 >= r.nRuns then
      if r.protocol == Single then r.(phase := Done)
      else
        (if Connected(e) then Send(r, true) else r)
          .(phase := if e.spawned then AggregatingStats else Failed, reachedAtEnd := Connected(e))
    else
      var b := r.(runIndex := r.runIndex + 1, startTick := TickCount(r));
      if r.protocol == Single then b.(phase := BetweenRuns)
      else if Connected(e) then SendForNextRun(b, e).(phase := BetweenRuns)
      else b.(phase := Failed)
  }

  function PollImport(r: Runner, e: Env): Runner
    requires r.runIndex < |r.runs| == r.nRuns
  {
    match e.child
    case Running => r
    case WaitFailed => r.(phase := Failed)
    case Exited(code) =>
      var b := r.(runs := r.runs[r.runIndex := r.runs[r.runIndex].(importExit := code)]);
      if code != 0 then b.(phase := Failed) else EnterBetweenOrFinish(b, e)
  }

  function PollCapture(r: Runner, e: Env): Runner
    requires r.runIndex < |r.runs|
  {
    match e.capture
    case Recording => r
    case Broken => r.(runs := r.runs[r.runIndex := r.runs[r.runIndex].(completed := false)], phase := Failed)
    case Recorded =>
      r.(runs := r.runs[r.runIndex := r.runs[r.runIndex].(completed := true)],
         phase := if e.spawned then ImportingRun else Failed)
  }

  function PollBetween(r: Runner, e: Env): Runner {
    var b := if r.waiting && e.hasClient && e.ack >= r.expectedAck then r.(waiting := false) else r;
    if !b.waiting then (if Elapsed(b) >= COOLDOWN_MS then BeginRun(b, e) else b)
    else if Elapsed(b) >= ACK_TIMEOUT_MS then b.(waiting := false)
    else b
  }

  function TickOf(r: Runner, e: Env): Runner
    requires r.runIndex < |r.runs| == r.nRuns || r.phase in {Idle, Done, Failed}
  {
    match r.phase
    case CapturingRun => PollCapture(r, e)
    case ImportingRun => PollImport(r, e)
    case BetweenRuns => PollBetween(r, e)
    case AggregatingStats =>
      (match e.child case Running => r case Exited(_) => r.(phase := Done) case WaitFailed => r.(phase := Failed))
    case _ => r
  }

  datatype Call = DoTick | DoStartSingle | DoStartAbaba | DoCancel

  /** One call from the UI. */
  function Called(r: Runner, call: Call, e: Env): Runner
    requires Inv(r)
  {
    match call
    case DoTick => TickOf(r, e)
    case DoStartSingle => StartSingle(r, e)
    case DoStartAbaba => StartAbaba(r, e)
    case DoCancel => Cancel(r, e)
  }

  const FRESH := Runner(Idle, Single, 0, 0, 0, 0, false, [], 0, [], [], false)

  /** Any calls, each some time after the one before. */
  function After(calls: seq<(Call, Env)>): (r: Runner)
    ensures Inv(r)
  {
    if calls == [] then FRESH
    else
      var last := calls[|calls| - 1];
      var r := After(calls[..|calls| - 1]);
      TimeKeepsInv(r, last.1.passed);
      var later := r.(clock := r.clock + last.1.passed);
      CallKeepsInv(later, last.0, last.1);
      Called(later, last.0, last.1)
  }

  // ---- The invariant -----------------------------------------------------

  /** The last command sets the agent up for run i: paused for a baseline, active for a treated run. */
  predicate ReadyFor(sent: seq<Sent>, i: nat) {
    sent != [] && sent[|sent| - 1].resume == (i % 2 == 1)
  }

  /** A capture that began at least three seconds after the command for its run. */
  predicate Settled(c: Capture) {
    ReadyFor(c.after, c.run) && c.at >= c.after[|c.after| - 1].at + COOLDOWN_MS
  }

  predicate RunsImported(r: Runner, n: nat) {
    n <= |r.runs| && forall k :: 0 <= k < n ==> r.runs[k].completed && r.runs[k].importExit == 0
  }

  predicate CapturedInOrder(r: Runner, n: nat) {
    |r.captures| == n && forall k :: 0 <= k < n ==> r.captures[k].run == k && Settled(r.captures[k])
  }

  /** The fifth run needed the agent paused, so only a command at the end resumes it. */
  predicate EndsResumed(r: Runner) {
    r.sent != [] && r.sent[|r.sent| - 1].resume == r.reachedAtEnd
  }

  predicate AbabaInv(r: Runner) {
    && r.nRuns == |r.runs| == 5 && r.runIndex < 5
    && (forall k :: 0 <= k < 5 ==> r.runs[k].isBaseline == (k % 2 == 0))
    && match r.phase
       case BetweenRuns =>
         && CapturedInOrder(r, r.runIndex) && RunsImported(r, r.runIndex) && ReadyFor(r.sent, r.runIndex)
         && r.sent[|r.sent| - 1].at <= r.clock && r.startTick == r.sent[|r.sent| - 1].at % TWO_32
       case CapturingRun =>
         && CapturedInOrder(r, r.runIndex + 1) && RunsImported(r, r.runIndex) && ReadyFor(r.sent, r.runIndex)
       case ImportingRun =>
         && CapturedInOrder(r, r.runIndex + 1) && RunsImported(r, r.runIndex) && r.runs[r.runIndex].completed
         && ReadyFor(r.sent, r.runIndex)
       case AggregatingStats => CapturedInOrder(r, 5) && RunsImported(r, 5) && r.runIndex == 4 && EndsResumed(r)
       case Done => CapturedInOrder(r, 5) && RunsImported(r, 5) && EndsResumed(r)
       case _ => true
  }

  predicate SingleInv(r: Runner) {
    r.phase in {Idle, Failed} || (r.nRuns == |r.runs| == 1 && r.runIndex == 0 && r.phase in {CapturingRun, ImportingRun, Done})
  }

  predicate Inv(r: Runner) {
    if r.protocol == Ababa then AbabaInv(r) else SingleInv(r)
  }

  /** The wrapping tick counter never overstates the time since the command. */
  lemma ElapsedIsReal(sentAt: nat, now: nat)
    requires sentAt <= now
    ensures (now % TWO_32 - sentAt % TWO_32) % TWO_32 <= now - sentAt
  {
    assert now % TWO_32 - sentAt % TWO_32 == (now - sentAt) - TWO_32 * (now / TWO_32 - sentAt / TWO_32);
    ModDrop(now - sentAt, now / TWO_32 - sentAt / TWO_32);
  }

  lemma ModDrop(d: nat, k: int)
    ensures (d - TWO_32 * k) % TWO_32 <= d
  {
  }

  lemma BetweenKeepsInv(r: Runner, e: Env)
    requires Inv(r) && r.phase == BetweenRuns
    ensures Inv(TickOf(r, e))
  {
    ElapsedIsReal(r.sent[|r.sent| - 1].at, r.clock);
  }

  lemma TickKeepsInv(r: Runner, e: Env)
    requires Inv(r)
    ensures Inv(TickOf(r, e))
  {
    match r.phase
    case BetweenRuns => BetweenKeepsInv(r, e);
    case ImportingRun => ImportKeepsInv(r, e);
    case _ =>
  }

  lemma ImportKeepsInv(r: Runner, e: Env)
    requires Inv(r) && r.phase == ImportingRun
    ensures Inv(PollImport(r, e))
  {
    if e.child == Exited(0) && r.protocol == Ababa {
      var b := r.(runs := r.runs[r.runIndex := r.runs[r.runIndex].(importExit := 0)]);
      assert RunsImported(b, b.runIndex + 1);
      FinishKeepsInv(b, e);
    }
  }

  lemma FinishKeepsInv(r: Runner, e: Env)
    requires AbabaInv(r) && r.protocol == Ababa && r.phase == ImportingRun && RunsImported(r, r.runIndex + 1)
    ensures AbabaInv(EnterBetweenOrFinish(r, e))
  {
  }

  lemma CallKeepsInv(b: Runner, call: Call, e: Env)
    requires Inv(b)
    ensures Inv(Called(b, call, e))
  {
    match call {
      case DoTick =>
        TickKeepsInv(b, e);
        assert Called(b, call, e) == TickOf(b, e);
      case DoStartSingle =>
        RestedKeepsInv(b, e);
        SingleKeepsInv(b, e);
        assert Called(b, call, e) == StartSingle(b, e);
      case DoStartAbaba =>
        RestedKeepsInv(b, e);
        StartKeepsInv(b, e);
        assert Called(b, call, e) == StartAbaba(b, e);
      case DoCancel =>
        CancelKeepsInv(b, e);
        assert Called(b, call, e) == Cancel(b, e);
    }
  }

  lemma TimeKeepsInv(r: Runner, passed: nat)
    requires Inv(r)
    ensures Inv(r.(clock := r.clock + passed))
  {
  }

  lemma CancelKeepsInv(r: Runner, e: Env)
    requires Inv(r)
    ensures Inv(Cancel(r, e))
  {
  }

  lemma SingleKeepsInv(r: Runner, e: Env)
    requires Inv(Rested(r, e))
    ensures Inv(StartSingle(r, e))
  {
  }

  lemma RestedKeepsInv(r: Runner, e: Env)
    requires Inv(r)
    ensures Inv(Rested(r, e)) && (Rested(r, e) == r || Rested(r, e).phase == Idle)
  {
  }

  lemma StartKeepsInv(r: Runner, e: Env)
    requires Inv(Rested(r, e))
    ensures Inv(StartAbaba(r, e))
  {
    var b := Rested(r, e);
    if b.phase == Idle && Connected(e) && e.paths {
      AbabaStarts(b, e);
    }
  }

  lemma AbabaStarts(b: Runner, e: Env)
    ensures AbabaInv(SendForNextRun(b.(protocol := Ababa, nRuns := 5, runIndex := 0, runs := FreshRuns(5), captures := []), e)
                       .(phase := BetweenRuns))
  {
  }

  // ---- What the benchmark promises ---------------------------------------

  /** In every reachable capturing state of run i the last command was Pause exactly when i is even;
      that capture, like those before it, began three seconds or more after its command. */
  lemma CapturesAreClean(calls: seq<(Call, Env)>)
    requires After(calls).protocol == Ababa && After(calls).phase == CapturingRun
    ensures var r := After(calls);
            && r.sent[|r.sent| - 1].resume == (r.runIndex % 2 == 1)
            && |r.captures| == r.runIndex + 1
            && forall k :: 0 <= k <= r.runIndex ==> r.captures[k].run == k && Settled(r.captures[k])
  {
  }

  /** Done means that runs 0 to 4 were captured once each, in that order, and imported with exit code 0,
      and that the agent was left resumed exactly if the client could be reached at the last import. */
  lemma DoneIsComplete(calls: seq<(Call, Env)>)
    requires After(calls).protocol == Ababa && After(calls).phase == Done
    ensures var r := After(calls);
            && |r.captures| == |r.runs| == 5
            && CapturedInOrder(r, 5) && RunsImported(r, 5)
            && (r.sent[|r.sent| - 1].resume <==> r.reachedAtEnd)
  {
  }

  /** Runs left, then how far the present one is. */
  function Measure(r: Runner): (nat, nat)
    requires Inv(r)
  {
    match r.phase
    case BetweenRuns => (5 - r.runIndex, if r.waiting then 4 else 3)
    case CapturingRun => (5 - r.runIndex, 2)
    case ImportingRun => (5 - r.runIndex, 1)
    case AggregatingStats => (5 - r.runIndex, 0)
    case _ => (0, 0)
  }

  predicate Smaller(a: (nat, nat), b: (nat, nat)) {
    a.0 < b.0 || (a.0 == b.0 && a.1 < b.1)
  }

  /** A tick either changes nothing or brings the benchmark closer to its end. */
  lemma TickMakesProgress(r: Runner, e: Env)
    requires Inv(r)
    ensures Inv(TickOf(r, e))
    ensures TickOf(r, e) == r || Smaller(Measure(TickOf(r, e)), Measure(r))
  {
    TickKeepsInv(r, e);
    match r.phase
    case ImportingRun => ImportMakesProgress(r, e);
    case _ =>
  }

  lemma ImportMakesProgress(r: Runner, e: Env)
    requires Inv(r) && r.phase == ImportingRun && Inv(PollImport(r, e))
    ensures PollImport(r, e) == r || Smaller(Measure(PollImport(r, e)), Measure(r))
  {
  }

  // ---- What the calls do -------------------------------------------------

  predicate Reachable(e: Env) {
    e.hasClient && e.canSend
  }

  predicate NothingSent(r: Runner, s: Runner) {
    s.sent == r.sent && s.captures == r.captures && s.runIndex == r.runIndex && s.protocol == r.protocol
  }

  /** One command more: Resume or Pause, now. */
  predicate Commanded(r: Runner, s: Runner, resume: bool) {
    s.sent == r.sent + [Sent(resume, r.clock)] && s.captures == r.captures && s.protocol == r.protocol
  }

  /** Between runs: the next one begins three seconds after the last command, once that is acknowledged or two
      seconds have passed. */
  predicate BetweenEffect(r: Runner, s: Runner, e: Env) {
    var elapsed := (r.clock - r.startTick) % 0x1_0000_0000;
    var stillWaiting := r.waiting && !(e.hasClient && e.ack >= r.expectedAck);
    if stillWaiting then s == (if elapsed >= 2000 then r.(waiting := false) else r)
    else if elapsed < 3000 then s == r.(waiting := false)
    else if e.spawned then s.phase == CapturingRun && s.sent == r.sent && s.runIndex == r.runIndex
                        && |s.captures| == |r.captures| + 1 && s.captures[|r.captures|].run == r.runIndex
    else s.phase == Failed && NothingSent(r, s)
  }

  /** A run is imported: the next one, or the end. The five-run protocol tells the agent first - Pause for runs
      0, 2 and 4, Resume for 1 and 3 and at the end - and fails if it cannot, except at the end. */
  predicate ImportedEffect(r: Runner, s: Runner, e: Env) {
    if r.protocol == Single then s.phase == Done && NothingSent(r, s)
    else if r.runIndex == 4 then
      && s.phase == (if e.spawned then AggregatingStats else Failed) && s.runIndex == 4
      && (if Reachable(e) then Commanded(r, s, true) else NothingSent(r, s))
    else
      && s.runIndex == r.runIndex + 1
      && (if Reachable(e) then s.phase == BetweenRuns && Commanded(r, s, s.runIndex % 2 == 1) else s.phase == Failed && s.sent == r.sent)
  }

  predicate Stopped(r: Runner, s: Runner) {
    s.phase == Failed && NothingSent(r, s)
  }

  /** The present run is noted as captured or not, the other runs stay. */
  predicate CaptureNoted(r: Runner, s: Runner, captured: bool) {
    r.runIndex < |r.runs| && s.runs == r.runs[r.runIndex := Run(r.runs[r.runIndex].isBaseline, captured, r.runs[r.runIndex].importExit)]
  }

  /** The exit code of its import is noted. */
  predicate ImportNoted(r: Runner, s: Runner, code: int) {
    r.runIndex < |r.runs| && s.runs == r.runs[r.runIndex := Run(r.runs[r.runIndex].isBaseline, r.runs[r.runIndex].completed, code)]
  }

  predicate TickEffect(r: Runner, s: Runner, e: Env) {
    match r.phase
    case CapturingRun =>
      && NothingSent(r, s)
      && (match e.capture case Recording => s == r case Broken => s.phase == Failed && CaptureNoted(r, s, false)
                          case Recorded => CaptureNoted(r, s, true) && s.phase == if e.spawned then ImportingRun else Failed)
    case ImportingRun =>
      (match e.child case Running => s == r case WaitFailed => s == r.(phase := Failed)
                     case Exited(code) => ImportNoted(r, s, code) && (if code == 0 then ImportedEffect(r, s, e) else Stopped(r, s)))
    case BetweenRuns => BetweenEffect(r, s, e)
    case AggregatingStats =>
      && NothingSent(r, s)
      && (match e.child case Running => s == r case Exited(_) => s.phase == Done case WaitFailed => s.phase == Failed)
    case _ => s == r
  }

  lemma TickMeaning(r: Runner, e: Env)
    requires Inv(r)
    ensures TickEffect(r, TickOf(r, e), e)
  {
    hide Inv, AbabaInv, SingleInv;
    match r.phase
    case ImportingRun => ImportMeaning(r, e);
    case BetweenRuns => BetweenMeaning(r, e);
    case _ => OtherMeaning(r, e);
  }

  lemma BetweenMeaning(r: Runner, e: Env)
    requires Inv(r) && r.phase == BetweenRuns
    ensures TickEffect(r, TickOf(r, e), e)
  {
  }

  lemma OtherMeaning(r: Runner, e: Env)
    requires Inv(r) && r.phase != ImportingRun && r.phase != BetweenRuns
    ensures TickEffect(r, TickOf(r, e), e)
  {
  }

  lemma ImportMeaning(r: Runner, e: Env)
    requires Inv(r) && r.phase == ImportingRun
    ensures TickEffect(r, PollImport(r, e), e)
  {
    if e.child.Exited? {
      var b := r.(runs := r.runs[r.runIndex := r.runs[r.runIndex].(importExit := e.child.code)]);
      if r.protocol == Ababa {
        assert forall k :: 0 <= k < 5 ==> b.runs[k].isBaseline == (k % 2 == 0);
      }
    }
  }

  /** A cancel comes to rest, and leaves the agent of a five-run benchmark resumed if it can be reached. */
  predicate CancelEffect(r: Runner, s: Runner, e: Env) {
    && s.phase == Idle && !s.waiting
    && (if r.protocol == Ababa && Reachable(e) then Commanded(r, s, true) else NothingSent(r, s))
  }

  /** After any calls: a cancelled five-run benchmark leaves the agent resumed, if it can be reached. */
  lemma CancelLeavesResumed(calls: seq<(Call, Env)>, e: Env)
    requires After(calls).protocol == Ababa && Reachable(e)
    ensures var r := After(calls + [(DoCancel, e)]);
            r.phase == Idle && r.sent != [] && r.sent[|r.sent| - 1].resume
  {
    assert (calls + [(DoCancel, e)])[..|calls|] == calls;
  }

  /** The five-run protocol begins with a Pause, from rest or after a terminal state has been cleaned up. */
  predicate StartEffect(r: Runner, s: Runner, e: Env) {
    var busy := r.phase != Idle && r.phase != Done && r.phase != Failed;
    if busy then s == r
    else if !Reachable(e) || !e.paths then
      s.phase == Idle && (r.phase != Idle ==> CancelEffect(r, s, e)) && (r.phase == Idle ==> s == r)
    else
      && s.phase == BetweenRuns && s.protocol == Ababa && s.nRuns == |s.runs| == 5 && s.runIndex == 0 && s.captures == []
      && (forall k :: 0 <= k < 5 ==> !s.runs[k].completed && s.runs[k].isBaseline == (k % 2 == 0))
      && r.sent <= s.sent && |s.sent| > |r.sent| && s.sent[|s.sent| - 1] == Sent(false, r.clock)
  }

  lemma RestedPhase(r: Runner, e: Env)
    ensures Rested(r, e).phase == Idle <==> r.phase == Idle || r.phase == Done || r.phase == Failed
  {
  }

  lemma StartMeaning(r: Runner, e: Env)
    ensures StartEffect(r, StartAbaba(r, e), e)
  {
  }

  /** One baseline capture, from rest and with the path set; no command but the Resume of what is cleaned up. */
  predicate StartOneEffect(r: Runner, s: Runner, e: Env) {
    var busy := r.phase != Idle && r.phase != Done && r.phase != Failed;
    if busy then s == r
    else
      && s.sent == (if r.phase != Idle && r.protocol == Ababa && Reachable(e) then r.sent + [Sent(true, r.clock)] else r.sent)
      && (if !e.paths then s == r.(phase := Idle, waiting := s.waiting, sent := s.sent)
          else
            && s.phase == (if e.spawned then CapturingRun else Idle)
            && s.protocol == Single && s.nRuns == 1 && s.runIndex == 0 && s.runs == [Run(true, false, 0)]
            && |s.captures| == (if e.spawned then 1 else 0)
            && (e.spawned ==> s.captures[0].run == 0 && s.captures[0].at == r.clock))
  }

  lemma StartOneMeaning(r: Runner, e: Env)
    ensures StartOneEffect(r, StartSingle(r, e), e)
  {
  }

  // ---- The code ----------------------------------------------------------

  class BenchRunner {
    var phase: Phase
    var protocol: Protocol
    var nRuns: nat
    var runIndex: nat
    var startTick: nat
    var expectedAck: nat
    var waiting: bool
    var runs: seq<Run>
    ghost var clock: nat
    ghost var sent: seq<Sent>
    ghost var captures: seq<Capture>
    ghost var reachedAtEnd: bool

    ghost function State(): Runner
      reads this
    {
      Runner(phase, protocol, nRuns, runIndex, startTick, expectedAck, waiting, runs, clock, sent, captures, reachedAtEnd)
    }

    constructor ()
      ensures State() == FRESH
    {
      phase, protocol, nRuns, runIndex, startTick, expectedAck, waiting := Idle, Single, 0, 0, 0, 0, false;
      runs, clock, sent, captures, reachedAtEnd := [], 0, [], [], false;
    }

    method SendCommand(resume: bool, e: Env) returns (seqNo: nat)
      modifies this`sent
      ensures State() == Send(old(State()), resume) && seqNo == e.seqNo
    {
      sent := sent + [Sent(resume, clock)];
      seqNo := e.seqNo;
    }

    method SendPolicyCommand(e: Env, now: nat) returns (ok: bool)
      requires runIndex < |runs| && now == TickCount(State())
      modifies this
      ensures ok == Connected(e)
      ensures State() == if ok then SendForNextRun(old(State()), e) else old(State())
    {
      ok := Connected(e);
      if ok {
        expectedAck := SendCommand(!runs[runIndex].isBaseline, e);
        waiting, startTick := expectedAck != 0, now;
      }
    }

    method StartCapture(e: Env) returns (ok: bool)
      modifies this
      ensures ok == e.spawned && State() == if ok then BeginRun(old(State()), e) else old(State())
    {
      ok := e.spawned;
      if ok {
        captures := captures + [Capture(runIndex, clock, LastSent(State()))];
        phase := CapturingRun;
      }
    }

    method CancelRun(e: Env)
      modifies this
      ensures State() == Cancel(old(State()), e) && CancelEffect(old(State()), State(), e)
    {
      if protocol == Ababa && Connected(e) {
        var _ := SendCommand(true, e);
      }
      phase, waiting := Idle, false;
    }

    /** A restart from a terminal state cleans up first. */
    method Rest(e: Env)
      modifies this
      ensures State() == Rested(old(State()), e)
    {
      if phase == Done || phase == Failed {
        CancelRun(e);
      }
    }

    method StartFiveRuns(e: Env, now: nat) returns (ok: bool)
      requires now == TickCount(State())
      modifies this
      ensures State() == StartAbaba(old(State()), e)
      ensures ok <==> (old(phase) == Idle || old(phase) == Done || old(phase) == Failed) && Reachable(e) && e.paths
      ensures StartEffect(old(State()), State(), e)
    {
      hide StartEffect, StartAbaba;
      StartMeaning(State(), e);
      RestedPhase(State(), e);
      ok := BeginFiveRuns(e, now);
    }

    method BeginFiveRuns(e: Env, now: nat) returns (ok: bool)
      requires now == TickCount(State())
      modifies this
      ensures State() == StartAbaba(old(State()), e)
      ensures ok == (Rested(old(State()), e).phase == Idle && Connected(e) && e.paths)
    {
      Rest(e);
      if phase != Idle || !Connected(e) || !e.paths {
        return false;
      }
      protocol, nRuns, runIndex, runs, captures := Ababa, 5, 0, FreshRuns(5), [];
      ok := SendPolicyCommand(e, now);
      phase := BetweenRuns;
    }

    method StartOneRun(e: Env) returns (ok: bool)
      modifies this
      ensures State() == StartSingle(old(State()), e) && StartOneEffect(old(State()), State(), e)
    {
      hide StartOneEffect;
      StartOneMeaning(State(), e);
      Rest(e);
      if phase != Idle || !e.paths {
        return false;
      }
      protocol, nRuns, runIndex, runs, captures := Single, 1, 0, FreshRuns(1), [];
      ok := StartCapture(e);
    }

    method FinishOrContinue(e: Env, now: nat)
      requires runIndex < |runs| == nRuns && now == TickCount(State())
      modifies this
      ensures State() == EnterBetweenOrFinish(old(State()), e)
    {
      if runIndex + 1 >= nRuns {
        if protocol == Ababa && Connected(e) {
          var _ := SendCommand(true, e);
        }
        if protocol == Single {
          phase := Done;
        } else {
          phase, reachedAtEnd := if e.spawned then AggregatingStats else Failed, Connected(e);
        }
        return;
      }
      runIndex, startTick := runIndex + 1, now;
      if protocol == Ababa {
        var ok := SendPolicyCommand(e, now);
        if !ok {
          phase := Failed;
          return;
        }
      }
      phase := BetweenRuns;
    }

    method Tick(e: Env, now: nat)
      requires Inv(State()) && now == TickCount(State())
      modifies this
      ensures State() == TickOf(old(State()), e) && Inv(State()) && TickEffect(old(State()), State(), e)
    {
      TickMeaning(State(), e);
      TickKeepsInv(State(), e);
      match phase
      case CapturingRun =>
        if e.capture == Recorded {
          runs := runs[runIndex := runs[runIndex].(completed := true)];
          phase := if e.spawned then ImportingRun else Failed;
        } else if e.capture == Broken {
          runs := runs[runIndex := runs[runIndex].(completed := false)];
          phase := Failed;
        }
      case ImportingRun => TickImport(e, now);
      case BetweenRuns => TickBetween(e, now);
      case AggregatingStats =>
        match e.child {
          case Running =>
          case Exited(_) => phase := Done;
          case WaitFailed => phase := Failed;
        }
      case _ =>
    }

    method TickImport(e: Env, now: nat)
      requires runIndex < |runs| == nRuns && now == TickCount(State())
      modifies this
      ensures State() == PollImport(old(State()), e)
    {
      match e.child
      case Running =>
      case WaitFailed => phase := Failed;
      case Exited(code) =>
        runs := runs[runIndex := runs[runIndex].(importExit := code)];
        if code != 0 {
          phase := Failed;
        } else {
          FinishOrContinue(e, now);
        }
    }

    method TickBetween(e: Env, now: nat)
      requires now == TickCount(State())
      modifies this
      ensures State() == PollBetween(old(State()), e)
    {
      if waiting && e.hasClient && e.ack >= expectedAck {
        waiting := false;
      }
      var elapsed := (now - startTick) % TWO_32;
      if !waiting {
        if elapsed >= COOLDOWN_MS {
          var ok := StartCapture(e);
          if !ok {
            phase := Failed;
          }
        }
      } else if elapsed >= ACK_TIMEOUT_MS {
        waiting := false;
      }
    }
  }
}
