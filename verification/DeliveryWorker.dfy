/**
  Lease-fenced settlement of delivery assembly jobs
  (apps/render-worker/src/delivery-assembly-worker.ts, processJob).

  One attempt is a main coroutine and a heartbeat coroutine that share the
  attempt's phase and lease expiry and interleave at every await.  An action
  is the code between two awaits; which action comes next, every reply, the
  clock and the shutdown request are the environment's choice.
*/
module DeliveryWorker {
  import opened Common
  import opened LeaseProtocol

  datatype Options = Options(poll: int, leaseDuration: int, maxSettlement: int)

  /** The constructor accepts positive durations only. */
  type Config = c: Options | c.poll > 0 && c.leaseDuration > 0 && c.maxSettlement > 0
    witness Options(1, 1, 5)

  datatype Mode = Completing | Failing

  datatype Verdict = Completed | Failed | Abandoned | Threw

  /** Where the main coroutine waits. */
  datatype Pc =
    | StartReply                        // start request in flight
    | StartSleep(until: int)
    | Assembling                        // assembleDeliveryReel running
    | JoinBefore(failed: bool, beat: nat)  // awaiting in-flight heartbeat number beat
    | SettleReply(mode: Mode)           // complete or fail request in flight
    | ProbeReply(mode: Mode)            // getJob in flight
    | SettleSleep(mode: Mode, until: int)
    | JoinAtEnd(verdict: Verdict, beat: nat)  // the finally clause's await
    | Done(verdict: Verdict)

  /** Where the heartbeat coroutine waits; Replied is after the reply, before the loop resumes. */
  datatype Beat = NotRunning | Sleeping | InFlight | Replied | Stopped

  /** What an observer of the attempt sees. */
  datatype Event =
    | Request(mode: Mode, at: int, lease: int, number: nat)  // the attempt's number-th such request
    | SettleAnswer(mode: Mode, reply: Reply)
    | StartAnswer(reply: Reply)
    | BeatSent
    | BeatAnswer(reply: Reply)
    | ProbeSettled(mode: Mode, sameLease: bool)  // the probe saw the settled status it looks for
    | ProbeLost                         // the probe saw another lease, status or an expiry
    | Decided(verdict: Verdict, at: int, lease: int, beatInFlight: bool)

  datatype State = State(
    pc: Pc,
    phase: Phase,
    lease: int,
    now: int,
    aborting: bool,       // shutdown requested or signal aborted
    stopBeats: bool,      // stopHeartbeats, set together with the heartbeat abort
    beat: Beat,
    beats: nat,           // heartbeats issued so far
    deadline: int,
    shutdownRetries: nat,
    calls: nat,           // complete or fail requests issued so far
    log: seq<Event>)

  datatype ProbeStatus = Rendering | Leased | CompletedStatus | FailedStatus | QueuedStatus | OtherStatus

  datatype Probe =
    | ProbeThrew
    | NoJob
    | Job(status: ProbeStatus, sameLease: bool, expiresAt: Option<int>)

  datatype Action =
    | Tick(ms: nat)
    | Shutdown
    | OnStartReply(reply: Reply)
    | OnStartWake
    | OnAssembled(failed: bool)
    | OnJoined
    | OnSettleReply(reply: Reply)
    | OnProbe(probe: Probe)
    | OnSettleWake
    | OnSleepThrew
    | OnBeatWake
    | OnBeatSleepThrew
    | OnBeatReply(reply: Reply, expiresAt: Option<int>)
    | OnBeatResume

  function Init(now: int, jobLeaseExpiresAt: Option<int>, c: Config): State {
    State(StartReply, Starting, if jobLeaseExpiresAt.Some? then jobLeaseExpiresAt.value else now + c.leaseDuration,
          now, false, false, NotRunning, 0, 0, 0, 0, [])
  }

  // ----- the code between awaits -----

  function Note(s: State, e: Event): State {
    s.(log := s.log + [e])
  }

  predicate BeatsMayRun(s: State) {
    !s.stopBeats && (s.phase == Active || s.phase == Settling)
  }

  /** inFlightHeartbeat is set: issued, and not yet seen by the loop again. */
  predicate BeatUnresumed(s: State) {
    s.beat == InFlight || s.beat == Replied
  }

  /** isFenced(), with its side effect on the phase. */
  function Check(s: State): State {
    s.(phase := Checked(s.phase, s.lease, s.now))
  }

  /** The finally clause after a settlement: stop the heartbeats, await one in flight, settle. */
  function Leave(s: State, verdict: Verdict): State {
    var t := s.(stopBeats := true);
    if BeatUnresumed(t) then t.(pc := JoinAtEnd(verdict, t.beats))
    else t.(phase := Settled, pc := Done(verdict))
  }

  function Decide(s: State, verdict: Verdict): State {
    Leave(Note(s, Decided(verdict, s.now, s.lease, s.beat == InFlight)), verdict)
  }

  function Success(mode: Mode): Verdict {
    if mode == Completing then Completed else Failed
  }

  /** A settlement that came back applied: one more fence check decides. */
  function EndApplied(s: State, mode: Mode): State {
    var t := Check(s);
    Decide(t, if t.phase == Fenced then Abandoned else Success(mode))
  }

  /** An error thrown out of the retry loop: reported as failed when completing, re-thrown when failing. */
  function EndThrown(s: State, mode: Mode): State {
    Decide(s, if mode == Completing then Failed else Threw)
  }

  /** Top of the retry loop. */
  function LoopTop(s: State, mode: Mode): State {
    var t := Check(s);
    if t.phase == Fenced || t.now >= t.deadline then Decide(t, Abandoned)
    else Note(t, Request(mode, t.now, t.lease, t.calls + 1)).(pc := SettleReply(mode), calls := t.calls + 1)
  }

  /** Bottom of the retry loop. */
  function LoopBottom(c: Config, s: State, mode: Mode): State {
    var t := Check(s);
    if t.phase == Fenced then Decide(t, Abandoned)
    else if t.aborting then
      var u := t.(shutdownRetries := t.shutdownRetries + 1);
      if u.shutdownRetries >= 3 then Decide(u, Abandoned)
      else u.(pc := SettleSleep(mode, u.now + c.poll))
    else t.(pc := SettleSleep(mode, t.now + c.poll))
  }

  /** Fenced before any settlement: abandoned without a request. */
  function AbandonAtOnce(s: State): State {
    Note(s, Decided(Abandoned, s.now, s.lease, s.beat == InFlight))
      .(stopBeats := true, phase := Settled, pc := Done(Abandoned))
  }

  /** The first time round the retry loop; the deadline is fixed here. */
  function FirstLoop(c: Config, s: State): State {
    s.(phase := Settling, deadline := s.now + c.maxSettlement, shutdownRetries := 0)
  }

  /** After the assembly and the in-flight heartbeat. */
  function EnterSettlement(c: Config, s: State, failed: bool): State {
    var t := Check(s);
    if t.phase == Fenced then AbandonAtOnce(t)
    else LoopTop(FirstLoop(c, t), if failed then Failing else Completing)
  }

  /** The status that tells the probe its settlement already took effect. */
  predicate ProbeConfirms(mode: Mode, status: ProbeStatus) {
    match mode
    case Completing => status == CompletedStatus
    case Failing => status == FailedStatus || status == QueuedStatus
  }

  predicate ProbeSaysLost(now: int, p: Probe)
    requires p.Job?
  {
    || !p.sameLease
    || (p.status != Rendering && p.status != Leased)
    || (p.expiresAt.Some? && now >= p.expiresAt.value)
  }

  function AfterProbe(c: Config, s: State, mode: Mode, p: Probe): State {
    if !p.Job? then LoopBottom(c, s, mode)
    else if ProbeConfirms(mode, p.status) then EndApplied(Note(s, ProbeSettled(mode, p.sameLease)), mode)
    else if ProbeSaysLost(s.now, p) then Decide(Note(s, ProbeLost).(phase := Fenced), Abandoned)
    else LoopBottom(c, s, mode)
  }

  function AfterSettleReply(s: State, mode: Mode, r: Reply): State {
    var t := Note(s, SettleAnswer(mode, r));
    if IsApplied(r) then EndApplied(t, mode)
    else if IsFencing(r) then Decide(t.(phase := Fenced), Abandoned)
    else if IsFatal(r) then EndThrown(t, mode)
    else t.(pc := ProbeReply(mode))
  }

  function AfterStartReply(c: Config, s: State, r: Reply): State {
    var t := Note(s, StartAnswer(r));
    if IsFencing(r) then t.(pc := Done(Abandoned))
    else if r.Resolved? then
      // active: the heartbeat loop starts and sleeps, the assembly runs
      t.(lease := t.now + c.leaseDuration, phase := Active, beat := Sleeping, pc := Assembling)
    else if IsFatal(r) || t.aborting then t.(pc := Done(Threw))
    else t.(pc := StartSleep(t.now + c.poll))
  }

  function AfterBeatReply(c: Config, s: State, r: Reply, expiresAt: Option<int>): State {
    var t := Note(s, BeatAnswer(r)).(beat := Replied);
    if IsFencing(r) then t.(phase := Fenced, stopBeats := true)
    else if IsApplied(r) then t.(lease := if expiresAt.Some? then expiresAt.value else t.now + c.leaseDuration)
    else if r.Thrown? && t.now >= t.lease then t.(phase := Fenced, stopBeats := true)
    else t
  }

  /** The awaited heartbeat has been answered. */
  predicate BeatAnswered(s: State, beat: nat) {
    s.beats > beat || s.beat != InFlight
  }

  /** One step of the attempt; None when the action is not possible. */
  function Apply(c: Config, s: State, a: Action): Option<State> {
    match a
    case Tick(ms) => Some(s.(now := s.now + ms))
    case Shutdown => Some(s.(aborting := true))
    case OnStartReply(r) => if s.pc == StartReply then Some(AfterStartReply(c, s, r)) else None
    case OnStartWake =>
      if s.pc.StartSleep? && (s.aborting || s.now >= s.pc.until)
      then Some(s.(pc := if s.aborting then Done(Threw) else StartReply))
      else None
    case OnAssembled(failed) =>
      if s.pc != Assembling then None
      else if BeatUnresumed(s) then Some(s.(pc := JoinBefore(failed, s.beats)))
      else Some(EnterSettlement(c, s, failed))
    case OnJoined =>
      if s.pc.JoinBefore? && BeatAnswered(s, s.pc.beat) then Some(EnterSettlement(c, s, s.pc.failed))
      else if s.pc.JoinAtEnd? && BeatAnswered(s, s.pc.beat) then Some(s.(phase := Settled, pc := Done(s.pc.verdict)))
      else None
    case OnSettleReply(r) => if s.pc.SettleReply? then Some(AfterSettleReply(s, s.pc.mode, r)) else None
    case OnProbe(p) => if s.pc.ProbeReply? then Some(AfterProbe(c, s, s.pc.mode, p)) else None
    case OnSettleWake =>
      if s.pc.SettleSleep? && (s.aborting || s.now >= s.pc.until) then Some(LoopTop(s, s.pc.mode)) else None
    case OnSleepThrew =>
      if s.pc.SettleSleep? then Some(EndThrown(s, s.pc.mode))
      else if s.pc.StartSleep? then Some(s.(pc := Done(Threw)))
      else None
    case OnBeatWake =>
      if s.beat != Sleeping then None
      else if !BeatsMayRun(s) then Some(s.(beat := Stopped))
      else Some(Note(s, BeatSent).(beat := InFlight, beats := s.beats + 1))
    case OnBeatSleepThrew => if s.beat == Sleeping then Some(s.(beat := Stopped)) else None
    case OnBeatReply(r, expiresAt) => if s.beat == InFlight then Some(AfterBeatReply(c, s, r, expiresAt)) else None
    case OnBeatResume =>
      if s.beat == Replied then Some(s.(beat := if BeatsMayRun(s) then Sleeping else Stopped)) else None
  }

  /** The states an attempt passes through under a sequence of actions. */
  ghost function Run(c: Config, s: State, actions: seq<Action>): Option<State> {
    if actions == [] then Some(s)
    else
      var before := Run(c, s, actions[..|actions| - 1]);
      if before.None? then None else Apply(c, before.value, actions[|actions| - 1])
  }

  ghost predicate Reachable(c: Config, s: State) {
    exists now: int, expiry: Option<int>, actions: seq<Action> :: Run(c, Init(now, expiry, c), actions) == Some(s)
  }

  // ----- safety of settlement requests -----

  predicate FencingEvent(e: Event) {
    match e
    case SettleAnswer(_, r) => IsFencing(r)
    case StartAnswer(r) => IsFencing(r)
    case BeatAnswer(r) => IsFencing(r)
    case ProbeLost => true
    case _ => false
  }

  ghost predicate FencingSeen(log: seq<Event>) {
    exists e | e in log :: FencingEvent(e)
  }

  /** A request goes out only on a live lease, before any sign that it was lost. */
  ghost predicate RequestsJustified(log: seq<Event>) {
    forall k | 0 <= k < |log| && log[k].Request? :: log[k].at < log[k].lease && !FencingSeen(log[..k])
  }

  /** Requests are numbered upwards in the order they go out, the last one at most n. */
  ghost predicate RequestsNumbered(log: seq<Event>, n: nat) {
    && (forall e | e in log && e.Request? :: 1 <= e.number <= n)
    && (forall j, k | 0 <= j < k < |log| && log[j].Request? && log[k].Request? :: log[j].number < log[k].number)
  }

  ghost predicate RequestsAre(log: seq<Event>, mode: Option<Mode>) {
    forall e | e in log && e.Request? :: Some(e.mode) == mode
  }

  /** An applied answer, or a probe that saw the settled status, whatever lease the job then carried. */
  predicate IsEvidence(e: Event, mode: Mode) {
    match e
    case SettleAnswer(m, r) => m == mode && IsApplied(r)
    case ProbeSettled(m, _) => m == mode
    case _ => false
  }

  ghost predicate Evidence(log: seq<Event>, mode: Mode) {
    exists e | e in log :: IsEvidence(e, mode)
  }

  ghost predicate Asked(log: seq<Event>, mode: Mode) {
    exists e | e in log :: e.Request? && e.mode == mode
  }

  /** A success verdict rests on evidence, an unexpired lease and no sign that the lease was lost. */
  ghost predicate DecisionSound(before: seq<Event>, d: Event)
    requires d.Decided?
  {
    match d.verdict
    case Completed => Evidence(before, Completing) && !FencingSeen(before) && d.at < d.lease
    case Failed =>
      || (Evidence(before, Failing) && !FencingSeen(before) && d.at < d.lease)
      || Asked(before, Completing)
    case Threw => Asked(before, Failing)
    case Abandoned => true
  }

  ghost predicate NoDecision(log: seq<Event>) {
    forall e | e in log :: !e.Decided?
  }

  ghost predicate NoFencedStart(log: seq<Event>) {
    forall e | e in log && e.StartAnswer? :: !IsFencing(e.reply)
  }

  /** While the main coroutine is at work, possibly in the settlement of one mode. */
  ghost predicate Live(s: State, mode: Option<Mode>) {
    && RequestsJustified(s.log) && RequestsAre(s.log, mode) && NoDecision(s.log) && NoFencedStart(s.log)
    && RequestsNumbered(s.log, s.calls)
    && (FencingSeen(s.log) ==> s.phase == Fenced)
    && s.phase != Settled
  }

  /** After the decision only heartbeat answers can follow, and only if a heartbeat was in flight. */
  ghost predicate QuietAfterDecision(log: seq<Event>) {
    forall k, j | 0 <= k < j < |log| && log[k].Decided? :: log[j].BeatAnswer? && log[k].beatInFlight
  }

  ghost predicate DecisionsSound(log: seq<Event>, verdict: Verdict) {
    && (forall k | 0 <= k < |log| && log[k].Decided? :: DecisionSound(log[..k], log[k]) && log[k].verdict == verdict)
    && (verdict == Completed || verdict == Failed ==> exists e | e in log :: e.Decided?)
  }

  ghost predicate Over(s: State, verdict: Verdict) {
    && RequestsJustified(s.log) && RequestsNumbered(s.log, s.calls)
    && (exists mode :: RequestsAre(s.log, mode))
    && (NoFencedStart(s.log) || RequestsAre(s.log, None))
    && DecisionsSound(s.log, verdict) && QuietAfterDecision(s.log)
    && (s.stopBeats || s.beat == NotRunning)
    && (forall e | e in s.log && e.Decided? && !e.beatInFlight :: s.beat != InFlight)
  }

  ghost predicate Inv(s: State) {
    match s.pc
    case StartReply => Live(s, None) && s.beat == NotRunning && s.phase == Starting
    case StartSleep(_) => Live(s, None) && s.beat == NotRunning && s.phase == Starting
    case Assembling => Live(s, None)
    case JoinBefore(_, _) => Live(s, None)
    case SettleReply(mode) => Live(s, Some(mode)) && Asked(s.log, mode)
    case ProbeReply(mode) => Live(s, Some(mode)) && Asked(s.log, mode)
    case SettleSleep(mode, _) => Live(s, Some(mode)) && Asked(s.log, mode)
    case JoinAtEnd(verdict, _) => Over(s, verdict) && s.phase != Settled
    case Done(verdict) => Over(s, verdict)
  }

  lemma AppendRequest(log: seq<Event>, n: nat, e: Event)
    requires RequestsJustified(log) && RequestsNumbered(log, n)
    requires e.Request? ==> e.at < e.lease && !FencingSeen(log) && e.number == n + 1
    ensures RequestsJustified(log + [e]) && RequestsNumbered(log + [e], if e.Request? then n + 1 else n)
  {
    var longer := log + [e];
    assert forall k | 0 <= k < |log| :: log[k] in log;
    forall k | 0 <= k < |longer| && longer[k].Request?
      ensures longer[k].at < longer[k].lease && !FencingSeen(longer[..k])
    {
      assert longer[..k] == if k < |log| then log[..k] else log;
    }
  }

  /** A live attempt stays live under any event that is no decision, is fenced if fencing, and keeps the mode. */
  lemma NoteLive(s: State, mode: Option<Mode>, e: Event)
    requires Live(s, mode)
    requires !e.Decided? && (e.StartAnswer? ==> !IsFencing(e.reply))
    requires e.Request? ==> e.at < e.lease && !FencingSeen(s.log) && mode == Some(e.mode) && e.number == s.calls + 1
    ensures var t := Note(s, e);
            && RequestsNumbered(t.log, if e.Request? then s.calls + 1 else s.calls)
            && RequestsJustified(t.log) && RequestsAre(t.log, mode) && NoDecision(t.log) && NoFencedStart(t.log)
            && (FencingSeen(t.log) <==> FencingSeen(s.log) || FencingEvent(e))
  {
    AppendRequest(s.log, s.calls, e);
    assert e in Note(s, e).log;
    if x :| x in s.log && FencingEvent(x) { assert x in Note(s, e).log; }
  }

  /** A sound decision ends a live attempt, however the attempt then winds down. */
  lemma DecisionEnds(s: State, mode: Option<Mode>, verdict: Verdict, t: State)
    requires Live(s, mode)
    requires DecisionSound(s.log, Decided(verdict, s.now, s.lease, s.beat == InFlight))
    requires t.log == s.log + [Decided(verdict, s.now, s.lease, s.beat == InFlight)]
    requires t.stopBeats && t.beat == s.beat && t.calls == s.calls
    ensures Over(t, verdict)
  {
    var d := Decided(verdict, s.now, s.lease, s.beat == InFlight);
    AppendRequest(s.log, s.calls, d);
    AppendDecision(s.log, d);
    assert RequestsAre(t.log, mode);
    assert NoFencedStart(t.log);
  }

  lemma AppendDecision(log: seq<Event>, d: Event)
    requires NoDecision(log) && d.Decided? && DecisionSound(log, d)
    ensures DecisionsSound(log + [d], d.verdict) && QuietAfterDecision(log + [d])
    ensures forall e | e in log + [d] && e.Decided? :: e == d
  {
    var longer := log + [d];
    assert d in longer && longer[|log|] == d && longer[..|log|] == log;
    assert forall k | 0 <= k < |log| :: longer[k] == log[k] && longer[k] in log;
  }

  lemma DecideEnds(s: State, mode: Option<Mode>, verdict: Verdict)
    requires Live(s, mode)
    requires DecisionSound(s.log, Decided(verdict, s.now, s.lease, s.beat == InFlight))
    ensures Inv(Decide(s, verdict))
  {
    DecisionEnds(s, mode, verdict, Decide(s, verdict));
  }

  lemma RequestKeepsLive(s: State, mode: Mode, t: State)
    requires Live(s, Some(mode)) && s.phase != Fenced && s.now < s.lease
    requires t == Note(s, Request(mode, s.now, s.lease, s.calls + 1)).(pc := SettleReply(mode), calls := s.calls + 1)
    ensures Live(t, Some(mode)) && Asked(t.log, mode)
  {
    var e := Request(mode, s.now, s.lease, s.calls + 1);
    NoteLive(s, Some(mode), e);
    assert e in t.log;
  }

  lemma LoopTopKeeps(s: State, mode: Mode)
    requires Live(s, Some(mode))
    ensures Inv(LoopTop(s, mode))
  {
    var t := Check(s);
    if t.phase == Fenced || t.now >= t.deadline {
      DecideEnds(t, Some(mode), Abandoned);
    } else {
      RequestKeepsLive(t, mode, LoopTop(s, mode));
    }
  }

  lemma LoopBottomKeeps(c: Config, s: State, mode: Mode)
    requires Live(s, Some(mode)) && Asked(s.log, mode)
    ensures Inv(LoopBottom(c, s, mode))
  {
    var t := Check(s);
    if t.phase == Fenced {
      DecideEnds(t, Some(mode), Abandoned);
    } else if t.aborting {
      DecideEnds(t.(shutdownRetries := t.shutdownRetries + 1), Some(mode), Abandoned);
    }
  }

  lemma EndAppliedKeeps(s: State, mode: Mode)
    requires Live(s, Some(mode)) && Evidence(s.log, mode)
    ensures Inv(EndApplied(s, mode))
  {
    var t := Check(s);
    DecideEnds(t, Some(mode), if t.phase == Fenced then Abandoned else Success(mode));
  }

  lemma EndThrownKeeps(s: State, mode: Mode)
    requires Live(s, Some(mode)) && Asked(s.log, mode)
    ensures Inv(EndThrown(s, mode))
  {
    DecideEnds(s, Some(mode), if mode == Completing then Failed else Threw);
  }

  lemma NoRequestsYet(s: State, mode: Mode)
    requires Live(s, None)
    ensures Live(s, Some(mode))
  {
    assert forall e | e in s.log && e.Request? :: Some(e.mode) == None;
  }

  lemma AbandonAtOnceKeeps(s: State)
    requires Live(s, None)
    ensures Inv(AbandonAtOnce(s))
  {
    DecisionEnds(s, None, Abandoned, AbandonAtOnce(s));
  }

  lemma EnterSettlementKeeps(c: Config, s: State, failed: bool)
    requires Live(s, None)
    ensures Inv(EnterSettlement(c, s, failed))
  {
    var t := Check(s);
    if t.phase == Fenced {
      AbandonAtOnceKeeps(t);
    } else {
      var mode := if failed then Failing else Completing;
      NoRequestsYet(t, mode);
      LoopTopKeeps(FirstLoop(c, t), mode);
    }
  }

  lemma AfterProbeKeeps(c: Config, s: State, mode: Mode, p: Probe)
    requires Live(s, Some(mode)) && Asked(s.log, mode)
    ensures Inv(AfterProbe(c, s, mode, p))
  {
    if !p.Job? {
      LoopBottomKeeps(c, s, mode);
    } else if ProbeConfirms(mode, p.status) {
      var e := ProbeSettled(mode, p.sameLease);
      NoteLive(s, Some(mode), e);
      assert e in Note(s, e).log && IsEvidence(e, mode);
      EndAppliedKeeps(Note(s, e), mode);
    } else if ProbeSaysLost(s.now, p) {
      NoteLive(s, Some(mode), ProbeLost);
      DecideEnds(Note(s, ProbeLost).(phase := Fenced), Some(mode), Abandoned);
    } else {
      LoopBottomKeeps(c, s, mode);
    }
  }

  lemma AfterSettleReplyKeeps(s: State, mode: Mode, r: Reply)
    requires Live(s, Some(mode)) && Asked(s.log, mode)
    ensures Inv(AfterSettleReply(s, mode, r))
  {
    var e := SettleAnswer(mode, r);
    var t := Note(s, e);
    NoteLive(s, Some(mode), e);
    assert e in t.log;
    AskedStays(s.log, mode, e);
    if IsApplied(r) {
      assert IsEvidence(e, mode);
      EndAppliedKeeps(t, mode);
    } else if IsFencing(r) {
      DecideEnds(t.(phase := Fenced), Some(mode), Abandoned);
    } else if IsFatal(r) {
      EndThrownKeeps(t, mode);
    }
  }

  lemma AskedStays(log: seq<Event>, mode: Mode, e: Event)
    requires Asked(log, mode)
    ensures Asked(log + [e], mode)
  {
    var x :| x in log && x.Request? && x.mode == mode;
    assert x in log + [e];
  }

  lemma AfterStartReplyKeeps(c: Config, s: State, r: Reply)
    requires Inv(s) && s.pc == StartReply
    ensures Inv(AfterStartReply(c, s, r))
  {
    var e := StartAnswer(r);
    var t := Note(s, e);
    if IsFencing(r) {
      AppendRequest(s.log, s.calls, e);
      assert RequestsAre(t.log, None);
    } else {
      NoteLive(s, None, e);
    }
  }

  /** A heartbeat's events change only the phase, the lease and the heartbeat's own state. */
  lemma BeatNoteKeeps(s: State, e: Event, t: State)
    requires Inv(s) && s.beat != NotRunning
    requires e == BeatSent || (e.BeatAnswer? && s.beat == InFlight)
    requires t.pc == s.pc && t.log == s.log + [e] && t.calls == s.calls
    requires e == BeatSent ==> !s.stopBeats
    requires t.stopBeats || t.stopBeats == s.stopBeats
    requires e.BeatAnswer? ==> t.beat != InFlight
    requires t.beat != NotRunning
    requires t.phase == s.phase || t.phase == Fenced
    requires FencingEvent(e) ==> t.phase == Fenced
    ensures Inv(t)
  {
    if s.pc.JoinAtEnd? || s.pc.Done? {
      AppendRequest(s.log, s.calls, e);
      OverStays(s, e, t);
    } else {
      var mode := if s.pc.SettleReply? || s.pc.ProbeReply? || s.pc.SettleSleep? then Some(s.pc.mode) else None;
      NoteLive(s, mode, e);
      if mode.Some? {
        AskedStays(s.log, mode.value, e);
      }
    }
  }

  lemma OverStays(s: State, e: Event, t: State)
    requires (s.pc.JoinAtEnd? || s.pc.Done?) && Over(s, s.pc.verdict)
    requires e.BeatAnswer? && s.beat == InFlight && t.beat != InFlight
    requires t.log == s.log + [e] && (t.stopBeats || t.stopBeats == s.stopBeats)
    requires RequestsJustified(t.log) && RequestsNumbered(t.log, t.calls)
    ensures Over(t, s.pc.verdict)
  {
    var mode :| RequestsAre(s.log, mode);
    assert RequestsAre(t.log, mode);
    if RequestsAre(s.log, None) { assert RequestsAre(t.log, None); }
    assert forall k | 0 <= k < |s.log| :: t.log[k] == s.log[k] && t.log[..k] == s.log[..k] && s.log[k] in s.log;
    if x :| x in s.log && x.Decided? { assert x in t.log; }
  }

  predicate IsStartAction(a: Action) {
    a.OnStartReply? || a.OnStartWake? || a.OnAssembled?
  }

  predicate IsSettleAction(a: Action) {
    a.OnSettleReply? || a.OnProbe? || a.OnSettleWake? || a.OnSleepThrew?
  }

  lemma StartStepKeepsInv(c: Config, s: State, a: Action)
    requires Inv(s) && Apply(c, s, a).Some? && (IsStartAction(a) || a.OnJoined?)
    ensures Inv(Apply(c, s, a).value)
  {
    match a
    case OnStartReply(r) => AfterStartReplyKeeps(c, s, r);
    case OnAssembled(failed) => if !BeatUnresumed(s) { EnterSettlementKeeps(c, s, failed); }
    case OnJoined => if s.pc.JoinBefore? { EnterSettlementKeeps(c, s, s.pc.failed); }
    case _ =>
  }

  lemma SettleStepKeepsInv(c: Config, s: State, a: Action)
    requires Inv(s) && Apply(c, s, a).Some? && IsSettleAction(a)
    ensures Inv(Apply(c, s, a).value)
  {
    match a
    case OnSettleReply(r) => AfterSettleReplyKeeps(s, s.pc.mode, r);
    case OnProbe(p) => AfterProbeKeeps(c, s, s.pc.mode, p);
    case OnSettleWake => LoopTopKeeps(s, s.pc.mode);
    case OnSleepThrew => if s.pc.SettleSleep? { EndThrownKeeps(s, s.pc.mode); }
  }

  lemma BeatStepKeepsInv(c: Config, s: State, a: Action)
    requires Inv(s) && Apply(c, s, a).Some?
    requires !IsStartAction(a) && !IsSettleAction(a) && !a.OnJoined?
    ensures Inv(Apply(c, s, a).value)
  {
    match a
    case OnBeatWake =>
      if BeatsMayRun(s) { BeatNoteKeeps(s, BeatSent, Apply(c, s, a).value); }
    case OnBeatReply(r, expiresAt) => BeatNoteKeeps(s, BeatAnswer(r), Apply(c, s, a).value);
    case _ =>
  }

  lemma StepKeepsInv(c: Config, s: State, a: Action)
    requires Inv(s) && Apply(c, s, a).Some?
    ensures Inv(Apply(c, s, a).value)
  {
    if IsStartAction(a) || a.OnJoined? {
      StartStepKeepsInv(c, s, a);
    } else if IsSettleAction(a) {
      SettleStepKeepsInv(c, s, a);
    } else {
      BeatStepKeepsInv(c, s, a);
    }
  }

  lemma {:induction false} RunKeepsInv(c: Config, now: int, expiry: Option<int>, actions: seq<Action>)
    requires Run(c, Init(now, expiry, c), actions).Some?
    ensures Inv(Run(c, Init(now, expiry, c), actions).value)
  {
    if actions != [] {
      RunKeepsInv(c, now, expiry, actions[..|actions| - 1]);
      StepKeepsInv(c, Run(c, Init(now, expiry, c), actions[..|actions| - 1]).value, actions[|actions| - 1]);
    }
  }

  // ----- main results -----

  /** Every complete and fail request is issued on an unexpired lease, before any sign that it was lost. */
  lemma SettlementRequestsAreFenced(c: Config, s: State)
    requires Reachable(c, s)
    ensures RequestsJustified(s.log)
  {
    var now: int, expiry: Option<int>, actions: seq<Action> :| Run(c, Init(now, expiry, c), actions) == Some(s);
    RunKeepsInv(c, now, expiry, actions);
  }

  /** Once fenced, a step leaves the attempt fenced or settles it; a settled attempt has finished. */
  lemma FencedOnlyBecomesSettled(c: Config, s: State, a: Action)
    requires Reachable(c, s) && Apply(c, s, a).Some?
    ensures s.phase == Fenced ==> Apply(c, s, a).value.phase == Fenced || Apply(c, s, a).value.phase == Settled
    ensures s.phase == Settled ==> s.pc.Done?
  {
    var now: int, expiry: Option<int>, actions: seq<Action> :| Run(c, Init(now, expiry, c), actions) == Some(s);
    RunKeepsInv(c, now, expiry, actions);
    FencedStep(c, s, a);
  }

  lemma FencedStep(c: Config, s: State, a: Action)
    requires Apply(c, s, a).Some? && s.phase == Fenced ==> s.pc != StartReply
    ensures Apply(c, s, a).Some? && s.phase == Fenced ==>
              Apply(c, s, a).value.phase == Fenced || Apply(c, s, a).value.phase == Settled
  {
  }

  /** No attempt issues both complete and fail; an attempt refused at start issues neither. */
  lemma OneKindOfSettlement(c: Config, s: State)
    requires Reachable(c, s)
    ensures !(Asked(s.log, Completing) && Asked(s.log, Failing))
    ensures !NoFencedStart(s.log) ==> !Asked(s.log, Completing) && !Asked(s.log, Failing)
  {
    var now: int, expiry: Option<int>, actions: seq<Action> :| Run(c, Init(now, expiry, c), actions) == Some(s);
    RunKeepsInv(c, now, expiry, actions);
  }

  /**
    An attempt that returns completed had an applied reply or a confirming
    probe, and at the decision the lease was unexpired and nothing had fenced
    it.  Nothing fences it later either, unless a heartbeat was in flight at
    the decision: then exactly that heartbeat's answer can.
  */
  lemma CompletedIsSound(c: Config, s: State) returns (k: nat)
    requires Reachable(c, s) && s.pc == Done(Completed)
    ensures k < |s.log| && s.log[k].Decided? && s.log[k].verdict == Completed
    ensures DecisionSound(s.log[..k], s.log[k])
    ensures FencingSeen(s.log) <==> exists j :: k < j < |s.log| && s.log[j].BeatAnswer? && IsFencing(s.log[j].reply)
    ensures !s.log[k].beatInFlight ==> !FencingSeen(s.log)
  {
    var now: int, expiry: Option<int>, actions: seq<Action> :| Run(c, Init(now, expiry, c), actions) == Some(s);
    RunKeepsInv(c, now, expiry, actions);
    var d :| d in s.log && d.Decided?;
    k :| 0 <= k < |s.log| && s.log[k] == d;
    FencingAfterDecision(s.log, k);
  }

  /**
    An attempt that returns failed either had its fail request applied or
    confirmed, on an unexpired lease nothing had fenced, or had asked for
    complete.
  */
  lemma FailedIsSound(c: Config, s: State) returns (k: nat)
    requires Reachable(c, s) && s.pc == Done(Failed)
    ensures k < |s.log| && s.log[k].Decided? && s.log[k].verdict == Failed
    ensures !Asked(s.log, Completing) ==>
              && Evidence(s.log[..k], Failing) && !FencingSeen(s.log[..k]) && s.log[k].at < s.log[k].lease
  {
    var now: int, expiry: Option<int>, actions: seq<Action> :| Run(c, Init(now, expiry, c), actions) == Some(s);
    RunKeepsInv(c, now, expiry, actions);
    var d :| d in s.log && d.Decided?;
    k :| 0 <= k < |s.log| && s.log[k] == d;
    if Asked(s.log[..k], Completing) {
      var e :| e in s.log[..k] && e.Request? && e.mode == Completing;
      assert e in s.log;
    }
  }

  /** With nothing fencing before the decision, only a later heartbeat answer can be fencing. */
  lemma FencingAfterDecision(log: seq<Event>, k: nat)
    requires k < |log| && log[k].Decided? && QuietAfterDecision(log) && !FencingSeen(log[..k])
    ensures FencingSeen(log) <==> exists j :: k < j < |log| && log[j].BeatAnswer? && IsFencing(log[j].reply)
    ensures !log[k].beatInFlight ==> !FencingSeen(log)
  {
    if FencingSeen(log) {
      var e :| e in log && FencingEvent(e);
      var j :| 0 <= j < |log| && log[j] == e;
      assert forall i | 0 <= i < k :: log[i] in log[..k];
      assert k < j;
    }
    if j :| k < j < |log| && log[j].BeatAnswer? && IsFencing(log[j].reply) {
      assert log[j] in log;
    }
  }

  lemma ReachableStep(c: Config, s: State, a: Action)
    requires Reachable(c, s) && Apply(c, s, a).Some?
    ensures Reachable(c, Apply(c, s, a).value)
  {
    var now: int, expiry: Option<int>, actions: seq<Action> :| Run(c, Init(now, expiry, c), actions) == Some(s);
    assert (actions + [a])[..|actions|] == actions;
    assert Run(c, Init(now, expiry, c), actions + [a]) == Apply(c, s, a);
  }

  /**
    The stronger reading is false: completed can be returned although the
    server has meanwhile answered a heartbeat with superseded.  The heartbeat
    is sent while complete is in flight and answered in the finally clause.
  */
  lemma CompletedMayEndFenced(c: Config) returns (s: State)
    ensures Reachable(c, s) && s.pc == Done(Completed) && FencingSeen(s.log)
  {
    s := CompletingWithBeatInFlight(c);
    s := AfterAction(c, s, OnSettleReply(Resolved(Applied)));
    s := AfterAction(c, s, OnBeatReply(Resolved(Superseded), None));
    assert BeatAnswer(Resolved(Superseded)) in s.log;
    s := AfterAction(c, s, OnJoined);
  }

  lemma CompletingWithBeatInFlight(c: Config) returns (s: State)
    ensures Reachable(c, s) && s.pc == SettleReply(Completing) && s.phase == Settling
    ensures s.beat == InFlight && s.beats == 1 && s.now < s.lease
  {
    s := Init(0, None, c);
    assert Run(c, s, []) == Some(s);
    s := AfterAction(c, s, OnStartReply(Resolved(Applied)));
    s := AfterAction(c, s, OnAssembled(false));
    s := AfterAction(c, s, OnBeatWake);
  }

  lemma AfterAction(c: Config, s: State, a: Action) returns (t: State)
    requires Reachable(c, s) && Apply(c, s, a).Some?
    ensures Reachable(c, t) && Apply(c, s, a) == Some(t)
  {
    ReachableStep(c, s, a);
    t := Apply(c, s, a).value;
  }

  // ----- which settlement -----

  ghost predicate AssemblyOpen(actions: seq<Action>) {
    OnAssembled(true) !in actions && OnAssembled(false) !in actions
  }

  /** The assembly has ended, with this result and no other. */
  ghost predicate AssemblyEnded(actions: seq<Action>, failed: bool) {
    OnAssembled(failed) in actions && OnAssembled(!failed) !in actions
  }

  /** Where the attempt stands fits what the assembly has answered so far. */
  ghost predicate PlaceFits(pc: Pc, actions: seq<Action>) {
    match pc
    case StartReply => AssemblyOpen(actions)
    case StartSleep(_) => AssemblyOpen(actions)
    case Assembling => AssemblyOpen(actions)
    case JoinBefore(failed, _) => AssemblyEnded(actions, failed)
    case SettleReply(mode) => AssemblyEnded(actions, mode == Failing)
    case ProbeReply(mode) => AssemblyEnded(actions, mode == Failing)
    case SettleSleep(mode, _) => AssemblyEnded(actions, mode == Failing)
    case _ => true
  }

  ghost predicate RequestsFit(log: seq<Event>, actions: seq<Action>) {
    forall e | e in log && e.Request? :: AssemblyEnded(actions, e.mode == Failing)
  }

  /** What a step adds asks for nothing, or leaves the attempt waiting for just that request. */
  ghost predicate AsksOnly(log: seq<Event>, longer: seq<Event>, pc: Pc) {
    log <= longer && forall k | |log| <= k < |longer| && longer[k].Request? :: pc == SettleReply(longer[k].mode)
  }

  lemma LoopTopAsks(s: State, mode: Mode)
    ensures var t := LoopTop(s, mode); AsksOnly(s.log, t.log, t.pc) && (t.pc == SettleReply(mode) || Ended(t.pc))
  {
    DecideShape(Check(s), Abandoned);
  }

  lemma EnterSettlementAsks(c: Config, s: State, failed: bool)
    ensures var t := EnterSettlement(c, s, failed);
            && AsksOnly(s.log, t.log, t.pc)
            && (t.pc == SettleReply(if failed then Failing else Completing) || Ended(t.pc))
  {
    if Check(s).phase != Fenced {
      LoopTopAsks(FirstLoop(c, Check(s)), if failed then Failing else Completing);
    }
  }

  lemma SettleReplyAsks(s: State, mode: Mode, r: Reply)
    ensures var t := AfterSettleReply(s, mode, r); AsksOnly(s.log, t.log, t.pc)
  {
    var t := Note(s, SettleAnswer(mode, r));
    if IsApplied(r) {
      EndAppliedShape(t, mode);
    } else if IsFencing(r) {
      DecideShape(t.(phase := Fenced), Abandoned);
    } else if IsFatal(r) {
      DecideShape(t, if mode == Completing then Failed else Threw);
    }
  }

  lemma LoopBottomAsks(c: Config, s: State, mode: Mode)
    ensures var t := LoopBottom(c, s, mode);
            AsksOnly(s.log, t.log, t.pc) && (Ended(t.pc) || (t.pc.SettleSleep? && t.pc.mode == mode))
  {
  }

  lemma ProbeAsks(c: Config, s: State, mode: Mode, p: Probe)
    ensures var t := AfterProbe(c, s, mode, p);
            AsksOnly(s.log, t.log, t.pc) && (Ended(t.pc) || (t.pc.SettleSleep? && t.pc.mode == mode))
  {
    if p.Job? && ProbeConfirms(mode, p.status) {
      EndAppliedShape(Note(s, ProbeSettled(mode, p.sameLease)), mode);
    } else if p.Job? && ProbeSaysLost(s.now, p) {
      DecideShape(Note(s, ProbeLost).(phase := Fenced), Abandoned);
    } else {
      LoopBottomAsks(c, s, mode);
    }
  }

  lemma SettleStepAsks(c: Config, s: State, a: Action, actions: seq<Action>)
    requires Apply(c, s, a).Some? && IsSettleAction(a) && PlaceFits(s.pc, actions)
    ensures var t := Apply(c, s, a).value; AsksOnly(s.log, t.log, t.pc) && PlaceFits(t.pc, actions)
  {
    if a.OnSettleReply? {
      SettleReplyAsks(s, s.pc.mode, a.reply);
      SettleReplyShape(s, s.pc.mode, a.reply);
    } else if a.OnProbe? {
      ProbeAsks(c, s, s.pc.mode, a.probe);
    } else if a.OnSettleWake? {
      LoopTopAsks(s, s.pc.mode);
    } else if s.pc.SettleSleep? {
      DecideShape(s, if s.pc.mode == Completing then Failed else Threw);
    }
  }

  lemma OtherStepAsks(c: Config, s: State, a: Action, actions: seq<Action>)
    requires Apply(c, s, a).Some? && !IsSettleAction(a) && !a.OnAssembled? && PlaceFits(s.pc, actions)
    ensures var t := Apply(c, s, a).value; AsksOnly(s.log, t.log, t.pc) && PlaceFits(t.pc, actions)
  {
    if a.OnJoined? && s.pc.JoinBefore? {
      EnterSettlementAsks(c, s, s.pc.failed);
    }
  }

  lemma AssembledStepAsks(c: Config, s: State, failed: bool, actions: seq<Action>)
    requires s.pc == Assembling && PlaceFits(s.pc, actions)
    ensures var t := Apply(c, s, OnAssembled(failed)).value;
            AsksOnly(s.log, t.log, t.pc) && PlaceFits(t.pc, actions + [OnAssembled(failed)])
  {
    if !BeatUnresumed(s) {
      EnterSettlementAsks(c, s, failed);
    }
  }

  lemma StepKeepsFit(c: Config, s: State, a: Action, actions: seq<Action>)
    requires Apply(c, s, a).Some? && PlaceFits(s.pc, actions) && RequestsFit(s.log, actions)
    ensures var t := Apply(c, s, a).value; PlaceFits(t.pc, actions + [a]) && RequestsFit(t.log, actions + [a])
  {
    var t := Apply(c, s, a).value;
    if a.OnAssembled? {
      AssembledStepAsks(c, s, a.failed, actions);
    } else if IsSettleAction(a) {
      SettleStepAsks(c, s, a, actions);
    } else {
      OtherStepAsks(c, s, a, actions);
    }
    forall e | e in t.log && e.Request? ensures AssemblyEnded(actions + [a], e.mode == Failing) {
      var k :| 0 <= k < |t.log| && t.log[k] == e;
      if k < |s.log| {
        assert s.log[k] in s.log;
      }
    }
  }

  lemma {:induction false} RunKeepsFit(c: Config, now: int, expiry: Option<int>, actions: seq<Action>)
    requires Run(c, Init(now, expiry, c), actions).Some?
    ensures var s := Run(c, Init(now, expiry, c), actions).value;
            PlaceFits(s.pc, actions) && RequestsFit(s.log, actions)
  {
    if actions != [] {
      var front, a := actions[..|actions| - 1], actions[|actions| - 1];
      RunKeepsFit(c, now, expiry, front);
      StepKeepsFit(c, Run(c, Init(now, expiry, c), front).value, a, front);
      assert actions == front + [a];
    }
  }

  /** Complete is asked for only after an assembly that succeeded, fail only after one that failed. */
  lemma RequestsFollowTheAssembly(c: Config, now: int, expiry: Option<int>, actions: seq<Action>, s: State)
    requires Run(c, Init(now, expiry, c), actions) == Some(s)
    ensures Asked(s.log, Completing) ==> OnAssembled(false) in actions && OnAssembled(true) !in actions
    ensures Asked(s.log, Failing) ==> OnAssembled(true) in actions && OnAssembled(false) !in actions
  {
    RunKeepsFit(c, now, expiry, actions);
  }

  /** The result of the assembly that a step finds to be over, with any heartbeat awaited. */
  predicate AssemblyIsOver(s: State, a: Action, failed: bool) {
    || (s.pc == Assembling && a == OnAssembled(failed) && s.beat != InFlight && s.beat != Replied)
    || (s.pc.JoinBefore? && s.pc.failed == failed && a == OnJoined && (s.beats > s.pc.beat || s.beat != InFlight))
  }

  lemma NotYetSettled(c: Config, s: State)
    requires Reachable(c, s) && (s.pc == Assembling || s.pc.JoinBefore?)
    ensures s.phase != Settled
  {
    var now: int, expiry: Option<int>, actions: seq<Action> :| Run(c, Init(now, expiry, c), actions) == Some(s);
    RunKeepsInv(c, now, expiry, actions);
  }

  lemma EnterSettlementDecides(c: Config, s: State, failed: bool)
    requires s.phase != Settled
    ensures var t, mode := EnterSettlement(c, s, failed), if failed then Failing else Completing;
            if s.phase != Fenced && s.now < s.lease then
              t.pc == SettleReply(mode) && t.log == s.log + [Request(mode, s.now, s.lease, s.calls + 1)]
            else t.pc == Done(Abandoned) && forall k | |s.log| <= k < |t.log| :: !t.log[k].Request?
  {
  }

  /**
    When the assembly is over, an attempt on an unexpired lease that nothing
    has fenced asks at once for complete or, if the assembly failed, for fail;
    any other attempt is abandoned without a request.
  */
  lemma AssemblyResultIsSettled(c: Config, s: State, a: Action, failed: bool)
    requires Reachable(c, s) && AssemblyIsOver(s, a, failed)
    ensures Apply(c, s, a).Some?
    ensures var t := Apply(c, s, a).value;
            if s.phase != Fenced && s.now < s.lease then
              && (failed ==>
                    && t.pc == SettleReply(Failing)
                    && t.log == s.log + [Request(Failing, s.now, s.lease, s.calls + 1)])
              && (!failed ==>
                    && t.pc == SettleReply(Completing)
                    && t.log == s.log + [Request(Completing, s.now, s.lease, s.calls + 1)])
            else t.pc == Done(Abandoned) && forall k | |s.log| <= k < |t.log| :: !t.log[k].Request?
  {
    NotYetSettled(c, s);
    EnterSettlementDecides(c, s, failed);
  }

  // ----- what ends or continues a settlement -----

  /** Every request notes the time and the lease it goes out under; the phase is not fenced. */
  lemma RequestsSeeTheLease(c: Config, s: State, a: Action, k: nat)
    requires Apply(c, s, a).Some? && |s.log| <= k < |Apply(c, s, a).value.log| && Apply(c, s, a).value.log[k].Request?
    ensures var e := Apply(c, s, a).value.log[k];
            e.at == s.now && e.lease == s.lease && s.phase != Fenced && (s.phase == Settled || s.now < s.lease)
  {
    if a.OnSettleReply? {
      SettleReplyAsks(s, s.pc.mode, a.reply);
      SettleReplyShape(s, s.pc.mode, a.reply);
    } else if a.OnProbe? {
      ProbeAsks(c, s, s.pc.mode, a.probe);
    }
  }

  /** The lease moves only when start resolves or a heartbeat is applied, and to just what is then known. */
  lemma LeaseFollowsReplies(c: Config, s: State, a: Action)
    requires Apply(c, s, a).Some?
    ensures Apply(c, s, a).value.lease ==
            if a.OnStartReply? && a.reply.Resolved? && a.reply.outcome != Superseded && a.reply.outcome != NotFound
            then s.now + c.leaseDuration
            else if a.OnBeatReply? && (a.reply == Resolved(Applied) || a.reply == Resolved(AlreadyApplied))
            then if a.expiresAt.Some? then a.expiresAt.value else s.now + c.leaseDuration
            else s.lease
  {
    if a.OnSettleReply? {
      SettleReplyLease(s, s.pc.mode, a.reply);
    } else if a.OnProbe? {
      ProbeLease(c, s, s.pc.mode, a.probe);
    }
  }

  lemma SettleReplyLease(s: State, mode: Mode, r: Reply)
    ensures AfterSettleReply(s, mode, r).lease == s.lease
  {
  }

  lemma ProbeLease(c: Config, s: State, mode: Mode, p: Probe)
    ensures AfterProbe(c, s, mode, p).lease == s.lease
  {
  }

  /** The attempt has ended its settlement with this verdict. */
  predicate EndedWith(pc: Pc, verdict: Verdict) {
    (pc.JoinAtEnd? || pc.Done?) && pc.verdict == verdict
  }

  /** Not fenced, and the lease not yet run out. */
  predicate Holding(s: State) {
    s.phase != Fenced && (s.phase == Settled || s.now < s.lease)
  }

  /**
    An answer to complete or fail ends the attempt exactly so: applied with
    completed or failed while the lease is held, abandoned otherwise; a reply
    that the lease is gone with abandoned; another 4xx with failed, or thrown
    on; anything else leads to the probe.
  */
  lemma AnswerDecides(c: Config, s: State, r: Reply)
    requires s.pc.SettleReply?
    ensures Apply(c, s, OnSettleReply(r)).Some?
    ensures var pc, mode := Apply(c, s, OnSettleReply(r)).value.pc, s.pc.mode;
            if r == Resolved(Applied) || r == Resolved(AlreadyApplied) then
              EndedWith(pc, if !Holding(s) then Abandoned else if mode == Completing then Completed else Failed)
            else if r == Resolved(Superseded) || r == Resolved(NotFound)
                    || r == Thrown(Some(409)) || r == Thrown(Some(404)) then EndedWith(pc, Abandoned)
            else if r.Thrown? && r.status.Some? && 400 <= r.status.value < 500
                    && r.status.value != 408 && r.status.value != 429 then
              EndedWith(pc, if mode == Completing then Failed else Threw)
            else pc == ProbeReply(mode)
  {
  }

  /** The probe found the job settled the way this request asks for. */
  predicate Confirmed(mode: Mode, p: Probe) {
    && p.Job?
    && (mode == Completing ==> p.status == CompletedStatus)
    && (mode == Failing ==> p.status == FailedStatus || p.status == QueuedStatus)
  }

  /** It found another lease, a job no longer being worked on, or an expired lease. */
  predicate Lost(now: int, mode: Mode, p: Probe) {
    && p.Job? && !Confirmed(mode, p)
    && (|| !p.sameLease || (p.status != Rendering && p.status != Leased)
        || (p.expiresAt.Some? && p.expiresAt.value <= now))
  }

  /**
    A probe ends the settlement exactly so; one that settles nothing has the
    worker sleep one poll interval and try again, except that it gives up on
    a lease it no longer holds and on the third try after a shutdown.
  */
  lemma ProbeDecides(c: Config, s: State, p: Probe)
    requires s.pc.ProbeReply?
    ensures Apply(c, s, OnProbe(p)).Some?
    ensures var pc, mode := Apply(c, s, OnProbe(p)).value.pc, s.pc.mode;
            if Confirmed(mode, p) then
              EndedWith(pc, if !Holding(s) then Abandoned else if mode == Completing then Completed else Failed)
            else if Lost(s.now, mode, p) || !Holding(s) || (s.aborting && s.shutdownRetries >= 2) then
              EndedWith(pc, Abandoned)
            else pc == SettleSleep(mode, s.now + c.poll)
  {
  }

  /** After the sleep the request goes out again unless the lease is no longer held or the deadline has passed. */
  lemma WakeRequestsAgain(c: Config, s: State)
    requires s.pc.SettleSleep?
    ensures Apply(c, s, OnSettleWake).Some? <==> s.aborting || s.pc.until <= s.now
    ensures Apply(c, s, OnSettleWake).Some? ==>
            var t, mode := Apply(c, s, OnSettleWake).value, s.pc.mode;
            if Holding(s) && s.now < s.deadline then
              t.pc == SettleReply(mode) && t.log == s.log + [Request(mode, s.now, s.lease, s.calls + 1)]
            else EndedWith(t.pc, Abandoned)
  {
  }

  /** The deadline is fixed when the settlement begins. */
  lemma DeadlineIsFixed(c: Config, s: State, a: Action)
    requires Apply(c, s, a).Some?
    ensures (s.pc.SettleReply? || s.pc.ProbeReply? || s.pc.SettleSleep?) ==> Apply(c, s, a).value.deadline == s.deadline
    ensures (s.pc == Assembling || s.pc.JoinBefore?) && Apply(c, s, a).value.pc.SettleReply? ==>
              Apply(c, s, a).value.deadline == s.now + c.maxSettlement
  {
    if a.OnSettleReply? {
      SettleReplyShape(s, s.pc.mode, a.reply);
    } else if a.OnProbe? {
      ProbeDeadline(c, s, s.pc.mode, a.probe);
    }
  }

  lemma ProbeDeadline(c: Config, s: State, mode: Mode, p: Probe)
    ensures AfterProbe(c, s, mode, p).deadline == s.deadline
  {
  }

  /** Start is retried at poll spacing until it resolves, is refused, or the worker shuts down. */
  lemma StartDecides(c: Config, s: State, r: Reply)
    requires s.pc == StartReply
    ensures Apply(c, s, OnStartReply(r)).Some?
    ensures var t := Apply(c, s, OnStartReply(r)).value;
            if r == Resolved(Superseded) || r == Resolved(NotFound)
               || r == Thrown(Some(409)) || r == Thrown(Some(404)) then t.pc == Done(Abandoned)
            else if r.Resolved? then t.pc == Assembling && t.phase == Active && t.beat == Sleeping
            else if s.aborting || (r.status.Some? && 400 <= r.status.value < 500
                                   && r.status.value != 408 && r.status.value != 429) then t.pc == Done(Threw)
            else t.pc == StartSleep(s.now + c.poll)
  {
  }

  /** A woken heartbeat coroutine sends one unless it was stopped or the attempt is neither active nor settling. */
  lemma HeartbeatGoesOut(c: Config, s: State)
    requires s.beat == Sleeping
    ensures Apply(c, s, OnBeatWake).Some?
    ensures var t := Apply(c, s, OnBeatWake).value;
            if !s.stopBeats && (s.phase == Active || s.phase == Settling) then
              t.beat == InFlight && t.log == s.log + [BeatSent] && t.beats == s.beats + 1
            else t.beat == Stopped && t.log == s.log
  {
  }

  /** Heartbeats: a lost lease fences and stops them, an error fences only once the lease has run out. */
  lemma HeartbeatAnswers(c: Config, s: State, r: Reply, expiresAt: Option<int>)
    requires s.beat == InFlight
    ensures Apply(c, s, OnBeatReply(r, expiresAt)).Some?
    ensures var t := Apply(c, s, OnBeatReply(r, expiresAt)).value;
            && (r == Resolved(Superseded) || r == Resolved(NotFound) || r == Thrown(Some(409)) || r == Thrown(Some(404))
                || (r.Thrown? && s.lease <= s.now)
                ==> t.phase == Fenced && t.stopBeats)
            && (r == Resolved(Applied) || r == Resolved(AlreadyApplied) || r == Resolved(Deferred)
                || (r.Thrown? && r.status != Some(409) && r.status != Some(404) && s.now < s.lease)
                ==> t.phase == s.phase && t.stopBeats == s.stopBeats)
  {
  }

  // ----- completed by which lease -----

  predicate AnyEvidence(e: Event) {
    IsEvidence(e, Completing) || IsEvidence(e, Failing)
  }

  /** The step that notes evidence also decides. */
  ghost predicate EvidenceDecides(log: seq<Event>) {
    forall i | 0 <= i < |log| && AnyEvidence(log[i]) :: i + 1 < |log| && log[i + 1].Decided?
  }

  /** What one step may add to the log: nothing, one event that is no evidence, or an event and the decision on it. */
  ghost predicate Extends(log: seq<Event>, longer: seq<Event>) {
    && log <= longer && |longer| <= |log| + 2
    && (|longer| == |log| + 1 ==> !AnyEvidence(longer[|log|]))
    && (|longer| == |log| + 2 ==> longer[|log| + 1].Decided? && !AnyEvidence(longer[|log| + 1]))
  }

  lemma ExtendsKeepsEvidenceDecides(log: seq<Event>, longer: seq<Event>)
    requires EvidenceDecides(log) && Extends(log, longer)
    ensures EvidenceDecides(longer)
  {
    forall i | 0 <= i < |longer| && AnyEvidence(longer[i])
      ensures i + 1 < |longer| && longer[i + 1].Decided?
    {
      if i < |log| {
        assert log[i] == longer[i];
      }
    }
  }

  lemma SettleReplyExtends(s: State, mode: Mode, r: Reply)
    ensures Extends(s.log, AfterSettleReply(s, mode, r).log)
  {
    var t := Note(s, SettleAnswer(mode, r));
    if IsApplied(r) {
      EndAppliedShape(t, mode);
    } else if IsFencing(r) {
      DecideShape(t.(phase := Fenced), Abandoned);
    }
  }

  lemma LoopBottomExtends(c: Config, s: State, mode: Mode)
    ensures Extends(s.log, LoopBottom(c, s, mode).log)
  {
  }

  lemma ProbeExtends(c: Config, s: State, mode: Mode, p: Probe)
    ensures Extends(s.log, AfterProbe(c, s, mode, p).log)
  {
    if p.Job? && ProbeConfirms(mode, p.status) {
      EndAppliedShape(Note(s, ProbeSettled(mode, p.sameLease)), mode);
    } else if p.Job? && ProbeSaysLost(s.now, p) {
      DecideShape(Note(s, ProbeLost).(phase := Fenced), Abandoned);
    } else {
      LoopBottomExtends(c, s, mode);
    }
  }

  lemma SettleStepExtends(c: Config, s: State, a: Action)
    requires Apply(c, s, a).Some? && IsSettleAction(a)
    ensures Extends(s.log, Apply(c, s, a).value.log)
  {
    if a.OnSettleReply? {
      SettleReplyExtends(s, s.pc.mode, a.reply);
    } else if a.OnProbe? {
      ProbeExtends(c, s, s.pc.mode, a.probe);
    } else if a.OnSettleWake? {
      LoopTopExtends(s, s.pc.mode);
    }
  }

  lemma EnterSettlementExtends(c: Config, s: State, failed: bool)
    ensures Extends(s.log, EnterSettlement(c, s, failed).log)
  {
    var t := Check(s);
    if t.phase != Fenced {
      LoopTopExtends(FirstLoop(c, t), if failed then Failing else Completing);
    }
  }

  lemma LoopTopExtends(s: State, mode: Mode)
    ensures Extends(s.log, LoopTop(s, mode).log)
  {
    DecideShape(Check(s), Abandoned);
  }

  lemma OtherStepExtends(c: Config, s: State, a: Action)
    requires Apply(c, s, a).Some? && !IsSettleAction(a)
    ensures Extends(s.log, Apply(c, s, a).value.log)
  {
    if a.OnAssembled? && !BeatUnresumed(s) {
      EnterSettlementExtends(c, s, a.failed);
    } else if a.OnJoined? && s.pc.JoinBefore? {
      EnterSettlementExtends(c, s, s.pc.failed);
    }
  }

  lemma {:induction false} RunKeepsEvidenceDecides(c: Config, now: int, expiry: Option<int>, actions: seq<Action>)
    requires Run(c, Init(now, expiry, c), actions).Some?
    ensures EvidenceDecides(Run(c, Init(now, expiry, c), actions).value.log)
  {
    if actions != [] {
      var before, a := Run(c, Init(now, expiry, c), actions[..|actions| - 1]).value, actions[|actions| - 1];
      RunKeepsEvidenceDecides(c, now, expiry, actions[..|actions| - 1]);
      if IsSettleAction(a) {
        SettleStepExtends(c, before, a);
      } else {
        OtherStepExtends(c, before, a);
      }
      ExtendsKeepsEvidenceDecides(before.log, Apply(c, before, a).value.log);
    }
  }

  /** This lease's own complete was applied, or the probe saw the job completed under this lease. */
  ghost predicate CompletedByThisLease(log: seq<Event>) {
    exists e | e in log :: IsEvidence(e, Completing) && (e.ProbeSettled? ==> e.sameLease)
  }

  /**
    Completed rests on the event just before the decision, and the job was
    completed by this lease exactly when that event is not a probe that saw
    another lease.
  */
  lemma CompletedByThisLeaseIff(c: Config, s: State) returns (k: nat)
    requires Reachable(c, s) && s.pc == Done(Completed)
    ensures 0 < k < |s.log| && s.log[k].Decided? && s.log[k].verdict == Completed
    ensures IsEvidence(s.log[k - 1], Completing)
    ensures CompletedByThisLease(s.log) <==> !(s.log[k - 1].ProbeSettled? && !s.log[k - 1].sameLease)
  {
    var now: int, expiry: Option<int>, actions: seq<Action> :| Run(c, Init(now, expiry, c), actions) == Some(s);
    RunKeepsInv(c, now, expiry, actions);
    RunKeepsEvidenceDecides(c, now, expiry, actions);
    k := CompletedIsSound(c, s);
    EvidenceIsDecisive(s.log, k);
  }

  lemma EvidenceIsDecisive(log: seq<Event>, k: nat)
    requires QuietAfterDecision(log) && EvidenceDecides(log)
    requires k < |log| && log[k].Decided? && Evidence(log[..k], Completing)
    ensures 0 < k && IsEvidence(log[k - 1], Completing)
    ensures CompletedByThisLease(log) <==> !(log[k - 1].ProbeSettled? && !log[k - 1].sameLease)
  {
    var d :| d in log[..k] && IsEvidence(d, Completing);
    var i :| 0 <= i < k && log[i] == d;
    OneDecision(log, i + 1, k);
    if CompletedByThisLease(log) {
      var e :| e in log && IsEvidence(e, Completing) && (e.ProbeSettled? ==> e.sameLease);
      var j :| 0 <= j < |log| && log[j] == e;
      OneDecision(log, j + 1, k);
    }
    assert log[k - 1] in log;
  }

  lemma OneDecision(log: seq<Event>, j: nat, k: nat)
    requires QuietAfterDecision(log) && j < |log| && k < |log| && log[j].Decided? && log[k].Decided?
    ensures j == k
  {
  }

  /** Completed by this lease is false in general: the probe takes any completed job for its own. */
  lemma CompletedMayBeAnotherLease(c: Config) returns (s: State)
    ensures Reachable(c, s) && s.pc == Done(Completed) && !CompletedByThisLease(s.log)
  {
    s := Init(0, None, c);
    assert Run(c, s, []) == Some(s);
    s := AfterAction(c, s, OnStartReply(Resolved(Applied)));
    s := AfterAction(c, s, OnAssembled(false));
    s := AfterAction(c, s, OnSettleReply(Thrown(None)));
    s := AfterAction(c, s, OnProbe(Job(CompletedStatus, false, None)));
  }

  // ----- settlement terminates -----

  function MaxFreeCalls(c: Config): int
  {
    (c.maxSettlement + c.poll - 1) / c.poll
  }

  /** A request number u that fits before the deadline at poll spacing is one of the free calls. */
  lemma FitsBeforeDeadline(c: Config, u: int)
    requires (u - 1) * c.poll < c.maxSettlement
    ensures u <= MaxFreeCalls(c)
  {
    var b := MaxFreeCalls(c);
    assert b * c.poll >= c.maxSettlement;
    assert u - 1 >= b ==> (u - 1) * c.poll >= b * c.poll;
  }

  /**
    u requests belong to iterations that did not see the shutdown: they are
    spaced by full sleeps.  Until the shutdown the next one is due at from.
  */
  ghost predicate Spaced(c: Config, s: State, u: int, from: int) {
    && 0 <= u && s.shutdownRetries <= 2
    && (u >= 1 ==> (u - 1) * c.poll < c.maxSettlement)
    && (!s.aborting ==> s.shutdownRetries == 0 && s.deadline - c.maxSettlement + u * c.poll <= from)
  }

  ghost predicate InIteration(c: Config, s: State) {
    var u := s.calls - 1 - s.shutdownRetries;
    Spaced(c, s, u, s.now) && (!s.aborting ==> u * c.poll < c.maxSettlement)
  }

  ghost predicate WithinCalls(c: Config, s: State) {
    s.shutdownRetries <= 3 && s.calls <= MaxFreeCalls(c) + 3
  }

  ghost predicate CallsBounded(c: Config, s: State) {
    match s.pc
    case SettleReply(_) => InIteration(c, s)
    case ProbeReply(_) => InIteration(c, s)
    case SettleSleep(_, until) => Spaced(c, s, s.calls - s.shutdownRetries, until)
    case JoinAtEnd(_, _) => WithinCalls(c, s)
    case Done(_) => WithinCalls(c, s)
    case _ => s.shutdownRetries == 0 && s.calls == 0
  }

  lemma IterationWithinCalls(c: Config, s: State)
    requires InIteration(c, s)
    ensures WithinCalls(c, s)
  {
    FitsBeforeDeadline(c, s.calls - 1 - s.shutdownRetries);
    FitsBeforeDeadline(c, 1);
  }

  predicate SameCounts(s: State, t: State) {
    && t.calls == s.calls && t.shutdownRetries == s.shutdownRetries && t.deadline == s.deadline
    && t.now == s.now && t.aborting == s.aborting
  }

  predicate Ended(pc: Pc) {
    pc.JoinAtEnd? || pc.Done?
  }

  lemma DecideShape(s: State, verdict: Verdict)
    ensures var t := Decide(s, verdict);
            && SameCounts(s, t) && Ended(t.pc)
            && t.log == s.log + [Decided(verdict, s.now, s.lease, s.beat == InFlight)]
  {
  }

  lemma LoopTopBounded(c: Config, s: State, mode: Mode)
    requires Spaced(c, s, s.calls - s.shutdownRetries, s.now)
    ensures CallsBounded(c, LoopTop(s, mode))
  {
    FitsBeforeDeadline(c, s.calls - s.shutdownRetries);
    FitsBeforeDeadline(c, 1);
    DecideShape(Check(s), Abandoned);
  }

  lemma SleepIsSpaced(c: Config, s: State)
    requires InIteration(c, s) && !s.aborting
    ensures Spaced(c, s, s.calls - s.shutdownRetries, s.now + c.poll)
  {
    var u := s.calls - 1 - s.shutdownRetries;
    assert (u + 1) * c.poll == u * c.poll + c.poll;
  }

  lemma ShutdownRetryIsSpaced(c: Config, s: State, from: int)
    requires InIteration(c, s) && s.aborting && s.shutdownRetries < 2
    ensures Spaced(c, s.(shutdownRetries := s.shutdownRetries + 1), s.calls - s.shutdownRetries - 1, from)
  {
  }

  lemma LoopBottomBounded(c: Config, s: State, mode: Mode)
    requires InIteration(c, s)
    ensures CallsBounded(c, LoopBottom(c, s, mode))
  {
    var t := Check(s);
    IterationWithinCalls(c, s);
    if t.phase == Fenced {
      DecideShape(t, Abandoned);
    } else if !s.aborting {
      SleepIsSpaced(c, s);
    } else if s.shutdownRetries < 2 {
      ShutdownRetryIsSpaced(c, s, s.now + c.poll);
    } else {
      DecideShape(t.(shutdownRetries := t.shutdownRetries + 1), Abandoned);
    }
  }

  /** Time, shutdown and heartbeats do not touch the count. */
  lemma OthersKeepCallsBounded(c: Config, s: State, t: State)
    requires CallsBounded(c, s)
    requires t.pc == s.pc && t.calls == s.calls && t.shutdownRetries == s.shutdownRetries && t.deadline == s.deadline
    requires t.now >= s.now && (s.aborting ==> t.aborting)
    ensures CallsBounded(c, t)
  {
  }

  lemma EnterSettlementBounded(c: Config, s: State, failed: bool)
    requires s.shutdownRetries == 0 && s.calls == 0
    ensures CallsBounded(c, EnterSettlement(c, s, failed))
  {
    FitsBeforeDeadline(c, 1);
    var t := Check(s);
    if t.phase != Fenced {
      LoopTopBounded(c, FirstLoop(c, t), if failed then Failing else Completing);
    }
  }

  lemma StartAndAssemblyKeepCallsBounded(c: Config, s: State, a: Action)
    requires CallsBounded(c, s) && Apply(c, s, a).Some?
    requires s.pc.StartReply? || s.pc.StartSleep? || s.pc.Assembling? || s.pc.JoinBefore? || s.pc.JoinAtEnd?
    requires IsStartAction(a) || a.OnSleepThrew? || a.OnJoined?
    ensures CallsBounded(c, Apply(c, s, a).value)
  {
    FitsBeforeDeadline(c, 1);
    if a.OnAssembled? {
      EnterSettlementBounded(c, s, a.failed);
    } else if s.pc.JoinBefore? {
      EnterSettlementBounded(c, s, s.pc.failed);
    }
  }

  lemma SettleReplyShape(s: State, mode: Mode, r: Reply)
    ensures var t := AfterSettleReply(s, mode, r); SameCounts(s, t) && (t.pc == ProbeReply(mode) || Ended(t.pc))
  {
    var t := Note(s, SettleAnswer(mode, r));
    if IsApplied(r) {
      EndAppliedShape(t, mode);
    } else if IsFencing(r) {
      DecideShape(t.(phase := Fenced), Abandoned);
    }
  }

  lemma EndAppliedShape(s: State, mode: Mode)
    ensures var t := EndApplied(s, mode);
            SameCounts(s, t) && Ended(t.pc) && |t.log| == |s.log| + 1 && s.log < t.log && t.log[|s.log|].Decided?
  {
    var t := Check(s);
    DecideShape(t, if t.phase == Fenced then Abandoned else Success(mode));
  }

  lemma ProbeShape(c: Config, s: State, mode: Mode, p: Probe)
    ensures var t := AfterProbe(c, s, mode, p);
            t == LoopBottom(c, s, mode) || (SameCounts(s, t) && Ended(t.pc))
  {
    if p.Job? && ProbeConfirms(mode, p.status) {
      EndAppliedShape(Note(s, ProbeSettled(mode, p.sameLease)), mode);
    }
  }

  lemma AfterSettleReplyBounded(c: Config, s: State, mode: Mode, r: Reply)
    requires InIteration(c, s)
    ensures CallsBounded(c, AfterSettleReply(s, mode, r))
  {
    IterationWithinCalls(c, s);
    SettleReplyShape(s, mode, r);
  }

  lemma AfterProbeBounded(c: Config, s: State, mode: Mode, p: Probe)
    requires InIteration(c, s)
    ensures CallsBounded(c, AfterProbe(c, s, mode, p))
  {
    IterationWithinCalls(c, s);
    LoopBottomBounded(c, s, mode);
    ProbeShape(c, s, mode, p);
  }

  lemma SettlingKeepsCallsBounded(c: Config, s: State, a: Action)
    requires CallsBounded(c, s) && Apply(c, s, a).Some?
    requires s.pc.SettleReply? || s.pc.ProbeReply? || s.pc.SettleSleep?
    requires IsMainAction(a)
    ensures CallsBounded(c, Apply(c, s, a).value)
  {
    var mode := s.pc.mode;
    match a
    case OnSettleReply(r) => AfterSettleReplyBounded(c, s, mode, r);
    case OnProbe(p) => AfterProbeBounded(c, s, mode, p);
    case OnSettleWake => LoopTopBounded(c, s, mode);
    case _ =>
      SleepWithinCalls(c, s);
      DecideShape(s, if mode == Completing then Failed else Threw);
  }

  lemma SleepWithinCalls(c: Config, s: State)
    requires s.pc.SettleSleep? && CallsBounded(c, s)
    ensures WithinCalls(c, s)
  {
    FitsBeforeDeadline(c, s.calls - s.shutdownRetries);
    FitsBeforeDeadline(c, 1);
  }

  lemma StepKeepsCallsBounded(c: Config, s: State, a: Action)
    requires CallsBounded(c, s) && Apply(c, s, a).Some?
    ensures CallsBounded(c, Apply(c, s, a).value)
  {
    if a.Tick? || a.Shutdown? || a.OnBeatWake? || a.OnBeatSleepThrew? || a.OnBeatReply? || a.OnBeatResume? {
      OthersKeepCallsBounded(c, s, Apply(c, s, a).value);
    } else if s.pc.SettleReply? || s.pc.ProbeReply? || s.pc.SettleSleep? {
      SettlingKeepsCallsBounded(c, s, a);
    } else {
      StartAndAssemblyKeepCallsBounded(c, s, a);
    }
  }

  lemma {:induction false} RunKeepsCallsBounded(c: Config, now: int, expiry: Option<int>, actions: seq<Action>)
    requires Run(c, Init(now, expiry, c), actions).Some?
    ensures CallsBounded(c, Run(c, Init(now, expiry, c), actions).value)
  {
    if actions != [] {
      RunKeepsCallsBounded(c, now, expiry, actions[..|actions| - 1]);
      StepKeepsCallsBounded(c, Run(c, Init(now, expiry, c), actions[..|actions| - 1]).value, actions[|actions| - 1]);
    }
  }

  /** Settlement requests never exceed the poll intervals that fit the deadline, plus three. */
  lemma SettlementCallsAreBounded(c: Config, s: State)
    requires Reachable(c, s)
    ensures RequestsNumbered(s.log, s.calls)
    ensures s.calls <= MaxFreeCalls(c) + 3
    ensures s.shutdownRetries <= 3
  {
    var now: int, expiry: Option<int>, actions: seq<Action> :| Run(c, Init(now, expiry, c), actions) == Some(s);
    RunKeepsInv(c, now, expiry, actions);
    RunKeepsCallsBounded(c, now, expiry, actions);
    FitsBeforeDeadline(c, 1);
    if s.pc.SettleReply? || s.pc.ProbeReply? {
      IterationWithinCalls(c, s);
    } else if s.pc.SettleSleep? {
      SleepWithinCalls(c, s);
    }
  }

  predicate IsSettling(pc: Pc) {
    pc.SettleReply? || pc.ProbeReply? || pc.SettleSleep? || pc.JoinAtEnd?
  }

  predicate IsMainAction(a: Action) {
    a.OnSettleReply? || a.OnProbe? || a.OnSettleWake? || a.OnSleepThrew? || a.OnJoined?
  }

  /** What is left to do in the settlement. */
  function Rank(c: Config, s: State): int {
    match s.pc
    case SettleReply(_) => 3 * (MaxFreeCalls(c) + 3 - s.calls) + 4
    case ProbeReply(_) => 3 * (MaxFreeCalls(c) + 3 - s.calls) + 3
    case SettleSleep(_, _) => 3 * (MaxFreeCalls(c) + 3 - s.calls) + 2
    case JoinAtEnd(_, _) => 1
    case _ => 0
  }

  /**
    Settlement terminates whatever the heartbeats do: every step of the main
    coroutine lowers a bounded rank, and no other step touches it.
  */
  lemma SettlementTerminates(c: Config, s: State, a: Action)
    requires Reachable(c, s) && IsSettling(s.pc) && Apply(c, s, a).Some?
    ensures 0 < Rank(c, s) <= 3 * (MaxFreeCalls(c) + 3) + 4
    ensures var t := Apply(c, s, a).value;
            if IsMainAction(a) then 0 <= Rank(c, t) < Rank(c, s) && (IsSettling(t.pc) || t.pc.Done?)
            else Rank(c, t) == Rank(c, s) && t.pc == s.pc
  {
    SettlementCallsAreBounded(c, s);
    ReachableStep(c, s, a);
    SettlementCallsAreBounded(c, Apply(c, s, a).value);
    SettlingStep(c, s, a);
    RankFalls(c, s, Apply(c, s, a).value, IsMainAction(a));
  }

  lemma RankFalls(c: Config, s: State, t: State, main: bool)
    requires IsSettling(s.pc) && s.calls <= MaxFreeCalls(c) + 3 && t.calls <= MaxFreeCalls(c) + 3
    requires SettlingMove(s, t, main)
    ensures 0 < Rank(c, s) <= 3 * (MaxFreeCalls(c) + 3) + 4
    ensures if main then 0 <= Rank(c, t) < Rank(c, s) else Rank(c, t) == Rank(c, s)
  {
  }

  ghost predicate SettlingMove(s: State, t: State, main: bool) {
    if !main then t.pc == s.pc && t.calls == s.calls
    else
      || t.pc.Done?
      || (t.pc.JoinAtEnd? && !s.pc.JoinAtEnd?)
      || (s.pc.SettleReply? && t.pc.ProbeReply? && t.calls == s.calls)
      || (s.pc.ProbeReply? && t.pc.SettleSleep? && t.calls == s.calls)
      || (s.pc.SettleSleep? && t.pc.SettleReply? && t.calls == s.calls + 1)
  }

  /** The shape of one step of the settlement. */
  lemma SettlingStep(c: Config, s: State, a: Action)
    requires IsSettling(s.pc) && Apply(c, s, a).Some?
    ensures SettlingMove(s, Apply(c, s, a).value, IsMainAction(a))
  {
    if s.pc.SettleReply? && a.OnSettleReply? {
      SettleReplyShape(s, s.pc.mode, a.reply);
    } else if s.pc.ProbeReply? && a.OnProbe? {
      ProbeShape(c, s, s.pc.mode, a.probe);
    }
  }
}
