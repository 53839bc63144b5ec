/**
  Settlement of render jobs (apps/render-worker/src/worker.ts, processJob and
  persistAndComplete).

  As for delivery jobs, an action is the code between two awaits and the
  environment picks the actions.  The external calls of the settlement form a
  trace; the module proves the grammar of that trace for any number of media
  objects and any number of retries.
*/
module RenderWorker {
  import opened Common
  import opened LeaseProtocol

  datatype JobKind = Candidate | Production

  datatype Operation = CandidateUpload | DeliveryWrite

  /** Storage admission class of a job kind, for media and for completion alike. */
  function OperationOf(kind: JobKind): Operation {
    if kind == Candidate then CandidateUpload else DeliveryWrite
  }

  datatype Fault = StorageFault | OtherFault

  /** How a control API call of the settlement ends. */
  datatype Answer = Replied(reply: Reply) | StorageRefused

  datatype Payload = Absent | NotAnObject | Present

  /** What the executor hands over; the media objects matter only by their number. */
  datatype Output = NoOutput | Output(candidate: Payload, manifest: Payload, mediaCount: nat)

  datatype Call = Admit(op: Operation) | Put(index: nat) | Complete | Defer | Fail

  datatype Event =
    | Issued(call: Call)
    | Succeeded(call: Call)
    | Faulted(call: Call, fault: Fault)
    | Answered(call: Call, answer: Answer)

  datatype Verdict = Completed | Failed | DeferredJob | Abandoned | Threw

  datatype Execution = Produced(output: Output) | Broke(fault: Fault)

  datatype Pc =
    | StartReply
    | StartSleep
    | Executing
    | Joining(execution: Execution, beat: nat)
    | AdmitReply(index: nat)        // index == media count: the completion's admission
    | PutReply(index: nat)
    | CompleteReply
    | CompleteSleep
    | FinalReply(call: Call)        // defer or fail request in flight
    | FinalSleep(call: Call)
    | Done(verdict: Verdict)

  datatype Beat = NotRunning | Sleeping | InFlight | Resolving | Stopped

  /** Events outside the settlement. */
  datatype Note = StartAnswer(reply: Reply) | BeatSent | BeatAnswer(reply: Reply) | Executed

  datatype State = State(
    pc: Pc,
    phase: Phase,
    aborting: bool,
    stopBeats: bool,
    beat: Beat,
    beats: nat,
    mediaCount: nat,
    log: seq<Note>,
    settlement: seq<Event>)

  datatype Action =
    | Shutdown
    | OnStartReply(reply: Reply)
    | OnStartWake
    | OnExecuted(execution: Execution)
    | OnJoined
    | OnAdmitted(fault: Option<Fault>)
    | OnPut(fault: Option<Fault>)
    | OnAnswer(answer: Answer)
    | OnWake
    | OnSleepThrew
    | OnBeatWake
    | OnBeatSleepThrew
    | OnBeatReply(reply: Reply)
    | OnBeatResume

  const INITIAL_STATE: State := State(StartReply, Starting, false, false, NotRunning, 0, 0, [], [])

  // ----- answers of the retry loops -----

  predicate IsTransient(call: Call, a: Answer) {
    match a
    case StorageRefused => call != Complete
    case Replied(r) => r.Thrown? && !IsFencing(r) && !IsFatal(r)
  }

  /** The loop returns: any resolved outcome, superseded and not_found included. */
  predicate IsAccepted(a: Answer) {
    a.Replied? && (a.reply.Resolved? || IsFencing(a.reply))
  }

  // ----- the code between awaits -----

  predicate BeatsMayRun(s: State) {
    !s.stopBeats && s.phase == Active
  }

  predicate BeatUnresumed(s: State) {
    s.beat == InFlight || s.beat == Resolving
  }

  function Trace(s: State, e: Event): State {
    s.(settlement := s.settlement + [e])
  }

  function Issue(s: State, call: Call, pc: Pc): State {
    Trace(s, Issued(call)).(pc := pc)
  }

  /** The catch blocks: storage refusals defer the job, everything else fails it. */
  function FinalCall(fault: Fault): Call {
    if fault == StorageFault then Defer else Fail
  }

  function GiveUp(s: State, fault: Fault): State {
    Issue(s.(phase := Settled), FinalCall(fault), FinalReply(FinalCall(fault)))
  }

  predicate PayloadAccepted(kind: JobKind, o: Output) {
    && o.Output?
    && (if kind == Candidate then o.candidate == Present && o.manifest == Absent
        else o.manifest == Present && o.candidate == Absent)
  }

  function EnterSettlement(kind: JobKind, s: State, e: Execution): State {
    if s.phase == Fenced then s.(phase := Settled, pc := Done(Abandoned))
    else
      var t := s.(phase := Settling);
      match e
      case Broke(fault) => GiveUp(t, fault)
      case Produced(o) =>
        if !PayloadAccepted(kind, o) then GiveUp(t, OtherFault)
        else Issue(t.(mediaCount := o.mediaCount), Admit(OperationOf(kind)), AdmitReply(0))
  }

  function AfterAdmission(kind: JobKind, s: State, index: nat, fault: Option<Fault>): State {
    var call := Admit(OperationOf(kind));
    if fault.Some? then GiveUp(Trace(s, Faulted(call, fault.value)), fault.value)
    else
      var t := Trace(s, Succeeded(call));
      if index < s.mediaCount then Issue(t, Put(index), PutReply(index)) else Issue(t, Complete, CompleteReply)
  }

  function AfterPut(kind: JobKind, s: State, index: nat, fault: Option<Fault>): State {
    if fault.Some? then GiveUp(Trace(s, Faulted(Put(index), fault.value)), fault.value)
    else Issue(Trace(s, Succeeded(Put(index))), Admit(OperationOf(kind)), AdmitReply(index + 1))
  }

  function AfterComplete(s: State, a: Answer): State {
    var t := Trace(s, Answered(Complete, a));
    if IsAccepted(a) then t.(phase := Settled, pc := Done(Completed))
    else if IsTransient(Complete, a) then t.(pc := CompleteSleep)
    else GiveUp(t, if a == StorageRefused then StorageFault else OtherFault)
  }

  function AfterFinal(s: State, call: Call, a: Answer): State {
    var t := Trace(s, Answered(call, a));
    if IsAccepted(a) then t.(pc := Done(if call == Defer then DeferredJob else Failed))
    else if IsTransient(call, a) then t.(pc := FinalSleep(call))
    else t.(pc := Done(Threw))
  }

  function AfterStartReply(s: State, r: Reply): State {
    var t := s.(log := s.log + [StartAnswer(r)]);
    if IsFencing(r) then t.(pc := Done(Abandoned))
    else if r.Resolved? then t.(phase := Active, beat := Sleeping, pc := Executing)
    else if IsFatal(r) || t.aborting then t.(pc := Done(Threw))
    else t.(pc := StartSleep)
  }

  function AfterBeatReply(s: State, r: Reply): State {
    var t := s.(log := s.log + [BeatAnswer(r)], beat := Resolving);
    if IsFencing(r) then t.(phase := Fenced, stopBeats := true) else t
  }

  function Apply(kind: JobKind, s: State, a: Action): Option<State> {
    match a
    case Shutdown => Some(s.(aborting := true))
    case OnStartReply(r) => if s.pc == StartReply then Some(AfterStartReply(s, r)) else None
    case OnStartWake =>
      if s.pc == StartSleep then Some(s.(pc := if s.aborting then Done(Threw) else StartReply)) else None
    case OnExecuted(e) =>
      if s.pc != Executing then None
      else
        var t := s.(log := s.log + [Executed], stopBeats := true);
        if BeatUnresumed(t) then Some(t.(pc := Joining(e, t.beats))) else Some(EnterSettlement(kind, t, e))
    case OnJoined =>
      if s.pc.Joining? && (s.beats > s.pc.beat || s.beat != InFlight)
      then Some(EnterSettlement(kind, s, s.pc.execution)) else None
    case OnAdmitted(fault) => if s.pc.AdmitReply? then Some(AfterAdmission(kind, s, s.pc.index, fault)) else None
    case OnPut(fault) => if s.pc.PutReply? then Some(AfterPut(kind, s, s.pc.index, fault)) else None
    case OnAnswer(answer) =>
      if s.pc.CompleteReply? then Some(AfterComplete(s, answer))
      else if s.pc.FinalReply? then Some(AfterFinal(s, s.pc.call, answer))
      else None
    case OnWake =>
      if s.pc.CompleteSleep? then Some(Issue(s, Complete, CompleteReply))
      else if s.pc.FinalSleep? then Some(Issue(s, s.pc.call, FinalReply(s.pc.call)))
      else None
    case OnSleepThrew =>
      if s.pc.CompleteSleep? then Some(GiveUp(s, OtherFault))
      else if s.pc.FinalSleep? || s.pc.StartSleep? then Some(s.(pc := Done(Threw)))
      else None
    case OnBeatWake =>
      if s.beat != Sleeping then None
      else if !BeatsMayRun(s) then Some(s.(beat := Stopped))
      else Some(s.(log := s.log + [BeatSent], beat := InFlight, beats := s.beats + 1))
    case OnBeatSleepThrew => if s.beat == Sleeping then Some(s.(beat := Stopped)) else None
    case OnBeatReply(r) => if s.beat == InFlight then Some(AfterBeatReply(s, r)) else None
    case OnBeatResume =>
      if s.beat == Resolving then Some(s.(beat := if BeatsMayRun(s) then Sleeping else Stopped)) else None
  }

  ghost function Run(kind: JobKind, actions: seq<Action>): Option<State> {
    if actions == [] then Some(INITIAL_STATE)
    else
      var before := Run(kind, actions[..|actions| - 1]);
      if before.None? then None else Apply(kind, before.value, actions[|actions| - 1])
  }

  ghost predicate Reachable(kind: JobKind, s: State) {
    exists actions :: Run(kind, actions) == Some(s)
  }

  // ----- the grammar of settlement traces -----

  /** The first i media objects, each put right behind its own admission. */
  ghost function MediaTrace(op: Operation, i: nat): seq<Event> {
    if i == 0 then []
    else MediaTrace(op, i - 1)
         + [Issued(Admit(op)), Succeeded(Admit(op)), Issued(Put(i - 1)), Succeeded(Put(i - 1))]
  }

  /** One call, issued once for every answer. */
  ghost function Retries(call: Call, answers: seq<Answer>): seq<Event> {
    if answers == [] then []
    else Retries(call, answers[..|answers| - 1]) + [Issued(call), Answered(call, answers[|answers| - 1])]
  }

  ghost predicate AllTransient(call: Call, answers: seq<Answer>) {
    forall a | a in answers :: IsTransient(call, a)
  }

  /** All media, the completion's own admission, then complete requests. */
  ghost function CompletionTrace(op: Operation, n: nat, answers: seq<Answer>): seq<Event> {
    MediaTrace(op, n) + [Issued(Admit(op)), Succeeded(Admit(op))] + Retries(Complete, answers)
  }

  ghost predicate AdmitFaulted(op: Operation, n: nat, t: seq<Event>, call: Call, i: nat, fault: Fault) {
    i <= n && call == FinalCall(fault) && t == MediaTrace(op, i) + [Issued(Admit(op)), Faulted(Admit(op), fault)]
  }

  ghost predicate PutFaulted(op: Operation, n: nat, t: seq<Event>, call: Call, i: nat, fault: Fault) {
    i < n && call == FinalCall(fault)
    && t == MediaTrace(op, i) + [Issued(Admit(op)), Succeeded(Admit(op)), Issued(Put(i)), Faulted(Put(i), fault)]
  }

  ghost predicate CompleteFaulted(op: Operation, n: nat, t: seq<Event>, call: Call, answers: seq<Answer>) {
    && answers != [] && t == CompletionTrace(op, n, answers)
    && AllTransient(Complete, answers[..|answers| - 1])
    && var last := answers[|answers| - 1];
       && !IsAccepted(last)
       && call == (if last == StorageRefused then Defer else Fail)
  }

  /** What leads to a final defer or fail request: nothing published, or a settlement step that broke. */
  ghost predicate Cause(op: Operation, n: nat, t: seq<Event>, call: Call) {
    || (t == [] && (call == Defer || call == Fail))
    || (exists i: nat, fault :: AdmitFaulted(op, n, t, call, i, fault))
    || (exists i: nat, fault :: PutFaulted(op, n, t, call, i, fault))
    || (exists answers :: CompleteFaulted(op, n, t, call, answers))
  }

  /** Media and admission are through; complete was answered transiently so far. */
  ghost predicate Completing(op: Operation, n: nat, t: seq<Event>, answers: seq<Answer>) {
    AllTransient(Complete, answers) && t == CompletionTrace(op, n, answers)
  }

  ghost predicate CompletingAgain(op: Operation, n: nat, t: seq<Event>, answers: seq<Answer>) {
    AllTransient(Complete, answers) && t == CompletionTrace(op, n, answers) + [Issued(Complete)]
  }

  /** Complete returned. */
  ghost predicate Accepted(op: Operation, n: nat, t: seq<Event>, answers: seq<Answer>) {
    && answers != [] && AllTransient(Complete, answers[..|answers| - 1]) && IsAccepted(answers[|answers| - 1])
    && t == CompletionTrace(op, n, answers)
  }

  /** The final call was answered transiently so far. */
  ghost predicate Retrying(op: Operation, n: nat, call: Call, t: seq<Event>, cause: seq<Event>, answers: seq<Answer>) {
    Cause(op, n, cause, call) && AllTransient(call, answers) && t == cause + Retries(call, answers)
  }

  ghost predicate RetryingAgain(op: Operation, n: nat, call: Call, t: seq<Event>, cause: seq<Event>,
                                answers: seq<Answer>) {
    Cause(op, n, cause, call) && AllTransient(call, answers) && t == cause + Retries(call, answers) + [Issued(call)]
  }

  /** The final call came back, or its retry loop was left. */
  ghost predicate Ending(op: Operation, n: nat, call: Call, t: seq<Event>, cause: seq<Event>, answers: seq<Answer>) {
    && Cause(op, n, cause, call) && t == cause + Retries(call, answers)
    && answers != [] && AllTransient(call, answers[..|answers| - 1])
  }

  ghost predicate EndsWith(op: Operation, n: nat, t: seq<Event>, call: Call) {
    exists cause, answers :: Ending(op, n, call, t, cause, answers)
  }

  /** The trace of a settlement standing at pc. */
  ghost predicate Follows(op: Operation, n: nat, pc: Pc, t: seq<Event>) {
    match pc
    case AdmitReply(i) => i <= n && t == MediaTrace(op, i) + [Issued(Admit(op))]
    case PutReply(i) => i < n && t == MediaTrace(op, i) + [Issued(Admit(op)), Succeeded(Admit(op)), Issued(Put(i))]
    case CompleteReply => exists answers :: CompletingAgain(op, n, t, answers)
    case CompleteSleep => exists answers :: answers != [] && Completing(op, n, t, answers)
    case FinalReply(call) => exists cause, answers :: RetryingAgain(op, n, call, t, cause, answers)
    case FinalSleep(call) => exists cause, answers :: answers != [] && Retrying(op, n, call, t, cause, answers)
    case Done(Completed) => exists answers :: Accepted(op, n, t, answers)
    case Done(Failed) => EndsWith(op, n, t, Fail)
    case Done(DeferredJob) => EndsWith(op, n, t, Defer)
    case Done(Threw) => t == [] || EndsWith(op, n, t, Fail) || EndsWith(op, n, t, Defer)
    case _ => t == []
  }

  // ----- invariant -----

  predicate FencingNote(e: Note) {
    match e
    case StartAnswer(r) => IsFencing(r)
    case BeatAnswer(r) => IsFencing(r)
    case _ => false
  }

  ghost predicate FencingSeen(log: seq<Note>) {
    exists e | e in log :: FencingNote(e)
  }

  predicate InSettlement(pc: Pc) {
    || pc.AdmitReply? || pc.PutReply? || pc.CompleteReply? || pc.CompleteSleep? || pc.FinalReply? || pc.FinalSleep?
    || (pc.Done? && pc.verdict != Abandoned)
  }

  /** A settlement starts only on an unfenced attempt, and no heartbeat is in flight or will be sent. */
  ghost predicate Undisturbed(s: State) {
    && (s.pc.StartReply? || s.pc.StartSleep? ==> s.beat == NotRunning && !FencingSeen(s.log))
    && (s.pc.Executing? || s.pc.Joining? ==> FencingSeen(s.log) ==> s.phase == Fenced)
    && (s.pc.Joining? ==> s.stopBeats && s.beats <= s.pc.beat)
    && (InSettlement(s.pc) ==> !FencingSeen(s.log) && s.beat != InFlight && (s.stopBeats || s.beat == NotRunning))
  }

  ghost predicate Inv(kind: JobKind, s: State) {
    Undisturbed(s) && Follows(OperationOf(kind), s.mediaCount, s.pc, s.settlement)
  }

  lemma FirstFinal(op: Operation, n: nat, cause: seq<Event>, call: Call)
    requires Cause(op, n, cause, call)
    ensures Follows(op, n, FinalReply(call), cause + [Issued(call)])
  {
    assert cause + Retries(call, []) + [Issued(call)] == cause + [Issued(call)];
    assert RetryingAgain(op, n, call, cause + [Issued(call)], cause, []);
  }

  lemma RetryOnce(call: Call, answers: seq<Answer>, a: Answer)
    ensures Retries(call, answers + [a]) == Retries(call, answers) + [Issued(call), Answered(call, a)]
    ensures (answers + [a])[..|answers + [a]| - 1] == answers
  {
    assert (answers + [a])[..|answers|] == answers;
  }

  lemma EnterFollows(kind: JobKind, s: State, e: Execution)
    requires s.settlement == []
    ensures var t := EnterSettlement(kind, s, e); Follows(OperationOf(kind), t.mediaCount, t.pc, t.settlement)
  {
    var op := OperationOf(kind);
    if s.phase != Fenced {
      var t := EnterSettlement(kind, s, e);
      if t.pc.FinalReply? {
        FirstFinal(op, t.mediaCount, [], t.pc.call);
        assert t.settlement == [] + [Issued(t.pc.call)];
      } else {
        assert t.settlement == MediaTrace(op, 0) + [Issued(Admit(op))];
      }
    }
  }

  lemma AfterAdmissionFollows(kind: JobKind, s: State, index: nat, fault: Option<Fault>)
    requires Follows(OperationOf(kind), s.mediaCount, AdmitReply(index), s.settlement)
    ensures var t := AfterAdmission(kind, s, index, fault); Follows(OperationOf(kind), s.mediaCount, t.pc, t.settlement)
  {
    var op, n := OperationOf(kind), s.mediaCount;
    var t := AfterAdmission(kind, s, index, fault);
    if fault.Some? {
      var cause := s.settlement + [Faulted(Admit(op), fault.value)];
      assert cause == MediaTrace(op, index) + [Issued(Admit(op)), Faulted(Admit(op), fault.value)];
      assert AdmitFaulted(op, n, cause, FinalCall(fault.value), index, fault.value);
      FirstFinal(op, n, cause, FinalCall(fault.value));
    } else if index < n {
      assert t.settlement == MediaTrace(op, index) + [Issued(Admit(op)), Succeeded(Admit(op)), Issued(Put(index))];
    } else {
      assert CompletingAgain(op, n, t.settlement, []);
    }
  }

  lemma AfterPutFollows(kind: JobKind, s: State, index: nat, fault: Option<Fault>)
    requires Follows(OperationOf(kind), s.mediaCount, PutReply(index), s.settlement)
    ensures var t := AfterPut(kind, s, index, fault); Follows(OperationOf(kind), s.mediaCount, t.pc, t.settlement)
  {
    var op, n := OperationOf(kind), s.mediaCount;
    var t := AfterPut(kind, s, index, fault);
    if fault.Some? {
      var cause := s.settlement + [Faulted(Put(index), fault.value)];
      assert PutFaulted(op, n, cause, FinalCall(fault.value), index, fault.value);
      FirstFinal(op, n, cause, FinalCall(fault.value));
    } else {
      assert t.settlement == MediaTrace(op, index + 1) + [Issued(Admit(op))];
    }
  }

  lemma AfterCompleteFollows(op: Operation, s: State, a: Answer)
    requires Follows(op, s.mediaCount, CompleteReply, s.settlement)
    ensures var t := AfterComplete(s, a); Follows(op, s.mediaCount, t.pc, t.settlement)
  {
    var n := s.mediaCount;
    var answers :| CompletingAgain(op, n, s.settlement, answers);
    CompleteAnswered(op, n, s.settlement, answers, a);
  }

  lemma CompleteAnswered(op: Operation, n: nat, t: seq<Event>, answers: seq<Answer>, a: Answer)
    requires CompletingAgain(op, n, t, answers)
    ensures var u := t + [Answered(Complete, a)];
            if IsAccepted(a) then Follows(op, n, Done(Completed), u)
            else if IsTransient(Complete, a) then Follows(op, n, CompleteSleep, u)
            else
              var call := if a == StorageRefused then Defer else Fail;
              Follows(op, n, FinalReply(call), u + [Issued(call)])
  {
    var u, all := t + [Answered(Complete, a)], answers + [a];
    RetryOnce(Complete, answers, a);
    assert u == CompletionTrace(op, n, all);
    if IsAccepted(a) {
      assert Accepted(op, n, u, all);
    } else if IsTransient(Complete, a) {
      assert Completing(op, n, u, all);
    } else {
      var call := if a == StorageRefused then Defer else Fail;
      assert CompleteFaulted(op, n, u, call, all);
      FirstFinal(op, n, u, call);
    }
  }

  lemma AfterFinalFollows(op: Operation, s: State, call: Call, a: Answer)
    requires Follows(op, s.mediaCount, FinalReply(call), s.settlement)
    ensures var t := AfterFinal(s, call, a); Follows(op, s.mediaCount, t.pc, t.settlement)
  {
    var cause, answers :| RetryingAgain(op, s.mediaCount, call, s.settlement, cause, answers);
    FinalAnswered(op, s.mediaCount, s.settlement, cause, call, answers, a);
  }

  lemma FinalAnswered(op: Operation, n: nat, t: seq<Event>, cause: seq<Event>, call: Call, answers: seq<Answer>,
                      a: Answer)
    requires RetryingAgain(op, n, call, t, cause, answers)
    ensures var u := t + [Answered(call, a)];
            && EndsWith(op, n, u, call) && (call == Defer || call == Fail)
            && (IsTransient(call, a) ==> Follows(op, n, FinalSleep(call), u))
  {
    var u, all := t + [Answered(call, a)], answers + [a];
    RetryOnce(call, answers, a);
    assert u == cause + Retries(call, all);
    assert Ending(op, n, call, u, cause, all);
    if IsTransient(call, a) { assert Retrying(op, n, call, u, cause, all); }
  }

  lemma WakeFollows(op: Operation, s: State)
    requires (s.pc.CompleteSleep? || s.pc.FinalSleep?) && Follows(op, s.mediaCount, s.pc, s.settlement)
    ensures s.pc.CompleteSleep? ==>
              && Follows(op, s.mediaCount, CompleteReply, s.settlement + [Issued(Complete)])
              && Follows(op, s.mediaCount, FinalReply(Fail), s.settlement + [Issued(Fail)])
    ensures s.pc.FinalSleep? ==> Follows(op, s.mediaCount, FinalReply(s.pc.call), s.settlement + [Issued(s.pc.call)])
  {
    var n := s.mediaCount;
    if s.pc.CompleteSleep? {
      var answers :| answers != [] && Completing(op, n, s.settlement, answers);
      assert answers[|answers| - 1] in answers;
      assert CompletingAgain(op, n, s.settlement + [Issued(Complete)], answers);
      assert CompleteFaulted(op, n, s.settlement, Fail, answers);
      FirstFinal(op, n, s.settlement, Fail);
    } else {
      var call := s.pc.call;
      var cause, answers :| answers != [] && Retrying(op, n, call, s.settlement, cause, answers);
      assert RetryingAgain(op, n, call, s.settlement + [Issued(call)], cause, answers);
    }
  }

  lemma SleepThrewFollows(op: Operation, s: State)
    requires s.pc.FinalSleep? && Follows(op, s.mediaCount, s.pc, s.settlement)
    ensures Follows(op, s.mediaCount, Done(Threw), s.settlement)
  {
    var call, n := s.pc.call, s.mediaCount;
    var cause, answers :| answers != [] && Retrying(op, n, call, s.settlement, cause, answers);
    assert Ending(op, n, call, s.settlement, cause, answers);
    assert EndsWith(op, n, s.settlement, call);
  }

  lemma SettlementStepFollows(kind: JobKind, s: State, a: Action)
    requires Follows(OperationOf(kind), s.mediaCount, s.pc, s.settlement) && Apply(kind, s, a).Some?
    requires IsSettlementAction(a)
    ensures var t := Apply(kind, s, a).value; Follows(OperationOf(kind), t.mediaCount, t.pc, t.settlement)
  {
    var op := OperationOf(kind);
    match a
    case OnAdmitted(fault) => AfterAdmissionFollows(kind, s, s.pc.index, fault);
    case OnPut(fault) => AfterPutFollows(kind, s, s.pc.index, fault);
    case OnAnswer(answer) => AnswerFollows(kind, s, answer);
    case _ => WakeStepFollows(kind, s, a);
  }

  predicate IsSettlementAction(a: Action) {
    a.OnAdmitted? || a.OnPut? || a.OnAnswer? || a.OnWake? || a.OnSleepThrew?
  }

  lemma AnswerFollows(kind: JobKind, s: State, answer: Answer)
    requires Follows(OperationOf(kind), s.mediaCount, s.pc, s.settlement) && Apply(kind, s, OnAnswer(answer)).Some?
    ensures var t := Apply(kind, s, OnAnswer(answer)).value;
            Follows(OperationOf(kind), t.mediaCount, t.pc, t.settlement)
  {
    if s.pc.CompleteReply? {
      AfterCompleteFollows(OperationOf(kind), s, answer);
      assert Apply(kind, s, OnAnswer(answer)) == Some(AfterComplete(s, answer));
      assert AfterComplete(s, answer).mediaCount == s.mediaCount;
    } else {
      AfterFinalFollows(OperationOf(kind), s, s.pc.call, answer);
      assert Apply(kind, s, OnAnswer(answer)) == Some(AfterFinal(s, s.pc.call, answer));
      assert AfterFinal(s, s.pc.call, answer).mediaCount == s.mediaCount;
    }
  }

  lemma WakeStepFollows(kind: JobKind, s: State, a: Action)
    requires Follows(OperationOf(kind), s.mediaCount, s.pc, s.settlement) && Apply(kind, s, a).Some?
    requires a.OnWake? || a.OnSleepThrew?
    ensures var t := Apply(kind, s, a).value; Follows(OperationOf(kind), t.mediaCount, t.pc, t.settlement)
  {
    var op := OperationOf(kind);
    if a.OnSleepThrew? && s.pc.FinalSleep? { SleepThrewFollows(op, s); }
    else if !s.pc.StartSleep? { WakeFollows(op, s); }
  }

  lemma StepFollows(kind: JobKind, s: State, a: Action)
    requires Follows(OperationOf(kind), s.mediaCount, s.pc, s.settlement) && Apply(kind, s, a).Some?
    ensures var t := Apply(kind, s, a).value; Follows(OperationOf(kind), t.mediaCount, t.pc, t.settlement)
  {
    match a
    case OnExecuted(e) =>
      if !BeatUnresumed(s) { EnterFollows(kind, s.(log := s.log + [Executed], stopBeats := true), e); }
    case OnJoined => EnterFollows(kind, s, s.pc.execution);
    case OnAdmitted(_) => SettlementStepFollows(kind, s, a);
    case OnPut(_) => SettlementStepFollows(kind, s, a);
    case OnAnswer(_) => SettlementStepFollows(kind, s, a);
    case OnWake => SettlementStepFollows(kind, s, a);
    case OnSleepThrew => SettlementStepFollows(kind, s, a);
    case _ =>
  }

  lemma MediaStepShape(kind: JobKind, s: State, a: Action)
    requires Apply(kind, s, a).Some? && (a.OnAdmitted? || a.OnPut?)
    ensures var t := Apply(kind, s, a).value;
            && t.log == s.log && t.beat == s.beat && t.stopBeats == s.stopBeats
            && s.settlement <= t.settlement && InSettlement(t.pc) && InSettlement(s.pc)
  {
  }

  lemma AnswerStepShape(kind: JobKind, s: State, a: Action)
    requires Apply(kind, s, a).Some? && a.OnAnswer?
    ensures var t := Apply(kind, s, a).value;
            && t.log == s.log && t.beat == s.beat && t.stopBeats == s.stopBeats
            && s.settlement <= t.settlement && InSettlement(t.pc) && InSettlement(s.pc)
  {
  }

  lemma WakeStepShape(kind: JobKind, s: State, a: Action)
    requires Apply(kind, s, a).Some? && (a.OnWake? || a.OnSleepThrew?) && !s.pc.StartSleep?
    ensures var t := Apply(kind, s, a).value;
            && t.log == s.log && t.beat == s.beat && t.stopBeats == s.stopBeats
            && s.settlement <= t.settlement && InSettlement(t.pc) && InSettlement(s.pc)
  {
  }

  /** A settlement step changes neither the log nor the heartbeats, and only extends the trace. */
  lemma SettlementShape(kind: JobKind, s: State, a: Action)
    requires Apply(kind, s, a).Some? && IsSettlementAction(a) && !s.pc.StartSleep?
    ensures var t := Apply(kind, s, a).value;
            && t.log == s.log && t.beat == s.beat && t.stopBeats == s.stopBeats
            && s.settlement <= t.settlement && InSettlement(t.pc) && InSettlement(s.pc)
  {
    if a.OnAdmitted? || a.OnPut? {
      MediaStepShape(kind, s, a);
    } else if a.OnAnswer? {
      AnswerStepShape(kind, s, a);
    } else {
      WakeStepShape(kind, s, a);
    }
  }

  lemma SettlementStepUndisturbed(kind: JobKind, s: State, a: Action)
    requires Undisturbed(s) && Apply(kind, s, a).Some? && IsSettlementAction(a)
    ensures Undisturbed(Apply(kind, s, a).value)
  {
    if !s.pc.StartSleep? { SettlementShape(kind, s, a); }
  }

  lemma EnterUndisturbed(kind: JobKind, s: State, e: Execution)
    requires FencingSeen(s.log) ==> s.phase == Fenced
    requires s.beat != InFlight && s.stopBeats
    ensures Undisturbed(EnterSettlement(kind, s, e))
  {
  }

  lemma StartStepUndisturbed(kind: JobKind, s: State, a: Action)
    requires Undisturbed(s) && Apply(kind, s, a).Some? && (a.OnStartReply? || a.OnExecuted? || a.OnJoined?)
    ensures Undisturbed(Apply(kind, s, a).value)
  {
    if a.OnExecuted? {
      var t := s.(log := s.log + [Executed], stopBeats := true);
      assert FencingSeen(t.log) ==> FencingSeen(s.log);
      if !BeatUnresumed(t) { EnterUndisturbed(kind, t, a.execution); }
    } else if a.OnJoined? {
      EnterUndisturbed(kind, s, s.pc.execution);
    }
  }

  lemma StepUndisturbed(kind: JobKind, s: State, a: Action)
    requires Undisturbed(s) && Apply(kind, s, a).Some?
    ensures Undisturbed(Apply(kind, s, a).value)
  {
    if IsSettlementAction(a) {
      SettlementStepUndisturbed(kind, s, a);
    } else if a.OnStartReply? || a.OnExecuted? || a.OnJoined? {
      StartStepUndisturbed(kind, s, a);
    }
  }

  lemma {:induction false} RunKeepsInv(kind: JobKind, actions: seq<Action>)
    requires Run(kind, actions).Some?
    ensures Inv(kind, Run(kind, actions).value)
  {
    if actions != [] {
      var before := Run(kind, actions[..|actions| - 1]).value;
      RunKeepsInv(kind, actions[..|actions| - 1]);
      StepFollows(kind, before, actions[|actions| - 1]);
      StepUndisturbed(kind, before, actions[|actions| - 1]);
    }
  }

  // ----- main results -----

  /** Every settlement trace is one of the grammar, and a fenced attempt's is empty. */
  lemma SettlementFollowsGrammar(kind: JobKind, s: State)
    requires Reachable(kind, s)
    ensures Follows(OperationOf(kind), s.mediaCount, s.pc, s.settlement)
    ensures FencingSeen(s.log) ==> s.settlement == []
  {
    var actions :| Run(kind, actions) == Some(s);
    RunKeepsInv(kind, actions);
  }

  /** Once the executor has settled the heartbeats are stopped, and none was sent since. */
  ghost predicate QuietAfterExecution(s: State) {
    && (Executed in s.log ==> s.stopBeats)
    && (forall j, k | 0 <= j < k < |s.log| && s.log[j] == Executed :: s.log[k] != BeatSent)
  }

  lemma StepKeepsQuiet(kind: JobKind, s: State, a: Action)
    requires QuietAfterExecution(s) && Apply(kind, s, a).Some?
    ensures QuietAfterExecution(Apply(kind, s, a).value)
  {
    if IsSettlementAction(a) {
      if !s.pc.StartSleep? { SettlementShape(kind, s, a); }
    } else {
      OtherStepNotes(kind, s, a);
      QuietGrows(s, Apply(kind, s, a).value);
    }
  }

  /** Other steps note at most one event; a heartbeat goes out only while heartbeats are not stopped. */
  lemma OtherStepNotes(kind: JobKind, s: State, a: Action)
    requires Apply(kind, s, a).Some? && !IsSettlementAction(a)
    ensures var t := Apply(kind, s, a).value;
            && s.log <= t.log && |t.log| <= |s.log| + 1 && (s.stopBeats ==> t.stopBeats)
            && (BeatSent in t.log[|s.log|..] ==> !s.stopBeats)
            && (Executed in t.log[|s.log|..] ==> t.stopBeats)
  {
    if a.OnExecuted? && !BeatUnresumed(s) {
      EnterNotesNothing(kind, s.(log := s.log + [Executed], stopBeats := true), a.execution);
    } else if a.OnJoined? {
      EnterNotesNothing(kind, s, s.pc.execution);
    }
  }

  lemma EnterNotesNothing(kind: JobKind, s: State, e: Execution)
    ensures EnterSettlement(kind, s, e).log == s.log && EnterSettlement(kind, s, e).stopBeats == s.stopBeats
  {
  }

  lemma QuietGrows(s: State, t: State)
    requires QuietAfterExecution(s)
    requires s.log <= t.log && |t.log| <= |s.log| + 1 && (s.stopBeats ==> t.stopBeats)
    requires BeatSent in t.log[|s.log|..] ==> !s.stopBeats
    requires Executed in t.log[|s.log|..] ==> t.stopBeats
    ensures QuietAfterExecution(t)
  {
    assert t.log == s.log + t.log[|s.log|..];
    forall j, k | 0 <= j < k < |t.log| && t.log[j] == Executed ensures t.log[k] != BeatSent {
      assert s.log[j] == Executed;
      if k < |s.log| {
        assert s.log[k] == t.log[k];
      } else {
        assert t.log[|s.log|..][0] == t.log[k];
      }
    }
  }

  lemma {:induction false} RunKeepsQuiet(kind: JobKind, actions: seq<Action>)
    requires Run(kind, actions).Some?
    ensures QuietAfterExecution(Run(kind, actions).value)
  {
    if actions != [] {
      RunKeepsQuiet(kind, actions[..|actions| - 1]);
      StepKeepsQuiet(kind, Run(kind, actions[..|actions| - 1]).value, actions[|actions| - 1]);
    }
  }

  /** No heartbeat is issued after the executor has settled, on any attempt, fenced or not, at any later point. */
  lemma NoHeartbeatAfterExecution(kind: JobKind, s: State)
    requires Reachable(kind, s)
    ensures forall j, k | 0 <= j < k < |s.log| && s.log[j] == Executed :: s.log[k] != BeatSent
  {
    var actions :| Run(kind, actions) == Some(s);
    RunKeepsQuiet(kind, actions);
  }

  /** Once settlement has begun no heartbeat is sent or answered, and the trace only grows. */
  lemma NoHeartbeatDuringSettlement(kind: JobKind, s: State, a: Action)
    requires Reachable(kind, s) && InSettlement(s.pc) && Apply(kind, s, a).Some?
    ensures var t := Apply(kind, s, a).value; t.log == s.log && s.settlement <= t.settlement && InSettlement(t.pc)
  {
    var actions :| Run(kind, actions) == Some(s);
    RunKeepsInv(kind, actions);
    BeatsAreOver(kind, s, a);
  }

  lemma BeatsAreOver(kind: JobKind, s: State, a: Action)
    requires Undisturbed(s) && InSettlement(s.pc) && Apply(kind, s, a).Some?
    ensures var t := Apply(kind, s, a).value; t.log == s.log && s.settlement <= t.settlement && InSettlement(t.pc)
  {
    if IsSettlementAction(a) { SettlementShape(kind, s, a); }
  }

  /** Every put stands right behind a successful admission of the job kind's class. */
  ghost predicate PutsGuarded(op: Operation, t: seq<Event>) {
    forall k, i | 0 <= k < |t| && t[k] == Issued(Put(i)) :: k > 0 && t[k - 1] == Succeeded(Admit(op))
  }

  lemma GuardedConcat(op: Operation, t: seq<Event>, u: seq<Event>)
    requires PutsGuarded(op, t) && PutsGuarded(op, u)
    ensures PutsGuarded(op, t + u)
  {
    forall k, i | 0 <= k < |t + u| && (t + u)[k] == Issued(Put(i))
      ensures k > 0 && (t + u)[k - 1] == Succeeded(Admit(op))
    {
      if k >= |t| {
        assert u[k - |t|] == Issued(Put(i));
      }
    }
  }

  lemma {:induction false} MediaTraceFacts(op: Operation, n: nat)
    ensures PutsGuarded(op, MediaTrace(op, n))
    ensures forall e | e in MediaTrace(op, n) && e.Issued? :: e.call.Admit? || e.call.Put?
    ensures forall e | e in MediaTrace(op, n) :: !e.Answered?
  {
    if n > 0 {
      MediaTraceFacts(op, n - 1);
      var block := [Issued(Admit(op)), Succeeded(Admit(op)), Issued(Put(n - 1)), Succeeded(Put(n - 1))];
      assert PutsGuarded(op, block);
      GuardedConcat(op, MediaTrace(op, n - 1), block);
    }
  }

  lemma {:induction false} RetriesFacts(op: Operation, call: Call, answers: seq<Answer>)
    requires !call.Put?
    ensures PutsGuarded(op, Retries(call, answers))
    ensures forall e | e in Retries(call, answers) && e.Issued? :: e.call == call
    ensures forall e | e in Retries(call, answers) && e.Answered? :: e.call == call && e.answer in answers
  {
    if answers != [] {
      RetriesFacts(op, call, answers[..|answers| - 1]);
    }
  }

  ghost predicate CauseDisciplined(op: Operation, n: nat, t: seq<Event>) {
    && PutsGuarded(op, t)
    && (forall e | e in t && e.Issued? :: e.call.Admit? || e.call.Put? || e.call == Complete)
    && (Issued(Complete) in t ==> ReadyToComplete(op, n) <= t)
    && (forall e | e in t && e.Answered? :: !IsAccepted(e.answer))
  }

  lemma FaultedMediaFacts(op: Operation, n: nat, i: nat, last: seq<Event>)
    requires PutsGuarded(op, last)
    requires forall e | e in last :: !e.Answered? && (e.Issued? ==> e.call.Admit? || e.call.Put?)
    ensures CauseDisciplined(op, n, MediaTrace(op, i) + last)
  {
    MediaTraceFacts(op, i);
    GuardedConcat(op, MediaTrace(op, i), last);
    assert Issued(Complete) !in MediaTrace(op, i) + last;
  }

  lemma CompleteFaultedFacts(op: Operation, n: nat, t: seq<Event>, call: Call, answers: seq<Answer>)
    requires CompleteFaulted(op, n, t, call, answers)
    ensures CauseDisciplined(op, n, t)
  {
    CompletionFacts(op, n, answers);
    assert answers == answers[..|answers| - 1] + [answers[|answers| - 1]];
    forall e | e in t && e.Answered? ensures !IsAccepted(e.answer) {
      assert e.answer in answers;
    }
  }

  lemma CauseFacts(op: Operation, n: nat, t: seq<Event>, call: Call)
    requires Cause(op, n, t, call)
    ensures (call == Defer || call == Fail) && CauseDisciplined(op, n, t)
  {
    if t == [] {
    } else if i: nat, fault :| AdmitFaulted(op, n, t, call, i, fault) {
      FaultedMediaFacts(op, n, i, [Issued(Admit(op)), Faulted(Admit(op), fault)]);
    } else if i: nat, fault :| PutFaulted(op, n, t, call, i, fault) {
      var last := [Issued(Admit(op)), Succeeded(Admit(op)), Issued(Put(i)), Faulted(Put(i), fault)];
      assert PutsGuarded(op, last);
      FaultedMediaFacts(op, n, i, last);
    } else {
      var answers :| CompleteFaulted(op, n, t, call, answers);
      CompleteFaultedFacts(op, n, t, call, answers);
    }
  }

  /** All media published and one more admission granted. */
  ghost function ReadyToComplete(op: Operation, n: nat): seq<Event> {
    MediaTrace(op, n) + [Issued(Admit(op)), Succeeded(Admit(op))]
  }

  lemma CompletionFacts(op: Operation, n: nat, answers: seq<Answer>)
    ensures var t := CompletionTrace(op, n, answers);
            && PutsGuarded(op, t) && ReadyToComplete(op, n) <= t
            && (forall e | e in t && e.Issued? :: e.call.Admit? || e.call.Put? || e.call == Complete)
            && (forall e | e in t && e.Answered? :: e.call == Complete && e.answer in answers)
  {
    MediaTraceFacts(op, n);
    RetriesFacts(op, Complete, answers);
    var admitted := [Issued(Admit(op)), Succeeded(Admit(op))];
    GuardedConcat(op, MediaTrace(op, n), admitted);
    GuardedConcat(op, ReadyToComplete(op, n), Retries(Complete, answers));
  }

  /** What the grammar says about single events. */
  ghost predicate Disciplined(op: Operation, n: nat, t: seq<Event>) {
    && PutsGuarded(op, t)
    && (Issued(Complete) in t ==> ReadyToComplete(op, n) <= t)
    && !(Issued(Defer) in t && Issued(Fail) in t)
    && ((exists e | e in t :: e.Answered? && e.call == Complete && IsAccepted(e.answer))
        ==> Issued(Defer) !in t && Issued(Fail) !in t)
  }

  lemma FinalDisciplined(op: Operation, n: nat, cause: seq<Event>, call: Call, answers: seq<Answer>, tail: seq<Event>)
    requires Cause(op, n, cause, call)
    requires tail == [] || tail == [Issued(call)]
    ensures Disciplined(op, n, cause + Retries(call, answers) + tail)
  {
    CauseFacts(op, n, cause, call);
    RetriesFacts(op, call, answers);
    GuardedConcat(op, cause, Retries(call, answers));
    GuardedConcat(op, cause + Retries(call, answers), tail);
    var t := cause + Retries(call, answers) + tail;
    forall e | e in t ensures e in cause || e in Retries(call, answers) || e == Issued(call) {
    }
    if Issued(Complete) in t {
      assert cause <= t;
    }
  }

  lemma CompletionDisciplined(op: Operation, n: nat, answers: seq<Answer>, tail: seq<Event>)
    requires tail == [] || tail == [Issued(Complete)]
    ensures Disciplined(op, n, CompletionTrace(op, n, answers) + tail)
  {
    CompletionFacts(op, n, answers);
    GuardedConcat(op, CompletionTrace(op, n, answers), tail);
  }

  lemma GrammarIsDisciplined(op: Operation, n: nat, pc: Pc, t: seq<Event>)
    requires Follows(op, n, pc, t)
    ensures Disciplined(op, n, t)
  {
    match pc
    case AdmitReply(i) => MediaDisciplined(op, n, i, [Issued(Admit(op))]);
    case PutReply(i) => MediaDisciplined(op, n, i, [Issued(Admit(op)), Succeeded(Admit(op)), Issued(Put(i))]);
    case CompleteReply =>
      var answers :| CompletingAgain(op, n, t, answers);
      CompletionDisciplined(op, n, answers, [Issued(Complete)]);
    case CompleteSleep =>
      var answers :| answers != [] && Completing(op, n, t, answers);
      CompletionDisciplined(op, n, answers, []);
      assert t + [] == t;
    case FinalReply(call) =>
      var cause, answers :| RetryingAgain(op, n, call, t, cause, answers);
      FinalDisciplined(op, n, cause, call, answers, [Issued(call)]);
    case FinalSleep(call) =>
      var cause, answers :| answers != [] && Retrying(op, n, call, t, cause, answers);
      FinalDisciplined(op, n, cause, call, answers, []);
      assert t + [] == t;
    case Done(verdict) => DoneDisciplined(op, n, verdict, t);
    case _ =>
  }

  lemma MediaDisciplined(op: Operation, n: nat, i: nat, last: seq<Event>)
    requires PutsGuarded(op, last)
    requires forall e | e in last :: !e.Answered? && (e.Issued? ==> e.call.Admit? || e.call.Put?)
    ensures Disciplined(op, n, MediaTrace(op, i) + last)
  {
    FaultedMediaFacts(op, n, i, last);
  }

  lemma DoneDisciplined(op: Operation, n: nat, verdict: Verdict, t: seq<Event>)
    requires Follows(op, n, Done(verdict), t)
    ensures Disciplined(op, n, t)
  {
    if verdict == Completed {
      var answers :| Accepted(op, n, t, answers);
      CompletionDisciplined(op, n, answers, []);
      assert t + [] == t;
    } else if EndsWith(op, n, t, Fail) {
      EndDisciplined(op, n, t, Fail);
    } else if EndsWith(op, n, t, Defer) {
      EndDisciplined(op, n, t, Defer);
    }
  }

  lemma EndDisciplined(op: Operation, n: nat, t: seq<Event>, call: Call)
    requires EndsWith(op, n, t, call)
    ensures Disciplined(op, n, t)
  {
    var cause, answers :| Ending(op, n, call, t, cause, answers);
    FinalDisciplined(op, n, cause, call, answers, []);
    assert t + [] == t;
  }

  /**
    Over every run: puts stand right behind an admission of the job kind's
    class; complete is first issued after all puts and one more admission;
    defer and fail never both occur, and neither follows a complete that
    returned; a fenced attempt issues none of them.
  */
  lemma SettlementIsDisciplined(kind: JobKind, s: State)
    requires Reachable(kind, s)
    ensures Disciplined(OperationOf(kind), s.mediaCount, s.settlement)
    ensures FencingSeen(s.log) ==> s.settlement == []
  {
    SettlementFollowsGrammar(kind, s);
    GrammarIsDisciplined(OperationOf(kind), s.mediaCount, s.pc, s.settlement);
  }

  // ----- what completed means -----

  /** Some complete request was answered applied or already_applied. */
  ghost predicate ServerApplied(t: seq<Event>) {
    exists e | e in t :: AppliedAnswer(e)
  }

  predicate AppliedAnswer(e: Event) {
    e.Answered? && e.call == Complete && e.answer.Replied? && IsApplied(e.answer.reply)
  }

  /**
    An attempt ends completed right behind an answer to complete, and the
    server reported the job applied exactly when that answer says so: the
    loop's earlier answers are all transient.
  */
  lemma CompletedWasAppliedIff(kind: JobKind, s: State)
    requires Reachable(kind, s) && s.pc == Done(Completed)
    ensures s.settlement != []
    ensures var last := s.settlement[|s.settlement| - 1];
            && last.Answered? && last.call == Complete && IsAccepted(last.answer)
            && (ServerApplied(s.settlement) <==> IsApplied(last.answer.reply))
  {
    SettlementFollowsGrammar(kind, s);
    var op, n := OperationOf(kind), s.mediaCount;
    var answers :| Accepted(op, n, s.settlement, answers);
    LastAnswerDecides(op, n, answers);
  }

  lemma LastAnswerDecides(op: Operation, n: nat, answers: seq<Answer>)
    requires answers != [] && AllTransient(Complete, answers[..|answers| - 1]) && IsAccepted(answers[|answers| - 1])
    ensures var t, last := CompletionTrace(op, n, answers), answers[|answers| - 1];
            && t != [] && t[|t| - 1] == Answered(Complete, last)
            && (ServerApplied(t) <==> IsApplied(last.reply))
  {
    var front, last := answers[..|answers| - 1], answers[|answers| - 1];
    var t := CompletionTrace(op, n, answers);
    assert t == CompletionTrace(op, n, front) + [Issued(Complete), Answered(Complete, last)];
    CompletionFacts(op, n, front);
    forall e | e in CompletionTrace(op, n, front) ensures !AppliedAnswer(e) {
      if e.Answered? { assert IsTransient(Complete, e.answer); }
    }
    assert t[|t| - 1] in t;
  }

  lemma AfterAction(kind: JobKind, s: State, a: Action) returns (t: State)
    requires Reachable(kind, s) && Apply(kind, s, a).Some?
    ensures Reachable(kind, t) && Apply(kind, s, a) == Some(t)
  {
    var actions :| Run(kind, actions) == Some(s);
    assert (actions + [a])[..|actions|] == actions;
    t := Apply(kind, s, a).value;
    assert Run(kind, actions + [a]) == Some(t);
  }

  /** Applied is false in general: an attempt without media ends completed on a superseded answer. */
  lemma CompletedMayBeSuperseded() returns (s: State)
    ensures Reachable(Candidate, s) && s.pc == Done(Completed)
    ensures Answered(Complete, Replied(Resolved(Superseded))) in s.settlement && !ServerApplied(s.settlement)
  {
    s := INITIAL_STATE;
    assert Run(Candidate, []) == Some(s);
    s := AfterAction(Candidate, s, OnStartReply(Resolved(Applied)));
    s := AfterAction(Candidate, s, OnExecuted(Produced(Output(Present, Absent, 0))));
    s := AfterAction(Candidate, s, OnAdmitted(None));
    s := AfterAction(Candidate, s, OnAnswer(Replied(Resolved(Superseded))));
    CompletedWasAppliedIff(Candidate, s);
  }

  // ----- how a settlement goes on -----

  /** The job is given up on with this call. */
  predicate GivesUpWith(s: State, t: State, call: Call, before: seq<Event>) {
    t.pc == FinalReply(call) && t.settlement == s.settlement + before + [Issued(call)]
  }

  /** The executor's result, with any heartbeat awaited. */
  predicate ExecutionIsOver(s: State, a: Action, e: Execution) {
    || (s.pc == Executing && a == OnExecuted(e) && s.beat != InFlight && s.beat != Resolving)
    || (s.pc.Joining? && s.pc.execution == e && a == OnJoined && (s.beats > s.pc.beat || s.beat != InFlight))
  }

  /** Just the payload the kind of job asks for, and not the other one. */
  predicate RightPayload(kind: JobKind, o: Output) {
    match kind
    case Candidate => o.Output? && o.candidate == Present && o.manifest == Absent
    case Production => o.Output? && o.manifest == Present && o.candidate == Absent
  }

  /**
    Once the executor has settled, a fenced attempt is abandoned without a
    call; a storage refusal is deferred; another error, or an output without
    just the right payload, fails the job; the right output is admitted.
  */
  lemma ExecutionDecides(kind: JobKind, s: State, a: Action, e: Execution)
    requires ExecutionIsOver(s, a, e)
    ensures Apply(kind, s, a).Some?
    ensures var t := Apply(kind, s, a).value;
            if s.phase == Fenced then t.pc == Done(Abandoned) && t.settlement == s.settlement
            else if e == Broke(StorageFault) then GivesUpWith(s, t, Defer, [])
            else if e == Broke(OtherFault) || !RightPayload(kind, e.output) then GivesUpWith(s, t, Fail, [])
            else
              && t.pc == AdmitReply(0) && t.mediaCount == e.output.mediaCount
              && t.settlement == s.settlement + [Issued(Admit(OperationOf(kind)))]
  {
    var u := if a == OnJoined then s else s.(log := s.log + [Executed], stopBeats := true);
    assert Apply(kind, s, a) == Some(EnterSettlement(kind, u, e));
    EnterDecides(kind, u, e);
  }

  lemma EnterDecides(kind: JobKind, s: State, e: Execution)
    ensures var t := EnterSettlement(kind, s, e);
            if s.phase == Fenced then t.pc == Done(Abandoned) && t.settlement == s.settlement
            else if e == Broke(StorageFault) then GivesUpWith(s, t, Defer, [])
            else if e == Broke(OtherFault) || !RightPayload(kind, e.output) then GivesUpWith(s, t, Fail, [])
            else
              && t.pc == AdmitReply(0) && t.mediaCount == e.output.mediaCount
              && t.settlement == s.settlement + [Issued(Admit(OperationOf(kind)))]
  {
    assert s.settlement + [] == s.settlement;
  }

  /** An admission is followed by the next put, or after the last by complete; refused it defers, otherwise it fails. */
  lemma AdmissionDecides(kind: JobKind, s: State, fault: Option<Fault>)
    requires s.pc.AdmitReply?
    ensures Apply(kind, s, OnAdmitted(fault)).Some?
    ensures var t, call := Apply(kind, s, OnAdmitted(fault)).value, Admit(OperationOf(kind));
            match fault
            case Some(StorageFault) => GivesUpWith(s, t, Defer, [Faulted(call, StorageFault)])
            case Some(OtherFault) => GivesUpWith(s, t, Fail, [Faulted(call, OtherFault)])
            case None =>
              var next := if s.pc.index < s.mediaCount then Put(s.pc.index) else Complete;
              && t.settlement == s.settlement + [Succeeded(call), Issued(next)]
              && t.pc == if s.pc.index < s.mediaCount then PutReply(s.pc.index) else CompleteReply
  {
  }

  /** A put is followed by another admission; refused it defers, otherwise it fails. */
  lemma PutDecides(kind: JobKind, s: State, fault: Option<Fault>)
    requires s.pc.PutReply?
    ensures Apply(kind, s, OnPut(fault)).Some?
    ensures var t, call := Apply(kind, s, OnPut(fault)).value, Put(s.pc.index);
            match fault
            case Some(StorageFault) => GivesUpWith(s, t, Defer, [Faulted(call, StorageFault)])
            case Some(OtherFault) => GivesUpWith(s, t, Fail, [Faulted(call, OtherFault)])
            case None =>
              && t.settlement == s.settlement + [Succeeded(call), Issued(Admit(OperationOf(kind)))]
              && t.pc == AdmitReply(s.pc.index + 1)
  {
  }

  /** Any outcome, 409 and 404 end a request; other 4xx but 408 and 429 are not retried; everything else is. */
  predicate Ends(r: Reply) {
    r.Resolved? || r.status == Some(409) || r.status == Some(404)
  }

  predicate NotRetried(r: Reply) {
    && r.Thrown? && !Ends(r) && r.status.Some? && 400 <= r.status.value < 500
    && r.status.value != 408 && r.status.value != 429
  }

  /** An answer to complete: completed, deferred on a storage refusal, failed on another 4xx, or a retry. */
  lemma CompleteDecides(kind: JobKind, s: State, answer: Answer)
    requires s.pc == CompleteReply
    ensures Apply(kind, s, OnAnswer(answer)).Some?
    ensures var t := Apply(kind, s, OnAnswer(answer)).value;
            var noted := [Answered(Complete, answer)];
            match answer
            case StorageRefused => GivesUpWith(s, t, Defer, noted)
            case Replied(r) =>
              if Ends(r) then t.pc == Done(Completed) && t.settlement == s.settlement + noted
              else if NotRetried(r) then GivesUpWith(s, t, Fail, noted)
              else t.pc == CompleteSleep && t.settlement == s.settlement + noted
  {
  }

  /** What an answer to defer or fail leads to; only a 4xx other than 404, 408, 409 and 429 is thrown on. */
  lemma FinalDecides(kind: JobKind, s: State, answer: Answer)
    requires s.pc == FinalReply(Defer) || s.pc == FinalReply(Fail)
    ensures Apply(kind, s, OnAnswer(answer)).Some?
    ensures var t := Apply(kind, s, OnAnswer(answer)).value;
            && t.settlement == s.settlement + [Answered(s.pc.call, answer)]
            && t.pc ==
               if answer.Replied? && Ends(answer.reply) then Done(if s.pc.call == Defer then DeferredJob else Failed)
               else if answer.Replied? && NotRetried(answer.reply) then Done(Threw)
               else FinalSleep(s.pc.call)
  {
  }

  /** A retried call goes out again after its sleep. */
  lemma WakeDecides(kind: JobKind, s: State)
    requires s.pc == CompleteSleep || s.pc.FinalSleep?
    ensures Apply(kind, s, OnWake).Some?
    ensures var t, call := Apply(kind, s, OnWake).value, if s.pc == CompleteSleep then Complete else s.pc.call;
            && t.settlement == s.settlement + [Issued(call)]
            && t.pc == if s.pc == CompleteSleep then CompleteReply else FinalReply(s.pc.call)
  {
  }

  /** All admissions are of the job kind's class. */
  ghost predicate AdmittedAs(kind: JobKind, t: seq<Event>) {
    forall e | e in t && (e.Issued? || e.Succeeded?) && e.call.Admit? :: e.call.op == OperationOf(kind)
  }

  lemma AdmittedConcat(kind: JobKind, t: seq<Event>, u: seq<Event>)
    requires AdmittedAs(kind, t) && AdmittedAs(kind, u)
    ensures AdmittedAs(kind, t + u)
  {
  }

  /** The final call is defer or fail. */
  lemma FinalCallIsKnown(kind: JobKind, s: State)
    requires Reachable(kind, s)
    ensures s.pc.FinalReply? || s.pc.FinalSleep? ==> s.pc.call == Defer || s.pc.call == Fail
  {
    SettlementFollowsGrammar(kind, s);
    var op, n, t := OperationOf(kind), s.mediaCount, s.settlement;
    if s.pc.FinalReply? {
      var cause, answers :| RetryingAgain(op, n, s.pc.call, t, cause, answers);
      CauseFacts(op, n, cause, s.pc.call);
    } else if s.pc.FinalSleep? {
      var cause, answers :| answers != [] && Retrying(op, n, s.pc.call, t, cause, answers);
      CauseFacts(op, n, cause, s.pc.call);
    }
  }

  lemma ExecutionAdmits(kind: JobKind, s: State, a: Action, e: Execution) returns (u: seq<Event>)
    requires ExecutionIsOver(s, a, e)
    ensures Apply(kind, s, a).value.settlement == s.settlement + u && AdmittedAs(kind, u)
  {
    ExecutionDecides(kind, s, a, e);
    u := if s.phase == Fenced then []
    else if e == Broke(StorageFault) then [Issued(Defer)]
    else if e == Broke(OtherFault) || !RightPayload(kind, e.output) then [Issued(Fail)]
    else [Issued(Admit(OperationOf(kind)))];
  }

  lemma AdmissionAdmits(kind: JobKind, s: State, fault: Option<Fault>) returns (u: seq<Event>)
    requires s.pc.AdmitReply?
    ensures Apply(kind, s, OnAdmitted(fault)).value.settlement == s.settlement + u && AdmittedAs(kind, u)
  {
    AdmissionDecides(kind, s, fault);
    var call := Admit(OperationOf(kind));
    u := match fault
      case Some(StorageFault) => [Faulted(call, StorageFault), Issued(Defer)]
      case Some(OtherFault) => [Faulted(call, OtherFault), Issued(Fail)]
      case None => [Succeeded(call), Issued(if s.pc.index < s.mediaCount then Put(s.pc.index) else Complete)];
  }

  lemma PutAdmits(kind: JobKind, s: State, fault: Option<Fault>) returns (u: seq<Event>)
    requires s.pc.PutReply?
    ensures Apply(kind, s, OnPut(fault)).value.settlement == s.settlement + u && AdmittedAs(kind, u)
  {
    PutDecides(kind, s, fault);
    var call := Put(s.pc.index);
    u := match fault
      case Some(StorageFault) => [Faulted(call, StorageFault), Issued(Defer)]
      case Some(OtherFault) => [Faulted(call, OtherFault), Issued(Fail)]
      case None => [Succeeded(call), Issued(Admit(OperationOf(kind)))];
  }

  /** A step adds only admissions of the job's own class. */
  lemma StepAdmits(kind: JobKind, s: State, a: Action) returns (u: seq<Event>)
    requires Apply(kind, s, a).Some?
    requires s.pc.FinalSleep? ==> s.pc.call == Defer || s.pc.call == Fail
    ensures Apply(kind, s, a).value.settlement == s.settlement + u && AdmittedAs(kind, u)
  {
    if a.OnExecuted? && !BeatUnresumed(s) {
      u := ExecutionAdmits(kind, s, a, a.execution);
    } else if a.OnJoined? {
      u := ExecutionAdmits(kind, s, a, s.pc.execution);
    } else if a.OnAdmitted? {
      u := AdmissionAdmits(kind, s, a.fault);
    } else if a.OnPut? {
      u := PutAdmits(kind, s, a.fault);
    } else if a.OnAnswer? {
      u := AnswerAdmits(kind, s, a.answer);
    } else {
      u := OtherAdmits(kind, s, a);
    }
  }

  lemma OtherAdmits(kind: JobKind, s: State, a: Action) returns (u: seq<Event>)
    requires Apply(kind, s, a).Some? && !a.OnJoined? && !a.OnAdmitted? && !a.OnPut? && !a.OnAnswer?
    requires a.OnExecuted? ==> BeatUnresumed(s)
    requires s.pc.FinalSleep? ==> s.pc.call == Defer || s.pc.call == Fail
    ensures Apply(kind, s, a).value.settlement == s.settlement + u && AdmittedAs(kind, u)
  {
    u := if a.OnWake? then [Issued(if s.pc == CompleteSleep then Complete else s.pc.call)]
    else if a.OnSleepThrew? && s.pc == CompleteSleep then [Issued(Fail)]
    else [];
    if a.OnWake? {
      WakeDecides(kind, s);
    }
  }

  lemma AnswerAdmits(kind: JobKind, s: State, answer: Answer) returns (u: seq<Event>)
    requires Apply(kind, s, OnAnswer(answer)).Some?
    ensures Apply(kind, s, OnAnswer(answer)).value.settlement == s.settlement + u && AdmittedAs(kind, u)
  {
    if s.pc == CompleteReply {
      CompleteDecides(kind, s, answer);
      u := [Answered(Complete, answer)];
      if answer == StorageRefused {
        u := u + [Issued(Defer)];
      } else if NotRetried(answer.reply) {
        u := u + [Issued(Fail)];
      }
    } else {
      u := [Answered(s.pc.call, answer)];
    }
  }

  lemma {:induction false} RunAdmits(kind: JobKind, actions: seq<Action>)
    requires Run(kind, actions).Some?
    ensures AdmittedAs(kind, Run(kind, actions).value.settlement)
  {
    if actions != [] {
      var before := Run(kind, actions[..|actions| - 1]).value;
      RunAdmits(kind, actions[..|actions| - 1]);
      assert Reachable(kind, before);
      FinalCallIsKnown(kind, before);
      var u := StepAdmits(kind, before, actions[|actions| - 1]);
      AdmittedConcat(kind, before.settlement, u);
    }
  }

  /** In every settlement candidate jobs are admitted only as candidate uploads, production jobs as delivery writes. */
  lemma AdmissionsMatchTheJob(kind: JobKind, s: State, op: Operation)
    requires Reachable(kind, s) && Issued(Admit(op)) in s.settlement
    ensures kind == Candidate ==> op == CandidateUpload
    ensures kind == Production ==> op == DeliveryWrite
  {
    var actions :| Run(kind, actions) == Some(s);
    RunAdmits(kind, actions);
  }

  /** One media object after another: admitted, then put. */
  ghost function Published(kind: JobKind, n: nat): seq<Event> {
    if n == 0 then []
    else
      Published(kind, n - 1)
      + [Issued(Admit(OperationOf(kind))), Succeeded(Admit(OperationOf(kind))),
         Issued(Put(n - 1)), Succeeded(Put(n - 1))]
  }

  ghost function OutputOf(kind: JobKind, n: nat): Output {
    match kind
    case Candidate => Output(Present, Absent, n)
    case Production => Output(Absent, Present, n)
  }

  lemma StartsPublishing(kind: JobKind, n: nat) returns (s: State)
    ensures Reachable(kind, s) && s.pc == AdmitReply(0) && s.mediaCount == n
    ensures s.settlement == [Issued(Admit(OperationOf(kind)))]
  {
    var execution := Produced(OutputOf(kind, n));
    s := INITIAL_STATE;
    assert Run(kind, []) == Some(s);
    s := AfterAction(kind, s, OnStartReply(Resolved(Applied)));
    ExecutionDecides(kind, s, OnExecuted(execution), execution);
    s := AfterAction(kind, s, OnExecuted(execution));
  }

  lemma PublishesNext(kind: JobKind, s: State) returns (t: State)
    requires Reachable(kind, s) && s.pc.AdmitReply? && s.pc.index < s.mediaCount
    ensures Reachable(kind, t) && t.pc == AdmitReply(s.pc.index + 1) && t.mediaCount == s.mediaCount
    ensures t.settlement == s.settlement
                            + [Succeeded(Admit(OperationOf(kind))), Issued(Put(s.pc.index)), Succeeded(Put(s.pc.index)),
                               Issued(Admit(OperationOf(kind)))]
  {
    AdmissionDecides(kind, s, None);
    t := AfterAction(kind, s, OnAdmitted(None));
    PutDecides(kind, t, None);
    t := AfterAction(kind, t, OnPut(None));
  }

  lemma {:induction false} PublishesFirst(kind: JobKind, n: nat, i: nat) returns (s: State)
    requires i <= n
    ensures Reachable(kind, s) && s.pc == AdmitReply(i) && s.mediaCount == n
    ensures s.settlement == Published(kind, i) + [Issued(Admit(OperationOf(kind)))]
    decreases i
  {
    if i == 0 {
      s := StartsPublishing(kind, n);
    } else {
      s := PublishesFirst(kind, n, i - 1);
      s := PublishesNext(kind, s);
    }
  }

  /**
    With nothing in its way a job publishes all its media, each under its own
    admission, is admitted once more and completes: for every number of media.
  */
  lemma PublishesAllMedia(kind: JobKind, n: nat) returns (s: State)
    ensures Reachable(kind, s) && s.pc == Done(Completed) && s.mediaCount == n
    ensures s.settlement == Published(kind, n)
                            + [Issued(Admit(OperationOf(kind))), Succeeded(Admit(OperationOf(kind))), Issued(Complete),
                               Answered(Complete, Replied(Resolved(Applied)))]
  {
    s := PublishesFirst(kind, n, n);
    AdmissionDecides(kind, s, None);
    s := AfterAction(kind, s, OnAdmitted(None));
    CompleteDecides(kind, s, Replied(Resolved(Applied)));
    s := AfterAction(kind, s, OnAnswer(Replied(Resolved(Applied))));
  }
}
