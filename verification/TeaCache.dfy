/**
  TeaCache sessions (experiments/minimax-h3-teacache/teacache.py).

  A session may answer a sampling step with a copy of the last real forward
  pass while the accumulated relative change stays under a budget.  The
  session is a class whose methods refine pure transitions; the run theorems
  hold for every interleaving of step advances, evaluations (whose forward
  pass may fail, and during which other calls may arrive) and cleanup.
*/
module TeaCache {
  import opened Common
  import opened StableSorting
  import opened Fingerprint

  // ----- tensors and the relative L1 distance -----

  function Product(shape: seq<nat>): nat {
    if shape == [] then 1 else shape[0] * Product(shape[1..])
  }

  datatype RawTensor = RawTensor(shape: seq<nat>, dtype: string, device: string, data: seq<real>)

  type TensorData = t: RawTensor | |t.data| == Product(t.shape)
    witness RawTensor([0], "", "", [])

  function Abs(x: real): (r: real)
    ensures r >= 0.0
  {
    if x < 0.0 then -x else x
  }

  function SumAbsDiff(xs: seq<real>, ys: seq<real>): (r: real)
    requires |xs| == |ys|
    ensures r >= 0.0
    ensures xs == ys ==> r == 0.0
  {
    if xs == [] then 0.0 else Abs(xs[0] - ys[0]) + SumAbsDiff(xs[1..], ys[1..])
  }

  function Zeros(n: nat): (r: seq<real>)
    ensures |r| == n
  {
    seq(n, _ => 0.0)
  }

  /** mean |a - b| over mean |b|; zero when b is zero; undefined (NaN) on empty tensors. */
  function RelL1(a: TensorData, b: TensorData): (r: Option<real>)
    requires a.shape == b.shape
    ensures r.None? <==> b.data == []
    ensures r.Some? ==> r.value >= 0.0
    ensures r.Some? && SumAbsDiff(b.data, Zeros(|b.data|)) == 0.0 ==> r.value == 0.0
    ensures r.Some? && a.data == b.data ==> r.value == 0.0
  {
    var n := |b.data|;
    if n == 0 then None
    else
      var diff := SumAbsDiff(a.data, b.data) / n as real;
      var norm := SumAbsDiff(b.data, Zeros(n)) / n as real;
      if norm == 0.0 then Some(0.0) else Some(diff / norm)
  }

  // ----- configuration -----

  const TOTAL_STEPS: nat := 20
  const SUPPORTED_THRESHOLDS: seq<real> := [0.05, 0.1, 0.15]

  datatype RawConfig = RawConfig(thresh: real, start: nat, end: nat, sigmas: seq<real>)

  type Config = c: RawConfig | ValidConfig(c)
    witness RawConfig(0.1, 2, 18, [20.0, 19.0, 18.0, 17.0, 16.0, 15.0, 14.0, 13.0, 12.0, 11.0, 10.0,
                                   9.0, 8.0, 7.0, 6.0, 5.0, 4.0, 3.0, 2.0, 1.0, 0.0])

  /** -1 before the first step. */
  type StepIndex = i: int | -1 <= i < TOTAL_STEPS

  /** round(x, 4) is one of the supported thresholds. */
  predicate SupportedThreshold(x: real) {
    exists t | t in SUPPORTED_THRESHOLDS :: -0.00005 <= x - t <= 0.00005
  }

  predicate ValidSigmas(sigmas: seq<real>) {
    |sigmas| == TOTAL_STEPS + 1 && forall i | 0 < i < |sigmas| :: sigmas[i] < sigmas[i - 1]
  }

  predicate ValidConfig(c: RawConfig) {
    0.0 < c.thresh <= 0.15005 && 2 <= c.start < c.end <= 18 && ValidSigmas(c.sigmas)
  }

  datatype SessionError =
    | InvalidConfig
    | Inactive
    | BadStep
    | NotStarted
    | Reentrant
    | DuplicateEvaluation
    | MissingInput
    | BadTimestep
    | MultiCondition
    | BadReportedSigmas
    | UnsupportedConditioning
    | ConditioningChanged
    | TensorMismatch
    | UndefinedDistance
    | CallbackRaised
    | ForwardRaised

  /** The constructor's checks; a negative end counts from the last step. */
  function MakeConfig(totalSteps: int, thresh: real, start: int, end: int, sigmas: seq<real>)
      : (r: Result<Config, SessionError>)
    ensures r.Ok? <==>
            && totalSteps == 20 && SupportedThreshold(thresh) && ValidSigmas(sigmas)
            && 2 <= start && (if end < 0 then start < 20 + end <= 18 else start < end <= 18)
    ensures r.Ok? ==> r.value == RawConfig(thresh, start, if end < 0 then 20 + end else end, sigmas)
  {
    var effectiveEnd := if end < 0 then totalSteps + end else end;
    if totalSteps != TOTAL_STEPS || !SupportedThreshold(thresh) || start < 2 || effectiveEnd > 18
       || start >= effectiveEnd || !ValidSigmas(sigmas)
    then Err(InvalidConfig)
    else Ok(RawConfig(thresh, start, effectiveEnd, sigmas))
  }

  // ----- calls -----

  datatype Timestep = NoTimestep | Unreadable | At(value: real)

  datatype Cond = NoCond | CondList(length: nat) | CondScalar(scalar: Scalar)

  /** The keyword arguments of one model call; conditioning is the dictionary c, when it is one. */
  datatype Call = Call(
    input: Option<TensorData>,
    timestep: Timestep,
    cond: Cond,
    conditioning: Option<seq<Item>>,
    otherKeys: seq<string>,
    callbackRaises: bool)

  /** What the session cannot see into: tensor equality and the reading of scalars out of values. */
  datatype Env = Env(eq: TensorEqual, readFloat: Value -> Option<real>)

  function Lookup(items: seq<Item>, key: string): Option<Value> {
    if items == [] then None
    else if items[0].key == key then Some(items[0].value)
    else Lookup(items[1..], key)
  }

  function Without(items: seq<Item>, key: string): seq<Item> {
    if items == [] then []
    else (if items[0].key == key then [] else [items[0]]) + Without(items[1..], key)
  }

  function Replace(items: seq<Item>, key: string, value: Value): seq<Item> {
    seq(|items|, i requires 0 <= i < |items| => if items[i].key == key then Item(key, value) else items[i])
  }

  /** The conditioning identity: everything but the scheduler's per-step sigmas. */
  function Identity(items: seq<Item>): seq<Item> {
    match Lookup(items, "transformer_options")
    case Some(Dict(options)) => Replace(items, "transformer_options", Dict(Without(options, "sigmas")))
    case _ => items
  }

  function ReportedSigmas(items: seq<Item>): Option<Value> {
    match Lookup(items, "transformer_options")
    case Some(Dict(options)) =>
      (match Lookup(options, "sigmas")
       case Some(Leaf(PyNone)) => None
       case found => found)
    case _ => None
  }

  /** A reported schedule must start with the current step's sigma, to within 0.1. */
  predicate SigmasAgree(env: Env, items: seq<Item>, expected: real) {
    match ReportedSigmas(items)
    case None => true
    case Some(v) =>
      var first := if v.Sequence? && v.elements != [] then v.elements[0] else v;
      env.readFloat(first).Some? && Abs(env.readFloat(first).value - expected) <= 0.1
  }

  function StringAtoms(keys: seq<string>): seq<Snap> {
    seq(|keys|, i requires 0 <= i < |keys| => Atom(Str(keys[i])))
  }

  function CondAtom(cond: Cond): Snap {
    match cond
    case NoCond => Atom(PyNone)
    case CondList(n) => Atom(Int(n))
    case CondScalar(s) => Atom(s)
  }

  /** The fingerprint tuple: argument names, conditioning snapshot, condition arity. */
  function FingerprintOf(call: Call): Option<Snap> {
    var snap :=
      if call.conditioning.Some? then Snapshot(Dict(Identity(call.conditioning.value))) else Some(Atom(PyNone));
    if snap.None? then None
    else Some(Tup([Tup(StringAtoms(Sort(call.otherKeys, StringLe))), snap.value, CondAtom(call.cond)]))
  }

  // ----- the transitions -----

  datatype Session = Session(
    config: Config,
    accumulated: real,
    lastInput: Option<TensorData>,
    lastOutput: Option<TensorData>,
    stepIdx: StepIndex,
    forwardCalls: nat,
    cacheHits: nat,
    evaluationsInStep: nat,
    isEvaluating: bool,
    isActive: bool,
    fingerprint: Option<Snap>,
    pending: Option<TensorData>)  // the input of a forward pass in flight

  function NewSession(config: Config): Session {
    Session(config, 0.0, None, None, -1, 0, 0, 0, false, true, None, None)
  }

  /** What one transition did. */
  datatype Event =
    | Rejected(error: SessionError)
    | Advanced(step: int)
    | Hit(step: int, input: TensorData, rel: real, returned: Option<TensorData>)
    | Miss(step: int, started: bool)
    | Forwarded(input: TensorData, output: TensorData)
    | ForwardFailed
    | Cleaned
    | Idle

  function Advance(s: Session, step: int): (Session, Event) {
    if !s.isActive then (s, Rejected(Inactive))
    else if !(0 <= step < TOTAL_STEPS) || step != s.stepIdx + 1 then (s, Rejected(BadStep))
    else (s.(stepIdx := step, evaluationsInStep := 0), Advanced(step))
  }

  /** The checks before the fingerprint, in program order. */
  function Guard(env: Env, s: Session, call: Call): Option<SessionError>
  {
    if !s.isActive then Some(Inactive)
    else if s.stepIdx < 0 then Some(NotStarted)
    else if s.isEvaluating then Some(Reentrant)
    else if s.evaluationsInStep > 0 then Some(DuplicateEvaluation)
    else if call.input.None? then Some(MissingInput)
    else if !call.timestep.At? || Abs(call.timestep.value - s.config.sigmas[s.stepIdx]) > 0.1 then Some(BadTimestep)
    else if call.cond.CondList? && call.cond.length > 1 then Some(MultiCondition)
    else if call.conditioning.Some? && !SigmasAgree(env, call.conditioning.value, s.config.sigmas[s.stepIdx])
    then Some(BadReportedSigmas)
    else if FingerprintOf(call).None? then Some(UnsupportedConditioning)
    else None
  }

  predicate SameKind(a: TensorData, b: TensorData) {
    a.shape == b.shape && a.dtype == b.dtype && a.device == b.device
  }

  datatype Decision = Fail(error: SessionError) | UseCache(rel: real) | RunModel

  function Decide(s: Session, input: TensorData): Decision {
    if s.config.start <= s.stepIdx < s.config.end && s.lastInput.Some? && s.lastOutput.Some? then
      if !SameKind(input, s.lastInput.value) then Fail(TensorMismatch)
      else
        var rel := RelL1(input, s.lastInput.value);
        if rel.None? then Fail(UndefinedDistance)
        else if s.accumulated + rel.value < s.config.thresh then UseCache(rel.value)
        else RunModel
    else RunModel
  }

  /** evaluate up to the forward pass; a miss leaves the pass in flight. */
  function Begin(env: Env, s: Session, call: Call): (Session, Event)
  {
    var error := Guard(env, s, call);
    if error.Some? then (s, Rejected(error.value))
    else
      var seen := FingerprintOf(call).value;
      if s.fingerprint.Some? && !FingerprintsEqual(env.eq, s.fingerprint.value, seen)
      then (s, Rejected(ConditioningChanged))
      else
        var bound := s.(fingerprint := if s.fingerprint.Some? then s.fingerprint else Some(seen));
        Settle(bound, call)
  }

  /** A hit, a miss or a rejection, once the fingerprint is bound. */
  function Settle(s: Session, call: Call): (Session, Event)
    requires call.input.Some?
  {
    match Decide(s, call.input.value)
    case Fail(e) => (s, Rejected(e))
    case UseCache(rel) =>
      (s.(accumulated := s.accumulated + rel, cacheHits := s.cacheHits + 1,
          evaluationsInStep := s.evaluationsInStep + 1),
       Hit(s.stepIdx, call.input.value, rel, if call.callbackRaises then None else s.lastOutput))
    case RunModel => StartForward(s, call)
  }

  /** A miss: the accumulator is reset before the forward pass starts. */
  function StartForward(s: Session, call: Call): (Session, Event)
    requires call.input.Some?
  {
    (s.(accumulated := 0.0, forwardCalls := s.forwardCalls + 1,
        evaluationsInStep := s.evaluationsInStep + 1, isEvaluating := !call.callbackRaises,
        pending := if call.callbackRaises then s.pending else call.input),
     Miss(s.stepIdx, !call.callbackRaises))
  }

  /** The forward pass returns or raises. */
  function Finish(s: Session, output: Option<TensorData>): (Session, Event)
    requires s.pending.Some?
  {
    var idle := s.(isEvaluating := false, pending := None);
    if output.None? then (idle, ForwardFailed)
    else (idle.(lastInput := s.pending, lastOutput := output), Forwarded(s.pending.value, output.value))
  }

  function Cleanup(s: Session): (Session, Event) {
    (s.(lastInput := None, lastOutput := None, isActive := false, isEvaluating := false), Cleaned)
  }

  // ----- the class -----

  /** One session object; its methods are the transitions above, with the forward pass inlined. */
  class TeaCacheSession {
    const config: Config
    var accumulatedRelL1: real
    var lastRealInput: Option<TensorData>
    var lastRealOutput: Option<TensorData>
    var stepIdx: StepIndex
    var forwardCallsCount: nat
    var cacheHitsCount: nat
    var evaluationsInCurrentStep: nat
    var isEvaluating: bool
    var isActive: bool
    var conditioningFingerprint: Option<Snap>

    ghost function State(): Session
      reads this
    {
      Session(config, accumulatedRelL1, lastRealInput, lastRealOutput, stepIdx, forwardCallsCount, cacheHitsCount,
              evaluationsInCurrentStep, isEvaluating, isActive, conditioningFingerprint, None)
    }

    constructor (config: Config)
      ensures State() == NewSession(config)
    {
      this.config := config;
      accumulatedRelL1, lastRealInput, lastRealOutput, stepIdx := 0.0, None, None, -1;
      forwardCallsCount, cacheHitsCount, evaluationsInCurrentStep := 0, 0, 0;
      isEvaluating, isActive, conditioningFingerprint := false, true, None;
    }

    method AdvanceStep(step: int) returns (r: Result<(), SessionError>)
      modifies this
      ensures State() == Advance(old(State()), step).0
      ensures r == (match Advance(old(State()), step).1 case Rejected(e) => Err(e) case _ => Ok(()))
    {
      if !isActive {
        return Err(Inactive);
      }
      if !(0 <= step < TOTAL_STEPS) {
        return Err(BadStep);
      }
      if stepIdx == -1 {
        if step != 0 { return Err(BadStep); }
      } else {
        if step <= stepIdx { return Err(BadStep); }
        if step > stepIdx + 1 { return Err(BadStep); }
      }
      stepIdx := step;
      evaluationsInCurrentStep := 0;
      return Ok(());
    }

    /** The state once evaluate's finally clause has run. */
    ghost function Settled(): Session
      reads this
    {
      State().(isEvaluating := false)
    }

    /** What evaluate leaves behind and answers, given the event of its first half. */
    ghost predicate Answers(s: Session, event: Event, forward: Option<TensorData>, r: Result<TensorData, SessionError>)
      reads this
    {
      match event
      case Rejected(e) => Settled() == s && r == Err(e)
      case Hit(_, _, _, Some(out)) => Settled() == s && r == Ok(out)
      case Miss(_, true) =>
        && s.pending.Some?
        && Settled() == Finish(s, forward).0
        && r == (if forward.Some? then Ok(forward.value) else Err(ForwardRaised))
      case _ => Settled() == s && r == Err(CallbackRaised)
    }

    /** The whole of evaluate, given what the model's forward pass will do if it is run. */
    method Evaluate(env: Env, call: Call, forward: Option<TensorData>) returns (r: Result<TensorData, SessionError>)
      modifies this
      ensures Guard(env, old(State()), call).Some? ==>
                State() == old(State()) && r == Err(Guard(env, old(State()), call).value)
      ensures Guard(env, old(State()), call).None? ==>
                !isEvaluating && var (s, event) := Begin(env, old(State()), call); Answers(s, event, forward, r)
    {
      var error := Guard(env, CurrentState(), call);
      if error.Some? {
        return Err(error.value);
      }
      isEvaluating := true;
      var seen := FingerprintOf(call).value;
      if conditioningFingerprint.Some? && !FingerprintsEqual(env.eq, conditioningFingerprint.value, seen) {
        r := Err(ConditioningChanged);
      } else {
        if conditioningFingerprint.None? {
          conditioningFingerprint := Some(seen);
        }
        r := AnswerOrForward(call, call.input.value, forward);
      }
      isEvaluating := false;
    }

    method AnswerOrForward(call: Call, input: TensorData, forward: Option<TensorData>)
      returns (r: Result<TensorData, SessionError>)
      requires call.input == Some(input)
      modifies this
      ensures var (s, event) := Settle(old(Settled()), call); Answers(s, event, forward, r)
    {
      var shouldHit := false;
      if config.start <= stepIdx < config.end && lastRealInput.Some? && lastRealOutput.Some? {
        if !SameKind(input, lastRealInput.value) {
          return Err(TensorMismatch);
        }
        var rel := RelL1(input, lastRealInput.value);
        if rel.None? {
          return Err(UndefinedDistance);
        }
        if accumulatedRelL1 + rel.value < config.thresh {
          shouldHit := true;
          accumulatedRelL1 := accumulatedRelL1 + rel.value;
        }
      }
      if shouldHit {
        cacheHitsCount := cacheHitsCount + 1;
        evaluationsInCurrentStep := evaluationsInCurrentStep + 1;
        return if call.callbackRaises then Err(CallbackRaised) else Ok(lastRealOutput.value);
      }
      r := Forward(call, input, forward);
    }

    /** The miss branch. */
    method Forward(call: Call, input: TensorData, forward: Option<TensorData>)
        returns (r: Result<TensorData, SessionError>)
      requires call.input == Some(input)
      modifies this
      ensures var (s, event) := StartForward(old(Settled()), call); Answers(s, event, forward, r)
    {
      accumulatedRelL1 := 0.0;
      forwardCallsCount := forwardCallsCount + 1;
      evaluationsInCurrentStep := evaluationsInCurrentStep + 1;
      if call.callbackRaises {
        return Err(CallbackRaised);
      }
      if forward.None? {
        return Err(ForwardRaised);
      }
      lastRealInput, lastRealOutput := Some(input), forward;
      return Ok(forward.value);
    }

    function CurrentState(): (s: Session)
      reads this
      ensures s == State()
    {
      Session(config, accumulatedRelL1, lastRealInput, lastRealOutput, stepIdx, forwardCallsCount, cacheHitsCount,
              evaluationsInCurrentStep, isEvaluating, isActive, conditioningFingerprint, None)
    }

    method CleanupSession()
      modifies this
      ensures State() == Cleanup(old(State())).0
    {
      lastRealInput, lastRealOutput, isActive, isEvaluating := None, None, false, false;
    }
  }

  // ----- runs -----

  datatype Op = OpAdvance(step: int) | OpBegin(call: Call) | OpFinish(output: Option<TensorData>) | OpCleanup

  ghost function Step(env: Env, s: Session, op: Op): (Session, Event) {
    match op
    case OpAdvance(step) => Advance(s, step)
    case OpBegin(call) => Begin(env, s, call)
    case OpFinish(output) => if s.pending.Some? then Finish(s, output) else (s, Idle)
    case OpCleanup => Cleanup(s)
  }

  /** The state and the events of a fresh session after any sequence of operations. */
  ghost function Run(env: Env, config: Config, ops: seq<Op>): (Session, seq<Event>) {
    if ops == [] then (NewSession(config), [])
    else
      var (s, log) := Run(env, config, ops[..|ops| - 1]);
      var (s', e) := Step(env, s, ops[|ops| - 1]);
      (s', log + [e])
  }

  /** Sum of the distances of the hits since the last miss. */
  ghost function HitSum(log: seq<Event>): real {
    if log == [] then 0.0
    else
      match log[|log| - 1]
      case Miss(_, _) => 0.0
      case Hit(_, _, rel, _) => HitSum(log[..|log| - 1]) + rel
      case _ => HitSum(log[..|log| - 1])
  }

  /** The latest successful forward pass. */
  ghost function LatestForward(log: seq<Event>): Option<(TensorData, TensorData)> {
    if log == [] then None
    else if log[|log| - 1].Forwarded? then Some((log[|log| - 1].input, log[|log| - 1].output))
    else LatestForward(log[..|log| - 1])
  }

  ghost function Hits(log: seq<Event>): nat {
    if log == [] then 0 else Hits(log[..|log| - 1]) + (if log[|log| - 1].Hit? then 1 else 0)
  }

  ghost function Misses(log: seq<Event>): nat {
    if log == [] then 0 else Misses(log[..|log| - 1]) + (if log[|log| - 1].Miss? then 1 else 0)
  }

  /** A hit is inside the window, measured against and answered by the latest successful forward. */
  ghost predicate JustifiedHit(config: Config, before: seq<Event>, e: Event) {
    e.Hit? ==>
      && config.start <= e.step < config.end
      && LatestForward(before).Some?
      && var (input, output) := LatestForward(before).value;
         && e.input.shape == input.shape
         && Some(e.rel) == RelL1(e.input, input)
         && (e.returned.Some? ==> e.returned == Some(output))
  }

  /** The accumulator is the drift since the last miss, and stays below the threshold. */
  ghost predicate WithinBudget(s: Session, log: seq<Event>) {
    s.accumulated == HitSum(log) && 0.0 <= s.accumulated < s.config.thresh
  }

  /** While the session is active its cache is the latest successful forward. */
  ghost predicate MirrorsForward(s: Session, log: seq<Event>) {
    s.isActive ==>
      && (s.isEvaluating <==> s.pending.Some?)
      && s.lastInput == (if LatestForward(log).Some? then Some(LatestForward(log).value.0) else None)
      && s.lastOutput == (if LatestForward(log).Some? then Some(LatestForward(log).value.1) else None)
  }

  ghost predicate CountsBounded(s: Session, log: seq<Event>) {
    && s.cacheHits == Hits(log) && s.forwardCalls == Misses(log)
    && s.evaluationsInStep <= 1 && (s.stepIdx < 0 ==> s.evaluationsInStep == 0)
    && s.cacheHits + s.forwardCalls <= Max(0, s.stepIdx + s.evaluationsInStep)
    && s.cacheHits <= Max(0, Min(s.stepIdx + s.evaluationsInStep, s.config.end) - s.config.start)
  }

  ghost predicate OneConditioning(s: Session) {
    && (s.fingerprint.None? ==> s.cacheHits + s.forwardCalls == 0)
    && (s.fingerprint.Some? ==> WellFormed(s.fingerprint.value))
    && (s.fingerprint.Some? && !Verifiable(SkeletonOf(s.fingerprint.value)) ==> s.cacheHits + s.forwardCalls <= 1)
  }

  ghost predicate HitsJustified(config: Config, log: seq<Event>) {
    forall k | 0 <= k < |log| :: JustifiedHit(config, log[..k], log[k])
  }

  ghost predicate Inv(s: Session, log: seq<Event>) {
    && WithinBudget(s, log) && MirrorsForward(s, log) && CountsBounded(s, log)
    && OneConditioning(s) && HitsJustified(s.config, log)
  }

  /** Every operation, whatever it is given, keeps the invariant. */
  lemma StepKeepsInv(env: Env, s: Session, log: seq<Event>, op: Op)
    requires Inv(s, log)
    ensures var (s', e) := Step(env, s, op); s'.config == s.config && Inv(s', log + [e])
  {
    var (s', e) := Step(env, s, op);
    assert (log + [e])[..|log|] == log;
    StepKeepsBudget(env, s, log, op);
    StepKeepsCounts(env, s, log, op);
    StepKeepsConditioning(env, s, op);
    StepJustifiesHits(env, s, log, op);
  }

  lemma StepKeepsBudget(env: Env, s: Session, log: seq<Event>, op: Op)
    requires WithinBudget(s, log) && MirrorsForward(s, log)
    ensures var (s', e) := Step(env, s, op); WithinBudget(s', log + [e]) && MirrorsForward(s', log + [e])
  {
    var (s', e) := Step(env, s, op);
    assert (log + [e])[..|log|] == log;
  }

  lemma CountsAppend(log: seq<Event>, e: Event)
    ensures Hits(log + [e]) == Hits(log) + (if e.Hit? then 1 else 0)
    ensures Misses(log + [e]) == Misses(log) + (if e.Miss? then 1 else 0)
  {
    assert (log + [e])[..|log|] == log;
  }

  lemma BeginKeepsCounts(env: Env, s: Session, log: seq<Event>, call: Call)
    requires CountsBounded(s, log)
    ensures var (s', e) := Begin(env, s, call); CountsBounded(s', log + [e])
  {
    CountsAppend(log, Begin(env, s, call).1);
  }

  /** Only evaluations count; the others leave the counters and never move the step back. */
  lemma OtherStepCountsNothing(env: Env, s: Session, op: Op)
    requires !op.OpBegin? && s.evaluationsInStep <= 1 && (s.stepIdx < 0 ==> s.evaluationsInStep == 0)
    ensures var (t, e) := Step(env, s, op);
            && !e.Hit? && !e.Miss?
            && t.config == s.config && t.cacheHits == s.cacheHits && t.forwardCalls == s.forwardCalls
            && t.evaluationsInStep <= 1 && (t.stepIdx < 0 ==> t.evaluationsInStep == 0)
            && s.stepIdx + s.evaluationsInStep <= t.stepIdx + t.evaluationsInStep
  {
  }

  lemma SameCountsStayBounded(s: Session, log: seq<Event>, t: Session, e: Event)
    requires CountsBounded(s, log) && !e.Hit? && !e.Miss?
    requires t.config == s.config && t.cacheHits == s.cacheHits && t.forwardCalls == s.forwardCalls
    requires t.evaluationsInStep <= 1 && (t.stepIdx < 0 ==> t.evaluationsInStep == 0)
    requires s.stepIdx + s.evaluationsInStep <= t.stepIdx + t.evaluationsInStep
    ensures CountsBounded(t, log + [e])
  {
    CountsAppend(log, e);
  }

  lemma StepKeepsCounts(env: Env, s: Session, log: seq<Event>, op: Op)
    requires CountsBounded(s, log)
    ensures var (s', e) := Step(env, s, op); CountsBounded(s', log + [e])
  {
    if op.OpBegin? {
      BeginKeepsCounts(env, s, log, op.call);
    } else {
      OtherStepCountsNothing(env, s, op);
      SameCountsStayBounded(s, log, Step(env, s, op).0, Step(env, s, op).1);
    }
  }

  lemma StepJustifiesHits(env: Env, s: Session, log: seq<Event>, op: Op)
    requires MirrorsForward(s, log) && HitsJustified(s.config, log)
    ensures HitsJustified(s.config, log + [Step(env, s, op).1])
  {
    var e := Step(env, s, op).1;
    var longer := log + [e];
    assert longer[..|log|] == log && longer[|log|] == e;
    assert JustifiedHit(s.config, log, e);
    forall k | 0 <= k < |longer| ensures JustifiedHit(s.config, longer[..k], longer[k]) {
      if k < |log| {
        assert longer[..k] == log[..k];
      }
    }
  }

  /** A fingerprint is a well-formed snapshot; an untrackable payload makes it unverifiable. */
  lemma FingerprintIsGood(call: Call)
    requires FingerprintOf(call).Some?
    ensures WellFormed(FingerprintOf(call).value)
    ensures call.conditioning.Some? && !Trackable(Dict(Identity(call.conditioning.value)))
            ==> !Verifiable(SkeletonOf(FingerprintOf(call).value))
  {
    var keys := StringAtoms(Sort(call.otherKeys, StringLe));
    UntaggedTuple(keys);
    if call.conditioning.Some? {
      SnapshotIsGood(Dict(Identity(call.conditioning.value)));
    }
    var parts := FingerprintOf(call).value.parts;
    assert parts[0] == Tup(keys) && WellFormed(parts[1]) && WellFormed(parts[2]);
    UntaggedTuple(parts);
  }

  lemma StepKeepsConditioning(env: Env, s: Session, op: Op)
    requires OneConditioning(s)
    ensures OneConditioning(Step(env, s, op).0)
  {
    if op.OpBegin? && Guard(env, s, op.call).None? {
      FingerprintIsGood(op.call);
      var seen := FingerprintOf(op.call).value;
      if s.fingerprint.Some? {
        EqualityMeaning(env.eq, s.fingerprint.value, seen);
      }
    }
  }

  lemma {:induction false} RunKeepsInv(env: Env, config: Config, ops: seq<Op>)
    ensures var (s, log) := Run(env, config, ops); s.config == config && Inv(s, log)
  {
    if ops != [] {
      RunKeepsInv(env, config, ops[..|ops| - 1]);
      var (s, log) := Run(env, config, ops[..|ops| - 1]);
      StepKeepsInv(env, s, log, ops[|ops| - 1]);
    }
  }

  // ----- what every run guarantees -----

  /**
    Over every run: the budget holds; every hit is inside the window, its
    distance is to the latest successful forward's input and its answer is
    that forward's output; at most one evaluation counts per step.
  */
  lemma RunTheorem(env: Env, config: Config, ops: seq<Op>)
    ensures var (s, log) := Run(env, config, ops);
            && 0.0 <= s.accumulated < config.thresh && s.accumulated == HitSum(log)
            && HitsJustified(config, log)
            && s.cacheHits == Hits(log) && s.forwardCalls == Misses(log)
            && Hits(log) + Misses(log) <= s.stepIdx + 1 <= TOTAL_STEPS
            && Hits(log) <= config.end - config.start <= 16
  {
    RunKeepsInv(env, config, ops);
  }

  /** A session bound to a fingerprint that cannot be verified evaluates at most once, whatever it is called with. */
  lemma UnverifiableBindingEvaluatesOnce(env: Env, config: Config, ops: seq<Op>)
    ensures var (s, log) := Run(env, config, ops);
            s.fingerprint.Some? && !Verifiable(SkeletonOf(s.fingerprint.value)) ==> Hits(log) + Misses(log) <= 1
  {
    RunKeepsInv(env, config, ops);
  }

  /** In particular one bound by a payload that cannot be tracked, whatever came after it. */
  lemma UntrackableBindingEvaluatesOnce(env: Env, config: Config, ops: seq<Op>, call: Call)
    requires FingerprintOf(call).Some? && Run(env, config, ops).0.fingerprint == FingerprintOf(call)
    requires call.conditioning.Some? && !Trackable(Dict(Identity(call.conditioning.value)))
    ensures var (s, log) := Run(env, config, ops); Hits(log) + Misses(log) <= 1
  {
    FingerprintIsGood(call);
    UnverifiableBindingEvaluatesOnce(env, config, ops);
  }

  /** And one that only ever sees such payloads. */
  lemma UntrackableRunEvaluatesOnce(env: Env, config: Config, ops: seq<Op>)
    requires forall op | op in ops && op.OpBegin? ::
               op.call.conditioning.Some? && !Trackable(Dict(Identity(op.call.conditioning.value)))
    ensures var (s, log) := Run(env, config, ops); Hits(log) + Misses(log) <= 1
  {
    RunKeepsInv(env, config, ops);
    UntrackableStaysUnverifiable(env, config, ops);
  }

  /** A fingerprint, once bound, is never replaced. */
  lemma StepBindsOnce(env: Env, s: Session, op: Op)
    ensures var after := Step(env, s, op).0.fingerprint;
            || after == s.fingerprint
            || (s.fingerprint.None? && op.OpBegin? && after == FingerprintOf(op.call))
  {
  }

  lemma {:induction false} UntrackableStaysUnverifiable(env: Env, config: Config, ops: seq<Op>)
    requires forall op | op in ops && op.OpBegin? ::
               op.call.conditioning.Some? && !Trackable(Dict(Identity(op.call.conditioning.value)))
    ensures var (s, _) := Run(env, config, ops);
            s.fingerprint.Some? ==> !Verifiable(SkeletonOf(s.fingerprint.value))
  {
    if ops != [] {
      var op := ops[|ops| - 1];
      UntrackableStaysUnverifiable(env, config, ops[..|ops| - 1]);
      StepBindsOnce(env, Run(env, config, ops[..|ops| - 1]).0, op);
      if op.OpBegin? && FingerprintOf(op.call).Some? {
        FingerprintIsGood(op.call);
      }
    }
  }

  /** After cleanup nothing is evaluated any more. */
  lemma CleanedSessionRejects(env: Env, s: Session, call: Call)
    ensures Begin(env, Cleanup(s).0, call) == (Cleanup(s).0, Rejected(Inactive))
  {
  }
}
