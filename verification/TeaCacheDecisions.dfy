/**
  What a TeaCache session decides (experiments/minimax-h3-teacache/teacache.py).

  Which calls are evaluated at all, when two calls count as the same
  conditioning, and when an evaluation is answered from the cache, each said
  from the arguments and the events so far.
*/
module TeaCacheDecisions {
  import opened Common
  import opened StableSorting
  import opened Fingerprint
  import opened FingerprintPayloads
  import opened TeaCache

  // ----- the distance -----

  /** The sum of absolute differences, element by element. */
  lemma {:induction false} DistanceGrows(xs: seq<real>, ys: seq<real>, x: real, y: real)
    requires |xs| == |ys|
    ensures SumAbsDiff([], []) == 0.0
    ensures SumAbsDiff(xs + [x], ys + [y]) == SumAbsDiff(xs, ys) + (if x < y then y - x else x - y)
  {
    if xs == [] {
      assert xs + [x] == [x] && ys + [y] == [y];
      assert SumAbsDiff([x], [y]) == Abs(x - y) + SumAbsDiff([x][1..], [y][1..]);
    } else {
      DistanceGrows(xs[1..], ys[1..], x, y);
      assert (xs + [x])[1..] == xs[1..] + [x] && (ys + [y])[1..] == ys[1..] + [y];
    }
  }

  lemma {:induction false} DistanceIsZeroIff(xs: seq<real>, ys: seq<real>)
    requires |xs| == |ys|
    ensures SumAbsDiff(xs, ys) == 0.0 <==> xs == ys
  {
    if xs != [] {
      DistanceIsZeroIff(xs[1..], ys[1..]);
      assert xs == [xs[0]] + xs[1..] && ys == [ys[0]] + ys[1..];
    }
  }

  lemma QuotientTimesNorm(p: real, q: real, d: real, m: real, n: real)
    requires p * n == d && q * n == m && q != 0.0
    ensures (p / q) * m == d
  {
    var r := p / q;
    assert r * q == p;
    calc {
      r * m;
      r * (q * n);
      (r * q) * n;
      d;
    }
  }

  lemma MeanTimesCount(x: real, n: real)
    requires n > 0.0
    ensures (x / n) * n == x
    ensures x / n == 0.0 <==> x == 0.0
  {
  }

  lemma OnlyQuotient(r: real, m: real, d: real)
    requires m != 0.0 && r * m == d
    ensures r == d / m
  {
  }

  lemma QuotientOfMeans(d: real, m: real, n: real)
    requires n > 0.0 && m != 0.0
    ensures m / n != 0.0 && (d / n) / (m / n) == d / m
  {
    MeanTimesCount(d, n);
    MeanTimesCount(m, n);
    QuotientTimesNorm(d / n, m / n, d, m, n);
    OnlyQuotient((d / n) / (m / n), m, d);
  }

  /** The relative distance is the distance of a from b over the size of b; nothing is far from zero. */
  lemma RelativeDistance(a: TensorData, b: TensorData)
    requires a.shape == b.shape
    ensures RelL1(a, b).None? <==> b.data == []
    ensures RelL1(a, b).Some? ==>
              var size := SumAbsDiff(b.data, Zeros(|b.data|));
              RelL1(a, b).value == if size == 0.0 then 0.0 else SumAbsDiff(a.data, b.data) / size
  {
    if b.data != [] {
      var n, m := |b.data| as real, SumAbsDiff(b.data, Zeros(|b.data|));
      MeanTimesCount(m, n);
      if m != 0.0 {
        QuotientOfMeans(SumAbsDiff(a.data, b.data), m, n);
      }
    }
  }

  // ----- hit or miss -----

  /** The call passed the checks and was not rejected for its conditioning. */
  ghost predicate IsDecided(env: Env, s: Session, call: Call) {
    && Guard(env, s, call).None?
    && (s.fingerprint.Some? ==> FingerprintsEqual(env.eq, s.fingerprint.value, FingerprintOf(call).value))
  }

  /** Inside the window, with a successful forward pass to compare with. */
  ghost predicate Comparable(config: Config, step: int, log: seq<Event>) {
    config.start <= step < config.end && LatestForward(log).Some?
  }

  ghost predicate OneKind(a: TensorData, b: TensorData) {
    a.shape == b.shape && a.dtype == b.dtype && a.device == b.device
  }

  /**
    When the cache answers, over every run: an evaluation is a hit exactly when
    it is inside the window, there is a successful forward pass, its input has
    the shape, type and device of the call's, and the drift since the last miss
    together with the distance to it is below the threshold.
  */
  lemma HitIff(env: Env, config: Config, ops: seq<Op>, call: Call)
    requires IsDecided(env, Run(env, config, ops).0, call)
    ensures var (s, log) := Run(env, config, ops);
            var e := Begin(env, s, call).1;
            e.Hit? <==>
            && Comparable(config, s.stepIdx, log) && OneKind(call.input.value, LatestForward(log).value.0)
            && var rel := RelL1(call.input.value, LatestForward(log).value.0);
               rel.Some? && HitSum(log) + rel.value < config.thresh
  {
    RunKeepsInv(env, config, ops);
  }

  /** It is rejected exactly when the comparison cannot be made, and otherwise a miss. */
  lemma MissIff(env: Env, config: Config, ops: seq<Op>, call: Call)
    requires IsDecided(env, Run(env, config, ops).0, call)
    ensures var (s, log) := Run(env, config, ops);
            var e := Begin(env, s, call).1;
            && (e == Rejected(TensorMismatch) <==>
                Comparable(config, s.stepIdx, log) && !OneKind(call.input.value, LatestForward(log).value.0))
            && (e == Rejected(UndefinedDistance) <==>
                && Comparable(config, s.stepIdx, log) && OneKind(call.input.value, LatestForward(log).value.0)
                && call.input.value.data == [])
            && (e.Miss? <==>
                || !Comparable(config, s.stepIdx, log)
                || (&& OneKind(call.input.value, LatestForward(log).value.0)
                    && var rel := RelL1(call.input.value, LatestForward(log).value.0);
                       rel.Some? && HitSum(log) + rel.value >= config.thresh))
  {
    RunKeepsInv(env, config, ops);
  }

  /** What a hit does: the drift grows by the distance, and the answer is the latest forward pass's output. */
  lemma HitEffect(env: Env, config: Config, ops: seq<Op>, call: Call)
    requires Begin(env, Run(env, config, ops).0, call).1.Hit?
    ensures var (s, log) := Run(env, config, ops);
            var (s', e) := Begin(env, s, call);
            && call.input.Some? && LatestForward(log).Some?
            && OneKind(call.input.value, LatestForward(log).value.0)
            && e.step == s.stepIdx && e.input == call.input.value
            && Some(e.rel) == RelL1(call.input.value, LatestForward(log).value.0)
            && e.returned == (if call.callbackRaises then None else Some(LatestForward(log).value.1))
            && s'.accumulated == HitSum(log) + e.rel
            && s'.cacheHits == s.cacheHits + 1 && s'.forwardCalls == s.forwardCalls
            && s'.evaluationsInStep == 1 && !s'.isEvaluating
            && s'.lastInput == s.lastInput && s'.lastOutput == s.lastOutput
  {
    RunKeepsInv(env, config, ops);
  }

  /** What a miss does: the drift is forgotten and the call's own input goes to the model. */
  lemma MissEffect(env: Env, config: Config, ops: seq<Op>, call: Call)
    requires Begin(env, Run(env, config, ops).0, call).1.Miss?
    ensures var (s, log) := Run(env, config, ops);
            var (s', e) := Begin(env, s, call);
            && e == Miss(s.stepIdx, !call.callbackRaises)
            && s'.accumulated == 0.0
            && s'.forwardCalls == s.forwardCalls + 1 && s'.cacheHits == s.cacheHits && s'.evaluationsInStep == 1
            && s'.pending == (if call.callbackRaises then s.pending else call.input)
            && s'.isEvaluating == !call.callbackRaises
            && s'.lastInput == s.lastInput && s'.lastOutput == s.lastOutput
  {
    RunKeepsInv(env, config, ops);
  }

  /** A forward pass that returns is what later calls are compared with and answered by. */
  lemma ForwardIsRemembered(env: Env, config: Config, ops: seq<Op>, call: Call, output: TensorData)
    requires Begin(env, Run(env, config, ops).0, call).1.Miss? && !call.callbackRaises
    ensures call.input.Some?
    ensures var (s, log) := Run(env, config, ops + [OpBegin(call), OpFinish(Some(output))]);
            && LatestForward(log) == Some((call.input.value, output))
            && s.lastInput == call.input && s.lastOutput == Some(output) && !s.isEvaluating && HitSum(log) == 0.0
  {
    var begun := ops + [OpBegin(call)];
    var finished := begun + [OpFinish(Some(output))];
    assert ops + [OpBegin(call), OpFinish(Some(output))] == finished;
    assert begun[..|ops|] == ops && finished[..|begun|] == begun;
    var (s, log) := Run(env, config, ops);
    var (s1, e1) := Begin(env, s, call);
    assert Run(env, config, begun) == (s1, log + [e1]);
    var e2 := Forwarded(call.input.value, output);
    assert Run(env, config, finished).1 == log + [e1] + [e2];
    assert (log + [e1] + [e2])[..|log| + 1] == log + [e1];
    RunKeepsInv(env, config, finished);
  }

  // ----- which sessions exist -----

  /** The thresholds 0.05, 0.1 and 0.15 to four places, a window inside [2, 18), and 21 falling sigmas. */
  lemma ConfigAcceptedIff(totalSteps: int, thresh: real, start: int, end: int, sigmas: seq<real>)
    ensures MakeConfig(totalSteps, thresh, start, end, sigmas).Ok? <==>
            && totalSteps == 20
            && (0.04995 <= thresh <= 0.05005 || 0.09995 <= thresh <= 0.10005 || 0.14995 <= thresh <= 0.15005)
            && 2 <= start && (if end < 0 then start - 20 < end <= -2 else start < end <= 18)
            && |sigmas| == 21 && forall i | 0 <= i < 20 :: sigmas[i] > sigmas[i + 1]
  {
    assert SUPPORTED_THRESHOLDS[0] == 0.05 && SUPPORTED_THRESHOLDS[1] == 0.1 && SUPPORTED_THRESHOLDS[2] == 0.15;
    assert 0.05 in SUPPORTED_THRESHOLDS && 0.1 in SUPPORTED_THRESHOLDS && 0.15 in SUPPORTED_THRESHOLDS;
    assert SupportedThreshold(thresh) <==>
      (0.04995 <= thresh <= 0.05005 || 0.09995 <= thresh <= 0.10005 || 0.14995 <= thresh <= 0.15005);
    if |sigmas| == 21 && forall i | 0 <= i < 20 :: sigmas[i] > sigmas[i + 1] {
      forall i | 0 < i < |sigmas| ensures sigmas[i] < sigmas[i - 1] {
        assert sigmas[i - 1] > sigmas[(i - 1) + 1];
      }
    }
  }

  // ----- which calls are evaluated -----

  /** Steps are taken one by one from 0 to 19, on an active session only. */
  lemma AdvanceIff(s: Session, step: int)
    ensures var (s', e) := Advance(s, step);
            && (e == Advanced(step) <==> s.isActive && 0 <= step < 20 && step == s.stepIdx + 1)
            && (e == Advanced(step) ==> s'.stepIdx == step && s'.evaluationsInStep == 0)
            && (e != Advanced(step) ==> s' == s && e == Rejected(if s.isActive then BadStep else Inactive))
            && s'.accumulated == s.accumulated && s'.lastInput == s.lastInput && s'.lastOutput == s.lastOutput
            && s'.fingerprint == s.fingerprint && s'.isActive == s.isActive && s'.isEvaluating == s.isEvaluating
  {
  }

  /** The dictionary holds options, under transformer_options, with this schedule. */
  ghost predicate Reports(items: seq<Item>, schedule: Value) {
    exists options: seq<Item> ::
      Item("transformer_options", Dict(options)) in items && Item("sigmas", schedule) in options
  }

  /** What is read out of a schedule: its first element, or itself. */
  function FirstOf(schedule: Value): Value {
    if schedule.Sequence? && |schedule.elements| > 0 then schedule.elements[0] else schedule
  }

  lemma {:induction false} LookupIff(items: seq<Item>, key: string, v: Value)
    requires UniqueKeys(items)
    ensures Lookup(items, key) == Some(v) <==> Item(key, v) in items
  {
    if items != [] {
      LookupIff(items[1..], key, v);
      assert items == [items[0]] + items[1..];
      if items[0].key == key {
        forall x | x in items[1..] ensures x.key != key {
          var i :| 0 <= i < |items[1..]| && items[1..][i] == x;
          assert items[i + 1] == x;
        }
        assert items[0] == Item(key, items[0].value);
      }
    }
  }

  lemma OptionsAreProper(items: seq<Item>, options: seq<Item>)
    requires ProperDicts(Dict(items)) && Item("transformer_options", Dict(options)) in items
    ensures ProperDicts(Dict(options))
  {
    var i :| 0 <= i < |items| && items[i] == Item("transformer_options", Dict(options));
    assert ProperDicts(items[i].value);
  }

  /** A reported schedule is None, or reads as the expected sigma to within 0.1. */
  ghost predicate ScheduleFits(env: Env, schedule: Value, expected: real) {
    || schedule == Leaf(PyNone)
    || (var read := env.readFloat(FirstOf(schedule)); read.Some? && expected - 0.1 <= read.value <= expected + 0.1)
  }

  lemma ReportedIff(items: seq<Item>, v: Value)
    requires ProperDicts(Dict(items))
    ensures ReportedSigmas(items) == Some(v) <==> Reports(items, v) && v != Leaf(PyNone)
  {
    var found := Lookup(items, "transformer_options");
    if found.Some? && found.value.Dict? {
      var options := found.value.items;
      LookupIff(items, "transformer_options", Dict(options));
      OptionsAreProper(items, options);
      LookupIff(options, "sigmas", v);
      assert Reports(items, v) ==> Item("sigmas", v) in options by {
        ReportsOnce(items, options, v);
      }
    } else if Reports(items, v) {
      var options: seq<Item> :| Item("transformer_options", Dict(options)) in items && Item("sigmas", v) in options;
      LookupIff(items, "transformer_options", Dict(options));
    }
  }

  lemma ReportsOnce(items: seq<Item>, options: seq<Item>, v: Value)
    requires UniqueKeys(items) && Lookup(items, "transformer_options") == Some(Dict(options))
    ensures Reports(items, v) ==> Item("sigmas", v) in options
  {
    if other: seq<Item> :| Item("transformer_options", Dict(other)) in items && Item("sigmas", v) in other {
      LookupIff(items, "transformer_options", Dict(other));
    }
  }

  lemma SigmasAgreeIff(env: Env, items: seq<Item>, expected: real)
    requires ProperDicts(Dict(items))
    ensures SigmasAgree(env, items, expected) <==>
            forall v | Reports(items, v) :: ScheduleFits(env, v, expected)
  {
    var reported := ReportedSigmas(items);
    if reported.Some? {
      var v := reported.value;
      ReportedIff(items, v);
      assert SigmasAgree(env, items, expected) <==> ScheduleFits(env, v, expected);
      forall w | Reports(items, w) && w != v ensures ScheduleFits(env, w, expected) {
        ReportedIff(items, w);
      }
    } else {
      forall w | Reports(items, w) ensures ScheduleFits(env, w, expected) {
        ReportedIff(items, w);
      }
    }
  }

  /** The call's timestep is the step's sigma, to within 0.1. */
  ghost predicate OnSchedule(s: Session, call: Call)
    requires s.stepIdx >= 0
  {
    var sigma := s.config.sigmas[s.stepIdx];
    call.timestep.At? && sigma - 0.1 <= call.timestep.value <= sigma + 0.1
  }

  /**
    Which calls are evaluated: on an active session past its first step, not
    during or after another evaluation of the step, with an input, a timestep
    and reported schedules at the step's sigma, at most one condition, and
    conditioning that can be frozen.
  */
  lemma GuardPassesIff(env: Env, s: Session, call: Call)
    requires call.conditioning.Some? ==> ProperDicts(Dict(call.conditioning.value))
    ensures Guard(env, s, call).None? <==>
            && s.isActive && s.stepIdx >= 0 && !s.isEvaluating && s.evaluationsInStep == 0
            && call.input.Some? && OnSchedule(s, call)
            && (call.cond.CondList? ==> call.cond.length <= 1)
            && (call.conditioning.Some? ==>
                  && Supported(Dict(Identity(call.conditioning.value)))
                  && forall v | Reports(call.conditioning.value, v) ::
                       ScheduleFits(env, v, s.config.sigmas[s.stepIdx]))
  {
    if call.conditioning.Some? {
      SnapshotExistsIff(Dict(Identity(call.conditioning.value)));
      if 0 <= s.stepIdx {
        SigmasAgreeIff(env, call.conditioning.value, s.config.sigmas[s.stepIdx]);
      }
    }
  }

  /** A rejected call is told of a check it fails; the session's own state comes first. */
  lemma GuardNamesTheCheck(env: Env, s: Session, call: Call)
    ensures Guard(env, s, call) == Some(Inactive) <==> !s.isActive
    ensures Guard(env, s, call) == Some(NotStarted) <==> s.isActive && s.stepIdx == -1
    ensures Guard(env, s, call) == Some(Reentrant) <==> s.isActive && s.stepIdx >= 0 && s.isEvaluating
    ensures Guard(env, s, call) == Some(DuplicateEvaluation) <==>
            s.isActive && s.stepIdx >= 0 && !s.isEvaluating && s.evaluationsInStep >= 1
    ensures Guard(env, s, call) == Some(MissingInput) <==>
            s.isActive && s.stepIdx >= 0 && !s.isEvaluating && s.evaluationsInStep == 0 && call.input.None?
    ensures Guard(env, s, call) == Some(BadTimestep) ==> s.stepIdx >= 0 && !OnSchedule(s, call)
    ensures Guard(env, s, call) == Some(MultiCondition) ==> call.cond.CondList? && call.cond.length >= 2
    ensures Guard(env, s, call) == Some(BadReportedSigmas) ==>
              && call.conditioning.Some? && s.stepIdx >= 0
              && !SigmasAgree(env, call.conditioning.value, s.config.sigmas[s.stepIdx])
    ensures Guard(env, s, call) == Some(UnsupportedConditioning) ==>
              call.conditioning.Some? && !Supported(Dict(Identity(call.conditioning.value)))
    ensures Guard(env, s, call).Some? ==>
              Guard(env, s, call).value in {Inactive, NotStarted, Reentrant, DuplicateEvaluation, MissingInput,
                                            BadTimestep, MultiCondition, BadReportedSigmas, UnsupportedConditioning}
  {
    if call.conditioning.Some? {
      SnapshotExistsIff(Dict(Identity(call.conditioning.value)));
    }
  }

  // ----- one conditioning -----

  /** Options without their schedule. */
  ghost predicate Unscheduled(options: seq<Item>, kept: seq<Item>) {
    UniqueKeys(kept) && forall x: Item :: x in kept <==> x in options && x.key != "sigmas"
  }

  lemma {:induction false} WithoutMeaning(options: seq<Item>)
    requires UniqueKeys(options)
    ensures Unscheduled(options, Without(options, "sigmas"))
  {
    if options != [] {
      var head, tail := options[0], options[1..];
      WithoutMeaning(tail);
      var kept := Without(tail, "sigmas");
      assert options == [head] + tail;
      forall x | x in kept ensures x.key != head.key {
        assert x in tail;
        var i :| 0 <= i < |tail| && tail[i] == x;
        assert options[i + 1] == x;
      }
    }
  }

  /**
    What of a call's conditioning counts: every entry as it is, except that the
    transformer options lose their schedule.
  */
  lemma IdentityMeaning(items: seq<Item>, i: nat)
    requires ProperDicts(Dict(items)) && i < |items|
    ensures |Identity(items)| == |items| && Identity(items)[i].key == items[i].key
    ensures items[i].key != "transformer_options" || !items[i].value.Dict? ==> Identity(items)[i] == items[i]
    ensures items[i].key == "transformer_options" && items[i].value.Dict? ==>
              && Identity(items)[i].value.Dict?
              && Unscheduled(items[i].value.items, Identity(items)[i].value.items)
  {
    var found := Lookup(items, "transformer_options");
    if found.Some? && found.value.Dict? {
      var options := found.value.items;
      LookupIff(items, "transformer_options", Dict(options));
      OptionsAreProper(items, options);
      WithoutMeaning(options);
      if items[i].key == "transformer_options" {
        LookupIff(items, "transformer_options", items[i].value);
        assert items[i] == Item("transformer_options", items[i].value);
      }
    } else if items[i].key == "transformer_options" {
      LookupIff(items, "transformer_options", items[i].value);
      assert items[i] == Item("transformer_options", items[i].value);
    }
  }

  lemma IdentityIsProper(items: seq<Item>)
    requires ProperDicts(Dict(items))
    ensures ProperDicts(Dict(Identity(items)))
  {
    var kept := Identity(items);
    if items != [] { IdentityMeaning(items, 0); }
    forall i: nat | i < |kept| ensures kept[i].key == items[i].key && ProperDicts(kept[i].value) {
      IdentityMeaning(items, i);
      if kept[i] != items[i] {
        var options := kept[i].value.items;
        forall j | 0 <= j < |options| ensures ProperDicts(options[j].value) {
          assert options[j] in items[i].value.items;
          var k :| 0 <= k < |items[i].value.items| && items[i].value.items[k] == options[j];
          assert ProperDicts(items[i].value);
        }
      }
    }
  }

  /** The condition argument's arity as it is compared: absent, a length, or the scalar itself. */
  function ArityOf(cond: Cond): Scalar {
    match cond
    case NoCond => PyNone
    case CondList(n) => Int(n)
    case CondScalar(s) => s
  }

  /** Five argument names with the tensor tag in front: never taken for equal to anything. */
  ghost predicate PosingNames(keys: seq<string>) {
    |keys| == 5 && "__tensor__" in keys && forall k | k in keys :: StringLe("__tensor__", k)
  }

  /** Two calls with one conditioning: the same argument names, agreeing payloads, the same arity. */
  ghost predicate CallsAgree(eq: TensorEqual, a: Call, b: Call) {
    && multiset(a.otherKeys) == multiset(b.otherKeys) && !PosingNames(a.otherKeys)
    && (match (a.conditioning, b.conditioning)
        case (None, None) => true
        case (Some(xs), Some(ys)) => PayloadsAgree(eq, Dict(Identity(xs)), Dict(Identity(ys)))
        case _ => false)
    && ScalarsAgree(ArityOf(a.cond), ArityOf(b.cond))
  }

  ghost predicate ProperCall(call: Call) {
    call.conditioning.Some? ==> ProperDicts(Dict(call.conditioning.value))
  }

  lemma StringOrderIsTotal()
    ensures TotalPreorder(StringLe)
  {
    forall a: string, b: string, c: string
      ensures StringLe(a, b) || StringLe(b, a)
      ensures StringLe(a, b) && StringLe(b, c) ==> StringLe(a, c)
    {
      StringOrder(a, b, c);
    }
  }

  lemma {:induction false} OrderedNamesCoincide(xs: seq<string>, ys: seq<string>)
    requires multiset(xs) == multiset(ys) && Ordered(xs, StringLe) && Ordered(ys, StringLe)
    ensures xs == ys
  {
    assert |xs| == |multiset(xs)| == |ys|;
    if xs != [] {
      assert xs[0] in multiset(ys) && ys[0] in multiset(xs);
      LeastName(xs, ys[0]);
      LeastName(ys, xs[0]);
      StringOrder(xs[0], ys[0], "");
      MultisetOfTail(xs);
      MultisetOfTail(ys);
      OrderedNamesCoincide(xs[1..], ys[1..]);
    }
  }

  lemma LeastName(xs: seq<string>, x: string)
    requires x in xs && Ordered(xs, StringLe)
    ensures StringLe(xs[0], x)
  {
    StringOrder(x, x, "");
    var i :| 0 <= i < |xs| && xs[i] == x;
    assert i > 0 ==> StringLe(xs[0], xs[i]);
  }

  /** Sorted names are one list exactly when the names are the same, counted. */
  lemma SortedNamesIff(xs: seq<string>, ys: seq<string>)
    ensures Sort(xs, StringLe) == Sort(ys, StringLe) <==> multiset(xs) == multiset(ys)
  {
    StringOrderIsTotal();
    SortIsPermutation(xs, StringLe);
    SortIsPermutation(ys, StringLe);
    SortIsOrdered(xs, StringLe);
    SortIsOrdered(ys, StringLe);
    if multiset(xs) == multiset(ys) {
      OrderedNamesCoincide(Sort(xs, StringLe), Sort(ys, StringLe));
    }
  }

  lemma PosingNamesIff(keys: seq<string>)
    ensures IsTensorTuple(Tup(StringAtoms(Sort(keys, StringLe)))) <==> PosingNames(keys)
  {
    var sorted := Sort(keys, StringLe);
    StringOrderIsTotal();
    SortIsPermutation(keys, StringLe);
    SortIsOrdered(keys, StringLe);
    SameMembers(keys, StringLe);
    if |keys| == 5 {
      assert StringAtoms(sorted)[0] == Atom(Str(sorted[0]));
      assert sorted[0] in keys;
      if PosingNames(keys) {
        LeastName(sorted, "__tensor__");
        StringOrder(sorted[0], "__tensor__", "");
      }
      if sorted[0] == "__tensor__" {
        forall k | k in keys ensures StringLe("__tensor__", k) {
          LeastName(sorted, k);
        }
      }
    }
  }

  lemma NamesEqualIff(eq: TensorEqual, xs: seq<string>, ys: seq<string>)
    ensures var (a, b) := (Tup(StringAtoms(Sort(xs, StringLe))), Tup(StringAtoms(Sort(ys, StringLe))));
            FingerprintsEqual(eq, a, b) <==> multiset(xs) == multiset(ys) && !PosingNames(xs)
  {
    var ss, ts := Sort(xs, StringLe), Sort(ys, StringLe);
    var a, b := StringAtoms(ss), StringAtoms(ts);
    SortedNamesIff(xs, ys);
    PosingNamesIff(xs);
    if IsTensorTuple(Tup(a)) && IsTensorTuple(Tup(b)) {
      assert !a[4].Raw?;
    } else {
      TuplesEqualIff(eq, a, b);
      if |a| == |b| {
        forall i | 0 <= i < |a| ensures FingerprintsEqual(eq, a[i], b[i]) <==> ss[i] == ts[i] {
          StringEquals(eq, ss[i], b[i]);
        }
      }
      assert ss == ts ==> a == b;
    }
  }

  /** The fingerprint, part by part. */
  lemma FingerprintParts(call: Call)
    requires FingerprintOf(call).Some?
    ensures call.conditioning.Some? ==> Snapshot(Dict(Identity(call.conditioning.value))).Some?
    ensures FingerprintOf(call).value ==
            Tup([Tup(StringAtoms(Sort(call.otherKeys, StringLe))),
                 if call.conditioning.Some? then Snapshot(Dict(Identity(call.conditioning.value))).value
                 else Atom(PyNone),
                 Atom(ArityOf(call.cond))])
  {
  }

  /** Two calls have equal fingerprints exactly when they agree. */
  lemma CallsAgreeIff(eq: TensorEqual, a: Call, b: Call)
    requires FingerprintOf(a).Some? && FingerprintOf(b).Some? && ProperCall(a) && ProperCall(b)
    ensures FingerprintsEqual(eq, FingerprintOf(a).value, FingerprintOf(b).value) <==> CallsAgree(eq, a, b)
  {
    FingerprintParts(a);
    FingerprintParts(b);
    var xs, ys := FingerprintOf(a).value.parts, FingerprintOf(b).value.parts;
    TuplesEqualIff(eq, xs, ys);
    NamesEqualIff(eq, a.otherKeys, b.otherKeys);
    ScalarEqualIff(ArityOf(a.cond), ArityOf(b.cond));
    if a.conditioning.Some? && b.conditioning.Some? {
      IdentityIsProper(a.conditioning.value);
      IdentityIsProper(b.conditioning.value);
      AgreeIff(eq, Dict(Identity(a.conditioning.value)), Dict(Identity(b.conditioning.value)));
    }
    assert FingerprintsEqual(eq, Tup(xs), Tup(ys)) <==>
      FingerprintsEqual(eq, xs[0], ys[0]) && FingerprintsEqual(eq, xs[1], ys[1]) && FingerprintsEqual(eq, xs[2], ys[2]);
  }

  /** The first call of a run that passed the checks. */
  ghost function FirstCall(env: Env, config: Config, ops: seq<Op>): Option<Call> {
    if ops == [] then None
    else
      var before, op := ops[..|ops| - 1], ops[|ops| - 1];
      var first := FirstCall(env, config, before);
      if first.Some? then first
      else if op.OpBegin? && Guard(env, Run(env, config, before).0, op.call).None? then Some(op.call)
      else None
  }

  /** A session is bound to the first call that passes the checks, for good. */
  lemma {:induction false} BoundByFirstCall(env: Env, config: Config, ops: seq<Op>)
    ensures var first := FirstCall(env, config, ops);
            && (first.Some? ==> FingerprintOf(first.value).Some?)
            && Run(env, config, ops).0.fingerprint == (if first.Some? then FingerprintOf(first.value) else None)
  {
    if ops != [] {
      var before, op := ops[..|ops| - 1], ops[|ops| - 1];
      BoundByFirstCall(env, config, before);
      StepBindsOnce(env, Run(env, config, before).0, op);
    }
  }

  /**
    Over every run, a call that passes the checks is rejected for its
    conditioning exactly when it disagrees with the first call that passed them.
  */
  lemma ConditioningChangedIff(env: Env, config: Config, ops: seq<Op>, call: Call)
    requires Guard(env, Run(env, config, ops).0, call).None? && ProperCall(call)
    requires FirstCall(env, config, ops).Some? ==> ProperCall(FirstCall(env, config, ops).value)
    ensures var first := FirstCall(env, config, ops);
            Begin(env, Run(env, config, ops).0, call).1 == Rejected(ConditioningChanged)
            <==> first.Some? && !CallsAgree(env.eq, first.value, call)
  {
    BoundByFirstCall(env, config, ops);
    var first := FirstCall(env, config, ops);
    if first.Some? {
      CallsAgreeIff(env.eq, first.value, call);
    }
  }
}
