/**
  Timing of executed voiceovers and soundbeds
  (packages/contracts/src/audio-asset.ts).

  A slice of the source is looped, followed by a shorter partial loop and
  padded on both sides.  Acceptance is shown to be Euclidean division of the
  consumed time by the slice.
*/
module AudioTiming {
  import opened Common

  datatype AudioRef = AudioRef(
    actualDurationMs: int,
    effectiveStartMs: int,
    effectiveDurationMs: int,
    trimStartMs: int,
    trimEndMs: Option<int>,
    loopCount: int,
    partialLoopDurationMs: Option<int>,
    padLeadingMs: int,
    padTrailingMs: int)

  datatype AudioIssue =
    | TrimEndPastSource | EmptySlice | PartialLoopTooLong | NothingConsumed | DurationMismatch | TimelineOverflow

  /** The field checks of the schema. */
  predicate FieldsHold(a: AudioRef) {
    && a.actualDurationMs > 0 && a.effectiveStartMs >= 0 && a.effectiveDurationMs > 0
    && a.trimStartMs >= 0 && (a.trimEndMs.Some? ==> a.trimEndMs.value > 0)
    && a.loopCount >= 0 && (a.partialLoopDurationMs.Some? ==> a.partialLoopDurationMs.value >= 0)
    && a.padLeadingMs >= 0 && a.padTrailingMs >= 0
  }

  function TrimEnd(a: AudioRef): int {
    if a.trimEndMs.Some? then a.trimEndMs.value else a.actualDurationMs
  }

  function Slice(a: AudioRef): int {
    TrimEnd(a) - a.trimStartMs
  }

  function PartialLoop(a: AudioRef): int {
    if a.partialLoopDurationMs.Some? then a.partialLoopDurationMs.value else 0
  }

  function ExpectedDuration(a: AudioRef): int {
    a.padLeadingMs + (Slice(a) * a.loopCount + PartialLoop(a)) + a.padTrailingMs
  }

  function Unless(ok: bool, issue: AudioIssue): seq<AudioIssue> {
    if ok then [] else [issue]
  }

  /** The refinement of both executed reference schemas. */
  function Issues(a: AudioRef): seq<AudioIssue> {
    Unless(a.trimEndMs.None? || a.trimEndMs.value <= a.actualDurationMs, TrimEndPastSource)
    + Unless(a.trimStartMs < TrimEnd(a), EmptySlice)
    + Unless(PartialLoop(a) < Slice(a), PartialLoopTooLong)
    + Unless(a.loopCount != 0 || PartialLoop(a) != 0, NothingConsumed)
    + Unless(a.effectiveDurationMs == ExpectedDuration(a), DurationMismatch)
  }

  predicate Accepted(a: AudioRef) {
    FieldsHold(a) && Issues(a) == []
  }

  lemma AcceptedMeansNoIssue(a: AudioRef)
    ensures Issues(a) == [] <==>
            && (a.trimEndMs.None? || a.trimEndMs.value <= a.actualDurationMs) && a.trimStartMs < TrimEnd(a)
            && PartialLoop(a) < Slice(a) && (a.loopCount != 0 || PartialLoop(a) != 0)
            && a.effectiveDurationMs == ExpectedDuration(a)
  {
  }

  /** Which issues the refinement reports. */
  lemma IssueIff(a: AudioRef, issue: AudioIssue)
    ensures issue in Issues(a) <==>
            match issue
            case TrimEndPastSource => a.trimEndMs.Some? && a.trimEndMs.value > a.actualDurationMs
            case EmptySlice => Slice(a) <= 0
            case PartialLoopTooLong => PartialLoop(a) >= Slice(a)
            case NothingConsumed => a.loopCount == 0 && PartialLoop(a) == 0
            case DurationMismatch => a.effectiveDurationMs != ExpectedDuration(a)
            case TimelineOverflow => false
  {
  }

  /** The part of the effective duration that is not padding. */
  function Consumed(a: AudioRef): int {
    a.effectiveDurationMs - a.padLeadingMs - a.padTrailingMs
  }

  lemma SmallMultiple(d: int, k: int)
    requires d > 0 && -d < d * k < d
    ensures k == 0
  {
  }

  /** Quotient and remainder are the only way to split c by d. */
  lemma DivisionIsUnique(c: int, d: int, q: int, r: int)
    requires d > 0 && 0 <= r < d && c == d * q + r
    ensures q == c / d && r == c % d
  {
    assert c == d * (c / d) + c % d && 0 <= c % d < d;
    assert d * (q - c / d) == d * q - d * (c / d);
    SmallMultiple(d, q - c / d);
  }

  lemma ProductSign(d: int, q: int)
    requires d > 0 && q >= 0
    ensures d * q >= 0 && (d * q == 0 <==> q == 0)
  {
    if q > 0 {
      assert d * q >= d * 1;
    }
  }

  lemma DivisionInTerms(a: AudioRef)
    requires FieldsHold(a)
    ensures Accepted(a) <==>
            && TrimEnd(a) <= a.actualDurationMs && Slice(a) > 0 && Consumed(a) > 0
            && a.loopCount == Consumed(a) / Slice(a) && PartialLoop(a) == Consumed(a) % Slice(a)
  {
    if Slice(a) > 0 {
      ProductSign(Slice(a), a.loopCount);
      if Accepted(a) {
        DivisionIsUnique(Consumed(a), Slice(a), a.loopCount, PartialLoop(a));
      } else if Consumed(a) > 0 {
        assert Consumed(a) == Slice(a) * (Consumed(a) / Slice(a)) + Consumed(a) % Slice(a);
      }
    }
  }

  /**
    A reference is accepted exactly when the slice is a positive part of the
    source, some time is consumed, and loop count and partial loop are the
    quotient and remainder of the consumed time by the slice.
  */
  lemma AcceptedIffDivision(a: AudioRef)
    requires FieldsHold(a)
    ensures var end := if a.trimEndMs.Some? then a.trimEndMs.value else a.actualDurationMs;
            var slice, consumed := end - a.trimStartMs, a.effectiveDurationMs - a.padLeadingMs - a.padTrailingMs;
            var remainder := if a.partialLoopDurationMs.Some? then a.partialLoopDurationMs.value else 0;
            Accepted(a) <==>
              && end <= a.actualDurationMs && a.trimStartMs < end && consumed > 0
              && a.loopCount == consumed / slice && remainder == consumed % slice
  {
    DivisionInTerms(a);
  }

  /** Trim, pads and length leave one choice of loop data. */
  lemma LoopDataIsUnique(a: AudioRef, b: AudioRef)
    requires Accepted(a) && Accepted(b)
    requires TrimEnd(a) == TrimEnd(b) && a.trimStartMs == b.trimStartMs
    requires a.padLeadingMs == b.padLeadingMs && a.padTrailingMs == b.padTrailingMs
    requires a.effectiveDurationMs == b.effectiveDurationMs
    ensures a.loopCount == b.loopCount && PartialLoop(a) == PartialLoop(b)
  {
    DivisionInTerms(a);
    DivisionInTerms(b);
  }

  /** And there is one: filling in quotient and remainder repairs any reference with a usable slice. */
  lemma LoopDataExists(a: AudioRef)
    requires FieldsHold(a) && TrimEnd(a) <= a.actualDurationMs && Slice(a) > 0 && Consumed(a) > 0
    ensures Accepted(a.(loopCount := Consumed(a) / Slice(a), partialLoopDurationMs := Some(Consumed(a) % Slice(a))))
  {
    var b := a.(loopCount := Consumed(a) / Slice(a), partialLoopDurationMs := Some(Consumed(a) % Slice(a)));
    QuotientIsNatural(Consumed(a), Slice(a));
    DivisionInTerms(b);
  }

  lemma QuotientIsNatural(c: int, d: int)
    requires c > 0 && d > 0
    ensures c / d >= 0 && 0 <= c % d < d
  {
    assert c == d * (c / d) + c % d;
  }
}
