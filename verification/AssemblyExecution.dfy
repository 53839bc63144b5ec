/**
  Executed assemblies and their manifests
  (packages/contracts/src/assembly-execution-invariants.ts,
  assembly-execution.ts and assembly-manifest.ts).

  Validators report issues to a context; a value is accepted when its fields
  are well formed and no issue is reported.
*/
module AssemblyExecution {
  import opened Common
  import StableSorting
  import AudioTiming

  // ----- data -----

  datatype Stem = Stem(order: int, actualDurationMs: int, generationManifestId: string)

  datatype Timeline = Timeline(totalDurationMs: int, stemDurationsMs: seq<int>)

  datatype Cue = Cue(startMs: int, endMs: int, text: string)

  datatype AudioEncoding = AudioEncoding(sampleRateHz: int, channels: int)

  datatype Encoding = Encoding(audio: Option<AudioEncoding>)

  datatype VideoStream = VideoStream(
    codecName: string, pixelFormat: string, width: int, height: int, frameRate: real, durationMs: int)

  datatype AudioStream = AudioStream(codecName: string, sampleRateHz: int, channels: int, durationMs: int)

  datatype Streams = Streams(video: VideoStream, audio: Option<AudioStream>)

  /** What the shared invariants look at; the optional parts may be absent for other callers. */
  datatype Payload = Payload(
    timeline: Timeline,
    stems: seq<Stem>,
    voiceover: Option<AudioTiming.AudioRef>,
    soundbed: Option<AudioTiming.AudioRef>,
    outputDurationMs: int,
    outputWidth: Option<int>,
    outputHeight: Option<int>,
    encoding: Option<Encoding>,
    streams: Option<Streams>,
    subtitleCues: Option<seq<Cue>>,
    subtitleStyleProfile: Option<string>,
    measuredFrameRate: Option<real>)

  datatype Output = Output(durationMs: int, width: int, height: int, contentType: string)

  /** The fields an execution result and its manifest share. */
  datatype Executed = Executed(
    profileKey: string,
    layoutMode: string,
    timeline: Timeline,
    stems: seq<Stem>,
    voiceover: Option<AudioTiming.AudioRef>,
    soundbed: Option<AudioTiming.AudioRef>,
    subtitleCuesSha256: string,
    subtitleCues: Option<seq<Cue>>,
    subtitleStyleProfile: Option<string>,
    encoding: Encoding,
    streams: Streams,
    output: Output,
    measuredFrameRate: real)

  /** Functions the program takes from elsewhere: blankness after trimming, the cue hash, ISO 8601 validity. */
  datatype Environment = Environment(blank: string -> bool, hash: seq<Cue> -> string, validDate: string -> bool)

  datatype ProfileField =
    | LayoutMode | OutputWidth | OutputHeight | ContentType | MeasuredRate | EncodedRate | EncodedChannels
    | VideoCodec | PixelFormat | VideoWidth | VideoHeight | VideoRate | AudioCodec | AudioRate | AudioChannels

  datatype Issue =
    | StemOrder
    | StemCount
    | StemDuration(order: int)
    | TotalDuration
    | OutputDuration
    | StyleProfileMissing
    | SubtitleTimeline
    | Audio(isVoiceover: bool, issue: AudioTiming.AudioIssue)
    | EncodingAudioMissing
    | StreamsAudioMissing
    | VideoDuration
    | AudioDuration
    | StreamWidth
    | StreamHeight
    | FrameRate
    | SubtitleHash
    | Profile(field: ProfileField)
    | ManifestIdCount
    | ManifestId(index: int)

  const TOLERANCE_MS := 250
  const FRAME_RATE_TOLERANCE := 0.01

  /** The issues after one check: those before, and this one unless the check holds. */
  function Report(before: seq<Issue>, ok: bool, issue: Issue): seq<Issue> {
    if ok then before else before + [issue]
  }

  class RefinementContext {
    var issues: seq<Issue>

    constructor ()
      ensures issues == []
    {
      issues := [];
    }

    method Expect(ok: bool, issue: Issue)
      modifies this
      ensures issues == Report(old(issues), ok, issue)
    {
      if !ok {
        issues := issues + [issue];
      }
    }
  }

  function Distance(x: int, y: int): nat {
    if x < y then y - x else x - y
  }

  function RateDistance(x: real, y: real): real {
    if x < y then y - x else x - y
  }

  // ----- rules 1 to 4: stems and durations -----

  /** The timeline entry a stem's order names, if any, has the stem's duration. */
  predicate StemMatches(durations: seq<int>, stem: Stem) {
    0 <= stem.order < |durations| ==> durations[stem.order] == stem.actualDurationMs
  }

  function StemReport(before: seq<Issue>, durations: seq<int>, stems: seq<Stem>): seq<Issue> {
    if stems == [] then before
    else
      var last := stems[|stems| - 1];
      Report(StemReport(before, durations, stems[..|stems| - 1]), StemMatches(durations, last),
             StemDuration(last.order))
  }

  function Same(x: int): int {
    x
  }

  predicate SumMatches(p: Payload) {
    p.timeline.totalDurationMs == Sum(p.timeline.stemDurationsMs, Same)
  }

  function DurationReport(before: seq<Issue>, p: Payload): seq<Issue> {
    var counted := Report(before, |p.timeline.stemDurationsMs| == |p.stems|, StemCount);
    var matched := StemReport(counted, p.timeline.stemDurationsMs, p.stems);
    var summed := Report(matched, SumMatches(p), TotalDuration);
    Report(summed, Distance(p.outputDurationMs, p.timeline.totalDurationMs) <= TOLERANCE_MS, OutputDuration)
  }

  method CheckStems(durations: seq<int>, stems: seq<Stem>, ctx: RefinementContext)
    modifies ctx
    ensures ctx.issues == StemReport(old(ctx.issues), durations, stems)
  {
    for i := 0 to |stems|
      invariant ctx.issues == StemReport(old(ctx.issues), durations, stems[..i])
    {
      assert stems[..i + 1][..i] == stems[..i];
      if stems[i].order >= 0 && stems[i].order < |durations| {
        ctx.Expect(durations[stems[i].order] == stems[i].actualDurationMs, StemDuration(stems[i].order));
      }
    }
    assert stems[..|stems|] == stems;
  }

  method CheckDurations(p: Payload, ctx: RefinementContext)
    modifies ctx
    ensures ctx.issues == DurationReport(old(ctx.issues), p)
  {
    ctx.Expect(|p.timeline.stemDurationsMs| == |p.stems|, StemCount);
    CheckStems(p.timeline.stemDurationsMs, p.stems, ctx);
    ctx.Expect(SumMatches(p), TotalDuration);
    ctx.Expect(Distance(p.outputDurationMs, p.timeline.totalDurationMs) <= TOLERANCE_MS, OutputDuration);
  }

  // ----- rule 5: subtitles -----

  predicate CuesFit(cues: seq<Cue>, total: int) {
    total > 0 && forall i | 0 <= i < |cues| :: 0 <= cues[i].startMs < cues[i].endMs <= total
  }

  /** validateSubtitleTimeline; false where it throws. */
  method ValidateSubtitleTimeline(cues: seq<Cue>, total: int) returns (ok: bool)
    ensures ok <==> CuesFit(cues, total)
  {
    if total <= 0 {
      return false;
    }
    for i := 0 to |cues|
      invariant forall j | 0 <= j < i :: 0 <= cues[j].startMs < cues[j].endMs <= total
    {
      if cues[i].startMs < 0 || cues[i].endMs <= cues[i].startMs || cues[i].endMs > total {
        return false;
      }
    }
    return true;
  }

  predicate HasStyle(blank: string -> bool, p: Payload) {
    p.subtitleStyleProfile.Some? && !blank(p.subtitleStyleProfile.value)
  }

  function SubtitleReport(before: seq<Issue>, blank: string -> bool, p: Payload): seq<Issue> {
    if p.subtitleCues.None? || p.subtitleCues.value == [] then before
    else
      var styled := Report(before, HasStyle(blank, p), StyleProfileMissing);
      Report(styled, CuesFit(p.subtitleCues.value, p.timeline.totalDurationMs), SubtitleTimeline)
  }

  method CheckSubtitles(blank: string -> bool, p: Payload, ctx: RefinementContext)
    modifies ctx
    ensures ctx.issues == SubtitleReport(old(ctx.issues), blank, p)
  {
    if p.subtitleCues.Some? && |p.subtitleCues.value| > 0 {
      ctx.Expect(HasStyle(blank, p), StyleProfileMissing);
      var ok := ValidateSubtitleTimeline(p.subtitleCues.value, p.timeline.totalDurationMs);
      ctx.Expect(ok, SubtitleTimeline);
    }
  }

  // ----- rules 6 and 7: audio timing -----

  predicate EndsInTime(a: AudioTiming.AudioRef, total: int) {
    a.effectiveStartMs + a.effectiveDurationMs <= total + TOLERANCE_MS
  }

  /** The reference's own checks once more, then the overflow check. */
  function TimingReport(before: seq<Issue>, v: bool, ref: Option<AudioTiming.AudioRef>, total: int): seq<Issue> {
    if ref.None? then before
    else
      var a := ref.value;
      var ends := Report(before, a.trimEndMs.None? || a.trimEndMs.value <= a.actualDurationMs,
                         Audio(v, AudioTiming.TrimEndPastSource));
      var starts := Report(ends, a.trimStartMs < AudioTiming.TrimEnd(a), Audio(v, AudioTiming.EmptySlice));
      var loops := Report(starts, AudioTiming.PartialLoop(a) < AudioTiming.Slice(a),
                          Audio(v, AudioTiming.PartialLoopTooLong));
      var consumes := Report(loops, a.loopCount != 0 || AudioTiming.PartialLoop(a) != 0,
                             Audio(v, AudioTiming.NothingConsumed));
      var lasts := Report(consumes, a.effectiveDurationMs == AudioTiming.ExpectedDuration(a),
                          Audio(v, AudioTiming.DurationMismatch));
      Report(lasts, EndsInTime(a, total), Audio(v, AudioTiming.TimelineOverflow))
  }

  method CheckAudioTiming(v: bool, ref: Option<AudioTiming.AudioRef>, total: int, ctx: RefinementContext)
    modifies ctx
    ensures ctx.issues == TimingReport(old(ctx.issues), v, ref, total)
  {
    if ref.Some? {
      var a := ref.value;
      var trimEnd := if a.trimEndMs.Some? then a.trimEndMs.value else a.actualDurationMs;
      var slice := trimEnd - a.trimStartMs;
      var partial := if a.partialLoopDurationMs.Some? then a.partialLoopDurationMs.value else 0;
      var expected := a.padLeadingMs + (slice * a.loopCount + partial) + a.padTrailingMs;
      ctx.Expect(a.trimEndMs.None? || a.trimEndMs.value <= a.actualDurationMs, Audio(v, AudioTiming.TrimEndPastSource));
      ctx.Expect(a.trimStartMs < trimEnd, Audio(v, AudioTiming.EmptySlice));
      ctx.Expect(partial < slice, Audio(v, AudioTiming.PartialLoopTooLong));
      ctx.Expect(a.loopCount != 0 || partial != 0, Audio(v, AudioTiming.NothingConsumed));
      ctx.Expect(a.effectiveDurationMs == expected, Audio(v, AudioTiming.DurationMismatch));
      ctx.Expect(a.effectiveStartMs + a.effectiveDurationMs <= total + TOLERANCE_MS,
                 Audio(v, AudioTiming.TimelineOverflow));
    }
  }

  // ----- rules 8 and 9: audio presence and measured streams -----

  predicate HasAudio(p: Payload) {
    p.voiceover.Some? || p.soundbed.Some?
  }

  function PresenceReport(before: seq<Issue>, p: Payload): seq<Issue> {
    var encoded := Report(before, HasAudio(p) && p.encoding.Some? ==> p.encoding.value.audio.Some?,
                          EncodingAudioMissing);
    Report(encoded, HasAudio(p) && p.streams.Some? ==> p.streams.value.audio.Some?, StreamsAudioMissing)
  }

  predicate Near(duration: int, total: int) {
    Distance(duration, total) <= TOLERANCE_MS
  }

  function StreamReport(before: seq<Issue>, p: Payload): seq<Issue> {
    if p.streams.None? then before
    else
      var video, audio, total := p.streams.value.video, p.streams.value.audio, p.timeline.totalDurationMs;
      var timed := Report(before, Near(video.durationMs, total), VideoDuration);
      var heard := Report(timed, audio.Some? ==> Near(audio.value.durationMs, total), AudioDuration);
      var wide := Report(heard, p.outputWidth.Some? ==> video.width == p.outputWidth.value, StreamWidth);
      var high := Report(wide, p.outputHeight.Some? ==> video.height == p.outputHeight.value, StreamHeight);
      Report(high,
             p.measuredFrameRate.Some? ==>
               RateDistance(video.frameRate, p.measuredFrameRate.value) <= FRAME_RATE_TOLERANCE,
             FrameRate)
  }

  method CheckPresence(p: Payload, ctx: RefinementContext)
    modifies ctx
    ensures ctx.issues == PresenceReport(old(ctx.issues), p)
  {
    if p.voiceover.Some? || p.soundbed.Some? {
      if p.encoding.Some? {
        ctx.Expect(p.encoding.value.audio.Some?, EncodingAudioMissing);
      }
      if p.streams.Some? {
        ctx.Expect(p.streams.value.audio.Some?, StreamsAudioMissing);
      }
    }
  }

  method CheckStreams(p: Payload, ctx: RefinementContext)
    modifies ctx
    ensures ctx.issues == StreamReport(old(ctx.issues), p)
  {
    if p.streams.Some? {
      var video, audio, total := p.streams.value.video, p.streams.value.audio, p.timeline.totalDurationMs;
      ctx.Expect(Near(video.durationMs, total), VideoDuration);
      if audio.Some? {
        ctx.Expect(Near(audio.value.durationMs, total), AudioDuration);
      }
      ctx.Expect(p.outputWidth.None? || video.width == p.outputWidth.value, StreamWidth);
      ctx.Expect(p.outputHeight.None? || video.height == p.outputHeight.value, StreamHeight);
      ctx.Expect(p.measuredFrameRate.None?
                 || RateDistance(video.frameRate, p.measuredFrameRate.value) <= FRAME_RATE_TOLERANCE, FrameRate);
    }
  }

  // ----- validateExecutedAssemblyInvariants -----

  function InvariantReport(before: seq<Issue>, blank: string -> bool, p: Payload): seq<Issue> {
    var total := p.timeline.totalDurationMs;
    var lasted := DurationReport(before, p);
    var titled := SubtitleReport(lasted, blank, p);
    var voiced := TimingReport(titled, true, p.voiceover, total);
    var bedded := TimingReport(voiced, false, p.soundbed, total);
    StreamReport(PresenceReport(bedded, p), p)
  }

  // ----- which issues are reported -----

  lemma ReportIff(before: seq<Issue>, ok: bool, issue: Issue, x: Issue)
    ensures x in Report(before, ok, issue) <==> x in before || (!ok && x == issue)
  {
  }

  ghost predicate StemViolated(durations: seq<int>, stems: seq<Stem>, x: Issue) {
    exists i :: 0 <= i < |stems| && !StemMatches(durations, stems[i]) && x == StemDuration(stems[i].order)
  }

  lemma {:induction false} StemIssueIff(before: seq<Issue>, durations: seq<int>, stems: seq<Stem>, x: Issue)
    ensures x in StemReport(before, durations, stems) <==> x in before || StemViolated(durations, stems, x)
  {
    if stems != [] {
      var front, last := stems[..|stems| - 1], stems[|stems| - 1];
      StemIssueIff(before, durations, front, x);
      ReportIff(StemReport(before, durations, front), StemMatches(durations, last), StemDuration(last.order), x);
      if StemViolated(durations, stems, x) {
        var i :| 0 <= i < |stems| && !StemMatches(durations, stems[i]) && x == StemDuration(stems[i].order);
        if i < |front| {
          assert front[i] == stems[i];
        }
      }
      if StemViolated(durations, front, x) {
        var i :| 0 <= i < |front| && !StemMatches(durations, front[i]) && x == StemDuration(front[i].order);
        assert stems[i] == front[i];
      }
    }
  }

  /** Rules 1 to 4. */
  ghost predicate DurationViolated(p: Payload, x: Issue) {
    match x
    case StemCount => |p.timeline.stemDurationsMs| != |p.stems|
    case StemDuration(_) => StemViolated(p.timeline.stemDurationsMs, p.stems, x)
    case TotalDuration => p.timeline.totalDurationMs != Sum(p.timeline.stemDurationsMs, Same)
    case OutputDuration => !Near(p.outputDurationMs, p.timeline.totalDurationMs)
    case _ => false
  }

  /** Each of rules 1 to 4 reports its issue exactly when it is broken. */
  lemma DurationIssueIff(before: seq<Issue>, p: Payload, x: Issue)
    ensures x in DurationReport(before, p) <==> x in before || DurationViolated(p, x)
  {
    StemIssueIff(Report(before, |p.timeline.stemDurationsMs| == |p.stems|, StemCount),
                 p.timeline.stemDurationsMs, p.stems, x);
  }

  /** Rule 5: cues ask for a style and must fit the timeline. */
  predicate SubtitleViolated(blank: string -> bool, p: Payload, x: Issue) {
    && p.subtitleCues.Some? && p.subtitleCues.value != []
    && match x
       case StyleProfileMissing => p.subtitleStyleProfile.None? || blank(p.subtitleStyleProfile.value)
       case SubtitleTimeline => !CuesFit(p.subtitleCues.value, p.timeline.totalDurationMs)
       case _ => false
  }

  lemma SubtitleIssueIff(before: seq<Issue>, blank: string -> bool, p: Payload, x: Issue)
    ensures x in SubtitleReport(before, blank, p) <==> x in before || SubtitleViolated(blank, p, x)
  {
  }

  /** Rules 6 and 7: what the reference's own schema reports, and ending late. */
  predicate TimingViolated(v: bool, ref: Option<AudioTiming.AudioRef>, total: int, x: Issue) {
    && ref.Some? && x.Audio? && x.isVoiceover == v
    && (x.issue in AudioTiming.Issues(ref.value)
        || (x.issue == AudioTiming.TimelineOverflow
            && ref.value.effectiveStartMs + ref.value.effectiveDurationMs > total + TOLERANCE_MS))
  }

  /**
    Rules 6 and 7 report exactly the issues of the reference's own schema, and
    an overflow exactly when it ends late.
  */
  lemma TimingIssueIff(before: seq<Issue>, v: bool, ref: Option<AudioTiming.AudioRef>, total: int, x: Issue)
    ensures x in TimingReport(before, v, ref, total) <==> x in before || TimingViolated(v, ref, total, x)
  {
    if ref.Some? && x.Audio? {
      AudioTiming.IssueIff(ref.value, x.issue);
    }
  }

  /** Rule 8: executed audio asks for encoded and measured audio. */
  predicate PresenceViolated(p: Payload, x: Issue) {
    && HasAudio(p)
    && match x
       case EncodingAudioMissing => p.encoding.Some? && p.encoding.value.audio.None?
       case StreamsAudioMissing => p.streams.Some? && p.streams.value.audio.None?
       case _ => false
  }

  lemma PresenceIssueIff(before: seq<Issue>, p: Payload, x: Issue)
    ensures x in PresenceReport(before, p) <==> x in before || PresenceViolated(p, x)
  {
  }

  /** Rule 9: measured streams agree with timeline, output and rate. */
  predicate StreamViolated(p: Payload, x: Issue) {
    && p.streams.Some?
    && var video, audio, total := p.streams.value.video, p.streams.value.audio, p.timeline.totalDurationMs;
       match x
       case VideoDuration => !Near(video.durationMs, total)
       case AudioDuration => audio.Some? && !Near(audio.value.durationMs, total)
       case StreamWidth => p.outputWidth.Some? && video.width != p.outputWidth.value
       case StreamHeight => p.outputHeight.Some? && video.height != p.outputHeight.value
       case FrameRate =>
         p.measuredFrameRate.Some? && RateDistance(video.frameRate, p.measuredFrameRate.value) > FRAME_RATE_TOLERANCE
       case _ => false
  }

  lemma StreamIssueIff(before: seq<Issue>, p: Payload, x: Issue)
    ensures x in StreamReport(before, p) <==> x in before || StreamViolated(p, x)
  {
  }

  ghost predicate Violated(blank: string -> bool, p: Payload, x: Issue) {
    var total := p.timeline.totalDurationMs;
    || DurationViolated(p, x) || SubtitleViolated(blank, p, x)
    || TimingViolated(true, p.voiceover, total, x) || TimingViolated(false, p.soundbed, total, x)
    || PresenceViolated(p, x) || StreamViolated(p, x)
  }

  /** Validation reports an issue exactly when its rule is broken, and keeps those reported before. */
  lemma InvariantIssueIff(before: seq<Issue>, blank: string -> bool, p: Payload, x: Issue)
    ensures x in InvariantReport(before, blank, p) <==> x in before || Violated(blank, p, x)
  {
    var total := p.timeline.totalDurationMs;
    var lasted := DurationReport(before, p);
    var titled := SubtitleReport(lasted, blank, p);
    var voiced := TimingReport(titled, true, p.voiceover, total);
    var bedded := TimingReport(voiced, false, p.soundbed, total);
    DurationIssueIff(before, p, x);
    SubtitleIssueIff(lasted, blank, p, x);
    TimingIssueIff(titled, true, p.voiceover, total, x);
    TimingIssueIff(voiced, false, p.soundbed, total, x);
    PresenceIssueIff(bedded, p, x);
    StreamIssueIff(PresenceReport(bedded, p), p, x);
  }

  method ValidateInvariants(blank: string -> bool, p: Payload, ctx: RefinementContext)
    modifies ctx
    ensures ctx.issues == InvariantReport(old(ctx.issues), blank, p)
    ensures forall x :: x in ctx.issues <==> x in old(ctx.issues) || Violated(blank, p, x)
  {
    CheckDurations(p, ctx);
    CheckSubtitles(blank, p, ctx);
    CheckAudioTiming(true, p.voiceover, p.timeline.totalDurationMs, ctx);
    CheckAudioTiming(false, p.soundbed, p.timeline.totalDurationMs, ctx);
    CheckPresence(p, ctx);
    CheckStreams(p, ctx);
    forall x ensures x in ctx.issues <==> x in old(ctx.issues) || Violated(blank, p, x) {
      InvariantIssueIff(old(ctx.issues), blank, p, x);
    }
  }

  /** For a reference its own schema accepted, rules 6 and 7 can only report an overflow of the timeline. */
  lemma AcceptedAudioOnlyOverflows(before: seq<Issue>, v: bool, a: AudioTiming.AudioRef, total: int)
    requires AudioTiming.Accepted(a)
    ensures TimingReport(before, v, Some(a), total)
            == if a.effectiveStartMs + a.effectiveDurationMs > total + 250
               then before + [Audio(v, AudioTiming.TimelineOverflow)] else before
  {
    AudioTiming.AcceptedMeansNoIssue(a);
  }

  // ----- stem order -----

  function Range(n: nat): seq<int> {
    seq(n, i requires 0 <= i < n => i)
  }

  /** The orders are 0..n-1 in some order. */
  ghost predicate IsPermutation(orders: seq<int>) {
    multiset(orders) == multiset(Range(|orders|))
  }

  function AtMost(x: int, y: int): bool {
    x <= y
  }

  function Orders(stems: seq<Stem>): seq<int> {
    seq(|stems|, i requires 0 <= i < |stems| => stems[i].order)
  }

  ghost predicate Distinct(xs: seq<int>) {
    forall i, j | 0 <= i < j < |xs| :: xs[i] != xs[j]
  }

  method HasDuplicates(orders: seq<int>) returns (r: bool)
    ensures r <==> !Distinct(orders)
  {
    var seen: set<int> := {};
    for i := 0 to |orders|
      invariant Distinct(orders[..i])
      invariant forall x :: x in seen <==> x in orders[..i]
    {
      if orders[i] in seen {
        var j :| 0 <= j < i && orders[j] == orders[i];
        return true;
      }
      seen := seen + {orders[i]};
      assert orders[..i + 1] == orders[..i] + [orders[i]];
    }
    assert orders[..|orders|] == orders;
    return false;
  }

  lemma {:induction false} RepeatedElement(xs: seq<int>, i: nat, j: nat)
    requires i < j < |xs| && xs[i] == xs[j]
    ensures multiset(xs)[xs[i]] >= 2
  {
    assert xs == xs[..j] + [xs[j]] + xs[j + 1..];
    assert xs[i] in multiset(xs[..j]) by {
      assert xs[..j][i] == xs[i];
    }
  }

  lemma {:induction false} RangeMultiplicity(n: nat, x: int)
    ensures multiset(Range(n))[x] == if 0 <= x < n then 1 else 0
  {
    if n > 0 {
      RangeMultiplicity(n - 1, x);
      assert Range(n) == Range(n - 1) + [n - 1];
    }
  }

  /** A sorted permutation of 0..n-1 is 0..n-1. */
  lemma {:induction false} SortedPermutationIsRange(xs: seq<int>)
    requires StableSorting.Ordered(xs, AtMost) && IsPermutation(xs)
    ensures xs == Range(|xs|)
  {
    if xs != [] {
      var n: nat := |xs| - 1;
      var front := xs[..n];
      assert xs == front + [xs[n]];
      assert Range(n + 1) == Range(n) + [n];
      assert n in multiset(xs);
      var k :| 0 <= k < |xs| && xs[k] == n;
      assert AtMost(xs[k], xs[n]) || k == n;
      RangeMultiplicity(n + 1, xs[n]);
      assert xs[n] in multiset(xs);
      assert xs[n] == n;
      assert multiset(front) == multiset(xs) - multiset([n]);
      assert StableSorting.Ordered(front, AtMost);
      SortedPermutationIsRange(front);
    }
  }

  /** The duplicate scan and the sorted comparison together accept exactly the permutations of 0..n-1. */
  method CheckStemOrder(stems: seq<Stem>) returns (ok: bool)
    ensures ok <==> IsPermutation(Orders(stems))
  {
    var orders := Orders(stems);
    var hasDuplicates := HasDuplicates(orders);
    var sorted := StableSorting.Sort(orders, AtMost);
    var isContiguous := forall i | 0 <= i < |sorted| :: sorted[i] == i;
    StemOrderMeaning(orders);
    ok := !(hasDuplicates || !isContiguous);
  }

  lemma StemOrderMeaning(orders: seq<int>)
    ensures IsPermutation(orders) ==> Distinct(orders)
    ensures var sorted := StableSorting.Sort(orders, AtMost);
            IsPermutation(orders) <==> forall i | 0 <= i < |sorted| :: sorted[i] == i
  {
    var sorted := StableSorting.Sort(orders, AtMost);
    StableSorting.SortIsPermutation(orders, AtMost);
    StableSorting.SortIsOrdered(orders, AtMost);
    if IsPermutation(orders) {
      SortedPermutationIsRange(sorted);
      forall i, j | 0 <= i < j < |orders| ensures orders[i] != orders[j] {
        if orders[i] == orders[j] {
          RepeatedElement(orders, i, j);
          RangeMultiplicity(|orders|, orders[i]);
        }
      }
    }
    if forall i | 0 <= i < |sorted| :: sorted[i] == i {
      assert sorted == Range(|orders|);
    }
  }

  // ----- durations of an accepted execution -----

  function Actual(stem: Stem): int {
    stem.actualDurationMs
  }

  function At(durations: seq<int>, i: int): int {
    if 0 <= i < |durations| then durations[i] else 0
  }

  lemma {:induction false} StemsAgree(before: seq<Issue>, durations: seq<int>, stems: seq<Stem>)
    ensures StemReport(before, durations, stems) == []
            <==> before == [] && forall i | 0 <= i < |stems| :: StemMatches(durations, stems[i])
  {
    if stems != [] {
      var front := stems[..|stems| - 1];
      StemsAgree(before, durations, front);
      assert forall i | 0 <= i < |front| :: front[i] == stems[i];
    }
  }

  /** Rules 1 to 4 hold. */
  predicate DurationsHold(p: Payload) {
    && |p.timeline.stemDurationsMs| == |p.stems|
    && (forall i | 0 <= i < |p.stems| :: StemMatches(p.timeline.stemDurationsMs, p.stems[i]))
    && SumMatches(p)
    && Near(p.outputDurationMs, p.timeline.totalDurationMs)
  }

  lemma NoDurationIssueIff(before: seq<Issue>, p: Payload)
    ensures DurationReport(before, p) == [] <==> before == [] && DurationsHold(p)
  {
    StemsAgree(Report(before, |p.timeline.stemDurationsMs| == |p.stems|, StemCount),
               p.timeline.stemDurationsMs, p.stems);
  }

  /** Stems listed in any order of 0..n-1 last as long, together, as the timeline says. */
  lemma ListedStemsSumToTotal(p: Payload)
    requires DurationsHold(p) && IsPermutation(Orders(p.stems))
    ensures Sum(p.stems, Actual) == p.timeline.totalDurationMs
  {
    var durations, orders := p.timeline.stemDurationsMs, Orders(p.stems);
    var n := |p.stems|;
    var at := (i: int) => At(durations, i);
    forall i | 0 <= i < n ensures Actual(p.stems[i]) == at(orders[i]) {
      assert orders[i] in multiset(orders);
      RangeMultiplicity(n, orders[i]);
      assert StemMatches(durations, p.stems[i]);
    }
    SumPointwise(p.stems, Actual, orders, at);
    SumPermutation(orders, Range(n), at);
    SumPointwise(Range(n), at, durations, Same);
  }

  // ----- AssemblyExecutionResultSchema -----

  function PayloadOf(e: Executed): Payload {
    Payload(e.timeline, e.stems, e.voiceover, e.soundbed, e.output.durationMs, Some(e.output.width),
            Some(e.output.height), Some(e.encoding), Some(e.streams), e.subtitleCues, e.subtitleStyleProfile,
            Some(e.measuredFrameRate))
  }

  function CuesOf(e: Executed): seq<Cue> {
    if e.subtitleCues.Some? then e.subtitleCues.value else []
  }

  predicate StreamFieldsHold(e: Executed) {
    var video, audio := e.streams.video, e.streams.audio;
    && video.codecName != "" && video.pixelFormat != ""
    && video.width > 0 && video.height > 0 && video.frameRate > 0.0 && video.durationMs > 0
    && (audio.Some? ==>
          audio.value.codecName != "" && audio.value.sampleRateHz > 0 && audio.value.channels > 0
          && audio.value.durationMs > 0)
    && (e.encoding.audio.Some? ==> e.encoding.audio.value.sampleRateHz > 0 && e.encoding.audio.value.channels > 0)
    && e.output.durationMs > 0 && e.output.width > 0 && e.output.height > 0 && e.measuredFrameRate > 0.0
  }

  /** The field checks of the schema; audio references carry their own refinement. */
  predicate FieldsHold(e: Executed) {
    && e.stems != []
    && (forall i | 0 <= i < |e.stems| ::
          e.stems[i].order >= 0 && e.stems[i].actualDurationMs > 0 && e.stems[i].generationManifestId != "")
    && (e.voiceover.Some? ==> AudioTiming.Accepted(e.voiceover.value))
    && (e.soundbed.Some? ==> AudioTiming.Accepted(e.soundbed.value))
    && e.timeline.totalDurationMs > 0 && e.timeline.stemDurationsMs != []
    && (forall i | 0 <= i < |e.timeline.stemDurationsMs| :: e.timeline.stemDurationsMs[i] > 0)
    && (forall i | 0 <= i < |CuesOf(e)| :: 0 <= CuesOf(e)[i].startMs < CuesOf(e)[i].endMs && CuesOf(e)[i].text != "")
    && (e.subtitleStyleProfile.Some? ==> e.subtitleStyleProfile.value != "")
    && StreamFieldsHold(e)
  }

  const VERTICAL_REEL: string := "VERTICAL_REEL_1080X1920_V1"

  function LayoutReport(before: seq<Issue>, e: Executed): seq<Issue> {
    var fitted := Report(before, e.layoutMode == "fit_blurred_fill", Profile(LayoutMode));
    var wide := Report(fitted, e.output.width == 1080, Profile(OutputWidth));
    var high := Report(wide, e.output.height == 1920, Profile(OutputHeight));
    Report(high, e.output.contentType == "video/mp4", Profile(ContentType))
  }

  function RateReport(before: seq<Issue>, e: Executed): seq<Issue> {
    var measured := Report(before, e.measuredFrameRate == 30.0, Profile(MeasuredRate));
    var sampled := Report(measured, e.encoding.audio.Some? ==> e.encoding.audio.value.sampleRateHz == 48000,
                          Profile(EncodedRate));
    Report(sampled, e.encoding.audio.Some? ==> e.encoding.audio.value.channels == 2, Profile(EncodedChannels))
  }

  function FormatReport(before: seq<Issue>, video: VideoStream): seq<Issue> {
    var coded := Report(before, video.codecName == "h264", Profile(VideoCodec));
    Report(coded, video.pixelFormat == "yuv420p", Profile(PixelFormat))
  }

  function VideoReport(before: seq<Issue>, video: VideoStream): seq<Issue> {
    var wide := Report(FormatReport(before, video), video.width == 1080, Profile(VideoWidth));
    var high := Report(wide, video.height == 1920, Profile(VideoHeight));
    Report(high, video.frameRate == 30.0, Profile(VideoRate))
  }

  function SoundReport(before: seq<Issue>, audio: Option<AudioStream>): seq<Issue> {
    if audio.None? then before
    else
      var coded := Report(before, audio.value.codecName == "aac", Profile(AudioCodec));
      var sampled := Report(coded, audio.value.sampleRateHz == 48000, Profile(AudioRate));
      Report(sampled, audio.value.channels == 2, Profile(AudioChannels))
  }

  function ProfileReport(before: seq<Issue>, e: Executed): seq<Issue> {
    if e.profileKey != VERTICAL_REEL then before
    else SoundReport(VideoReport(RateReport(LayoutReport(before, e), e), e.streams.video), e.streams.audio)
  }

  /** The value the vertical reel profile asks for is not there; absent audio is not looked at. */
  predicate FieldViolated(e: Executed, field: ProfileField) {
    var video, audio, encoded := e.streams.video, e.streams.audio, e.encoding.audio;
    match field
    case LayoutMode => e.layoutMode != "fit_blurred_fill"
    case OutputWidth => e.output.width != 1080
    case OutputHeight => e.output.height != 1920
    case ContentType => e.output.contentType != "video/mp4"
    case MeasuredRate => e.measuredFrameRate != 30.0
    case EncodedRate => encoded.Some? && encoded.value.sampleRateHz != 48000
    case EncodedChannels => encoded.Some? && encoded.value.channels != 2
    case VideoCodec => video.codecName != "h264"
    case PixelFormat => video.pixelFormat != "yuv420p"
    case VideoWidth => video.width != 1080
    case VideoHeight => video.height != 1920
    case VideoRate => video.frameRate != 30.0
    case AudioCodec => audio.Some? && audio.value.codecName != "aac"
    case AudioRate => audio.Some? && audio.value.sampleRateHz != 48000
    case AudioChannels => audio.Some? && audio.value.channels != 2
  }

  lemma LayoutIssueIff(before: seq<Issue>, e: Executed, x: Issue)
    ensures x in LayoutReport(before, e) <==>
            || x in before
            || (&& x.Profile? && FieldViolated(e, x.field)
                && (x.field.LayoutMode? || x.field.OutputWidth? || x.field.OutputHeight? || x.field.ContentType?))
  {
  }

  lemma RateIssueIff(before: seq<Issue>, e: Executed, x: Issue)
    ensures x in RateReport(before, e) <==>
            || x in before
            || (&& x.Profile? && FieldViolated(e, x.field)
                && (x.field.MeasuredRate? || x.field.EncodedRate? || x.field.EncodedChannels?))
  {
  }

  lemma FormatIssueIff(before: seq<Issue>, e: Executed, x: Issue)
    ensures x in FormatReport(before, e.streams.video) <==>
            x in before || (x.Profile? && FieldViolated(e, x.field) && (x.field.VideoCodec? || x.field.PixelFormat?))
  {
  }

  lemma VideoIssueIff(before: seq<Issue>, e: Executed, x: Issue)
    ensures x in VideoReport(before, e.streams.video) <==>
            || x in FormatReport(before, e.streams.video)
            || (&& x.Profile? && FieldViolated(e, x.field)
                && (x.field.VideoWidth? || x.field.VideoHeight? || x.field.VideoRate?))
  {
  }

  lemma SoundIssueIff(before: seq<Issue>, e: Executed, x: Issue)
    ensures x in SoundReport(before, e.streams.audio) <==>
            || x in before
            || (&& x.Profile? && FieldViolated(e, x.field)
                && (x.field.AudioCodec? || x.field.AudioRate? || x.field.AudioChannels?))
  {
  }

  /** Under the vertical reel profile a field is reported exactly when it is not what the profile asks for. */
  lemma ProfileIssueIff(before: seq<Issue>, e: Executed, x: Issue)
    ensures x in ProfileReport(before, e) <==>
            x in before || (e.profileKey == VERTICAL_REEL && x.Profile? && FieldViolated(e, x.field))
  {
    var laid := LayoutReport(before, e);
    var rated := RateReport(laid, e);
    LayoutIssueIff(before, e, x);
    RateIssueIff(laid, e, x);
    FormatIssueIff(rated, e, x);
    VideoIssueIff(rated, e, x);
    SoundIssueIff(VideoReport(rated, e.streams.video), e, x);
  }

  method CheckLayout(e: Executed, ctx: RefinementContext)
    modifies ctx
    ensures ctx.issues == LayoutReport(old(ctx.issues), e)
  {
    ctx.Expect(e.layoutMode == "fit_blurred_fill", Profile(LayoutMode));
    ctx.Expect(e.output.width == 1080, Profile(OutputWidth));
    ctx.Expect(e.output.height == 1920, Profile(OutputHeight));
    ctx.Expect(e.output.contentType == "video/mp4", Profile(ContentType));
  }

  method CheckRates(e: Executed, ctx: RefinementContext)
    modifies ctx
    ensures ctx.issues == RateReport(old(ctx.issues), e)
  {
    ctx.Expect(e.measuredFrameRate == 30.0, Profile(MeasuredRate));
    if e.encoding.audio.Some? {
      ctx.Expect(e.encoding.audio.value.sampleRateHz == 48000, Profile(EncodedRate));
      ctx.Expect(e.encoding.audio.value.channels == 2, Profile(EncodedChannels));
    }
  }

  method CheckVideo(video: VideoStream, ctx: RefinementContext)
    modifies ctx
    ensures ctx.issues == VideoReport(old(ctx.issues), video)
  {
    ctx.Expect(video.codecName == "h264", Profile(VideoCodec));
    ctx.Expect(video.pixelFormat == "yuv420p", Profile(PixelFormat));
    ctx.Expect(video.width == 1080, Profile(VideoWidth));
    ctx.Expect(video.height == 1920, Profile(VideoHeight));
    ctx.Expect(video.frameRate == 30.0, Profile(VideoRate));
  }

  method CheckSound(audio: Option<AudioStream>, ctx: RefinementContext)
    modifies ctx
    ensures ctx.issues == SoundReport(old(ctx.issues), audio)
  {
    if audio.Some? {
      ctx.Expect(audio.value.codecName == "aac", Profile(AudioCodec));
      ctx.Expect(audio.value.sampleRateHz == 48000, Profile(AudioRate));
      ctx.Expect(audio.value.channels == 2, Profile(AudioChannels));
    }
  }

  /** The refinement: stem order, shared invariants, cue hash, profile. */
  ghost function ResultReport(before: seq<Issue>, env: Environment, e: Executed): seq<Issue> {
    var ordered := Report(before, IsPermutation(Orders(e.stems)), StemOrder);
    var kept := InvariantReport(ordered, env.blank, PayloadOf(e));
    var hashed := Report(kept, e.subtitleCuesSha256 == env.hash(CuesOf(e)), SubtitleHash);
    ProfileReport(hashed, e)
  }

  method RefineResult(env: Environment, e: Executed, ctx: RefinementContext)
    modifies ctx
    ensures ctx.issues == ResultReport(old(ctx.issues), env, e)
  {
    var inOrder := CheckStemOrder(e.stems);
    ctx.Expect(inOrder, StemOrder);
    ValidateInvariants(env.blank, PayloadOf(e), ctx);
    ctx.Expect(e.subtitleCuesSha256 == env.hash(CuesOf(e)), SubtitleHash);
    if e.profileKey == VERTICAL_REEL {
      CheckLayout(e, ctx);
      CheckRates(e, ctx);
      CheckVideo(e.streams.video, ctx);
      CheckSound(e.streams.audio, ctx);
    }
  }

  ghost predicate ResultAccepted(env: Environment, e: Executed) {
    FieldsHold(e) && ResultReport([], env, e) == []
  }

  /** AssemblyExecutionResultSchema.parse */
  method ParseResult(env: Environment, e: Executed) returns (ok: bool)
    ensures ok <==> ResultAccepted(env, e)
  {
    var ctx := new RefinementContext();
    RefineResult(env, e, ctx);
    ok := FieldsHold(e) && ctx.issues == [];
  }

  // ----- what acceptance means -----

  predicate SubtitlesHold(blank: string -> bool, e: Executed) {
    CuesOf(e) != [] ==> HasStyle(blank, PayloadOf(e)) && CuesFit(CuesOf(e), e.timeline.totalDurationMs)
  }

  predicate AudioHolds(e: Executed) {
    var total := e.timeline.totalDurationMs;
    && (e.voiceover.Some? ==> EndsInTime(e.voiceover.value, total))
    && (e.soundbed.Some? ==> EndsInTime(e.soundbed.value, total))
    && (e.voiceover.Some? || e.soundbed.Some? ==> e.encoding.audio.Some? && e.streams.audio.Some?)
  }

  predicate StreamsHold(e: Executed) {
    var video, audio, total := e.streams.video, e.streams.audio, e.timeline.totalDurationMs;
    && Near(video.durationMs, total) && (audio.Some? ==> Near(audio.value.durationMs, total))
    && video.width == e.output.width && video.height == e.output.height
    && RateDistance(video.frameRate, e.measuredFrameRate) <= FRAME_RATE_TOLERANCE
  }

  predicate LayoutHolds(e: Executed) {
    && e.layoutMode == "fit_blurred_fill" && e.output.width == 1080 && e.output.height == 1920
    && e.output.contentType == "video/mp4" && e.measuredFrameRate == 30.0
    && (e.encoding.audio.Some? ==> e.encoding.audio.value == AudioEncoding(48000, 2))
  }

  predicate ProfileHolds(e: Executed) {
    var video, audio := e.streams.video, e.streams.audio;
    e.profileKey == VERTICAL_REEL ==>
      && LayoutHolds(e)
      && video.codecName == "h264" && video.pixelFormat == "yuv420p"
      && video.width == 1080 && video.height == 1920 && video.frameRate == 30.0
      && (audio.Some? ==>
            audio.value.codecName == "aac" && audio.value.sampleRateHz == 48000 && audio.value.channels == 2)
  }

  lemma NoAudioIssueIff(before: seq<Issue>, e: Executed)
    requires FieldsHold(e)
    ensures var total, p := e.timeline.totalDurationMs, PayloadOf(e);
            PresenceReport(TimingReport(TimingReport(before, true, e.voiceover, total), false, e.soundbed, total),
                           p) == []
            <==> before == [] && AudioHolds(e)
  {
    var total := e.timeline.totalDurationMs;
    if e.voiceover.Some? {
      AcceptedAudioOnlyOverflows(before, true, e.voiceover.value, total);
    }
    if e.soundbed.Some? {
      AcceptedAudioOnlyOverflows(TimingReport(before, true, e.voiceover, total), false, e.soundbed.value, total);
    }
  }

  lemma NoStreamIssueIff(before: seq<Issue>, e: Executed)
    ensures StreamReport(before, PayloadOf(e)) == [] <==> before == [] && StreamsHold(e)
  {
  }

  lemma NoSubtitleIssueIff(before: seq<Issue>, blank: string -> bool, e: Executed)
    ensures SubtitleReport(before, blank, PayloadOf(e)) == [] <==> before == [] && SubtitlesHold(blank, e)
  {
  }

  lemma NoProfileIssueIff(before: seq<Issue>, e: Executed)
    ensures ProfileReport(before, e) == [] <==> before == [] && ProfileHolds(e)
  {
    NoLayoutIssueIff(before, e);
    NoSoundIssueIff(RateReport(LayoutReport(before, e), e), e);
  }

  lemma NoLayoutIssueIff(before: seq<Issue>, e: Executed)
    ensures RateReport(LayoutReport(before, e), e) == [] <==> before == [] && LayoutHolds(e)
  {
  }

  lemma NoSoundIssueIff(before: seq<Issue>, e: Executed)
    ensures var video, audio := e.streams.video, e.streams.audio;
            SoundReport(VideoReport(before, video), audio) == [] <==>
              && before == [] && video.codecName == "h264" && video.pixelFormat == "yuv420p"
              && video.width == 1080 && video.height == 1920 && video.frameRate == 30.0
              && (audio.Some? ==>
                    audio.value.codecName == "aac" && audio.value.sampleRateHz == 48000 && audio.value.channels == 2)
  {
  }

  /** No issue is left exactly when none was there before and every rule holds. */
  lemma NoIssueIff(before: seq<Issue>, env: Environment, e: Executed)
    requires FieldsHold(e)
    ensures ResultReport(before, env, e) == [] <==>
            && before == [] && IsPermutation(Orders(e.stems)) && DurationsHold(PayloadOf(e))
            && SubtitlesHold(env.blank, e)
            && AudioHolds(e) && StreamsHold(e) && e.subtitleCuesSha256 == env.hash(CuesOf(e)) && ProfileHolds(e)
  {
    var p, total := PayloadOf(e), e.timeline.totalDurationMs;
    var ordered := Report(before, IsPermutation(Orders(e.stems)), StemOrder);
    var lasted := DurationReport(ordered, p);
    var titled := SubtitleReport(lasted, env.blank, p);
    var voiced := TimingReport(titled, true, e.voiceover, total);
    var heard := PresenceReport(TimingReport(voiced, false, e.soundbed, total), p);
    var kept := StreamReport(heard, p);
    NoDurationIssueIff(ordered, p);
    NoSubtitleIssueIff(lasted, env.blank, e);
    NoAudioIssueIff(titled, e);
    NoStreamIssueIff(heard, e);
    NoProfileIssueIff(Report(kept, e.subtitleCuesSha256 == env.hash(CuesOf(e)), SubtitleHash), e);
  }

  /** Stem i lasts as long as the timeline entry its order names. */
  ghost predicate StemsListed(e: Executed) {
    && |e.timeline.stemDurationsMs| == |e.stems|
    && (forall i | 0 <= i < |e.stems| ::
          && 0 <= e.stems[i].order < |e.stems|
          && e.timeline.stemDurationsMs[e.stems[i].order] == e.stems[i].actualDurationMs)
    && (forall i, j | 0 <= i < j < |e.stems| :: e.stems[i].order != e.stems[j].order)
  }

  lemma OrdersInRange(stems: seq<Stem>)
    requires IsPermutation(Orders(stems))
    ensures forall i | 0 <= i < |stems| :: 0 <= stems[i].order < |stems|
    ensures forall i, j | 0 <= i < j < |stems| :: stems[i].order != stems[j].order
  {
    var orders := Orders(stems);
    StemOrderMeaning(orders);
    forall i | 0 <= i < |stems| ensures 0 <= stems[i].order < |stems| {
      assert orders[i] in multiset(orders);
      RangeMultiplicity(|stems|, orders[i]);
    }
    forall i, j | 0 <= i < j < |stems| ensures stems[i].order != stems[j].order {
      assert orders[i] != orders[j];
    }
  }

  /** Which durations an accepted result may have. */
  ghost predicate DurationsAgree(e: Executed) {
    var total, video, audio := e.timeline.totalDurationMs, e.streams.video, e.streams.audio;
    && total == Sum(e.timeline.stemDurationsMs, Same)
    && total - 250 <= e.output.durationMs <= total + 250
    && total - 250 <= video.durationMs <= total + 250
    && (audio.Some? ==> total - 250 <= audio.value.durationMs <= total + 250)
    && (e.voiceover.Some? ==> e.voiceover.value.effectiveStartMs + e.voiceover.value.effectiveDurationMs <= total + 250)
    && (e.soundbed.Some? ==> e.soundbed.value.effectiveStartMs + e.soundbed.value.effectiveDurationMs <= total + 250)
  }

  /** Subtitles are styled and shown inside the timeline; their hash is that of the cues, absent ones being none. */
  ghost predicate SubtitlesAgree(env: Environment, e: Executed) {
    match e.subtitleCues
    case None => e.subtitleCuesSha256 == env.hash([])
    case Some(cues) =>
      && e.subtitleCuesSha256 == env.hash(cues)
      && (|cues| > 0 ==> e.subtitleStyleProfile.Some? && !env.blank(e.subtitleStyleProfile.value))
      && forall i | 0 <= i < |cues| ::
           0 <= cues[i].startMs && cues[i].startMs < cues[i].endMs && cues[i].endMs <= e.timeline.totalDurationMs
  }

  /** Measured streams have the output's size and rate, and audio wherever a reference asks for it. */
  ghost predicate StreamsAgree(e: Executed) {
    var video, output := e.streams.video, e.output;
    && video.width == output.width && video.height == output.height
    && e.measuredFrameRate - 0.01 <= video.frameRate <= e.measuredFrameRate + 0.01
    && (e.voiceover != None || e.soundbed != None ==> e.streams.audio != None && e.encoding.audio != None)
  }

  /** The vertical reel: 1080 by 1920 at 30 frames in H.264, with AAC stereo at 48 kHz if any. */
  ghost predicate ReelAgrees(e: Executed) {
    var video, audio, encoded := e.streams.video, e.streams.audio, e.encoding.audio;
    e.profileKey == "VERTICAL_REEL_1080X1920_V1" ==>
      && e.layoutMode == "fit_blurred_fill" && e.output.contentType == "video/mp4"
      && e.output.width == 1080 && e.output.height == 1920 && e.measuredFrameRate == 30.0
      && video.codecName == "h264" && video.pixelFormat == "yuv420p"
      && video.width == 1080 && video.height == 1920 && video.frameRate == 30.0
      && (encoded.Some? ==> encoded.value.sampleRateHz == 48000 && encoded.value.channels == 2)
      && (audio.Some? ==>
            audio.value.codecName == "aac" && audio.value.sampleRateHz == 48000 && audio.value.channels == 2)
  }

  lemma StemsListedIff(e: Executed)
    ensures IsPermutation(Orders(e.stems)) && DurationsHold(PayloadOf(e)) ==> StemsListed(e)
    ensures IsPermutation(Orders(e.stems)) && StemsListed(e) ==>
              && |e.timeline.stemDurationsMs| == |e.stems|
              && forall i | 0 <= i < |e.stems| :: StemMatches(e.timeline.stemDurationsMs, e.stems[i])
  {
    if IsPermutation(Orders(e.stems)) {
      OrdersInRange(e.stems);
      if DurationsHold(PayloadOf(e)) {
        forall i | 0 <= i < |e.stems|
          ensures e.timeline.stemDurationsMs[e.stems[i].order] == e.stems[i].actualDurationMs
        {
          assert StemMatches(PayloadOf(e).timeline.stemDurationsMs, PayloadOf(e).stems[i]);
        }
      }
    }
  }

  lemma MeasuresAgreeIff(e: Executed)
    ensures DurationsAgree(e) && StreamsAgree(e) <==>
            && SumMatches(PayloadOf(e)) && Near(e.output.durationMs, e.timeline.totalDurationMs)
            && AudioHolds(e) && StreamsHold(e)
  {
  }

  lemma SubtitlesAgreeIff(env: Environment, e: Executed)
    requires e.timeline.totalDurationMs > 0
    ensures SubtitlesAgree(env, e) <==>
            SubtitlesHold(env.blank, e) && e.subtitleCuesSha256 == env.hash(CuesOf(e))
  {
    if e.subtitleCues.Some? {
      var cues, total := e.subtitleCues.value, e.timeline.totalDurationMs;
      assert HasStyle(env.blank, PayloadOf(e)) <==>
        e.subtitleStyleProfile.Some? && !env.blank(e.subtitleStyleProfile.value);
      assert CuesFit(cues, total) <==> forall i | 0 <= i < |cues| ::
          0 <= cues[i].startMs && cues[i].startMs < cues[i].endMs && cues[i].endMs <= total;
    }
  }

  lemma ReelAgreesIff(e: Executed)
    ensures ReelAgrees(e) <==> ProfileHolds(e)
  {
  }

  /** A result is accepted exactly when its fields hold and its parts agree with each other and the profile. */
  lemma ResultAcceptedIff(env: Environment, e: Executed)
    requires FieldsHold(e)
    ensures ResultAccepted(env, e) <==>
            && IsPermutation(Orders(e.stems)) && StemsListed(e)
            && DurationsAgree(e) && SubtitlesAgree(env, e) && StreamsAgree(e) && ReelAgrees(e)
  {
    NoIssueIff([], env, e);
    StemsListedIff(e);
    MeasuresAgreeIff(e);
    SubtitlesAgreeIff(env, e);
    ReelAgreesIff(e);
    var p := PayloadOf(e);
    assert DurationsHold(p) <==>
      && |p.timeline.stemDurationsMs| == |p.stems|
      && (forall i | 0 <= i < |p.stems| :: StemMatches(p.timeline.stemDurationsMs, p.stems[i]))
      && SumMatches(p) && Near(e.output.durationMs, e.timeline.totalDurationMs);
  }

  /**
    An accepted result lists stems in a permutation of 0..n-1, their actual
    durations sum to the timeline in listing order, the output is within 250 ms
    of that sum, and measured audio and video within 500 ms of each other.
  */
  lemma AcceptedDurations(env: Environment, e: Executed)
    requires ResultAccepted(env, e)
    ensures IsPermutation(Orders(e.stems)) && Distinct(Orders(e.stems))
    ensures var total := Sum(e.stems, (stem: Stem) => stem.actualDurationMs);
            && total == e.timeline.totalDurationMs
            && -250 <= e.output.durationMs - total <= 250
            && (e.streams.audio.Some? ==>
                  -500 <= e.streams.audio.value.durationMs - e.streams.video.durationMs <= 500)
  {
    NoIssueIff([], env, e);
    ListedStemsSumToTotal(PayloadOf(e));
    SumPointwise(e.stems, Actual, e.stems, (stem: Stem) => stem.actualDurationMs);
    StemOrderMeaning(Orders(e.stems));
  }

  /** Two stems of one second, listed last first, with the streams at opposite ends of the tolerance. */
  function EdgeCase(env: Environment): Executed {
    Executed(VERTICAL_REEL, "fit_blurred_fill", Timeline(2000, [900, 1100]), [Stem(1, 1100, "b"), Stem(0, 900, "a")],
             None, None,
             env.hash([]), None, None, Encoding(None),
             Streams(VideoStream("h264", "yuv420p", 1080, 1920, 30.0, 2250), Some(AudioStream("aac", 48000, 2, 1750))),
             Output(1750, 1080, 1920, "video/mp4"), 30.0)
  }

  /** Both bounds are reached: 250 ms for the output, 500 ms between the streams. */
  lemma TolerancesAreTight(env: Environment)
    ensures var e := EdgeCase(env);
            && ResultAccepted(env, e)
            && Distance(e.output.durationMs, Sum(e.stems, Actual)) == 250
            && Distance(e.streams.audio.value.durationMs, e.streams.video.durationMs) == 500
  {
    var e := EdgeCase(env);
    assert Orders(e.stems) == [1, 0] && Range(2) == [0, 1];
    assert Sum([900, 1100], Same) == 2000 by {
      assert [900, 1100][..1] == [900];
    }
    NoIssueIff([], env, e);
    ListedStemsSumToTotal(PayloadOf(e));
  }
}
