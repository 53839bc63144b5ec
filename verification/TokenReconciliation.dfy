/**
  Forced-alignment token reconciliation (scripts/whisperx_align.py).

  A transcript is matched against the words WhisperX measured by a bottom-up
  longest-common-subsequence table and a greedy walk through it.  The module
  proves that the walk is optimal against every monotone one-to-one matching,
  not only against the table's own recurrence.
*/
module TokenReconciliation {
  import opened Common

  /** An IEEE number as Python's comparisons see it. */
  datatype Float = Finite(r: real) | PosInf | NegInf | NaN

  predicate Less(a: Float, b: Float) {
    match (a, b)
    case (NaN, _) => false
    case (_, NaN) => false
    case (Finite(x), Finite(y)) => x < y
    case (NegInf, y) => y != NegInf
    case (x, PosInf) => x != PosInf
    case _ => false
  }

  predicate AtLeastZero(a: Float) {
    a == PosInf || (a.Finite? && a.r >= 0.0)
  }

  /** What a dictionary lookup in a collected word may produce. */
  datatype Field = Missing | PyNone | Text(text: string) | Number(number: Float) | OtherValue

  datatype Collected = NotADict | Entry(word: Field, start: Field, end: Field)

  datatype Candidate = Candidate(word: string, start: Float, end: Float)

  datatype OutputWord = OutputWord(word: string, start: Option<Float>, end: Option<Float>, aligned: bool)

  /** Unicode classification and lower-casing are parameters: every result holds for all of them. */
  datatype Normalizer = Normalizer(isAlnum: char -> bool, lower: string -> string) {

    function KeepAlnum(token: string): string {
      if token == [] then []
      else (if isAlnum(token[0]) then [token[0]] else []) + KeepAlnum(token[1..])
    }

    function Normalize(token: string): string {
      lower(KeepAlnum(token))
    }
  }

  /** Normalizing lower-cases what is left when every other character is dropped: piece by piece, in order. */
  lemma {:induction false} KeepsAlnumInOrder(nz: Normalizer, front: string, c: char, back: string)
    ensures nz.KeepAlnum(front + [c] + back) ==
            nz.KeepAlnum(front) + (if nz.isAlnum(c) then [c] else []) + nz.KeepAlnum(back)
    ensures nz.KeepAlnum("") == "" && nz.Normalize(front) == nz.lower(nz.KeepAlnum(front))
  {
    var token := front + [c] + back;
    if front == [] {
      assert token == [c] + back;
    } else {
      KeepsAlnumInOrder(nz, front[1..], c, back);
      assert token[1..] == front[1..] + [c] + back;
    }
  }

  // ----- candidate filter -----

  predicate IsValidCandidate(nz: Normalizer, c: Collected) {
    && c.Entry?
    && c.word.Text?
    && nz.Normalize(c.word.text) != ""
    && c.start.Number?
    && c.end.Number?
    && Less(c.start.number, c.end.number)
    && AtLeastZero(c.start.number)
  }

  function ToCandidate(nz: Normalizer, c: Collected): Candidate
    requires IsValidCandidate(nz, c)
  {
    Candidate(c.word.text, c.start.number, c.end.number)
  }

  function ValidCandidates(nz: Normalizer, collected: seq<Collected>): seq<Candidate> {
    if collected == [] then []
    else
      var rest := ValidCandidates(nz, collected[..|collected| - 1]);
      var last := collected[|collected| - 1];
      if IsValidCandidate(nz, last) then rest + [ToCandidate(nz, last)] else rest
  }

  /** Said of the fields: a word with a token, spoken from zero or later to a later end, which may be infinite. */
  predicate Passes(nz: Normalizer, c: Collected) {
    match c
    case Entry(Text(word), Number(Finite(start)), Number(Finite(end))) =>
      nz.Normalize(word) != "" && 0.0 <= start < end
    case Entry(Text(word), Number(Finite(start)), Number(PosInf)) =>
      nz.Normalize(word) != "" && 0.0 <= start
    case _ => false
  }

  lemma FilterMeaning(nz: Normalizer, c: Collected)
    ensures IsValidCandidate(nz, c) <==> Passes(nz, c)
  {
  }

  /** How many entries pass. */
  function PassCount(nz: Normalizer, collected: seq<Collected>): nat {
    if collected == [] then 0
    else PassCount(nz, collected[..|collected| - 1]) + if Passes(nz, collected[|collected| - 1]) then 1 else 0
  }

  /** The candidate at the position of an entry that passes is that entry's word and span. */
  ghost predicate CarriesOver(nz: Normalizer, collected: seq<Collected>, cands: seq<Candidate>, k: nat)
    requires k < |collected| && Passes(nz, collected[k])
  {
    var at := PassCount(nz, collected[..k]);
    && at < |cands| && cands[at].word == collected[k].word.text
    && cands[at].start == collected[k].start.number && cands[at].end == collected[k].end.number
  }

  /**
    The filter keeps as many candidates as entries pass, and entry k, if it
    passes, stands with its word and span behind the candidates of the
    entries before it that pass.
  */
  lemma {:induction false} FilterKeepsAll(nz: Normalizer, collected: seq<Collected>)
    ensures |ValidCandidates(nz, collected)| == PassCount(nz, collected)
    ensures forall k: nat | k < |collected| && Passes(nz, collected[k]) ::
              CarriesOver(nz, collected, ValidCandidates(nz, collected), k)
  {
    if collected != [] {
      var n: nat := |collected| - 1;
      var front, cands := collected[..n], ValidCandidates(nz, collected);
      FilterKeepsAll(nz, front);
      FilterMeaning(nz, collected[n]);
      forall k: nat | k < |collected| && Passes(nz, collected[k]) ensures CarriesOver(nz, collected, cands, k) {
        if k < n {
          assert collected[..k] == front[..k] && front[k] == collected[k];
          assert CarriesOver(nz, front, ValidCandidates(nz, front), k);
        }
      }
    }
  }

  predicate FinitePositive(a: Float) {
    a.Finite? && a.r > 0.0
  }

  /**
    A surviving candidate is finite and positive, as announced, exactly when
    it neither starts at zero nor never ends.
  */
  lemma CandidateFinitePositiveIff(nz: Normalizer, c: Collected)
    requires IsValidCandidate(nz, c)
    ensures FinitePositive(c.start.number) && FinitePositive(c.end.number)
            <==> c.start.number != Finite(0.0) && c.end.number != PosInf
  {
  }

  /** Both exceptions get through for any word that survives normalization. */
  lemma ZeroStartAndInfiniteEndAreKept(nz: Normalizer, word: string)
    requires nz.Normalize(word) != ""
    ensures var atZero := Entry(Text(word), Number(Finite(0.0)), Number(Finite(1.0)));
            var endless := Entry(Text(word), Number(Finite(1.0)), Number(PosInf));
            && ValidCandidates(nz, [atZero]) == [Candidate(word, Finite(0.0), Finite(1.0))]
            && ValidCandidates(nz, [endless]) == [Candidate(word, Finite(1.0), PosInf)]
  {
    var atZero := Entry(Text(word), Number(Finite(0.0)), Number(Finite(1.0)));
    var endless := Entry(Text(word), Number(Finite(1.0)), Number(PosInf));
    assert [atZero][..0] == [] && [endless][..0] == [];
  }

  // ----- monotone matchings -----

  /** Transcript word i is paired with candidate j. */
  datatype Pair = Pair(i: nat, j: nat)

  /** The words being reconciled: transcript tokens and surviving candidates. */
  datatype Problem = Problem(nz: Normalizer, raw: seq<string>, cands: seq<Candidate>) {

    predicate Matches(i: nat, j: nat)
      requires i < |raw| && j < |cands|
    {
      nz.Normalize(raw[i]) != "" && nz.Normalize(raw[i]) == nz.Normalize(cands[j].word)
    }

    /** A strictly monotone one-to-one pairing, on equal non-empty tokens, inside [i..] x [j..]. */
    ghost predicate IsMatching(s: seq<Pair>, i: nat, j: nat) {
      && (forall k | 0 <= k < |s| :: IsPair(s[k], i, j))
      && (forall k, l | 0 <= k < l < |s| :: s[k].i < s[l].i && s[k].j < s[l].j)
    }

    ghost predicate IsPair(pair: Pair, i: nat, j: nat) {
      i <= pair.i < |raw| && j <= pair.j < |cands| && Matches(pair.i, pair.j)
    }

    /** The table's entry: best size over the suffixes from i and j. */
    function Best(i: nat, j: nat): (r: nat)
      requires i <= |raw| && j <= |cands|
      decreases |raw| - i, |cands| - j
    {
      if i == |raw| || j == |cands| then 0
      else if Matches(i, j) then 1 + Best(i + 1, j + 1)
      else Max(Best(i + 1, j), Best(i, j + 1))
    }

    /** The pairing the greedy walk picks from (i, j); ties skip the transcript word. */
    function Walk(i: nat, j: nat): (s: seq<Pair>)
      requires i <= |raw| && j <= |cands|
      decreases |raw| - i, |cands| - j
    {
      if i == |raw| || j == |cands| then []
      else if Matches(i, j) then [Pair(i, j)] + Walk(i + 1, j + 1)
      else if Best(i + 1, j) >= Best(i, j + 1) then Walk(i + 1, j)
      else Walk(i, j + 1)
    }
  }

  /** No matching, however chosen, beats the table: the no-crossing exchange argument. */
  lemma {:induction false} BestIsUpperBound(p: Problem, s: seq<Pair>, i: nat, j: nat)
    requires i <= |p.raw| && j <= |p.cands|
    requires p.IsMatching(s, i, j)
    ensures |s| <= p.Best(i, j)
    decreases |p.raw| - i, |p.cands| - j
  {
    if s == [] { return; }
    assert p.IsPair(s[0], i, j);
    if p.Matches(i, j) {
      // Dropping the first pair leaves a matching beyond both heads.
      var rest := s[1..];
      forall k | 0 <= k < |rest|
        ensures p.IsPair(rest[k], i + 1, j + 1)
      {
        assert rest[k] == s[k + 1] && p.IsPair(s[k + 1], i, j) && p.IsPair(s[0], i, j);
        assert s[0].i < s[k + 1].i && s[0].j < s[k + 1].j;
      }
      BestIsUpperBound(p, rest, i + 1, j + 1);
    } else if s[0].i > i {
      forall k | 0 <= k < |s| ensures p.IsPair(s[k], i + 1, j) {
        assert p.IsPair(s[k], i, j) && (k > 0 ==> s[0].i < s[k].i);
      }
      BestIsUpperBound(p, s, i + 1, j);
    } else {
      // The heads do not match, so the pair starting at i starts beyond j.
      assert p.IsPair(s[0], i, j);
      forall k | 0 <= k < |s| ensures p.IsPair(s[k], i, j + 1) {
        assert p.IsPair(s[k], i, j) && (k > 0 ==> s[0].j < s[k].j);
      }
      BestIsUpperBound(p, s, i, j + 1);
    }
  }

  lemma PairInFront(p: Problem, i: nat, j: nat, rest: seq<Pair>)
    requires i < |p.raw| && j < |p.cands| && p.Matches(i, j) && p.IsMatching(rest, i + 1, j + 1)
    ensures p.IsMatching([Pair(i, j)] + rest, i, j)
  {
    var s := [Pair(i, j)] + rest;
    forall k | 0 <= k < |s| ensures p.IsPair(s[k], i, j) && (k > 0 ==> s[0].i < s[k].i && s[0].j < s[k].j) {
      if k > 0 {
        assert s[k] == rest[k - 1] && p.IsPair(rest[k - 1], i + 1, j + 1);
      }
    }
  }

  /** The walk yields a genuine matching of exactly the table's size. */
  lemma {:induction false} WalkAttainsBest(p: Problem, i: nat, j: nat)
    requires i <= |p.raw| && j <= |p.cands|
    ensures p.IsMatching(p.Walk(i, j), i, j)
    ensures |p.Walk(i, j)| == p.Best(i, j)
    decreases |p.raw| - i, |p.cands| - j
  {
    if i == |p.raw| || j == |p.cands| {
    } else if p.Matches(i, j) {
      WalkAttainsBest(p, i + 1, j + 1);
      PairInFront(p, i, j, p.Walk(i + 1, j + 1));
    } else if p.Best(i + 1, j) >= p.Best(i, j + 1) {
      WalkAttainsBest(p, i + 1, j);
      MatchingWidens(p, p.Walk(i + 1, j), i + 1, j, i, j);
    } else {
      WalkAttainsBest(p, i, j + 1);
      MatchingWidens(p, p.Walk(i, j + 1), i, j + 1, i, j);
    }
  }

  lemma MatchingWidens(p: Problem, s: seq<Pair>, i: nat, j: nat, i': nat, j': nat)
    requires p.IsMatching(s, i, j) && i' <= i && j' <= j
    ensures p.IsMatching(s, i', j')
  {
    forall k | 0 <= k < |s| ensures p.IsPair(s[k], i', j') {
      assert p.IsPair(s[k], i, j);
    }
  }

  // ----- output assembly -----

  /** The candidate paired with transcript word idx, if any. */
  function PartnerOf(s: seq<Pair>, idx: nat): Option<nat> {
    if s == [] then None
    else if s[0].i == idx then Some(s[0].j)
    else PartnerOf(s[1..], idx)
  }

  function Render(raw: string, partner: Option<Candidate>): OutputWord {
    match partner
    case Some(c) => OutputWord(raw, Some(c.start), Some(c.end), true)
    case None => OutputWord(raw, None, None, false)
  }

  function AlignedCount(output: seq<OutputWord>): nat {
    if output == [] then 0
    else AlignedCount(output[..|output| - 1]) + (if output[|output| - 1].aligned then 1 else 0)
  }

  /** Output words are the transcript, each carrying its partner's span in s or no span at all. */
  ghost predicate Describes(p: Problem, s: seq<Pair>, output: seq<OutputWord>) {
    && |output| == |p.raw|
    && (forall i | 0 <= i < |output| :: output[i].word == p.raw[i])
    && (forall k | 0 <= k < |s| ::
          s[k].i < |output| && s[k].j < |p.cands|
          && output[s[k].i] == OutputWord(p.raw[s[k].i], Some(p.cands[s[k].j].start), Some(p.cands[s[k].j].end), true))
    && (forall i | 0 <= i < |output| && (forall k | 0 <= k < |s| :: s[k].i != i) ::
          output[i] == OutputWord(p.raw[i], None, None, false))
  }

  /** Counting the aligned words of a described output counts the pairs of the matching. */
  lemma {:induction false} AlignedCountIsMatchingSize(p: Problem, s: seq<Pair>, output: seq<OutputWord>, n: nat)
    requires p.IsMatching(s, 0, 0) && Describes(p, s, output)
    requires n <= |output|
    ensures AlignedCount(output[..n]) == PairsBelow(s, n)
  {
    if n == 0 {
      PairsBelowZero(s);
    } else {
      AlignedCountIsMatchingSize(p, s, output, n - 1);
      assert output[..n][..n - 1] == output[..n - 1];
      PairsBelowStep(s, n - 1);
      AlignedIffPaired(p, s, output, n - 1);
    }
  }

  lemma AlignedIffPaired(p: Problem, s: seq<Pair>, output: seq<OutputWord>, i: nat)
    requires Describes(p, s, output) && i < |output|
    ensures output[i].aligned <==> exists k | 0 <= k < |s| :: s[k].i == i
  {
    if k :| 0 <= k < |s| && s[k].i == i {
      assert output[s[k].i].aligned;
    }
  }

  /** How many pairs of s start below n. */
  function PairsBelow(s: seq<Pair>, n: nat): nat {
    if s == [] then 0
    else PairsBelow(s[..|s| - 1], n) + (if s[|s| - 1].i < n then 1 else 0)
  }

  lemma PairsBelowZero(s: seq<Pair>)
    ensures PairsBelow(s, 0) == 0
  {
  }

  lemma {:induction false} PairsBelowAll(s: seq<Pair>, n: nat)
    requires forall k | 0 <= k < |s| :: s[k].i < n
    ensures PairsBelow(s, n) == |s|
  {
    if s != [] { PairsBelowAll(s[..|s| - 1], n); }
  }

  lemma {:induction false} PairsBelowStep(s: seq<Pair>, n: nat)
    requires forall k, l | 0 <= k < l < |s| :: s[k].i < s[l].i
    ensures PairsBelow(s, n + 1) == PairsBelow(s, n) + (if exists k | 0 <= k < |s| :: s[k].i == n then 1 else 0)
  {
    if s != [] {
      var front := s[..|s| - 1];
      PairsBelowStep(front, n);
      if s[|s| - 1].i == n {
        assert forall k | 0 <= k < |front| :: front[k].i != n;
      } else if k :| 0 <= k < |s| && s[k].i == n {
        assert front[k].i == n;
      }
    }
  }

  lemma {:induction false} PartnerOfPair(s: seq<Pair>, k: nat)
    requires k < |s|
    requires forall a, b | 0 <= a < b < |s| :: s[a].i < s[b].i
    ensures PartnerOf(s, s[k].i) == Some(s[k].j)
  {
    if k > 0 {
      assert s[0].i < s[k].i;
      PartnerOfPair(s[1..], k - 1);
    }
  }

  lemma {:induction false} PartnerOfNobody(s: seq<Pair>, idx: nat)
    requires forall k | 0 <= k < |s| :: s[k].i != idx
    ensures PartnerOf(s, idx) == None
  {
    if s != [] { PartnerOfNobody(s[1..], idx); }
  }

  // ----- the program -----

  /**
    reconcile_tokens: filter, fill the table, walk it, render.  The output is
    the transcript word for word; its aligned words are exactly those of a
    monotone matching, no monotone matching is larger, and the one chosen is
    the greedy walk's.
  */
  method ReconcileTokens(nz: Normalizer, rawWords: seq<string>, collected: seq<Collected>)
    returns (output: seq<OutputWord>)
    ensures var p := Problem(nz, rawWords, ValidCandidates(nz, collected));
            && p.IsMatching(p.Walk(0, 0), 0, 0)
            && Describes(p, p.Walk(0, 0), output)
            && AlignedCount(output) == |p.Walk(0, 0)|
            && (forall s | p.IsMatching(s, 0, 0) :: |s| <= AlignedCount(output))
  {
    var cands := FilterCandidates(nz, collected);
    var dp := FillTable(nz, rawWords, cands);
    var matches := Backtrack(nz, rawWords, cands, dp);
    output := AssembleOutput(rawWords, matches);
    WalkIsOptimal(Problem(nz, rawWords, cands), matches, output);
  }

  method AssembleOutput(rawWords: seq<string>, matches: map<nat, Candidate>) returns (output: seq<OutputWord>)
    ensures output == RenderAll(rawWords, matches)
  {
    output := [];
    for idx := 0 to |rawWords|
      invariant output == RenderAll(rawWords, matches)[..idx]
    {
      if idx in matches {
        var cand := matches[idx];
        output := output + [OutputWord(rawWords[idx], Some(cand.start), Some(cand.end), true)];
      } else {
        output := output + [OutputWord(rawWords[idx], None, None, false)];
      }
    }
  }

  function RenderAll(rawWords: seq<string>, matches: map<nat, Candidate>): seq<OutputWord> {
    seq(|rawWords|, i requires 0 <= i < |rawWords| =>
      Render(rawWords[i], if i in matches then Some(matches[i]) else None))
  }

  /** What the walk's dictionary renders to is described by an optimal matching. */
  lemma WalkIsOptimal(p: Problem, matches: map<nat, Candidate>, output: seq<OutputWord>)
    requires HoldsWalk(p, p.Walk(0, 0), matches)
    requires output == RenderAll(p.raw, matches)
    ensures p.IsMatching(p.Walk(0, 0), 0, 0)
    ensures Describes(p, p.Walk(0, 0), output)
    ensures AlignedCount(output) == |p.Walk(0, 0)|
    ensures forall s | p.IsMatching(s, 0, 0) :: |s| <= AlignedCount(output)
  {
    var walk := p.Walk(0, 0);
    WalkAttainsBest(p, 0, 0);
    DescribedByWalk(p, walk, matches, output);
    AlignedCountIsMatchingSize(p, walk, output, |output|);
    forall k | 0 <= k < |walk| ensures walk[k].i < |output| {
      assert p.IsPair(walk[k], 0, 0);
    }
    PairsBelowAll(walk, |output|);
    assert output[..|output|] == output;
    forall s | p.IsMatching(s, 0, 0) ensures |s| <= AlignedCount(output) {
      BestIsUpperBound(p, s, 0, 0);
    }
  }

  /** The dictionary built by the walk, read back as the walk's pairing. */
  ghost predicate HoldsWalk(p: Problem, s: seq<Pair>, matches: map<nat, Candidate>) {
    && (forall k | 0 <= k < |s| :: s[k].j < |p.cands|)
    && (forall i: nat {:trigger i in matches} ::
          i in matches <==> PartnerOf(s, i).Some?)
    && (forall i: nat | i in matches ::
          PartnerOf(s, i).Some? && PartnerOf(s, i).value < |p.cands| && matches[i] == p.cands[PartnerOf(s, i).value])
  }

  lemma DescribedByWalk(p: Problem, s: seq<Pair>, matches: map<nat, Candidate>, output: seq<OutputWord>)
    requires HoldsWalk(p, s, matches)
    requires p.IsMatching(s, 0, 0)
    requires output == RenderAll(p.raw, matches)
    ensures Describes(p, s, output)
  {
    forall k | 0 <= k < |s|
      ensures s[k].i < |output| && output[s[k].i] == Render(p.raw[s[k].i], Some(p.cands[s[k].j])) {
      assert p.IsPair(s[k], 0, 0);
      PartnerOfPair(s, k);
      assert s[k].i in matches;
    }
    forall i | 0 <= i < |output| && (forall k | 0 <= k < |s| :: s[k].i != i)
      ensures output[i] == Render(p.raw[i], None)
    {
      PartnerOfNobody(s, i);
      assert i !in matches;
    }
  }

  method FilterCandidates(nz: Normalizer, collected: seq<Collected>) returns (cands: seq<Candidate>)
    ensures cands == ValidCandidates(nz, collected)
    ensures |cands| == PassCount(nz, collected)
    ensures forall k: nat | k < |collected| && Passes(nz, collected[k]) :: CarriesOver(nz, collected, cands, k)
  {
    FilterKeepsAll(nz, collected);
    cands := [];
    for k := 0 to |collected|
      invariant cands == ValidCandidates(nz, collected[..k])
    {
      var c := collected[k];
      assert collected[..k + 1][..k] == collected[..k];
      if IsValidCandidate(nz, c) {
        cands := cands + [ToCandidate(nz, c)];
      }
    }
    assert collected[..|collected|] == collected;
  }

  /** Rows i and beyond of the table are final. */
  ghost predicate RowsDone(p: Problem, dp: array2<nat>, i: nat)
    reads dp
  {
    && dp.Length0 == |p.raw| + 1 && dp.Length1 == |p.cands| + 1
    && (forall a, b {:trigger dp[a, b]} | i <= a <= |p.raw| && 0 <= b <= |p.cands| :: dp[a, b] == p.Best(a, b))
  }

  /** The bottom-up table, rows filled from the far end. */
  method FillTable(nz: Normalizer, raw: seq<string>, cands: seq<Candidate>) returns (dp: array2<nat>)
    ensures fresh(dp) && RowsDone(Problem(nz, raw, cands), dp, 0)
  {
    ghost var p := Problem(nz, raw, cands);
    dp := new nat[|raw| + 1, |cands| + 1]((_, _) => 0);
    var i := |raw|;
    while i > 0
      invariant 0 <= i <= |raw|
      invariant RowsDone(p, dp, i)
      invariant forall a | 0 <= a <= |raw| :: dp[a, |cands|] == 0
    {
      i := i - 1;
      FillRow(nz, raw, cands, dp, i);
    }
  }

  /** One row, columns filled from the far end. */
  method FillRow(nz: Normalizer, raw: seq<string>, cands: seq<Candidate>, dp: array2<nat>, i: nat)
    requires i < |raw|
    requires RowsDone(Problem(nz, raw, cands), dp, i + 1)
    requires forall a | 0 <= a <= |raw| :: dp[a, |cands|] == 0
    modifies dp
    ensures RowsDone(Problem(nz, raw, cands), dp, i)
    ensures forall a | 0 <= a <= |raw| :: dp[a, |cands|] == 0
  {
    ghost var p := Problem(nz, raw, cands);
    var cleanRaw := nz.Normalize(raw[i]);
    var j := |cands|;
    while j > 0
      invariant 0 <= j <= |cands|
      invariant RowsDone(p, dp, i + 1)
      invariant forall b {:trigger dp[i, b]} | j <= b <= |cands| :: dp[i, b] == p.Best(i, b)
      invariant forall a | 0 <= a <= |raw| :: dp[a, |cands|] == 0
    {
      j := j - 1;
      var cleanCand := nz.Normalize(cands[j].word);
      if cleanRaw != "" && cleanRaw == cleanCand {
        dp[i, j] := 1 + dp[i + 1, j + 1];
      } else {
        dp[i, j] := Max(dp[i + 1, j], dp[i, j + 1]);
      }
    }
  }

  /** The greedy walk; what is matched so far plus what the table still promises is constant. */
  method Backtrack(nz: Normalizer, raw: seq<string>, cands: seq<Candidate>, dp: array2<nat>)
    returns (matches: map<nat, Candidate>)
    requires RowsDone(Problem(nz, raw, cands), dp, 0)
    ensures var p := Problem(nz, raw, cands); HoldsWalk(p, p.Walk(0, 0), matches)
    ensures |matches| == dp[0, 0]
  {
    ghost var p := Problem(nz, raw, cands);
    matches := map[];
    var i, j := 0, 0;
    ghost var done: seq<Pair> := [];
    assert done + p.Walk(0, 0) == p.Walk(0, 0);
    while i < |raw| && j < |cands|
      invariant Walked(p, done, matches, i, j)
      decreases |raw| - i + |cands| - j
    {
      var cleanRaw := nz.Normalize(raw[i]);
      var cleanCand := nz.Normalize(cands[j].word);
      if cleanRaw != "" && cleanRaw == cleanCand && dp[i, j] == 1 + dp[i + 1, j + 1] {
        TakePair(p, done, matches, i, j);
        matches := matches[i := cands[j]];
        done := done + [Pair(i, j)];
        i, j := i + 1, j + 1;
      } else if dp[i + 1, j] >= dp[i, j + 1] {
        SkipOne(p, done, matches, i, j);
        i := i + 1;
      } else {
        SkipOne(p, done, matches, i, j);
        j := j + 1;
      }
    }
    WalkEnds(p, done, matches, i, j);
  }

  lemma WalkEnds(p: Problem, done: seq<Pair>, matches: map<nat, Candidate>, i: nat, j: nat)
    requires Walked(p, done, matches, i, j) && (i == |p.raw| || j == |p.cands|)
    ensures HoldsWalk(p, p.Walk(0, 0), matches) && |matches| == p.Best(0, 0)
  {
    assert done + p.Walk(i, j) == done;
  }

  /** The walk stands at (i, j): what is matched plus what the table still promises is the optimum. */
  ghost predicate Walked(p: Problem, done: seq<Pair>, matches: map<nat, Candidate>, i: nat, j: nat) {
    && i <= |p.raw| && j <= |p.cands|
    && done + p.Walk(i, j) == p.Walk(0, 0)
    && HoldsWalk(p, done, matches)
    && (forall k | 0 <= k < |done| :: done[k].i < i)
    && |matches| + p.Best(i, j) == p.Best(0, 0)
  }

  lemma TakePair(p: Problem, done: seq<Pair>, matches: map<nat, Candidate>, i: nat, j: nat)
    requires Walked(p, done, matches, i, j)
    requires i < |p.raw| && j < |p.cands| && p.Matches(i, j)
    ensures Walked(p, done + [Pair(i, j)], matches[i := p.cands[j]], i + 1, j + 1)
    ensures p.Best(i, j) == 1 + p.Best(i + 1, j + 1)
  {
    assert (done + [Pair(i, j)]) + p.Walk(i + 1, j + 1) == done + p.Walk(i, j);
    PartnerOfNobody(done, i);
    PartnerAppended(done, i, j);
    assert i !in matches;
  }

  lemma SkipOne(p: Problem, done: seq<Pair>, matches: map<nat, Candidate>, i: nat, j: nat)
    requires Walked(p, done, matches, i, j)
    requires i < |p.raw| && j < |p.cands|
    ensures p.Matches(i, j) ==> p.Best(i, j) == 1 + p.Best(i + 1, j + 1)
    ensures !p.Matches(i, j) ==>
              if p.Best(i + 1, j) >= p.Best(i, j + 1) then Walked(p, done, matches, i + 1, j)
              else Walked(p, done, matches, i, j + 1)
  {
  }

  /** Appending a pair for a fresh transcript word adds that partner and no other. */
  lemma {:induction false} PartnerAppended(s: seq<Pair>, i: nat, j: nat)
    requires PartnerOf(s, i) == None
    ensures forall x: nat :: PartnerOf(s + [Pair(i, j)], x) == if x == i then Some(j) else PartnerOf(s, x)
  {
    var t := s + [Pair(i, j)];
    if s == [] {
      assert t == [Pair(i, j)];
    } else {
      PartnerAppended(s[1..], i, j);
      assert t[1..] == s[1..] + [Pair(i, j)];
    }
  }
}
