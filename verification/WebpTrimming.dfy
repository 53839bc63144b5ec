/**
  Trailing-chunk trimming of animated WebP files (scripts/extract_webp_frames.py).

  The script walks the RIFF chunks behind a 12-byte header, cuts the buffer
  after the last ANMF chunk and rewrites the RIFF size field in place.  The
  walk is specified on arbitrary bytes; on well-formed files (section 2.3 of
  RFC 9649) it is proved to keep exactly the chunks up to the last ANMF.
*/
module WebpTrimming {
  import opened Common

  newtype byte = x: int | 0 <= x < 256

  const HEADER_SIZE: nat := 12
  const SIZE_LIMIT: nat := 0x1_0000_0000

  // ----- little-endian words -----

  function LittleEndian(b: seq<byte>): (n: nat)
    requires |b| == 4
    ensures n < SIZE_LIMIT
  {
    b[0] as nat + 0x100 * b[1] as nat + 0x1_0000 * b[2] as nat + 0x100_0000 * b[3] as nat
  }

  function ToLittleEndian(n: nat): (b: seq<byte>)
    requires n < SIZE_LIMIT
    ensures |b| == 4
  {
    [(n % 0x100) as byte, (n / 0x100 % 0x100) as byte, (n / 0x1_0000 % 0x100) as byte, (n / 0x100_0000) as byte]
  }

  lemma WordRoundTrip(n: nat)
    requires n < SIZE_LIMIT
    ensures LittleEndian(ToLittleEndian(n)) == n
  {
    var q := n / 0x100;
    assert q / 0x100 == n / 0x1_0000;
    assert q / 0x1_0000 == n / 0x100_0000;
    assert n == 0x100 * q + n % 0x100;
    assert q == 0x100 * (q / 0x100) + q % 0x100;
    assert q / 0x100 == 0x100 * (q / 0x1_0000) + q / 0x100 % 0x100;
  }

  // ----- the walk, on arbitrary bytes -----

  function FourCc(b: seq<byte>, offset: nat): seq<byte>
    requires offset + 8 <= |b|
  {
    b[offset..offset + 4]
  }

  const ANMF: seq<byte> := [0x41, 0x4E, 0x4D, 0x46]

  /** Header, payload and the pad byte of an odd-sized payload. */
  function ChunkEnd(b: seq<byte>, offset: nat): (end: nat)
    requires offset + 8 <= |b|
    ensures end >= offset + 8
  {
    var size := LittleEndian(b[offset + 4..offset + 8]);
    offset + 8 + size + size % 2
  }

  /** Where the walk from offset leaves last_anmf_end. */
  function LastAnmfEnd(b: seq<byte>, offset: nat, last: nat): nat
    decreases |b| - offset
  {
    if offset + 8 > |b| then last
    else LastAnmfEnd(b, ChunkEnd(b, offset), if FourCc(b, offset) == ANMF then ChunkEnd(b, offset) else last)
  }

  /**
    A chunk in the buffer, byte by byte: four characters, which are A, N, M, F
    for a frame, the payload size with its lowest byte first, the payload, and
    a pad byte behind an odd one.  The first chunk stands behind twelve bytes.
  */
  lemma ChunkLayout(b: seq<byte>, offset: nat)
    requires offset + 8 <= |b|
    ensures HEADER_SIZE == 12
    ensures FourCc(b, offset) == ANMF <==>
            && b[offset] as int == 'A' as int && b[offset + 1] as int == 'N' as int
            && b[offset + 2] as int == 'M' as int && b[offset + 3] as int == 'F' as int
    ensures var size := b[offset + 4] as int + 256 * b[offset + 5] as int + 65536 * b[offset + 6] as int
                        + 16777216 * b[offset + 7] as int;
            ChunkEnd(b, offset) == offset + 8 + (if size % 2 == 1 then size + 1 else size)
  {
    var tag := FourCc(b, offset);
    assert tag == [b[offset], b[offset + 1], b[offset + 2], b[offset + 3]];
    assert tag == ANMF <==> tag[0] == 0x41 && tag[1] == 0x4E && tag[2] == 0x4D && tag[3] == 0x46;
  }

  datatype TrimError = SizeNotRepresentable

  /** Bytes 4..8 replaced by the RIFF size of the buffer. */
  function Resized(b: seq<byte>): seq<byte>
    requires 8 <= |b| < SIZE_LIMIT + 8
  {
    b[..4] + ToLittleEndian(|b| - 8) + b[8..]
  }

  function Kept(b: seq<byte>): seq<byte> {
    b[..Min(LastAnmfEnd(b, HEADER_SIZE, |b|), |b|)]
  }

  function Trimmed(b: seq<byte>): Result<seq<byte>, TrimError> {
    var kept := Kept(b);
    if 8 <= |kept| < SIZE_LIMIT + 8 then Ok(Resized(kept)) else Err(SizeNotRepresentable)
  }

  /** Trimming fails exactly when the kept bytes are fewer than eight, or too many for a 32-bit size. */
  lemma TrimFailsIff(b: seq<byte>)
    ensures Trimmed(b).Err? <==> |Kept(b)| < 8 || |Kept(b)| - 8 >= 4294967296
    ensures |b| < 20 ==> Kept(b) == b
  {
  }

  /** The script's chunk walk. */
  method FindLastAnmfEnd(buf: array<byte>) returns (lastAnmfEnd: nat)
    ensures lastAnmfEnd == LastAnmfEnd(buf[..], HEADER_SIZE, buf.Length)
  {
    ghost var b := buf[..];
    var offset := HEADER_SIZE;
    lastAnmfEnd := buf.Length;
    while offset + 8 <= buf.Length
      invariant LastAnmfEnd(b, offset, lastAnmfEnd) == LastAnmfEnd(b, HEADER_SIZE, buf.Length)
      decreases buf.Length - offset
    {
      var fourcc := buf[offset..offset + 4];
      var word := buf[offset + 4..offset + 8];
      assert fourcc == FourCc(b, offset) && word == b[offset + 4..offset + 8];
      var size := LittleEndian(word);
      var chunkEnd := offset + 8 + size + size % 2;
      if fourcc == ANMF {
        lastAnmfEnd := chunkEnd;
      }
      offset := chunkEnd;
    }
  }

  /** A fresh buffer, cut behind the last ANMF chunk and then overwritten at bytes 4..8. */
  method TrimTrailingChunks(buf: array<byte>) returns (r: Result<array<byte>, TrimError>)
    ensures r.Err? <==> Trimmed(buf[..]).Err?
    ensures r.Ok? ==> fresh(r.value) && Trimmed(buf[..]) == Ok(r.value[..])
  {
    var lastAnmfEnd := FindLastAnmfEnd(buf);
    // A slice bound beyond the end is clamped.
    var kept := Min(lastAnmfEnd, buf.Length);
    if kept < 8 || kept - 8 >= SIZE_LIMIT {
      return Err(SizeNotRepresentable);
    }
    var clean := new byte[kept](i requires 0 <= i < kept <= buf.Length reads buf => buf[i]);
    assert clean[..] == Kept(buf[..]);
    var word := ToLittleEndian(kept - 8);
    clean[4], clean[5], clean[6], clean[7] := word[0], word[1], word[2], word[3];
    assert clean[..] == Resized(Kept(buf[..]));
    r := Ok(clean);
  }

  /** The size field is right and nothing else was touched, on any buffer that trims at all. */
  lemma TrimmedIsResizedPrefix(b: seq<byte>)
    requires Trimmed(b).Ok?
    ensures var t := Trimmed(b).value;
            && 8 <= |t| <= |b|
            && LittleEndian(t[4..8]) == |t| - 8
            && t[..4] == b[..4] && t[8..] == b[8..|t|]
  {
    var t := Trimmed(b).value;
    WordRoundTrip(|t| - 8);
    assert t[4..8] == ToLittleEndian(|t| - 8);
  }

  // ----- well-formed files -----

  /** A RIFF chunk; the format asks for one pad byte behind an odd-sized payload. */
  datatype Chunk = Chunk(fourcc: seq<byte>, payload: seq<byte>, pad: seq<byte>) {
    ghost predicate WellFormed() {
      |fourcc| == 4 && |payload| < SIZE_LIMIT && |pad| == |payload| % 2
    }
  }

  function Encode(c: Chunk): seq<byte>
    requires c.WellFormed()
  {
    c.fourcc + ToLittleEndian(|c.payload|) + c.payload + c.pad
  }

  ghost predicate AllWellFormed(cs: seq<Chunk>) {
    forall c | c in cs :: c.WellFormed()
  }

  function EncodeAll(cs: seq<Chunk>): seq<byte>
    requires AllWellFormed(cs)
  {
    if cs == [] then [] else Encode(cs[0]) + EncodeAll(cs[1..])
  }

  ghost predicate HasNoAnmf(cs: seq<Chunk>) {
    forall c | c in cs :: c.fourcc != ANMF
  }

  /** Chunk n - 1 is the last ANMF. */
  ghost predicate EndsAtLastAnmf(cs: seq<Chunk>, n: nat) {
    0 < n <= |cs| && cs[n - 1].fourcc == ANMF && HasNoAnmf(cs[n..])
  }

  /** How many chunks to keep: those up to the last ANMF, or all when there is none. */
  ghost function KeepCount(cs: seq<Chunk>): (n: nat)
    ensures n <= |cs|
    ensures EndsAtLastAnmf(cs, n) || (HasNoAnmf(cs) && n == |cs|)
  {
    if HasNoAnmf(cs) then |cs| else LastAnmfCount(cs)
  }

  ghost function LastAnmfCount(cs: seq<Chunk>): (n: nat)
    requires !HasNoAnmf(cs)
    ensures EndsAtLastAnmf(cs, n)
  {
    var front := cs[..|cs| - 1];
    if cs[|cs| - 1].fourcc == ANMF then |cs|
    else
      assert cs == front + [cs[|cs| - 1]];
      var n := LastAnmfCount(front);
      assert cs[n..] == front[n..] + [cs[|cs| - 1]];
      n
  }

  /** Reading one encoded chunk back at its offset. */
  lemma ReadsChunk(pre: seq<byte>, c: Chunk, post: seq<byte>)
    requires c.WellFormed()
    ensures var b := pre + Encode(c) + post;
            && |pre| + 8 <= |b|
            && FourCc(b, |pre|) == c.fourcc
            && ChunkEnd(b, |pre|) == |pre + Encode(c)|
  {
    var b := pre + Encode(c) + post;
    WordRoundTrip(|c.payload|);
    assert b[|pre|..|pre| + 4] == c.fourcc;
    assert b[|pre| + 4..|pre| + 8] == ToLittleEndian(|c.payload|);
  }

  lemma WellFormedSplit(cs: seq<Chunk>, n: nat)
    requires AllWellFormed(cs) && n <= |cs|
    ensures AllWellFormed(cs[..n]) && AllWellFormed(cs[n..])
  {
  }

  lemma EncodeFirst(cs: seq<Chunk>)
    requires AllWellFormed(cs) && cs != []
    ensures AllWellFormed(cs[1..]) && EncodeAll(cs) == Encode(cs[0]) + EncodeAll(cs[1..])
  {
  }

  lemma SliceTail<T>(xs: seq<T>, n: nat)
    requires 0 < n <= |xs|
    ensures xs[..n][0] == xs[0] && xs[..n][1..] == xs[1..][..n - 1] && xs[1..][n - 1..] == xs[n..]
  {
  }

  lemma ConcatAssociates<T>(xs: seq<T>, ys: seq<T>, zs: seq<T>)
    ensures xs + (ys + zs) == (xs + ys) + zs
  {
  }

  lemma {:induction false} EncodeAllSplit(cs: seq<Chunk>, n: nat)
    requires AllWellFormed(cs) && n <= |cs|
    ensures AllWellFormed(cs[..n]) && AllWellFormed(cs[n..])
    ensures EncodeAll(cs) == EncodeAll(cs[..n]) + EncodeAll(cs[n..])
  {
    WellFormedSplit(cs, n);
    if n == 0 {
      assert cs[..0] == [] && cs[0..] == cs;
    } else {
      EncodeFirst(cs);
      EncodeFirst(cs[..n]);
      EncodeAllSplit(cs[1..], n - 1);
      SliceTail(cs, n);
      ConcatAssociates(Encode(cs[0]), EncodeAll(cs[..n][1..]), EncodeAll(cs[n..]));
    }
  }

  /** Walking chunks none of which is ANMF moves nothing. */
  lemma {:induction false} WalkWithoutAnmf(pre: seq<byte>, cs: seq<Chunk>, last: nat)
    requires AllWellFormed(cs) && HasNoAnmf(cs)
    ensures LastAnmfEnd(pre + EncodeAll(cs), |pre|, last) == last
    decreases |cs|
  {
    if cs == [] {
    } else {
      var rest := EncodeAll(cs[1..]);
      assert pre + EncodeAll(cs) == pre + Encode(cs[0]) + rest;
      ReadsChunk(pre, cs[0], rest);
      assert AllWellFormed(cs[1..]) && HasNoAnmf(cs[1..]);
      WalkWithoutAnmf(pre + Encode(cs[0]), cs[1..], last);
    }
  }

  /** Walking chunks whose last ANMF is number n - 1 leaves its end. */
  lemma {:induction false} WalkToLastAnmf(pre: seq<byte>, cs: seq<Chunk>, n: nat, last: nat)
    requires AllWellFormed(cs) && EndsAtLastAnmf(cs, n)
    ensures AllWellFormed(cs[..n])
    ensures LastAnmfEnd(pre + EncodeAll(cs), |pre|, last) == |pre| + |EncodeAll(cs[..n])|
    decreases n
  {
    var head, rest := Encode(cs[0]), EncodeAll(cs[1..]);
    assert pre + EncodeAll(cs) == pre + head + rest;
    ReadsChunk(pre, cs[0], rest);
    if n == 1 {
      WalkWithoutAnmf(pre + head, cs[1..], |pre + head|);
      assert cs[..1] == [cs[0]] && EncodeAll([cs[0]]) == head + [];
    } else {
      var tail := cs[1..];
      assert tail[n - 1..] == cs[n..];
      WalkToLastAnmf(pre + head, tail, n - 1, if cs[0].fourcc == ANMF then |pre + head| else last);
      assert cs[..n][1..] == tail[..n - 1];
    }
  }

  /** A well-formed file keeps exactly its chunks up to the last ANMF, or all of them. */
  lemma KeepsChunksToLastAnmf(header: seq<byte>, cs: seq<Chunk>)
    requires |header| == HEADER_SIZE && AllWellFormed(cs)
    ensures AllWellFormed(cs[..KeepCount(cs)])
    ensures Kept(header + EncodeAll(cs)) == header + EncodeAll(cs[..KeepCount(cs)])
  {
    var b, n := header + EncodeAll(cs), KeepCount(cs);
    EncodeAllSplit(cs, n);
    if HasNoAnmf(cs) {
      WalkWithoutAnmf(header, cs, |b|);
      assert cs[..n] == cs;
    } else {
      WalkToLastAnmf(header, cs, n, |b|);
    }
  }

  /**
    Trimming a well-formed file yields the well-formed file of the kept
    chunks behind a header with the right size; it fails exactly when that
    size does not fit the header field.
  */
  lemma TrimmedIsWellFormed(header: seq<byte>, cs: seq<Chunk>)
    requires |header| == HEADER_SIZE && AllWellFormed(cs)
    ensures AllWellFormed(cs[..KeepCount(cs)])
    ensures var body := EncodeAll(cs[..KeepCount(cs)]);
            if |body| + 4 < SIZE_LIMIT
            then Trimmed(header + EncodeAll(cs)) == Ok(header[..4] + ToLittleEndian(|body| + 4) + header[8..] + body)
            else Trimmed(header + EncodeAll(cs)).Err?
  {
    KeepsChunksToLastAnmf(header, cs);
    var body := EncodeAll(cs[..KeepCount(cs)]);
    assert (header + body)[..4] == header[..4] && (header + body)[8..] == header[8..] + body;
    if |body| + 4 < SIZE_LIMIT {
      assert Resized(header + body) == header[..4] + ToLittleEndian(|body| + 4) + header[8..] + body;
    }
  }

  function Frames(cs: seq<Chunk>): seq<Chunk> {
    if cs == [] then []
    else Frames(cs[..|cs| - 1]) + (if cs[|cs| - 1].fourcc == ANMF then [cs[|cs| - 1]] else [])
  }

  /** No frame is lost: the kept chunks have the same ANMF chunks in the same order. */
  lemma FramesArePreserved(cs: seq<Chunk>)
    ensures Frames(cs[..KeepCount(cs)]) == Frames(cs)
  {
    if HasNoAnmf(cs) {
      assert cs[..KeepCount(cs)] == cs;
    } else {
      FramesUpToLast(cs, KeepCount(cs));
    }
  }

  lemma {:induction false} FramesUpToLast(cs: seq<Chunk>, n: nat)
    requires n <= |cs| && HasNoAnmf(cs[n..])
    ensures Frames(cs[..n]) == Frames(cs)
  {
    if n == |cs| {
      assert cs[..n] == cs;
    } else {
      var front := cs[..|cs| - 1];
      assert front[..n] == cs[..n];
      assert cs[n..] == front[n..] + [cs[|cs| - 1]];
      FramesUpToLast(front, n);
    }
  }

  // ----- trimming twice -----

  /** The walk sees only bytes at or behind its offset. */
  lemma {:induction false} WalkIgnoresHeader(b: seq<byte>, c: seq<byte>, offset: nat, last: nat)
    requires |b| == |c| && 8 <= offset && 8 <= |b| && b[8..] == c[8..]
    ensures LastAnmfEnd(b, offset, last) == LastAnmfEnd(c, offset, last)
    decreases |b| - offset
  {
    if offset + 8 <= |b| {
      assert forall k | 8 <= k < |b| :: b[k] == b[8..][k - 8] && c[k] == c[8..][k - 8];
      assert b[offset..offset + 4] == c[offset..offset + 4];
      assert b[offset + 4..offset + 8] == c[offset + 4..offset + 8];
      WalkIgnoresHeader(b, c, ChunkEnd(b, offset), if FourCc(b, offset) == ANMF then ChunkEnd(b, offset) else last);
    }
  }

  /** The walk's answer is its start value or the end of a chunk it visited. */
  lemma {:induction false} WalkResultBound(b: seq<byte>, offset: nat, last: nat)
    ensures LastAnmfEnd(b, offset, last) == last || LastAnmfEnd(b, offset, last) >= offset + 8
    decreases |b| - offset
  {
    if offset + 8 <= |b| {
      WalkResultBound(b, ChunkEnd(b, offset), if FourCc(b, offset) == ANMF then ChunkEnd(b, offset) else last);
    }
  }

  /** Cutting at the walk's answer leaves the walk's answer unchanged. */
  lemma {:induction false} WalkAfterCut(b: seq<byte>, offset: nat, last: nat, cut: nat)
    requires cut <= |b| && offset <= cut
    requires cut == LastAnmfEnd(b, offset, last)
    ensures LastAnmfEnd(b[..cut], offset, last) == cut
    decreases |b| - offset
  {
    if offset + 8 > |b| {
    } else {
      var end := ChunkEnd(b, offset);
      var next := if FourCc(b, offset) == ANMF then end else last;
      WalkResultBound(b, end, next);
      if offset + 8 <= cut {
        assert b[..cut][offset..offset + 4] == b[offset..offset + 4];
        assert b[..cut][offset + 4..offset + 8] == b[offset + 4..offset + 8];
        if end <= cut {
          WalkAfterCut(b, end, next, cut);
        } else {
          assert LastAnmfEnd(b[..cut], end, next) == next;
        }
      } else {
        assert cut == last;
      }
    }
  }

  /** Trimming is idempotent on every buffer, well-formed or not. */
  lemma TrimmingIsIdempotent(b: seq<byte>)
    requires Trimmed(b).Ok?
    ensures Trimmed(Trimmed(b).value) == Trimmed(b)
  {
    var t := Trimmed(b).value;
    var kept := Kept(b);
    var end := LastAnmfEnd(b, HEADER_SIZE, |b|);
    TrimmedIsResizedPrefix(b);
    assert t[8..] == kept[8..];
    WalkResultBound(b, HEADER_SIZE, |b|);
    WalkIgnoresHeader(kept, t, HEADER_SIZE, |t|);
    if end >= |b| {
      assert kept == b;
    } else {
      WalkStartIsIrrelevant(b, HEADER_SIZE, |b|, end);
      WalkAfterCut(b, HEADER_SIZE, end, end);
    }
    assert Kept(t) == t;
    assert Resized(t) == t;
  }

  /** Starting the walk at its own answer gives that answer again. */
  lemma {:induction false} WalkStartIsIrrelevant(b: seq<byte>, offset: nat, last: nat, other: nat)
    requires LastAnmfEnd(b, offset, last) == other
    ensures LastAnmfEnd(b, offset, other) == other
    decreases |b| - offset
  {
    if offset + 8 <= |b| && FourCc(b, offset) != ANMF {
      WalkStartIsIrrelevant(b, ChunkEnd(b, offset), last, other);
    }
  }
}
