/**
  Conditioning fingerprints (experiments/minimax-h3-teacache/teacache.py).

  A conditioning payload is frozen into a tuple tree and compared without ever
  applying == to a tensor.  The comparison is characterised exactly: same
  skeleton, nothing unverifiable in it, and every pair of retained tensor
  clones verified, position by position.
*/
module Fingerprint {
  import opened Common
  import opened StableSorting

  // ----- payload values and their snapshots -----

  datatype Scalar =
    | PyNone
    | Bool(b: bool)
    | Int(i: int)
    | Float(r: real)
    | NaN
    | Str(s: string)
    | Uuid(id: nat)

  /** A retained tensor clone, known only by its content. */
  type Clone = int

  datatype Tensor = Tensor(shape: Option<seq<int>>, dtype: string, device: string, clone: Option<Clone>)

  datatype Value =
    | Leaf(scalar: Scalar)
    | TensorValue(tensor: Tensor)
    | Dict(items: seq<Item>)
    | Sequence(elements: seq<Value>)
    | PackedLayout(seqLen: Value, signature: Value, segments: Value, positions: seq<Value>)
    | Unsupported

  /** One dictionary entry, in insertion order. */
  datatype Item = Item(key: string, value: Value)

  /** Snapshots: Python tuples over scalars, with a raw clone in a tensor's last slot. */
  datatype Snap = Atom(scalar: Scalar) | Raw(clone: Clone) | Tup(parts: seq<Snap>)

  const TENSOR_TAG: Snap := Atom(Str("__tensor__"))
  const LAYOUT_TAG: Snap := Atom(Str("__packed_layout__"))
  const POSITION_ATTRS: seq<string> := ["position_ids", "img_pos", "img_update", "audio_pos", "audio_update"]

  function IntTuple(xs: seq<int>): seq<Snap> {
    seq(|xs|, i requires 0 <= i < |xs| => Atom(Int(xs[i])))
  }

  function TensorSnap(t: Tensor): Snap {
    Tup([TENSOR_TAG,
         if t.shape.Some? then Tup(IntTuple(t.shape.value)) else Atom(PyNone),
         Atom(Str(t.dtype)),
         Atom(Str(t.device)),
         if t.clone.Some? then Raw(t.clone.value) else Atom(PyNone)])
  }

  datatype Keyed = Keyed(key: string, snap: Snap)

  /** Python's ordering of strings. */
  predicate StringLe(a: string, b: string) {
    if a == [] then true
    else if b == [] then false
    else a[0] < b[0] || (a[0] == b[0] && StringLe(a[1..], b[1..]))
  }

  /** Keys of a dictionary are distinct, so tuple comparison never reaches the snapshots. */
  predicate KeyLe(a: Keyed, b: Keyed) {
    StringLe(a.key, b.key)
  }

  function PairSnap(p: Keyed): Snap {
    Tup([Atom(Str(p.key)), p.snap])
  }

  function PairSnaps(ps: seq<Keyed>): seq<Snap> {
    seq(|ps|, i requires 0 <= i < |ps| => PairSnap(ps[i]))
  }

  /** _snapshot_for_fingerprint; None stands for its ValueError. */
  function Snapshot(v: Value): Option<Snap>
    decreases v, 1
  {
    match v
    case Leaf(s) => Some(Atom(s))
    case TensorValue(t) => Some(TensorSnap(t))
    case Dict(items) =>
      var snaps := SnapshotItems(items);
      if snaps.None? then None else Some(Tup(PairSnaps(Sort(snaps.value, KeyLe))))
    case Sequence(elements) =>
      var snaps := SnapshotAll(elements);
      if snaps.None? then None else Some(Tup(snaps.value))
    case PackedLayout(seqLen, signature, segments, positions) =>
      var a, b, c, d := Snapshot(seqLen), Snapshot(signature), Snapshot(segments), SnapshotAll(positions);
      if a.None? || b.None? || c.None? || d.None? || |positions| != |POSITION_ATTRS| then None
      else Some(Tup([LAYOUT_TAG, a.value, b.value, c.value, Tup(PairSnaps(ZipAttrs(POSITION_ATTRS, d.value)))]))
    case Unsupported => None
  }

  function SnapshotAll(vs: seq<Value>): (r: Option<seq<Snap>>)
    ensures r.Some? ==> |r.value| == |vs|
    decreases vs, 0
  {
    if vs == [] then Some([])
    else
      var head, tail := Snapshot(vs[0]), SnapshotAll(vs[1..]);
      if head.None? || tail.None? then None else Some([head.value] + tail.value)
  }

  function SnapshotItems(items: seq<Item>): (r: Option<seq<Keyed>>)
    ensures r.Some? ==> |r.value| == |items|
    decreases items, 0
  {
    if items == [] then Some([])
    else
      var head, tail := Snapshot(items[0].value), SnapshotItems(items[1..]);
      if head.None? || tail.None? then None else Some([Keyed(items[0].key, head.value)] + tail.value)
  }

  function ZipAttrs(names: seq<string>, snaps: seq<Snap>): seq<Keyed>
    requires |names| == |snaps|
  {
    seq(|names|, i requires 0 <= i < |names| => Keyed(names[i], snaps[i]))
  }

  // ----- the comparison -----

  /** == between plain Python scalars: numbers compare across types, NaN equals nothing. */
  predicate PyEqual(a: Scalar, b: Scalar) {
    Key(a) == Key(b) && a != NaN
  }

  datatype ScalarKey = KNone | KNumber(r: real) | KNaN | KStr(s: string) | KUuid(id: nat)

  function Key(s: Scalar): ScalarKey {
    match s
    case PyNone => KNone
    case Bool(b) => KNumber(if b then 1.0 else 0.0)
    case Int(i) => KNumber(i as real)
    case Float(r) => KNumber(r)
    case NaN => KNaN
    case Str(s) => KStr(s)
    case Uuid(id) => KUuid(id)
  }

  predicate IsTensorTuple(a: Snap) {
    a.Tup? && |a.parts| == 5 && a.parts[0] == TENSOR_TAG
  }

  /** == on the metadata slots; a raw clone never compares equal here. */
  predicate PlainEqual(a: Snap, b: Snap) {
    match (a, b)
    case (Atom(x), Atom(y)) => PyEqual(x, y)
    case (Tup(xs), Tup(ys)) => |xs| == |ys| && forall i | 0 <= i < |xs| :: PlainEqual(xs[i], ys[i])
    case _ => false
  }

  /** What tensor .equal answers; a missing method or an exception counts as false. */
  type TensorEqual = (Clone, Clone) -> bool

  predicate Same(eq: TensorEqual, x: Clone, y: Clone) {
    eq(x, y)
  }

  /** _fingerprints_equal. */
  predicate FingerprintsEqual(eq: TensorEqual, a: Snap, b: Snap)
    decreases a, 1
  {
    if IsTensorTuple(a) && IsTensorTuple(b) then
      && PlainEqual(a.parts[1], b.parts[1])
      && PlainEqual(a.parts[2], b.parts[2])
      && PlainEqual(a.parts[3], b.parts[3])
      && a.parts[4].Raw? && b.parts[4].Raw?
      && Same(eq, a.parts[4].clone, b.parts[4].clone)
    else
      match (a, b)
      case (Tup(xs), Tup(ys)) => |xs| == |ys| && AllEqual(eq, xs, ys)
      case (Atom(x), Atom(y)) => PyEqual(x, y)
      case _ => false
  }

  predicate AllEqual(eq: TensorEqual, xs: seq<Snap>, ys: seq<Snap>)
    requires |xs| == |ys|
    decreases xs, 0
  {
    xs == [] || (FingerprintsEqual(eq, xs[0], ys[0]) && AllEqual(eq, xs[1..], ys[1..]))
  }

  // ----- an independent reading: skeletons and clone lists -----

  /** A snapshot with every clone forgotten and every scalar reduced to its Python identity. */
  datatype Skeleton = SAtom(key: ScalarKey) | SHole | STup(parts: seq<Skeleton>)

  function SkeletonOf(a: Snap): Skeleton {
    match a
    case Atom(s) => SAtom(Key(s))
    case Raw(_) => SHole
    case Tup(parts) => STup(seq(|parts|, i requires 0 <= i < |parts| => SkeletonOf(parts[i])))
  }

  /** The retained clones, left to right. */
  function Clones(a: Snap): seq<Clone>
    decreases a, 1
  {
    match a
    case Atom(_) => []
    case Raw(c) => [c]
    case Tup(parts) => AllClones(parts)
  }

  function AllClones(parts: seq<Snap>): seq<Clone>
    decreases parts, 0
  {
    if parts == [] then [] else Clones(parts[0]) + AllClones(parts[1..])
  }

  /** No NaN, and whatever looks like a tensor's tuple kept a clone in its last slot. */
  predicate Verifiable(k: Skeleton) {
    match k
    case SAtom(key) => key != KNaN
    case SHole => true
    case STup(parts) =>
      && (|parts| == 5 && parts[0] == SAtom(KStr("__tensor__")) ==> parts[4] == SHole)
      && forall i | 0 <= i < |parts| :: Verifiable(parts[i])
  }

  ghost predicate PairwiseVerified(eq: TensorEqual, xs: seq<Clone>, ys: seq<Clone>) {
    |xs| == |ys| && forall i | 0 <= i < |xs| :: Same(eq, xs[i], ys[i])
  }

  /** Clones sit only in the last slot of tensor tuples, whose metadata holds none; snapshots are so built. */
  predicate WellFormed(a: Snap) {
    match a
    case Atom(_) => true
    case Raw(_) => false
    case Tup(parts) =>
      if IsTensorTuple(a) && parts[4].Raw? then
        Plain(parts[1]) && Plain(parts[2]) && Plain(parts[3])
      else forall i | 0 <= i < |parts| :: WellFormed(parts[i])
  }

  predicate Plain(a: Snap) {
    match a
    case Atom(_) => true
    case Raw(_) => false
    case Tup(parts) => !IsTensorTuple(a) && forall i | 0 <= i < |parts| :: Plain(parts[i])
  }

  lemma {:induction false} SkeletonFixesCloneCount(a: Snap, b: Snap)
    requires SkeletonOf(a) == SkeletonOf(b)
    ensures |Clones(a)| == |Clones(b)|
    decreases a, 1
  {
    if a.Tup? {
      assert |SkeletonOf(a).parts| == |a.parts| && |SkeletonOf(b).parts| == |b.parts|;
      forall i | 0 <= i < |a.parts| ensures SkeletonOf(a.parts[i]) == SkeletonOf(b.parts[i]) {
        assert SkeletonOf(a).parts[i] == SkeletonOf(b).parts[i];
      }
      SkeletonsFixCloneCount(a.parts, b.parts);
    }
  }

  lemma {:induction false} SkeletonsFixCloneCount(xs: seq<Snap>, ys: seq<Snap>)
    requires |xs| == |ys| && forall i | 0 <= i < |xs| :: SkeletonOf(xs[i]) == SkeletonOf(ys[i])
    ensures |AllClones(xs)| == |AllClones(ys)|
    decreases xs, 0
  {
    if xs != [] {
      SkeletonFixesCloneCount(xs[0], ys[0]);
      SkeletonsFixCloneCount(xs[1..], ys[1..]);
    }
  }

  /** What the comparison decides, said without it. */
  ghost predicate Agree(eq: TensorEqual, a: Snap, b: Snap) {
    SkeletonOf(a) == SkeletonOf(b) && Verifiable(SkeletonOf(a)) && PairwiseVerified(eq, Clones(a), Clones(b))
  }

  lemma {:induction false} PlainEqualMeaning(a: Snap, b: Snap)
    requires Plain(a) && Plain(b)
    ensures PlainEqual(a, b) <==> SkeletonOf(a) == SkeletonOf(b) && Verifiable(SkeletonOf(a))
    ensures Clones(a) == []
    decreases a
  {
    if a.Tup? {
      PlainHasNoClones(a.parts);
      var sk := SkeletonOf(a);
      assert |sk.parts| == |a.parts|;
      if b.Tup? && |a.parts| == |b.parts| {
        forall i | 0 <= i < |a.parts|
          ensures PlainEqual(a.parts[i], b.parts[i])
                  <==> sk.parts[i] == SkeletonOf(b).parts[i] && Verifiable(sk.parts[i])
        {
          PlainEqualMeaning(a.parts[i], b.parts[i]);
        }
        TagSkeleton(a);
      }
    }
  }

  lemma {:induction false} PlainHasNoClones(xs: seq<Snap>)
    requires forall i | 0 <= i < |xs| :: Plain(xs[i])
    ensures AllClones(xs) == []
    decreases xs
  {
    if xs != [] {
      if xs[0].Tup? { PlainHasNoClones(xs[0].parts); }
      PlainHasNoClones(xs[1..]);
    }
  }

  /** A skeleton shows whether its snapshot is headed by the tensor tag. */
  lemma TagSkeleton(a: Snap)
    requires a.Tup?
    ensures IsTensorTuple(a) <==>
            var parts := SkeletonOf(a).parts;
            |parts| == 5 && parts[0] == SAtom(KStr("__tensor__"))
  {
    if |a.parts| == 5 {
      assert SkeletonOf(a).parts[0] == SkeletonOf(a.parts[0]);
    }
  }

  /**
    Soundness and completeness of the comparison: equal fingerprints are
    exactly those with one skeleton, nothing unverifiable in it and every
    tensor pair verified.
  */
  lemma {:induction false} EqualityMeaning(eq: TensorEqual, a: Snap, b: Snap)
    requires WellFormed(a) && WellFormed(b)
    ensures FingerprintsEqual(eq, a, b) <==> Agree(eq, a, b)
    decreases a, 1
  {
    if a.Tup? && b.Tup? {
      TagSkeleton(a);
      TagSkeleton(b);
      assert |SkeletonOf(a).parts| == |a.parts| && |SkeletonOf(b).parts| == |b.parts|;
      if IsTensorTuple(a) && IsTensorTuple(b) {
        TensorCase(eq, a, b);
      } else if IsTensorTuple(a) || IsTensorTuple(b) {
        if |a.parts| == |b.parts| {
          assert !FingerprintsEqual(eq, a.parts[0], b.parts[0]);
        }
      } else if |a.parts| == |b.parts| {
        AllEqualityMeaning(eq, a.parts, b.parts);
        ChildrenAgree(eq, a, b);
      }
    }
  }

  /** Agreement of two untagged tuples is agreement of their children. */
  lemma ChildrenAgree(eq: TensorEqual, a: Snap, b: Snap)
    requires a.Tup? && b.Tup? && |a.parts| == |b.parts|
    requires !IsTensorTuple(a) && !IsTensorTuple(b)
    ensures Agree(eq, a, b) <==> AgreeAll(eq, a.parts, b.parts)
  {
    var ka, kb := SkeletonOf(a), SkeletonOf(b);
    TagSkeleton(a);
    TagSkeleton(b);
    assert forall i | 0 <= i < |a.parts| :: ka.parts[i] == SkeletonOf(a.parts[i]);
    assert forall i | 0 <= i < |b.parts| :: kb.parts[i] == SkeletonOf(b.parts[i]);
    if AgreeAll(eq, a.parts, b.parts) {
      assert ka.parts == kb.parts;
    }
  }

  ghost predicate AgreeAll(eq: TensorEqual, xs: seq<Snap>, ys: seq<Snap>)
    requires |xs| == |ys|
  {
    && (forall i | 0 <= i < |xs| :: SkeletonOf(xs[i]) == SkeletonOf(ys[i]) && Verifiable(SkeletonOf(xs[i])))
    && PairwiseVerified(eq, AllClones(xs), AllClones(ys))
  }

  lemma {:induction false} AllEqualityMeaning(eq: TensorEqual, xs: seq<Snap>, ys: seq<Snap>)
    requires |xs| == |ys|
    requires forall i | 0 <= i < |xs| :: WellFormed(xs[i]) && WellFormed(ys[i])
    ensures AllEqual(eq, xs, ys) <==> AgreeAll(eq, xs, ys)
    decreases xs, 0
  {
    if xs != [] {
      EqualityMeaning(eq, xs[0], ys[0]);
      AllEqualityMeaning(eq, xs[1..], ys[1..]);
      AgreeCons(eq, xs, ys);
    }
  }

  lemma AgreeCons(eq: TensorEqual, xs: seq<Snap>, ys: seq<Snap>)
    requires |xs| == |ys| > 0
    ensures AgreeAll(eq, xs, ys) <==> Agree(eq, xs[0], ys[0]) && AgreeAll(eq, xs[1..], ys[1..])
  {
    var c, d := Clones(xs[0]), Clones(ys[0]);
    var cs, ds := AllClones(xs[1..]), AllClones(ys[1..]);
    assert AllClones(xs) == c + cs && AllClones(ys) == d + ds;
    if SkeletonOf(xs[0]) == SkeletonOf(ys[0]) {
      SkeletonFixesCloneCount(xs[0], ys[0]);
      if PairwiseVerified(eq, c + cs, d + ds) {
        forall i | 0 <= i < |c| ensures Same(eq, c[i], d[i]) {
          assert (c + cs)[i] == c[i] && (d + ds)[i] == d[i];
        }
        forall i | 0 <= i < |cs| ensures Same(eq, cs[i], ds[i]) {
          assert (c + cs)[|c| + i] == cs[i] && (d + ds)[|d| + i] == ds[i];
        }
      }
    }
  }

  lemma TensorCase(eq: TensorEqual, a: Snap, b: Snap)
    requires WellFormed(a) && WellFormed(b) && IsTensorTuple(a) && IsTensorTuple(b)
    ensures FingerprintsEqual(eq, a, b) <==> Agree(eq, a, b)
  {
    var p, q := a.parts, b.parts;
    FiveParts(a);
    FiveSkeletons(a, b);
    if p[4].Raw? && q[4].Raw? {
      PlainEqualMeaning(p[1], q[1]);
      PlainEqualMeaning(p[2], q[2]);
      PlainEqualMeaning(p[3], q[3]);
      TensorClones(a);
      TensorClones(b);
      SingletonVerified(eq, p[4].clone, q[4].clone);
      assert Agree(eq, a, b) <==>
             PlainEqual(p[1], q[1]) && PlainEqual(p[2], q[2]) && PlainEqual(p[3], q[3])
             && Same(eq, p[4].clone, q[4].clone);
    } else {
      assert !Agree(eq, a, b);
    }
  }

  lemma FiveSkeletons(a: Snap, b: Snap)
    requires IsTensorTuple(a) && IsTensorTuple(b)
    ensures SkeletonOf(a) == SkeletonOf(b) <==>
            && SkeletonOf(a.parts[1]) == SkeletonOf(b.parts[1])
            && SkeletonOf(a.parts[2]) == SkeletonOf(b.parts[2])
            && SkeletonOf(a.parts[3]) == SkeletonOf(b.parts[3])
            && SkeletonOf(a.parts[4]) == SkeletonOf(b.parts[4])
  {
    var p, q := SkeletonOf(a).parts, SkeletonOf(b).parts;
    assert |p| == 5 && |q| == 5;
    assert forall i | 0 <= i < 5 :: p[i] == SkeletonOf(a.parts[i]) && q[i] == SkeletonOf(b.parts[i]);
    if p[1] == q[1] && p[2] == q[2] && p[3] == q[3] && p[4] == q[4] {
      assert p == q;
    }
  }

  /** A tensor tuple's skeleton, slot by slot; only a clone has a hole for a skeleton. */
  lemma FiveParts(a: Snap)
    requires IsTensorTuple(a)
    ensures var k := SkeletonOf(a);
            && k.STup? && |k.parts| == 5
            && (forall i | 0 <= i < 5 :: k.parts[i] == SkeletonOf(a.parts[i]))
            && (Verifiable(k) <==>
                  && a.parts[4].Raw?
                  && Verifiable(SkeletonOf(a.parts[1])) && Verifiable(SkeletonOf(a.parts[2]))
                  && Verifiable(SkeletonOf(a.parts[3])))
  {
    var k := SkeletonOf(a);
    assert k.parts[0] == SkeletonOf(a.parts[0]);
    assert k.parts[4] == SkeletonOf(a.parts[4]);
    assert k.parts[4] == SHole <==> a.parts[4].Raw?;
  }

  lemma SingletonVerified(eq: TensorEqual, x: Clone, y: Clone)
    ensures PairwiseVerified(eq, [x], [y]) <==> Same(eq, x, y)
  {
    assert [x][0] == x && [y][0] == y;
  }

  lemma TensorClones(a: Snap)
    requires WellFormed(a) && IsTensorTuple(a) && a.parts[4].Raw?
    ensures Clones(a) == [a.parts[4].clone]
  {
    var p := a.parts;
    PlainEqualMeaning(p[1], p[1]);
    PlainEqualMeaning(p[2], p[2]);
    PlainEqualMeaning(p[3], p[3]);
    ClonesSkip(p);
    ClonesSkip(p[1..]);
    ClonesSkip(p[1..][1..]);
    ClonesSkip(p[1..][1..][1..]);
    assert p[1..][1..][1..][1..] == [p[4]];
    assert AllClones([p[4]]) == Clones(p[4]) + AllClones([]);
  }

  lemma ClonesSkip(p: seq<Snap>)
    requires p != [] && Clones(p[0]) == []
    ensures AllClones(p) == AllClones(p[1..])
  {
  }

  /** Equality is symmetric and transitive whenever tensor equality is. */
  lemma EqualityIsSymmetric(eq: TensorEqual, a: Snap, b: Snap)
    requires WellFormed(a) && WellFormed(b)
    requires forall x, y :: Same(eq, x, y) ==> Same(eq, y, x)
    ensures FingerprintsEqual(eq, a, b) <==> FingerprintsEqual(eq, b, a)
  {
    EqualityMeaning(eq, a, b);
    EqualityMeaning(eq, b, a);
  }

  lemma EqualityIsTransitive(eq: TensorEqual, a: Snap, b: Snap, c: Snap)
    requires WellFormed(a) && WellFormed(b) && WellFormed(c)
    requires forall x, y, z :: Same(eq, x, y) && Same(eq, y, z) ==> Same(eq, x, z)
    requires FingerprintsEqual(eq, a, b) && FingerprintsEqual(eq, b, c)
    ensures FingerprintsEqual(eq, a, c)
  {
    EqualityMeaning(eq, a, b);
    EqualityMeaning(eq, b, c);
    EqualityMeaning(eq, a, c);
    forall i | 0 <= i < |Clones(a)| ensures Same(eq, Clones(a)[i], Clones(c)[i]) {
      assert Same(eq, Clones(a)[i], Clones(b)[i]) && Same(eq, Clones(b)[i], Clones(c)[i]);
    }
  }

  /** A fingerprint equals itself exactly when it is verifiable and its clones equal themselves. */
  lemma EqualToItself(eq: TensorEqual, a: Snap)
    requires WellFormed(a)
    ensures FingerprintsEqual(eq, a, a) <==>
            Verifiable(SkeletonOf(a)) && PairwiseVerified(eq, Clones(a), Clones(a))
  {
    EqualityMeaning(eq, a, a);
  }

  // ----- what payloads can be tracked at all -----

  /** No NaN, every tensor cloned, and no list posing as a tensor's tuple. */
  predicate Trackable(v: Value)
    decreases v
  {
    match v
    case Leaf(s) => s != NaN
    case TensorValue(t) => t.clone.Some?
    case Dict(items) => forall i | 0 <= i < |items| :: Trackable(items[i].value)
    case Sequence(elements) =>
      && !(|elements| == 5 && elements[0] == Leaf(Str("__tensor__")))
      && forall i | 0 <= i < |elements| :: Trackable(elements[i])
    case PackedLayout(seqLen, signature, segments, positions) =>
      && Trackable(seqLen) && Trackable(signature) && Trackable(segments)
      && forall i | 0 <= i < |positions| :: Trackable(positions[i])
    case Unsupported => false
  }

  ghost predicate GoodSnap(v: Value, s: Snap) {
    && WellFormed(s)
    && (Verifiable(SkeletonOf(s)) <==> Trackable(v))
    && (s == TENSOR_TAG <==> v == Leaf(Str("__tensor__")))
  }

  /** A tuple that is not tensor-tagged is as good as its parts. */
  lemma UntaggedTuple(parts: seq<Snap>)
    requires forall i | 0 <= i < |parts| :: WellFormed(parts[i])
    ensures WellFormed(Tup(parts))
    ensures Verifiable(SkeletonOf(Tup(parts))) <==>
            !IsTensorTuple(Tup(parts)) && forall i | 0 <= i < |parts| :: Verifiable(SkeletonOf(parts[i]))
  {
    var k := SkeletonOf(Tup(parts));
    assert forall i | 0 <= i < |parts| :: k.parts[i] == SkeletonOf(parts[i]);
    TagSkeleton(Tup(parts));
    if |parts| == 5 {
      assert WellFormed(parts[4]) && k.parts[4] == SkeletonOf(parts[4]) && k.parts[4] != SHole;
    }
  }

  lemma PairSnapGood(p: Keyed)
    requires WellFormed(p.snap)
    ensures WellFormed(PairSnap(p))
    ensures Verifiable(SkeletonOf(PairSnap(p))) <==> Verifiable(SkeletonOf(p.snap))
  {
    UntaggedTuple([Atom(Str(p.key)), p.snap]);
    var parts := [Atom(Str(p.key)), p.snap];
    assert parts[0] == Atom(Str(p.key)) && parts[1] == p.snap;
    assert Verifiable(SkeletonOf(parts[0]));
  }

  lemma PairSnapsGood(ps: seq<Keyed>)
    requires forall p | p in ps :: WellFormed(p.snap)
    ensures WellFormed(Tup(PairSnaps(ps)))
    ensures Verifiable(SkeletonOf(Tup(PairSnaps(ps)))) <==> forall p | p in ps :: Verifiable(SkeletonOf(p.snap))
  {
    var parts := PairSnaps(ps);
    forall i | 0 <= i < |parts|
      ensures WellFormed(parts[i]) && (Verifiable(SkeletonOf(parts[i])) <==> Verifiable(SkeletonOf(ps[i].snap)))
    {
      PairSnapGood(ps[i]);
    }
    UntaggedTuple(parts);
    if |parts| == 5 { assert parts[0] == PairSnap(ps[0]); }
    assert forall p | p in ps :: exists i :: 0 <= i < |ps| && ps[i] == p;
  }

  /** Snapshots are well formed, and verifiable exactly for trackable payloads. */
  lemma {:induction false} SnapshotIsGood(v: Value)
    ensures Snapshot(v).Some? ==> GoodSnap(v, Snapshot(v).value)
    decreases v, 1
  {
    if Snapshot(v).None? { return; }
    var s := Snapshot(v).value;
    match v
    case Leaf(scalar) =>
    case TensorValue(t) =>
      FiveParts(s);
      TensorMetadata(t);
    case Dict(items) =>
      ItemSnapshotsAreGood(items);
      var ps := SnapshotItems(items).value;
      SameMembers(ps, KeyLe);
      PairSnapsGood(Sort(ps, KeyLe));
      assert (forall p | p in ps :: Verifiable(SkeletonOf(p.snap)))
        <==> (forall i | 0 <= i < |items| :: Trackable(items[i].value)) by {
        assert forall i | 0 <= i < |ps| :: ps[i] in ps;
      }
    case Sequence(elements) =>
      SnapshotsAreGood(elements);
      assert forall i | 0 <= i < |elements| :: GoodSnap(elements[i], s.parts[i]);
      UntaggedTuple(s.parts);
    case PackedLayout(a, b, c, positions) =>
      SnapshotIsGood(a);
      SnapshotIsGood(b);
      SnapshotIsGood(c);
      SnapshotsAreGood(positions);
      LayoutGood(v);
    case Unsupported =>
  }

  lemma TensorMetadata(t: Tensor)
    ensures WellFormed(TensorSnap(t))
    ensures forall i | 1 <= i < 4 :: Verifiable(SkeletonOf(TensorSnap(t).parts[i]))
  {
    var s := TensorSnap(t);
    var k := SkeletonOf(s);
    assert forall i | 0 <= i < 5 :: k.parts[i] == SkeletonOf(s.parts[i]);
    if t.shape.Some? {
      var shape := s.parts[1];
      assert forall i | 0 <= i < |shape.parts| :: shape.parts[i] == Atom(Int(t.shape.value[i]));
      assert !IsTensorTuple(shape) by {
        if |shape.parts| == 5 { assert shape.parts[0] == Atom(Int(t.shape.value[0])); }
      }
      assert Plain(shape) && WellFormed(shape);
      UntaggedTuple(shape.parts);
      assert shape == Tup(shape.parts);
      assert forall i | 0 <= i < |shape.parts| :: Verifiable(SkeletonOf(shape.parts[i]));
    }
    assert Plain(s.parts[1]) && Plain(s.parts[2]) && Plain(s.parts[3]);
  }

  lemma LayoutGood(v: Value)
    requires v.PackedLayout? && Snapshot(v).Some?
    requires GoodSnap(v.seqLen, Snapshot(v.seqLen).value)
    requires GoodSnap(v.signature, Snapshot(v.signature).value)
    requires GoodSnap(v.segments, Snapshot(v.segments).value)
    requires forall i | 0 <= i < |v.positions| :: GoodSnap(v.positions[i], SnapshotAll(v.positions).value[i])
    ensures GoodSnap(v, Snapshot(v).value)
  {
    var zipped := ZipAttrs(POSITION_ATTRS, SnapshotAll(v.positions).value);
    AttrsGood(v.positions, zipped);
    FiveGood(LAYOUT_TAG, Snapshot(v.seqLen).value, Snapshot(v.signature).value, Snapshot(v.segments).value,
             Tup(PairSnaps(zipped)));
  }

  lemma AttrsGood(positions: seq<Value>, zipped: seq<Keyed>)
    requires |zipped| == |positions|
    requires forall i | 0 <= i < |positions| :: GoodSnap(positions[i], zipped[i].snap)
    ensures WellFormed(Tup(PairSnaps(zipped)))
    ensures Verifiable(SkeletonOf(Tup(PairSnaps(zipped)))) <==>
            forall i | 0 <= i < |positions| :: Trackable(positions[i])
  {
    assert forall i | 0 <= i < |zipped| :: zipped[i] in zipped;
    PairSnapsGood(zipped);
  }

  lemma FiveGood(a: Snap, b: Snap, c: Snap, d: Snap, e: Snap)
    requires a == LAYOUT_TAG && WellFormed(b) && WellFormed(c) && WellFormed(d) && WellFormed(e)
    ensures WellFormed(Tup([a, b, c, d, e]))
    ensures Verifiable(SkeletonOf(Tup([a, b, c, d, e]))) <==>
            && Verifiable(SkeletonOf(b)) && Verifiable(SkeletonOf(c))
            && Verifiable(SkeletonOf(d)) && Verifiable(SkeletonOf(e))
  {
    var parts := [a, b, c, d, e];
    assert WellFormed(a) && Verifiable(SkeletonOf(a));
    UntaggedTuple(parts);
    assert parts[0] == a && parts[1] == b && parts[2] == c && parts[3] == d && parts[4] == e;
  }

  lemma {:induction false} SnapshotsAreGood(vs: seq<Value>)
    ensures SnapshotAll(vs).Some? ==>
              forall i | 0 <= i < |vs| :: GoodSnap(vs[i], SnapshotAll(vs).value[i])
    decreases vs, 0
  {
    if vs != [] {
      SnapshotIsGood(vs[0]);
      SnapshotsAreGood(vs[1..]);
    }
  }

  lemma {:induction false} ItemSnapshotsAreGood(items: seq<Item>)
    ensures SnapshotItems(items).Some? ==>
              forall i | 0 <= i < |items| ::
                && SnapshotItems(items).value[i].key == items[i].key
                && GoodSnap(items[i].value, SnapshotItems(items).value[i].snap)
    decreases items, 0
  {
    if items != [] {
      SnapshotIsGood(items[0].value);
      ItemSnapshotsAreGood(items[1..]);
    }
  }

  /** Fail-closed: the fingerprint of an untrackable payload equals no fingerprint, not even itself. */
  lemma UntrackableNeverMatches(eq: TensorEqual, v: Value, w: Value)
    requires Snapshot(v).Some? && Snapshot(w).Some? && !Trackable(v)
    ensures !FingerprintsEqual(eq, Snapshot(v).value, Snapshot(w).value)
    ensures !FingerprintsEqual(eq, Snapshot(w).value, Snapshot(v).value)
  {
    SnapshotIsGood(v);
    SnapshotIsGood(w);
    EqualityMeaning(eq, Snapshot(v).value, Snapshot(w).value);
    EqualityMeaning(eq, Snapshot(w).value, Snapshot(v).value);
  }

  /** With reflexive tensor equality, a payload matches its own fingerprint exactly when it is trackable. */
  lemma TrackableMatchesItself(eq: TensorEqual, v: Value)
    requires Snapshot(v).Some? && forall c :: Same(eq, c, c)
    ensures FingerprintsEqual(eq, Snapshot(v).value, Snapshot(v).value) <==> Trackable(v)
  {
    SnapshotIsGood(v);
    EqualToItself(eq, Snapshot(v).value);
  }

  // ----- insertion order does not matter -----

  ghost predicate UniqueKeys(items: seq<Item>) {
    forall i, j | 0 <= i < j < |items| :: items[i].key != items[j].key
  }

  /** Equal up to the insertion order of dictionaries, at every depth. */
  ghost predicate SameUpToOrder(v: Value, w: Value)
    decreases v
  {
    match (v, w)
    case (Dict(xs), Dict(ys)) =>
      && |xs| == |ys| && UniqueKeys(xs) && UniqueKeys(ys)
      && (forall i | 0 <= i < |xs| ::
            exists j :: 0 <= j < |ys| && xs[i].key == ys[j].key && SameUpToOrder(xs[i].value, ys[j].value))
    case (Sequence(xs), Sequence(ys)) =>
      |xs| == |ys| && forall i | 0 <= i < |xs| :: SameUpToOrder(xs[i], ys[i])
    case (PackedLayout(a, b, c, xs), PackedLayout(a', b', c', ys)) =>
      && SameUpToOrder(a, a') && SameUpToOrder(b, b') && SameUpToOrder(c, c')
      && |xs| == |ys| && forall i | 0 <= i < |xs| :: SameUpToOrder(xs[i], ys[i])
    case _ => v == w
  }

  lemma {:induction false} StringOrder(a: string, b: string, c: string)
    ensures StringLe(a, b) || StringLe(b, a)
    ensures StringLe(a, b) && StringLe(b, c) ==> StringLe(a, c)
    ensures StringLe(a, b) && StringLe(b, a) ==> a == b
  {
    if a != [] && b != [] && c != [] { StringOrder(a[1..], b[1..], c[1..]); }
    else if a != [] && b != [] { StringOrder(a[1..], b[1..], []); }
    if a != [] && b != [] && a[0] == b[0] && a[1..] == b[1..] {
      assert a == [a[0]] + a[1..] && b == [b[0]] + b[1..];
    }
  }

  lemma KeyOrderIsTotal()
    ensures TotalPreorder(KeyLe)
  {
    forall a: Keyed, b: Keyed, c: Keyed
      ensures KeyLe(a, b) || KeyLe(b, a)
      ensures KeyLe(a, b) && KeyLe(b, c) ==> KeyLe(a, c)
    {
      StringOrder(a.key, b.key, c.key);
    }
  }

  ghost predicate UniqueKeyed(ps: seq<Keyed>) {
    forall p, q | p in ps && q in ps && p.key == q.key :: p == q
  }

  /** Two sorted lists over the same entries with unique keys are one list. */
  lemma {:induction false} SortedListsCoincide(xs: seq<Keyed>, ys: seq<Keyed>)
    requires |xs| == |ys| && multiset(xs) == multiset(ys)
    requires Ordered(xs, KeyLe) && Ordered(ys, KeyLe) && UniqueKeyed(xs)
    ensures xs == ys
  {
    if xs != [] {
      SortedHeadsCoincide(xs, ys);
      MultisetOfTail(xs);
      MultisetOfTail(ys);
      SortedListsCoincide(xs[1..], ys[1..]);
    }
  }

  lemma MultisetOfTail<T>(xs: seq<T>)
    requires xs != []
    ensures multiset(xs[1..]) == multiset(xs) - multiset{xs[0]}
    ensures xs == [xs[0]] + xs[1..]
  {
    assert xs == [xs[0]] + xs[1..];
  }

  lemma SortedHeadsCoincide(xs: seq<Keyed>, ys: seq<Keyed>)
    requires |xs| == |ys| > 0 && multiset(xs) == multiset(ys)
    requires Ordered(xs, KeyLe) && Ordered(ys, KeyLe) && UniqueKeyed(xs)
    ensures xs[0] == ys[0]
  {
    assert ys[0] in multiset(ys) && xs[0] in multiset(xs);
    HeadIsLeast(xs, ys[0]);
    HeadIsLeast(ys, xs[0]);
    StringOrder(xs[0].key, ys[0].key, "");
  }

  lemma HeadIsLeast(xs: seq<Keyed>, x: Keyed)
    requires Ordered(xs, KeyLe) && x in xs
    ensures StringLe(xs[0].key, x.key)
  {
    StringOrder(x.key, x.key, "");
    var i :| 0 <= i < |xs| && xs[i] == x;
    assert i > 0 ==> KeyLe(xs[0], xs[i]);
  }

  lemma SubsetOfEqualSize<T>(xs: seq<T>, ys: seq<T>)
    requires |xs| == |ys|
    requires forall i, j | 0 <= i < j < |xs| :: xs[i] != xs[j]
    requires forall i | 0 <= i < |xs| :: xs[i] in ys
    ensures multiset(xs) == multiset(ys)
  {
    var a, b := multiset(xs), multiset(ys);
    forall x ensures a[x] <= b[x] {
      CountOfUnique(xs, x);
      if x in xs { assert x in ys; assert b[x] > 0; }
    }
    assert a <= b && |b - a| == |b| - |a|;
    assert b == a + (b - a);
  }

  lemma {:induction false} CountOfUnique<T>(xs: seq<T>, x: T)
    requires forall i, j | 0 <= i < j < |xs| :: xs[i] != xs[j]
    ensures multiset(xs)[x] == if x in xs then 1 else 0
  {
    if xs != [] {
      assert xs == [xs[0]] + xs[1..];
      CountOfUnique(xs[1..], x);
    }
  }

  lemma {:induction false} ItemSnapshots(items: seq<Item>)
    ensures SnapshotItems(items).None? <==> exists i :: 0 <= i < |items| && Snapshot(items[i].value).None?
    ensures SnapshotItems(items).Some? ==>
              forall i | 0 <= i < |items| ::
                && Snapshot(items[i].value).Some?
                && SnapshotItems(items).value[i] == Keyed(items[i].key, Snapshot(items[i].value).value)
  {
    if items != [] {
      ItemSnapshots(items[1..]);
      if Snapshot(items[0].value).Some? {
        if i :| 0 <= i < |items| && Snapshot(items[i].value).None? {
          assert items[1..][i - 1] == items[i];
        }
      }
    }
  }

  /** Payloads that differ only in dictionary insertion order have one snapshot. */
  lemma {:induction false} SnapshotIgnoresInsertionOrder(v: Value, w: Value)
    requires SameUpToOrder(v, w)
    ensures Snapshot(v) == Snapshot(w)
    decreases v, 1
  {
    match (v, w)
    case (Dict(_), Dict(_)) =>
      DictIgnoresInsertionOrder(v, w);
    case (Sequence(xs), Sequence(ys)) =>
      SnapshotsIgnoreInsertionOrder(xs, ys);
    case (PackedLayout(a, b, c, xs), PackedLayout(a', b', c', ys)) =>
      SnapshotIgnoresInsertionOrder(a, a');
      SnapshotIgnoresInsertionOrder(b, b');
      SnapshotIgnoresInsertionOrder(c, c');
      SnapshotsIgnoreInsertionOrder(xs, ys);
    case _ =>
  }

  lemma {:induction false} DictIgnoresInsertionOrder(v: Value, w: Value)
    requires v.Dict? && w.Dict? && SameUpToOrder(v, w)
    ensures Snapshot(v) == Snapshot(w)
    decreases v, 0
  {
    var xs, ys := v.items, w.items;
    forall i | 0 <= i < |xs| ensures HasPartner(xs[i], ys) {
      var j :| 0 <= j < |ys| && xs[i].key == ys[j].key && SameUpToOrder(xs[i].value, ys[j].value);
      SnapshotIgnoresInsertionOrder(xs[i].value, ys[j].value);
      assert Partners(xs[i], ys[j]);
    }
    DictSnapshotsCoincide(xs, ys);
  }

  lemma {:induction false} SnapshotsIgnoreInsertionOrder(xs: seq<Value>, ys: seq<Value>)
    requires |xs| == |ys| && forall i | 0 <= i < |xs| :: SameUpToOrder(xs[i], ys[i])
    ensures SnapshotAll(xs) == SnapshotAll(ys)
    decreases xs, 0
  {
    if xs != [] {
      SnapshotIgnoresInsertionOrder(xs[0], ys[0]);
      SnapshotsIgnoreInsertionOrder(xs[1..], ys[1..]);
    }
  }

  ghost predicate Partners(x: Item, y: Item) {
    x.key == y.key && Snapshot(x.value) == Snapshot(y.value)
  }

  ghost predicate HasPartner(x: Item, ys: seq<Item>) {
    exists j :: 0 <= j < |ys| && Partners(x, ys[j])
  }

  function Keys(items: seq<Item>): seq<string> {
    seq(|items|, i requires 0 <= i < |items| => items[i].key)
  }

  /** As many distinct keys on both sides: every entry of ys has a partner too. */
  lemma PartnerOf(xs: seq<Item>, ys: seq<Item>, j: nat) returns (i: nat)
    requires |xs| == |ys| && UniqueKeys(xs) && UniqueKeys(ys) && j < |ys|
    requires forall i | 0 <= i < |xs| :: HasPartner(xs[i], ys)
    ensures i < |xs| && Partners(xs[i], ys[j])
  {
    var ks, ls := Keys(xs), Keys(ys);
    forall a | 0 <= a < |ks| ensures ks[a] in ls {
      var b :| 0 <= b < |ys| && Partners(xs[a], ys[b]);
      assert ls[b] == ks[a];
    }
    SubsetOfEqualSize(ks, ls);
    assert ls[j] in multiset(ls);
    assert ls[j] in ks;
    i :| 0 <= i < |ks| && ks[i] == ls[j];
    var b :| 0 <= b < |ys| && Partners(xs[i], ys[b]);
    assert b == j;
  }

  lemma DictSnapshotsCoincide(xs: seq<Item>, ys: seq<Item>)
    requires |xs| == |ys| && UniqueKeys(xs) && UniqueKeys(ys)
    requires forall i | 0 <= i < |xs| :: HasPartner(xs[i], ys)
    ensures Snapshot(Dict(xs)) == Snapshot(Dict(ys))
  {
    ItemSnapshots(xs);
    ItemSnapshots(ys);
    if j :| 0 <= j < |ys| && Snapshot(ys[j].value).None? {
      var i := PartnerOf(xs, ys, j);
    } else {
      forall i | 0 <= i < |xs| ensures Snapshot(xs[i].value).Some? {
        var j :| 0 <= j < |ys| && Partners(xs[i], ys[j]);
      }
      var ps, qs := SnapshotItems(xs).value, SnapshotItems(ys).value;
      forall i | 0 <= i < |ps| ensures ps[i] in qs {
        var j :| 0 <= j < |ys| && Partners(xs[i], ys[j]);
        assert ps[i] == qs[j];
      }
      SubsetOfEqualSize(ps, qs);
      SortedEntriesCoincide(ps, qs);
    }
  }

  lemma SortedEntriesCoincide(ps: seq<Keyed>, qs: seq<Keyed>)
    requires |ps| == |qs| && multiset(ps) == multiset(qs)
    requires forall i, j | 0 <= i < j < |ps| :: ps[i].key != ps[j].key
    ensures Sort(ps, KeyLe) == Sort(qs, KeyLe)
  {
    KeyOrderIsTotal();
    SortIsPermutation(ps, KeyLe);
    SortIsPermutation(qs, KeyLe);
    SortIsOrdered(ps, KeyLe);
    SortIsOrdered(qs, KeyLe);
    SameMembers(ps, KeyLe);
    SortedListsCoincide(Sort(ps, KeyLe), Sort(qs, KeyLe));
  }
}
