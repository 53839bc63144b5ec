/**
  What equal fingerprints say about the payloads behind them
  (experiments/minimax-h3-teacache/teacache.py).

  The comparison of two snapshots is shown to be agreement of the payloads,
  said without snapshots: which scalars, tensors, dictionaries, lists and
  packed layouts agree, and which containers of different kinds give one tuple.
*/
module FingerprintPayloads {
  import opened Common
  import opened StableSorting
  import opened Fingerprint

  // ----- agreement of payloads -----

  predicate IsNumber(s: Scalar) {
    s.Bool? || s.Int? || s.Float?
  }

  function NumberOf(s: Scalar): real
    requires IsNumber(s)
  {
    match s
    case Bool(b) => if b then 1.0 else 0.0
    case Int(i) => i as real
    case Float(r) => r
  }

  /** Python's == on scalars: numbers by value whatever their type, NaN never. */
  predicate ScalarsAgree(a: Scalar, b: Scalar) {
    match (a, b)
    case (PyNone, PyNone) => true
    case (Str(x), Str(y)) => x == y
    case (Uuid(x), Uuid(y)) => x == y
    case _ => IsNumber(a) && IsNumber(b) && NumberOf(a) == NumberOf(b)
  }

  /** A five-element list headed by the tensor tag: never taken for equal to anything. */
  predicate Posing(xs: seq<Value>) {
    |xs| == 5 && xs[0] == Leaf(Str("__tensor__"))
  }

  /** A two-element list with a string in front. */
  predicate IsPair(e: Value) {
    e.Sequence? && |e.elements| == 2 && e.elements[0].Leaf? && e.elements[0].scalar.Str?
  }

  function PairKey(e: Value): string
    requires IsPair(e)
  {
    e.elements[0].scalar.s
  }

  function PairValue(e: Value): Value
    requires IsPair(e)
  {
    e.elements[1]
  }

  /** A list of pairs in strictly ascending order of their keys: what a dictionary's tuple looks like. */
  predicate Ascending(es: seq<Value>) {
    && (forall i | 0 <= i < |es| :: IsPair(es[i]))
    && (forall i, j | 0 <= i < j < |es| :: StringLe(PairKey(es[i]), PairKey(es[j])) && PairKey(es[i]) != PairKey(es[j]))
  }

  /** The dictionary entries a list of pairs spells out. */
  function ItemsOf(es: seq<Value>): seq<Item>
    requires forall i | 0 <= i < |es| :: IsPair(es[i])
  {
    seq(|es|, i requires 0 <= i < |es| => Item(PairKey(es[i]), PairValue(es[i])))
  }

  /** The last entry of a packed layout's tuple: its position attributes by name. */
  predicate NamesPositions(e: Value) {
    var names := ["position_ids", "img_pos", "img_update", "audio_pos", "audio_update"];
    && e.Sequence? && |e.elements| == 5
    && forall i | 0 <= i < |e.elements| :: IsPair(e.elements[i]) && PairKey(e.elements[i]) == names[i]
  }

  /** A list that spells out a packed layout. */
  predicate LayoutList(es: seq<Value>) {
    |es| == 5 && es[0] == Leaf(Str("__packed_layout__")) && NamesPositions(es[4])
  }

  /**
    Which payloads agree.  Containers of one kind agree part by part.  Of
    different kinds, a dictionary agrees with the list of its pairs in key
    order, a packed layout with the list that spells it out, and nothing else.
  */
  ghost predicate PayloadsAgree(eq: TensorEqual, v: Value, w: Value)
    decreases v, 0
  {
    match (v, w)
    case (Leaf(a), Leaf(b)) => ScalarsAgree(a, b)
    case (TensorValue(s), TensorValue(t)) =>
      && s.shape == t.shape && s.dtype == t.dtype && s.device == t.device
      && s.clone.Some? && t.clone.Some? && Same(eq, s.clone.value, t.clone.value)
    case (Dict(xs), Dict(ys)) =>
      && |xs| == |ys|
      && forall i | 0 <= i < |xs| :: EntryAgrees(eq, xs[i].key, xs[i].value, ys)
    case (Sequence(xs), Sequence(ys)) =>
      |xs| == |ys| && !Posing(xs) && forall i | 0 <= i < |xs| :: PayloadsAgree(eq, xs[i], ys[i])
    case (PackedLayout(a, b, c, ps), PackedLayout(a', b', c', qs)) =>
      && PayloadsAgree(eq, a, a') && PayloadsAgree(eq, b, b') && PayloadsAgree(eq, c, c')
      && |ps| == |qs| && forall i | 0 <= i < |ps| :: PayloadsAgree(eq, ps[i], qs[i])
    case (Dict(xs), Sequence(es)) =>
      && |xs| == |es| && Ascending(es)
      && forall i | 0 <= i < |xs| :: EntryAgrees(eq, xs[i].key, xs[i].value, ItemsOf(es))
    case (Sequence(es), Dict(ys)) =>
      && |es| == |ys| && Ascending(es)
      && forall i | 0 <= i < |es| :: EntryAgrees(eq, PairKey(es[i]), es[i].elements[1], ys)
    case (PackedLayout(a, b, c, ps), Sequence(es)) =>
      && LayoutList(es) && |ps| == 5
      && PayloadsAgree(eq, a, es[1]) && PayloadsAgree(eq, b, es[2]) && PayloadsAgree(eq, c, es[3])
      && forall i | 0 <= i < |ps| :: PayloadsAgree(eq, ps[i], PairValue(es[4].elements[i]))
    case (Sequence(es), PackedLayout(a, b, c, ps)) =>
      && LayoutList(es) && |ps| == 5
      && PayloadsAgree(eq, es[1], a) && PayloadsAgree(eq, es[2], b) && PayloadsAgree(eq, es[3], c)
      && forall i | 0 <= i < |ps| :: PayloadsAgree(eq, es[4].elements[i].elements[1], ps[i])
    case _ => false
  }

  /** The entry's key is among ys, with an agreeing value. */
  ghost predicate EntryAgrees(eq: TensorEqual, key: string, value: Value, ys: seq<Item>)
    decreases value, 1
  {
    exists j :: 0 <= j < |ys| && key == ys[j].key && PayloadsAgree(eq, value, ys[j].value)
  }

  /** Dictionaries have unique keys, at every depth. */
  ghost predicate ProperDicts(v: Value)
    decreases v
  {
    match v
    case Dict(items) => UniqueKeys(items) && forall i | 0 <= i < |items| :: ProperDicts(items[i].value)
    case Sequence(xs) => forall i | 0 <= i < |xs| :: ProperDicts(xs[i])
    case PackedLayout(a, b, c, ps) =>
      ProperDicts(a) && ProperDicts(b) && ProperDicts(c) && forall i | 0 <= i < |ps| :: ProperDicts(ps[i])
    case _ => true
  }

  // ----- what has a snapshot at all -----

  /** Nothing but plain values, tensors, containers and packed layouts with their five position attributes. */
  predicate Supported(v: Value)
    decreases v
  {
    match v
    case Leaf(_) => true
    case TensorValue(_) => true
    case Dict(items) => forall i | 0 <= i < |items| :: Supported(items[i].value)
    case Sequence(elements) => forall i | 0 <= i < |elements| :: Supported(elements[i])
    case PackedLayout(seqLen, signature, segments, positions) =>
      && Supported(seqLen) && Supported(signature) && Supported(segments)
      && |positions| == 5 && forall i | 0 <= i < |positions| :: Supported(positions[i])
    case Unsupported => false
  }

  /** A payload can be frozen exactly when nothing in it, at any depth, is of an unsupported type. */
  lemma {:induction false} SnapshotExistsIff(v: Value)
    ensures Snapshot(v).Some? <==> Supported(v)
    decreases v
  {
    match v
    case Dict(items) =>
      ItemSnapshots(items);
      forall i | 0 <= i < |items| ensures Snapshot(items[i].value).Some? <==> Supported(items[i].value) {
        SnapshotExistsIff(items[i].value);
      }
    case Sequence(elements) =>
      ListSnapshots(elements);
      forall i | 0 <= i < |elements| ensures Snapshot(elements[i]).Some? <==> Supported(elements[i]) {
        SnapshotExistsIff(elements[i]);
      }
    case PackedLayout(seqLen, signature, segments, positions) =>
      SnapshotExistsIff(seqLen);
      SnapshotExistsIff(signature);
      SnapshotExistsIff(segments);
      ListSnapshots(positions);
      forall i | 0 <= i < |positions| ensures Snapshot(positions[i]).Some? <==> Supported(positions[i]) {
        SnapshotExistsIff(positions[i]);
      }
    case _ =>
  }

  // ----- comparing tuples -----

  lemma ScalarEqualIff(a: Scalar, b: Scalar)
    ensures PyEqual(a, b) <==> ScalarsAgree(a, b)
  {
  }

  lemma {:induction false} AllEqualIff(eq: TensorEqual, xs: seq<Snap>, ys: seq<Snap>)
    requires |xs| == |ys|
    ensures AllEqual(eq, xs, ys) <==> forall i | 0 <= i < |xs| :: FingerprintsEqual(eq, xs[i], ys[i])
  {
    if xs != [] {
      AllEqualIff(eq, xs[1..], ys[1..]);
      if forall i | 0 <= i < |xs| :: FingerprintsEqual(eq, xs[i], ys[i]) {
        assert forall i | 0 <= i < |xs[1..]| :: xs[1..][i] == xs[i + 1] && ys[1..][i] == ys[i + 1];
      }
      if AllEqual(eq, xs, ys) {
        assert forall i | 0 < i < |xs| :: xs[i] == xs[1..][i - 1] && ys[i] == ys[1..][i - 1];
      }
    }
  }

  /** Tuples that are not both tensors are equal item by item. */
  lemma TuplesEqualIff(eq: TensorEqual, xs: seq<Snap>, ys: seq<Snap>)
    requires !(IsTensorTuple(Tup(xs)) && IsTensorTuple(Tup(ys)))
    ensures FingerprintsEqual(eq, Tup(xs), Tup(ys)) <==>
            |xs| == |ys| && forall i | 0 <= i < |xs| :: FingerprintsEqual(eq, xs[i], ys[i])
  {
    if |xs| == |ys| {
      AllEqualIff(eq, xs, ys);
    }
  }

  lemma StringEquals(eq: TensorEqual, k: string, b: Snap)
    ensures FingerprintsEqual(eq, Atom(Str(k)), b) <==> b == Atom(Str(k))
    ensures FingerprintsEqual(eq, b, Atom(Str(k))) <==> b == Atom(Str(k))
  {
  }

  /** Only a string's own leaf has its snapshot. */
  lemma StringSnapshot(v: Value, k: string)
    requires Snapshot(v).Some?
    ensures Snapshot(v).value == Atom(Str(k)) <==> v == Leaf(Str(k))
    ensures !Snapshot(v).value.Raw? && (Snapshot(v).value.Atom? <==> v.Leaf?)
  {
  }

  lemma {:induction false} ListSnapshots(vs: seq<Value>)
    ensures SnapshotAll(vs).Some? <==> forall i | 0 <= i < |vs| :: Snapshot(vs[i]).Some?
    ensures SnapshotAll(vs).Some? ==>
              forall i | 0 <= i < |vs| :: Snapshot(vs[i]).Some? && SnapshotAll(vs).value[i] == Snapshot(vs[i]).value
  {
    if vs != [] {
      ListSnapshots(vs[1..]);
      assert forall i | 0 < i < |vs| :: vs[i] == vs[1..][i - 1];
      if forall i | 0 <= i < |vs| :: Snapshot(vs[i]).Some? {
        assert forall i | 0 <= i < |vs[1..]| :: vs[1..][i] == vs[i + 1];
      }
    }
  }

  /** The snapshot of a list is the tuple of its elements' snapshots. */
  lemma SequenceSnapshot(es: seq<Value>)
    requires Snapshot(Sequence(es)).Some?
    ensures var s := Snapshot(Sequence(es)).value;
            && s.Tup? && |s.parts| == |es|
            && forall i | 0 <= i < |es| :: Snapshot(es[i]).Some? && s.parts[i] == Snapshot(es[i]).value
  {
    ListSnapshots(es);
  }

  /** Whose tuples carry the tensor tag. */
  lemma TagIff(v: Value)
    requires Snapshot(v).Some?
    ensures IsTensorTuple(Snapshot(v).value) <==> v.TensorValue? || (v.Sequence? && Posing(v.elements))
    ensures v.Sequence? && Posing(v.elements) ==> !Snapshot(v).value.parts[4].Raw?
  {
    if v.Sequence? {
      SequenceSnapshot(v.elements);
      if |v.elements| == 5 {
        StringSnapshot(v.elements[0], "__tensor__");
        StringSnapshot(v.elements[4], "");
      }
    }
  }

  /** A tagged tuple equals no untagged one. */
  lemma TaggedApart(eq: TensorEqual, a: Snap, b: Snap)
    requires IsTensorTuple(a) && !IsTensorTuple(b)
    ensures !FingerprintsEqual(eq, a, b) && !FingerprintsEqual(eq, b, a)
  {
    if b.Tup? {
      TuplesEqualIff(eq, a.parts, b.parts);
      TuplesEqualIff(eq, b.parts, a.parts);
      if |b.parts| == 5 {
        StringEquals(eq, "__tensor__", b.parts[0]);
        assert a.parts[0] == TENSOR_TAG;
      }
    }
  }

  /** A list posing as a tensor equals nothing, and a tensor only tensors. */
  lemma TensorsApart(eq: TensorEqual, v: Value, w: Value)
    requires Snapshot(v).Some? && Snapshot(w).Some?
    requires v.TensorValue? || (v.Sequence? && Posing(v.elements))
    requires !(v.TensorValue? && w.TensorValue?)
    ensures !FingerprintsEqual(eq, Snapshot(v).value, Snapshot(w).value)
    ensures !FingerprintsEqual(eq, Snapshot(w).value, Snapshot(v).value)
  {
    TagIff(v);
    TagIff(w);
    if !IsTensorTuple(Snapshot(w).value) {
      TaggedApart(eq, Snapshot(v).value, Snapshot(w).value);
    }
  }

  // ----- tensors -----

  lemma ShapesEqualIff(s: Option<seq<int>>, t: Option<seq<int>>)
    ensures var a := if s.Some? then Tup(IntTuple(s.value)) else Atom(PyNone);
            var b := if t.Some? then Tup(IntTuple(t.value)) else Atom(PyNone);
            PlainEqual(a, b) <==> s == t
  {
    if s.Some? && t.Some? {
      var xs, ys := IntTuple(s.value), IntTuple(t.value);
      if PlainEqual(Tup(xs), Tup(ys)) {
        forall i | 0 <= i < |s.value| ensures s.value[i] == t.value[i] {
          assert PlainEqual(xs[i], ys[i]);
        }
        assert s.value == t.value;
      }
    }
  }

  lemma TensorsAgreeIff(eq: TensorEqual, s: Tensor, t: Tensor)
    ensures FingerprintsEqual(eq, TensorSnap(s), TensorSnap(t))
            <==> PayloadsAgree(eq, TensorValue(s), TensorValue(t))
  {
    ShapesEqualIff(s.shape, t.shape);
    var a, b := TensorSnap(s), TensorSnap(t);
    assert IsTensorTuple(a) && IsTensorTuple(b);
    assert PlainEqual(a.parts[2], b.parts[2]) <==> s.dtype == t.dtype;
    assert PlainEqual(a.parts[3], b.parts[3]) <==> s.device == t.device;
  }

  // ----- lists -----

  lemma ListsAgreeIff(eq: TensorEqual, xs: seq<Value>, ys: seq<Value>)
    requires Snapshot(Sequence(xs)).Some? && Snapshot(Sequence(ys)).Some? && !Posing(xs)
    ensures FingerprintsEqual(eq, Snapshot(Sequence(xs)).value, Snapshot(Sequence(ys)).value) <==>
            && |xs| == |ys|
            && forall i | 0 <= i < |xs| ::
                 && Snapshot(xs[i]).Some? && Snapshot(ys[i]).Some?
                 && FingerprintsEqual(eq, Snapshot(xs[i]).value, Snapshot(ys[i]).value)
  {
    SequenceSnapshot(xs);
    SequenceSnapshot(ys);
    TagIff(Sequence(xs));
    TuplesEqualIff(eq, Snapshot(Sequence(xs)).value.parts, Snapshot(Sequence(ys)).value.parts);
  }

  // ----- dictionaries -----

  function EntryOf(x: Item): Keyed
    requires Snapshot(x.value).Some?
  {
    Keyed(x.key, Snapshot(x.value).value)
  }

  ghost predicate HasSnapshots(xs: seq<Item>) {
    forall i | 0 <= i < |xs| :: Snapshot(xs[i].value).Some?
  }

  ghost predicate Sourced(p: Keyed, xs: seq<Item>)
    requires HasSnapshots(xs)
  {
    exists i :: 0 <= i < |xs| && p == EntryOf(xs[i])
  }

  /** ps are the entries of xs in ascending order of their keys. */
  ghost predicate Arranges(ps: seq<Keyed>, xs: seq<Item>) {
    && HasSnapshots(xs) && |ps| == |xs| && KeysAscend(ps)
    && (forall m | 0 <= m < |ps| :: Sourced(ps[m], xs))
    && (forall i | 0 <= i < |xs| :: EntryOf(xs[i]) in ps)
  }

  ghost predicate KeysAscend(ps: seq<Keyed>) {
    forall m, n | 0 <= m < n < |ps| :: StringLe(ps[m].key, ps[n].key) && ps[m].key != ps[n].key
  }

  predicate SameKeys(a: Keyed, b: Keyed) {
    a.key == b.key
  }

  /** The snapshot of a dictionary is the tuple of its arranged pairs. */
  lemma DictSnapshot(xs: seq<Item>) returns (ps: seq<Keyed>)
    requires Snapshot(Dict(xs)).Some? && UniqueKeys(xs)
    ensures Arranges(ps, xs) && Snapshot(Dict(xs)).value == Tup(PairSnaps(ps))
  {
    ItemSnapshots(xs);
    var entries := SnapshotItems(xs).value;
    ps := Sort(entries, KeyLe);
    KeyOrderIsTotal();
    SortIsPermutation(entries, KeyLe);
    SortIsOrdered(entries, KeyLe);
    SameMembers(entries, KeyLe);
    SortKeepsApart(entries, KeyLe, SameKeys);
    forall m, n | 0 <= m < n < |ps| ensures StringLe(ps[m].key, ps[n].key) && ps[m].key != ps[n].key {
      assert KeyLe(ps[m], ps[n]) && !SameKeys(ps[m], ps[n]);
    }
    forall m | 0 <= m < |ps| ensures Sourced(ps[m], xs) {
      assert ps[m] in entries;
      var i :| 0 <= i < |entries| && entries[i] == ps[m];
      assert ps[m] == EntryOf(xs[i]);
    }
    forall i | 0 <= i < |xs| ensures EntryOf(xs[i]) in ps {
      assert entries[i] in ps && entries[i] == EntryOf(xs[i]);
    }
  }

  lemma PairsEqualIff(eq: TensorEqual, p: Keyed, q: Keyed)
    ensures FingerprintsEqual(eq, PairSnap(p), PairSnap(q)) <==> p.key == q.key && FingerprintsEqual(eq, p.snap, q.snap)
  {
    var xs, ys := [Atom(Str(p.key)), p.snap], [Atom(Str(q.key)), q.snap];
    TuplesEqualIff(eq, xs, ys);
    StringEquals(eq, p.key, ys[0]);
    assert xs[0] == Atom(Str(p.key)) && xs[1] == p.snap && ys[1] == q.snap;
  }

  /** Tuples of pairs are equal pair by pair. */
  lemma PairTuplesEqualIff(eq: TensorEqual, ps: seq<Keyed>, qs: seq<Keyed>)
    ensures FingerprintsEqual(eq, Tup(PairSnaps(ps)), Tup(PairSnaps(qs))) <==> AllMatched(eq, ps, qs)
  {
    var xs, ys := PairSnaps(ps), PairSnaps(qs);
    assert !IsTensorTuple(Tup(xs)) by {
      if |xs| == 5 { assert xs[0] == PairSnap(ps[0]); }
    }
    TuplesEqualIff(eq, xs, ys);
    if |ps| == |qs| {
      forall m | 0 <= m < |ps|
        ensures FingerprintsEqual(eq, xs[m], ys[m]) <==> Matched(eq, ps[m], qs[m])
      {
        PairsEqualIff(eq, ps[m], qs[m]);
      }
    }
  }

  function Blank(ps: seq<Keyed>): seq<Keyed> {
    seq(|ps|, m requires 0 <= m < |ps| => Keyed(ps[m].key, Atom(PyNone)))
  }

  ghost predicate HasKey(qs: seq<Keyed>, k: string) {
    exists n :: 0 <= n < |qs| && qs[n].key == k
  }

  lemma BlankHasKey(qs: seq<Keyed>, k: string)
    requires HasKey(qs, k)
    ensures Keyed(k, Atom(PyNone)) in Blank(qs)
  {
    var n :| 0 <= n < |qs| && qs[n].key == k;
    assert Blank(qs)[n] == Keyed(k, Atom(PyNone));
  }

  lemma BlankIsSorted(ps: seq<Keyed>)
    requires KeysAscend(ps)
    ensures Ordered(Blank(ps), KeyLe) && UniqueKeyed(Blank(ps))
    ensures forall i, j | 0 <= i < j < |Blank(ps)| :: Blank(ps)[i] != Blank(ps)[j]
  {
    var bs := Blank(ps);
    forall i, j | 0 <= i < j < |bs| ensures KeyLe(bs[i], bs[j]) && bs[i] != bs[j] {
      assert StringLe(ps[i].key, ps[j].key) && ps[i].key != ps[j].key;
    }
  }

  /** Ascending lists with the same keys have them at the same positions. */
  lemma KeysCoincide(ps: seq<Keyed>, qs: seq<Keyed>)
    requires |ps| == |qs| && KeysAscend(ps) && KeysAscend(qs)
    requires forall m | 0 <= m < |ps| :: HasKey(qs, ps[m].key)
    ensures forall m | 0 <= m < |ps| :: ps[m].key == qs[m].key
  {
    var bs, cs := Blank(ps), Blank(qs);
    BlankIsSorted(ps);
    BlankIsSorted(qs);
    forall m | 0 <= m < |bs| ensures bs[m] in cs {
      BlankHasKey(qs, ps[m].key);
    }
    SubsetOfEqualSize(bs, cs);
    SortedListsCoincide(bs, cs);
    forall m | 0 <= m < |ps| ensures ps[m].key == qs[m].key {
      assert bs[m] == cs[m];
    }
  }

  ghost predicate Matched(eq: TensorEqual, p: Keyed, q: Keyed) {
    p.key == q.key && FingerprintsEqual(eq, p.snap, q.snap)
  }

  ghost predicate AllMatched(eq: TensorEqual, ps: seq<Keyed>, qs: seq<Keyed>) {
    |ps| == |qs| && forall m | 0 <= m < |ps| :: Matched(eq, ps[m], qs[m])
  }

  lemma PositionIn(ps: seq<Keyed>, xs: seq<Item>, i: nat) returns (m: nat)
    requires Arranges(ps, xs) && i < |xs|
    ensures m < |ps| && ps[m] == EntryOf(xs[i])
  {
    var x := EntryOf(xs[i]);
    assert x in ps;
    m :| 0 <= m < |ps| && ps[m] == x;
  }

  lemma SourceOf(ps: seq<Keyed>, xs: seq<Item>, m: nat) returns (i: nat)
    requires Arranges(ps, xs) && m < |ps|
    ensures i < |xs| && ps[m] == EntryOf(xs[i])
  {
    assert Sourced(ps[m], xs);
    i :| 0 <= i < |xs| && ps[m] == EntryOf(xs[i]);
  }

  ghost predicate EntryFound(eq: TensorEqual, x: Item, ys: seq<Item>)
    requires Snapshot(x.value).Some? && HasSnapshots(ys)
  {
    exists j :: 0 <= j < |ys| && Matched(eq, EntryOf(x), EntryOf(ys[j]))
  }

  /** Every entry of xs finds its key and an equal snapshot in ys. */
  ghost predicate EntriesFound(eq: TensorEqual, xs: seq<Item>, ys: seq<Item>)
    requires HasSnapshots(xs) && HasSnapshots(ys)
  {
    forall i | 0 <= i < |xs| :: EntryFound(eq, xs[i], ys)
  }

  lemma EqualDictsFind(eq: TensorEqual, xs: seq<Item>, ys: seq<Item>, ps: seq<Keyed>, qs: seq<Keyed>)
    requires Arranges(ps, xs) && Arranges(qs, ys) && AllMatched(eq, ps, qs)
    ensures EntriesFound(eq, xs, ys)
  {
    forall i: nat | i < |xs| ensures EntryFound(eq, xs[i], ys) {
      var m := PositionIn(ps, xs, i);
      var j := SourceOf(qs, ys, m);
      assert Matched(eq, ps[m], qs[m]);
    }
  }

  lemma FoundKeysCoincide(eq: TensorEqual, xs: seq<Item>, ys: seq<Item>, ps: seq<Keyed>, qs: seq<Keyed>)
    requires Arranges(ps, xs) && Arranges(qs, ys)
    requires |xs| == |ys| && EntriesFound(eq, xs, ys)
    ensures forall m | 0 <= m < |ps| :: ps[m].key == qs[m].key
  {
    forall m | 0 <= m < |ps| ensures HasKey(qs, ps[m].key) {
      var i := SourceOf(ps, xs, m);
      assert EntryFound(eq, xs[i], ys);
      var j: nat :| j < |ys| && Matched(eq, EntryOf(xs[i]), EntryOf(ys[j]));
      var n := PositionIn(qs, ys, j);
    }
    KeysCoincide(ps, qs);
  }

  lemma FoundEntryMatches(eq: TensorEqual, p: Keyed, ys: seq<Item>, j: nat, k: nat)
    requires HasSnapshots(ys) && UniqueKeys(ys) && j < |ys| && k < |ys|
    requires Matched(eq, p, EntryOf(ys[j])) && ys[k].key == p.key
    ensures Matched(eq, p, EntryOf(ys[k]))
  {
    assert ys[k].key == ys[j].key;
  }

  lemma FoundPositionMatches(eq: TensorEqual, xs: seq<Item>, ys: seq<Item>, ps: seq<Keyed>, qs: seq<Keyed>, m: nat)
    requires Arranges(ps, xs) && Arranges(qs, ys) && UniqueKeys(ys) && EntriesFound(eq, xs, ys)
    requires m < |ps| == |qs| && ps[m].key == qs[m].key
    ensures Matched(eq, ps[m], qs[m])
  {
    var i := SourceOf(ps, xs, m);
    assert EntryFound(eq, xs[i], ys);
    var j: nat :| j < |ys| && Matched(eq, EntryOf(xs[i]), EntryOf(ys[j]));
    var k := SourceOf(qs, ys, m);
    FoundEntryMatches(eq, ps[m], ys, j, k);
  }

  lemma FoundDictsEqual(eq: TensorEqual, xs: seq<Item>, ys: seq<Item>, ps: seq<Keyed>, qs: seq<Keyed>)
    requires Arranges(ps, xs) && Arranges(qs, ys) && UniqueKeys(ys)
    requires |xs| == |ys| && EntriesFound(eq, xs, ys)
    ensures AllMatched(eq, ps, qs)
  {
    FoundKeysCoincide(eq, xs, ys, ps, qs);
    forall m: nat | m < |ps| ensures Matched(eq, ps[m], qs[m]) {
      FoundPositionMatches(eq, xs, ys, ps, qs, m);
    }
  }

  /** Dictionaries compare equal exactly when each entry finds its equal under the same key. */
  lemma DictsEqualIff(eq: TensorEqual, xs: seq<Item>, ys: seq<Item>)
    requires Snapshot(Dict(xs)).Some? && Snapshot(Dict(ys)).Some? && UniqueKeys(xs) && UniqueKeys(ys)
    ensures HasSnapshots(xs) && HasSnapshots(ys)
    ensures FingerprintsEqual(eq, Snapshot(Dict(xs)).value, Snapshot(Dict(ys)).value)
            <==> |xs| == |ys| && EntriesFound(eq, xs, ys)
  {
    var ps := DictSnapshot(xs);
    var qs := DictSnapshot(ys);
    PairTuplesEqualIff(eq, ps, qs);
    if FingerprintsEqual(eq, Snapshot(Dict(xs)).value, Snapshot(Dict(ys)).value) {
      EqualDictsFind(eq, xs, ys, ps, qs);
    }
    if |xs| == |ys| && EntriesFound(eq, xs, ys) {
      FoundDictsEqual(eq, xs, ys, ps, qs);
    }
  }

  // ----- dictionaries and lists of pairs -----

  lemma PairSnapshot(e: Value)
    requires IsPair(e) && Snapshot(e).Some?
    ensures Snapshot(PairValue(e)).Some?
    ensures Snapshot(e).value == PairSnap(Keyed(PairKey(e), Snapshot(PairValue(e)).value))
  {
    SequenceSnapshot(e.elements);
  }

  /** A list of pairs in key order has the snapshot of the dictionary with these entries. */
  lemma AscendingIsDict(es: seq<Value>)
    requires Ascending(es) && Snapshot(Sequence(es)).Some?
    ensures UniqueKeys(ItemsOf(es)) && Snapshot(Dict(ItemsOf(es))) == Snapshot(Sequence(es))
  {
    var xs := ItemsOf(es);
    SequenceSnapshot(es);
    forall i | 0 <= i < |es| ensures Snapshot(xs[i].value).Some? {
      PairSnapshot(es[i]);
    }
    ItemSnapshots(xs);
    var entries := SnapshotItems(xs).value;
    forall i, j | 0 <= i < j < |entries|
      ensures StringLe(entries[i].key, entries[j].key) && entries[i].key != entries[j].key
    {
      assert entries[i].key == PairKey(es[i]) && entries[j].key == PairKey(es[j]);
    }
    SortedAlready(entries);
    var s := Snapshot(Sequence(es)).value;
    assert s.parts == PairSnaps(entries) by {
      forall i | 0 <= i < |es| ensures s.parts[i] == PairSnap(entries[i]) {
        PairSnapshot(es[i]);
      }
    }
  }

  lemma SortedAlready(ps: seq<Keyed>)
    requires KeysAscend(ps)
    ensures Sort(ps, KeyLe) == ps
  {
    KeyOrderIsTotal();
    SortIsPermutation(ps, KeyLe);
    SortIsOrdered(ps, KeyLe);
    SameMembers(ps, KeyLe);
    SortedListsCoincide(ps, Sort(ps, KeyLe));
  }

  /** Only a pair of the key's own leaf and a value can equal a dictionary's pair. */
  lemma PairEqualsOnlyPairs(eq: TensorEqual, p: Keyed, e: Value)
    requires Snapshot(e).Some?
    ensures || FingerprintsEqual(eq, PairSnap(p), Snapshot(e).value)
            || FingerprintsEqual(eq, Snapshot(e).value, PairSnap(p))
            ==> IsPair(e) && PairKey(e) == p.key
  {
    var s := Snapshot(e).value;
    if s.Tup? {
      TuplesEqualIff(eq, PairSnap(p).parts, s.parts);
      TuplesEqualIff(eq, s.parts, PairSnap(p).parts);
      if |s.parts| == 2 {
        StringEquals(eq, p.key, s.parts[0]);
        if e.Sequence? {
          SequenceSnapshot(e.elements);
          StringSnapshot(e.elements[0], p.key);
        } else if e.Dict? {
          var ps := SnapshotItems(e.items).value;
          assert s.parts[0] == PairSnap(Sort(ps, KeyLe)[0]);
        }
        if FingerprintsEqual(eq, PairSnap(p), s) {
          assert FingerprintsEqual(eq, PairSnap(p).parts[0], s.parts[0]);
        }
        if FingerprintsEqual(eq, s, PairSnap(p)) {
          assert FingerprintsEqual(eq, s.parts[0], PairSnap(p).parts[0]);
        }
      }
    }
  }

  lemma DictTupleIsUntagged(ps: seq<Keyed>)
    ensures !IsTensorTuple(Tup(PairSnaps(ps)))
  {
    if |ps| == 5 { assert PairSnaps(ps)[0] == PairSnap(ps[0]); }
  }

  /** What equals a tuple of pairs is, if a list at all, the list of these pairs. */
  lemma ListOfPairs(eq: TensorEqual, ps: seq<Keyed>, es: seq<Value>)
    requires Snapshot(Sequence(es)).Some?
    requires || FingerprintsEqual(eq, Tup(PairSnaps(ps)), Snapshot(Sequence(es)).value)
             || FingerprintsEqual(eq, Snapshot(Sequence(es)).value, Tup(PairSnaps(ps)))
    ensures |es| == |ps| && forall i | 0 <= i < |ps| :: IsPair(es[i]) && PairKey(es[i]) == ps[i].key
  {
    SequenceSnapshot(es);
    var s := Snapshot(Sequence(es)).value;
    DictTupleIsUntagged(ps);
    TuplesEqualIff(eq, PairSnaps(ps), s.parts);
    TuplesEqualIff(eq, s.parts, PairSnaps(ps));
    forall i | 0 <= i < |ps| ensures IsPair(es[i]) && PairKey(es[i]) == ps[i].key {
      assert PairSnaps(ps)[i] == PairSnap(ps[i]);
      PairEqualsOnlyPairs(eq, ps[i], es[i]);
    }
  }

  /** A list that equals a dictionary is a list of pairs in key order. */
  lemma EqualToDictAscends(eq: TensorEqual, xs: seq<Item>, es: seq<Value>)
    requires Snapshot(Dict(xs)).Some? && Snapshot(Sequence(es)).Some? && UniqueKeys(xs)
    requires || FingerprintsEqual(eq, Snapshot(Dict(xs)).value, Snapshot(Sequence(es)).value)
             || FingerprintsEqual(eq, Snapshot(Sequence(es)).value, Snapshot(Dict(xs)).value)
    ensures Ascending(es)
  {
    var ps := DictSnapshot(xs);
    ListOfPairs(eq, ps, es);
  }

  // ----- packed layouts -----

  function AttrPairs(snaps: seq<Snap>): seq<Keyed>
    requires |snaps| == |POSITION_ATTRS|
  {
    ZipAttrs(POSITION_ATTRS, snaps)
  }

  /** A packed layout's tuple, part by part. */
  lemma LayoutSnapshot(v: Value)
    requires v.PackedLayout? && Snapshot(v).Some?
    ensures |v.positions| == |POSITION_ATTRS| && SnapshotAll(v.positions).Some?
    ensures Snapshot(v.seqLen).Some? && Snapshot(v.signature).Some? && Snapshot(v.segments).Some?
    ensures Snapshot(v).value ==
            Tup([LAYOUT_TAG, Snapshot(v.seqLen).value, Snapshot(v.signature).value, Snapshot(v.segments).value,
                 Tup(PairSnaps(AttrPairs(SnapshotAll(v.positions).value)))])
  {
  }

  lemma FiveEqualIff(eq: TensorEqual, xs: seq<Snap>, ys: seq<Snap>)
    requires |xs| == 5 && |ys| == 5 && (xs[0] == LAYOUT_TAG || ys[0] == LAYOUT_TAG)
    ensures FingerprintsEqual(eq, Tup(xs), Tup(ys)) <==>
            && xs[0] == LAYOUT_TAG && ys[0] == LAYOUT_TAG
            && FingerprintsEqual(eq, xs[1], ys[1]) && FingerprintsEqual(eq, xs[2], ys[2])
            && FingerprintsEqual(eq, xs[3], ys[3]) && FingerprintsEqual(eq, xs[4], ys[4])
  {
    assert LAYOUT_TAG != TENSOR_TAG by {
      assert "__packed_layout__"[2] != "__tensor__"[2];
    }
    TuplesEqualIff(eq, xs, ys);
    StringEquals(eq, "__packed_layout__", xs[0]);
    StringEquals(eq, "__packed_layout__", ys[0]);
  }

  lemma PositionsDescend()
    ensures !StringLe(POSITION_ATTRS[0], POSITION_ATTRS[1])
  {
    assert "position_ids"[0] == 'p' && "img_pos"[0] == 'i';
  }

  /** Position names are not in key order, so no dictionary has them in this one. */
  lemma PositionsAreUnordered(ps: seq<Keyed>)
    requires KeysAscend(ps) && |ps| == |POSITION_ATTRS|
    ensures ps[0].key != POSITION_ATTRS[0] || ps[1].key != POSITION_ATTRS[1]
  {
    PositionsDescend();
    assert StringLe(ps[0].key, ps[1].key);
  }

  lemma NamedPositions(e: Value)
    requires NamesPositions(e) && Snapshot(e).Some?
    ensures forall i | 0 <= i < |e.elements| :: Snapshot(PairValue(e.elements[i])).Some?
    ensures Snapshot(e).value == Tup(PairSnaps(PositionEntries(e)))
  {
    SequenceSnapshot(e.elements);
    var s := Snapshot(e).value;
    forall i | 0 <= i < |e.elements|
      ensures Snapshot(PairValue(e.elements[i])).Some? && s.parts[i] == PairSnap(PositionEntries(e)[i])
    {
      PairSnapshot(e.elements[i]);
    }
    assert s.parts == PairSnaps(PositionEntries(e));
  }

  function PositionEntries(e: Value): seq<Keyed>
    requires NamesPositions(e)
  {
    seq(|e.elements|, i requires 0 <= i < |e.elements| =>
      Keyed(POSITION_ATTRS[i], if Snapshot(PairValue(e.elements[i])).Some? then Snapshot(PairValue(e.elements[i])).value
                               else Atom(PyNone)))
  }

  lemma DictIsNotPositions(eq: TensorEqual, ps: seq<Keyed>, xs: seq<Item>)
    requires |ps| == |POSITION_ATTRS| && forall i | 0 <= i < |ps| :: ps[i].key == POSITION_ATTRS[i]
    requires Snapshot(Dict(xs)).Some? && UniqueKeys(xs)
    ensures !FingerprintsEqual(eq, Tup(PairSnaps(ps)), Snapshot(Dict(xs)).value)
    ensures !FingerprintsEqual(eq, Snapshot(Dict(xs)).value, Tup(PairSnaps(ps)))
  {
    var qs := DictSnapshot(xs);
    PairTuplesEqualIff(eq, ps, qs);
    PairTuplesEqualIff(eq, qs, ps);
    if |qs| == |ps| {
      PositionsAreUnordered(qs);
    }
  }

  /** The tuple of a tensor or of a packed layout starts with its tag, never with a pair. */
  lemma TaggedIsNotPairs(eq: TensorEqual, ps: seq<Keyed>, v: Value)
    requires (v.TensorValue? || v.PackedLayout?) && Snapshot(v).Some?
    ensures !FingerprintsEqual(eq, Tup(PairSnaps(ps)), Snapshot(v).value)
    ensures !FingerprintsEqual(eq, Snapshot(v).value, Tup(PairSnaps(ps)))
  {
    var s := Snapshot(v).value;
    DictTupleIsUntagged(ps);
    assert s.Tup? && |s.parts| == 5 && s.parts[0].Atom?;
    TuplesEqualIff(eq, PairSnaps(ps), s.parts);
    TuplesEqualIff(eq, s.parts, PairSnaps(ps));
    if ps != [] { assert PairSnaps(ps)[0] == PairSnap(ps[0]); }
  }

  /** What equals the position entry of a packed layout. */
  lemma OnlyNamedPositions(eq: TensorEqual, ps: seq<Keyed>, e: Value)
    requires |ps| == |POSITION_ATTRS| && forall i | 0 <= i < |ps| :: ps[i].key == POSITION_ATTRS[i]
    requires ProperDicts(e) && Snapshot(e).Some?
    requires || FingerprintsEqual(eq, Tup(PairSnaps(ps)), Snapshot(e).value)
             || FingerprintsEqual(eq, Snapshot(e).value, Tup(PairSnaps(ps)))
    ensures NamesPositions(e)
  {
    match e
    case Sequence(es) => ListOfPairs(eq, ps, es);
    case Dict(xs) => DictIsNotPositions(eq, ps, xs);
    case TensorValue(_) => TaggedIsNotPairs(eq, ps, e);
    case PackedLayout(_, _, _, _) => TaggedIsNotPairs(eq, ps, e);
    case _ =>
  }

  // ----- the comparison of snapshots is agreement of payloads -----

  ghost predicate Decides(eq: TensorEqual, v: Value, w: Value) {
    && Snapshot(v).Some? && Snapshot(w).Some?
    && (FingerprintsEqual(eq, Snapshot(v).value, Snapshot(w).value) <==> PayloadsAgree(eq, v, w))
  }

  lemma ListCase(eq: TensorEqual, xs: seq<Value>, ys: seq<Value>)
    requires Snapshot(Sequence(xs)).Some? && Snapshot(Sequence(ys)).Some?
    requires |xs| == |ys| ==> forall i | 0 <= i < |xs| :: Decides(eq, xs[i], ys[i])
    ensures Decides(eq, Sequence(xs), Sequence(ys))
  {
    if Posing(xs) {
      TensorsApart(eq, Sequence(xs), Sequence(ys));
    } else {
      ListsAgreeIff(eq, xs, ys);
      if |xs| == |ys| {
        assert forall i | 0 <= i < |xs| :: Decides(eq, xs[i], ys[i]);
      }
    }
  }

  ghost predicate EntriesAgree(eq: TensorEqual, xs: seq<Item>, ys: seq<Item>) {
    |xs| == |ys| && forall i | 0 <= i < |xs| :: EntryAgrees(eq, xs[i].key, xs[i].value, ys)
  }

  lemma MatchedIff(eq: TensorEqual, x: Item, y: Item)
    requires Decides(eq, x.value, y.value)
    ensures Matched(eq, EntryOf(x), EntryOf(y)) <==> x.key == y.key && PayloadsAgree(eq, x.value, y.value)
  {
  }

  lemma FoundAgrees(eq: TensorEqual, x: Item, ys: seq<Item>)
    requires Snapshot(x.value).Some? && HasSnapshots(ys)
    requires forall j | 0 <= j < |ys| :: Decides(eq, x.value, ys[j].value)
    requires EntryFound(eq, x, ys)
    ensures EntryAgrees(eq, x.key, x.value, ys)
  {
    var j :| 0 <= j < |ys| && Matched(eq, EntryOf(x), EntryOf(ys[j]));
    MatchedIff(eq, x, ys[j]);
  }

  lemma AgreesFound(eq: TensorEqual, x: Item, ys: seq<Item>)
    requires Snapshot(x.value).Some? && HasSnapshots(ys)
    requires forall j | 0 <= j < |ys| :: Decides(eq, x.value, ys[j].value)
    requires EntryAgrees(eq, x.key, x.value, ys)
    ensures EntryFound(eq, x, ys)
  {
    var j :| 0 <= j < |ys| && x.key == ys[j].key && PayloadsAgree(eq, x.value, ys[j].value);
    MatchedIff(eq, x, ys[j]);
  }

  lemma EntryCase(eq: TensorEqual, x: Item, ys: seq<Item>)
    requires Snapshot(x.value).Some? && HasSnapshots(ys)
    requires forall j | 0 <= j < |ys| :: Decides(eq, x.value, ys[j].value)
    ensures EntryFound(eq, x, ys) <==> EntryAgrees(eq, x.key, x.value, ys)
  {
    if EntryFound(eq, x, ys) {
      FoundAgrees(eq, x, ys);
    } else if EntryAgrees(eq, x.key, x.value, ys) {
      AgreesFound(eq, x, ys);
    }
  }

  ghost predicate EntriesDecide(eq: TensorEqual, xs: seq<Item>, ys: seq<Item>) {
    forall i, j | 0 <= i < |xs| && 0 <= j < |ys| :: Decides(eq, xs[i].value, ys[j].value)
  }

  lemma EntriesCase(eq: TensorEqual, xs: seq<Item>, ys: seq<Item>)
    requires Snapshot(Dict(xs)).Some? && Snapshot(Dict(ys)).Some? && UniqueKeys(xs) && UniqueKeys(ys)
    requires EntriesDecide(eq, xs, ys)
    ensures FingerprintsEqual(eq, Snapshot(Dict(xs)).value, Snapshot(Dict(ys)).value) <==> EntriesAgree(eq, xs, ys)
  {
    DictsEqualIff(eq, xs, ys);
    forall i | 0 <= i < |xs| ensures EntryFound(eq, xs[i], ys) <==> EntryAgrees(eq, xs[i].key, xs[i].value, ys) {
      EntryCase(eq, xs[i], ys);
    }
  }

  lemma DictCase(eq: TensorEqual, xs: seq<Item>, ys: seq<Item>)
    requires Snapshot(Dict(xs)).Some? && Snapshot(Dict(ys)).Some? && UniqueKeys(xs) && UniqueKeys(ys)
    requires EntriesDecide(eq, xs, ys)
    ensures Decides(eq, Dict(xs), Dict(ys))
  {
    EntriesCase(eq, xs, ys);
  }

  lemma ListDictAgreement(eq: TensorEqual, es: seq<Value>, ys: seq<Item>)
    requires Ascending(es)
    ensures PayloadsAgree(eq, Sequence(es), Dict(ys)) <==> EntriesAgree(eq, ItemsOf(es), ys)
  {
    var xs := ItemsOf(es);
    assert forall i | 0 <= i < |es| :: xs[i] == Item(PairKey(es[i]), PairValue(es[i]));
    if EntriesAgree(eq, xs, ys) {
      assert forall i | 0 <= i < |es| :: EntryAgrees(eq, xs[i].key, xs[i].value, ys);
    }
  }

  lemma DictListCase(eq: TensorEqual, xs: seq<Item>, es: seq<Value>)
    requires Snapshot(Dict(xs)).Some? && Snapshot(Sequence(es)).Some? && UniqueKeys(xs)
    requires Ascending(es) ==> EntriesDecide(eq, xs, ItemsOf(es))
    ensures Decides(eq, Dict(xs), Sequence(es))
  {
    if Ascending(es) {
      AscendingIsDict(es);
      EntriesCase(eq, xs, ItemsOf(es));
    } else if FingerprintsEqual(eq, Snapshot(Dict(xs)).value, Snapshot(Sequence(es)).value) {
      EqualToDictAscends(eq, xs, es);
    }
  }

  lemma ListDictCase(eq: TensorEqual, es: seq<Value>, ys: seq<Item>)
    requires Snapshot(Dict(ys)).Some? && Snapshot(Sequence(es)).Some? && UniqueKeys(ys)
    requires Ascending(es) ==> EntriesDecide(eq, ItemsOf(es), ys)
    ensures Decides(eq, Sequence(es), Dict(ys))
  {
    if Ascending(es) {
      AscendingIsDict(es);
      EntriesCase(eq, ItemsOf(es), ys);
      ListDictAgreement(eq, es, ys);
    } else if FingerprintsEqual(eq, Snapshot(Sequence(es)).value, Snapshot(Dict(ys)).value) {
      EqualToDictAscends(eq, ys, es);
    }
  }

  lemma PositionsEqualIff(eq: TensorEqual, ss: seq<Snap>, ts: seq<Snap>)
    requires |ss| == |ts| == |POSITION_ATTRS|
    ensures FingerprintsEqual(eq, Tup(PairSnaps(AttrPairs(ss))), Tup(PairSnaps(AttrPairs(ts))))
            <==> forall i | 0 <= i < |ss| :: FingerprintsEqual(eq, ss[i], ts[i])
  {
    var ps, qs := AttrPairs(ss), AttrPairs(ts);
    PairTuplesEqualIff(eq, ps, qs);
    assert forall i | 0 <= i < |ss| :: Matched(eq, ps[i], qs[i]) <==> FingerprintsEqual(eq, ss[i], ts[i]);
  }

  ghost predicate SnapshotsEqual(eq: TensorEqual, v: Value, w: Value) {
    && Snapshot(v).Some? && Snapshot(w).Some?
    && FingerprintsEqual(eq, Snapshot(v).value, Snapshot(w).value)
  }

  lemma LayoutsEqualIff(eq: TensorEqual, v: Value, w: Value)
    requires v.PackedLayout? && w.PackedLayout? && Snapshot(v).Some? && Snapshot(w).Some?
    ensures |v.positions| == |w.positions| == |POSITION_ATTRS|
    ensures SnapshotsEqual(eq, v, w) <==>
            && SnapshotsEqual(eq, v.seqLen, w.seqLen) && SnapshotsEqual(eq, v.signature, w.signature)
            && SnapshotsEqual(eq, v.segments, w.segments)
            && forall i | 0 <= i < |v.positions| :: SnapshotsEqual(eq, v.positions[i], w.positions[i])
  {
    LayoutSnapshot(v);
    LayoutSnapshot(w);
    ListSnapshots(v.positions);
    ListSnapshots(w.positions);
    var ss, ts := SnapshotAll(v.positions).value, SnapshotAll(w.positions).value;
    PositionsEqualIff(eq, ss, ts);
    FiveEqualIff(eq, Snapshot(v).value.parts, Snapshot(w).value.parts);
    assert forall i | 0 <= i < |ss| ::
        SnapshotsEqual(eq, v.positions[i], w.positions[i]) <==> FingerprintsEqual(eq, ss[i], ts[i]);
  }

  lemma LayoutCase(eq: TensorEqual, v: Value, w: Value)
    requires v.PackedLayout? && w.PackedLayout? && Snapshot(v).Some? && Snapshot(w).Some?
    requires Decides(eq, v.seqLen, w.seqLen) && Decides(eq, v.signature, w.signature)
    requires Decides(eq, v.segments, w.segments)
    requires |v.positions| == |w.positions| ==>
               forall i | 0 <= i < |v.positions| :: Decides(eq, v.positions[i], w.positions[i])
    ensures Decides(eq, v, w)
  {
    LayoutsEqualIff(eq, v, w);
    assert forall i | 0 <= i < |v.positions| ::
        Decides(eq, v.positions[i], w.positions[i])
        && (SnapshotsEqual(eq, v.positions[i], w.positions[i])
            <==> PayloadsAgree(eq, v.positions[i], w.positions[i]));
  }

  /** The packed layout a list spells out. */
  function LayoutOf(es: seq<Value>): Value
    requires LayoutList(es)
  {
    var named := es[4].elements;
    PackedLayout(es[1], es[2], es[3], seq(|named|, i requires 0 <= i < |named| => PairValue(named[i])))
  }

  /** A list that spells out a packed layout has its snapshot. */
  lemma LayoutListIsLayout(es: seq<Value>)
    requires LayoutList(es) && Snapshot(Sequence(es)).Some?
    ensures Snapshot(LayoutOf(es)) == Snapshot(Sequence(es))
  {
    SequenceSnapshot(es);
    NamedPositions(es[4]);
    var ps := LayoutOf(es).positions;
    ListSnapshots(ps);
    var ss := SnapshotAll(ps).value;
    assert AttrPairs(ss) == PositionEntries(es[4]);
    var parts := Snapshot(Sequence(es)).value.parts;
    assert parts == [LAYOUT_TAG, parts[1], parts[2], parts[3], parts[4]];
  }

  /** A list that equals a packed layout spells out one. */
  lemma EqualToLayoutSpells(eq: TensorEqual, v: Value, es: seq<Value>)
    requires v.PackedLayout? && Snapshot(v).Some? && Snapshot(Sequence(es)).Some? && ProperDicts(Sequence(es))
    requires SnapshotsEqual(eq, v, Sequence(es)) || SnapshotsEqual(eq, Sequence(es), v)
    ensures LayoutList(es)
  {
    LayoutSnapshot(v);
    SequenceSnapshot(es);
    var xs, ys := Snapshot(v).value.parts, Snapshot(Sequence(es)).value.parts;
    LayoutIsUntagged(v);
    TuplesEqualIff(eq, xs, ys);
    TuplesEqualIff(eq, ys, xs);
    FiveEqualIff(eq, xs, ys);
    FiveEqualIff(eq, ys, xs);
    StringSnapshot(es[0], "__packed_layout__");
    OnlyNamedPositions(eq, AttrPairs(SnapshotAll(v.positions).value), es[4]);
  }

  lemma LayoutIsUntagged(v: Value)
    requires v.PackedLayout? && Snapshot(v).Some?
    ensures !IsTensorTuple(Snapshot(v).value)
  {
    TagIff(v);
  }

  lemma LayoutListCase(eq: TensorEqual, v: Value, es: seq<Value>)
    requires v.PackedLayout? && Snapshot(v).Some? && Snapshot(Sequence(es)).Some? && ProperDicts(Sequence(es))
    requires LayoutList(es) ==>
               && Decides(eq, v.seqLen, es[1]) && Decides(eq, v.signature, es[2]) && Decides(eq, v.segments, es[3])
               && forall i | 0 <= i < |v.positions| && i < |POSITION_ATTRS| ::
                    Decides(eq, v.positions[i], PairValue(es[4].elements[i]))
    ensures Decides(eq, v, Sequence(es))
  {
    if LayoutList(es) {
      LayoutListIsLayout(es);
      LayoutCase(eq, v, LayoutOf(es));
      LayoutSnapshot(v);
    } else if SnapshotsEqual(eq, v, Sequence(es)) {
      EqualToLayoutSpells(eq, v, es);
    }
  }

  lemma ListLayoutCase(eq: TensorEqual, es: seq<Value>, w: Value)
    requires w.PackedLayout? && Snapshot(w).Some? && Snapshot(Sequence(es)).Some? && ProperDicts(Sequence(es))
    requires LayoutList(es) ==>
               && Decides(eq, es[1], w.seqLen) && Decides(eq, es[2], w.signature) && Decides(eq, es[3], w.segments)
               && forall i | 0 <= i < |w.positions| && i < |POSITION_ATTRS| ::
                    Decides(eq, PairValue(es[4].elements[i]), w.positions[i])
    ensures Decides(eq, Sequence(es), w)
  {
    if LayoutList(es) {
      LayoutListIsLayout(es);
      LayoutCase(eq, LayoutOf(es), w);
      LayoutSnapshot(w);
    } else if SnapshotsEqual(eq, Sequence(es), w) {
      EqualToLayoutSpells(eq, w, es);
    }
  }

  lemma LayoutDictApart(eq: TensorEqual, v: Value, xs: seq<Item>)
    requires v.PackedLayout? && Snapshot(v).Some? && Snapshot(Dict(xs)).Some? && UniqueKeys(xs)
    ensures Decides(eq, v, Dict(xs)) && Decides(eq, Dict(xs), v)
  {
    var ps := DictSnapshot(xs);
    TaggedIsNotPairs(eq, ps, v);
  }

  lemma LeafCase(eq: TensorEqual, v: Value, w: Value)
    requires v.Leaf? || w.Leaf?
    requires Snapshot(v).Some? && Snapshot(w).Some?
    ensures Decides(eq, v, w)
  {
    StringSnapshot(v, "");
    StringSnapshot(w, "");
    if v.Leaf? && w.Leaf? {
      ScalarEqualIff(v.scalar, w.scalar);
    }
  }

  lemma TensorCase(eq: TensorEqual, v: Value, w: Value)
    requires v.TensorValue? || w.TensorValue?
    requires Snapshot(v).Some? && Snapshot(w).Some?
    ensures Decides(eq, v, w)
  {
    if v.TensorValue? && w.TensorValue? {
      TensorsAgreeIff(eq, v.tensor, w.tensor);
    } else if v.TensorValue? {
      TensorsApart(eq, v, w);
    } else {
      TensorsApart(eq, w, v);
    }
  }

  /**
    Two payloads have equal fingerprints exactly when they agree.  So whatever
    changes in a conditioning payload, down to one number in one entry, shows
    in its fingerprint.
  */
  lemma {:induction false} AgreeIff(eq: TensorEqual, v: Value, w: Value)
    requires Snapshot(v).Some? && Snapshot(w).Some? && ProperDicts(v) && ProperDicts(w)
    ensures FingerprintsEqual(eq, Snapshot(v).value, Snapshot(w).value) <==> PayloadsAgree(eq, v, w)
    decreases v, 2
  {
    if v.Leaf? || w.Leaf? {
      LeafCase(eq, v, w);
    } else if v.TensorValue? || w.TensorValue? {
      TensorCase(eq, v, w);
    } else if v.Dict? {
      DictAgreesIff(eq, v.items, w);
    } else if v.Sequence? {
      ListAgreesIff(eq, v.elements, w);
    } else {
      LayoutAgreesIff(eq, v, w);
    }
  }

  lemma {:induction false} DictAgreesIff(eq: TensorEqual, xs: seq<Item>, w: Value)
    requires Snapshot(Dict(xs)).Some? && Snapshot(w).Some? && ProperDicts(Dict(xs)) && ProperDicts(w)
    requires !w.Leaf? && !w.TensorValue?
    ensures Decides(eq, Dict(xs), w)
    decreases Dict(xs), 0
  {
    ItemSnapshots(xs);
    if w.Dict? {
      ItemSnapshots(w.items);
      forall i, j | 0 <= i < |xs| && 0 <= j < |w.items| ensures Decides(eq, xs[i].value, w.items[j].value) {
        AgreeIff(eq, xs[i].value, w.items[j].value);
      }
      DictCase(eq, xs, w.items);
    } else if w.Sequence? {
      var es := w.elements;
      if Ascending(es) {
        forall i, j | 0 <= i < |xs| && 0 <= j < |es| ensures Decides(eq, xs[i].value, PairValue(es[j])) {
          SequenceSnapshot(es);
          PairSnapshot(es[j]);
          AgreeIff(eq, xs[i].value, PairValue(es[j]));
        }
      }
      DictListCase(eq, xs, es);
    } else {
      LayoutDictApart(eq, w, xs);
    }
  }

  lemma {:induction false} ListAgreesIff(eq: TensorEqual, es: seq<Value>, w: Value)
    requires Snapshot(Sequence(es)).Some? && Snapshot(w).Some? && ProperDicts(Sequence(es)) && ProperDicts(w)
    requires !w.Leaf? && !w.TensorValue?
    ensures Decides(eq, Sequence(es), w)
    decreases Sequence(es), 0
  {
    SequenceSnapshot(es);
    if w.Dict? {
      ItemSnapshots(w.items);
      if Ascending(es) {
        forall i, j | 0 <= i < |es| && 0 <= j < |w.items| ensures Decides(eq, PairValue(es[i]), w.items[j].value) {
          PairSnapshot(es[i]);
          AgreeIff(eq, es[i].elements[1], w.items[j].value);
        }
      }
      ListDictCase(eq, es, w.items);
    } else if w.Sequence? {
      SequenceSnapshot(w.elements);
      forall i | 0 <= i < |es| && i < |w.elements| ensures Decides(eq, es[i], w.elements[i]) {
        AgreeIff(eq, es[i], w.elements[i]);
      }
      ListCase(eq, es, w.elements);
    } else {
      if LayoutList(es) {
        ListLayoutParts(eq, es, w);
      }
      ListLayoutCase(eq, es, w);
    }
  }

  lemma {:induction false} ListLayoutParts(eq: TensorEqual, es: seq<Value>, w: Value)
    requires Snapshot(Sequence(es)).Some? && Snapshot(w).Some? && ProperDicts(Sequence(es)) && ProperDicts(w)
    requires w.PackedLayout? && LayoutList(es)
    ensures Decides(eq, es[1], w.seqLen) && Decides(eq, es[2], w.signature) && Decides(eq, es[3], w.segments)
    ensures forall i | 0 <= i < |w.positions| && i < |POSITION_ATTRS| ::
              Decides(eq, PairValue(es[4].elements[i]), w.positions[i])
    decreases es
  {
    SequenceSnapshot(es);
    LayoutSnapshot(w);
    AgreeIff(eq, es[1], w.seqLen);
    AgreeIff(eq, es[2], w.signature);
    AgreeIff(eq, es[3], w.segments);
    NamedPositions(es[4]);
    ListSnapshots(w.positions);
    var named := es[4].elements;
    forall i | 0 <= i < |w.positions| && i < |POSITION_ATTRS|
      ensures Decides(eq, PairValue(named[i]), w.positions[i])
    {
      assert ProperDicts(named[i]);
      AgreeIff(eq, named[i].elements[1], w.positions[i]);
    }
  }

  lemma {:induction false} LayoutAgreesIff(eq: TensorEqual, v: Value, w: Value)
    requires Snapshot(v).Some? && Snapshot(w).Some? && ProperDicts(v) && ProperDicts(w)
    requires v.PackedLayout? && !w.Leaf? && !w.TensorValue?
    ensures Decides(eq, v, w)
    decreases v, 1
  {
    LayoutSnapshot(v);
    ListSnapshots(v.positions);
    if w.Dict? {
      LayoutDictApart(eq, v, w.items);
    } else if w.Sequence? {
      if LayoutList(w.elements) {
        LayoutListParts(eq, v, w.elements);
      }
      LayoutListCase(eq, v, w.elements);
    } else {
      LayoutSnapshot(w);
      ListSnapshots(w.positions);
      AgreeIff(eq, v.seqLen, w.seqLen);
      AgreeIff(eq, v.signature, w.signature);
      AgreeIff(eq, v.segments, w.segments);
      forall i | 0 <= i < |v.positions| ensures Decides(eq, v.positions[i], w.positions[i]) {
        AgreeIff(eq, v.positions[i], w.positions[i]);
      }
      LayoutCase(eq, v, w);
    }
  }

  lemma {:induction false} LayoutListParts(eq: TensorEqual, v: Value, es: seq<Value>)
    requires Snapshot(Sequence(es)).Some? && Snapshot(v).Some? && ProperDicts(Sequence(es)) && ProperDicts(v)
    requires v.PackedLayout? && LayoutList(es)
    ensures Decides(eq, v.seqLen, es[1]) && Decides(eq, v.signature, es[2]) && Decides(eq, v.segments, es[3])
    ensures forall i | 0 <= i < |v.positions| && i < |POSITION_ATTRS| ::
              Decides(eq, v.positions[i], PairValue(es[4].elements[i]))
    decreases v, 0
  {
    SequenceSnapshot(es);
    LayoutSnapshot(v);
    AgreeIff(eq, v.seqLen, es[1]);
    AgreeIff(eq, v.signature, es[2]);
    AgreeIff(eq, v.segments, es[3]);
    NamedPositions(es[4]);
    ListSnapshots(v.positions);
    var named := es[4].elements;
    forall i | 0 <= i < |v.positions| && i < |POSITION_ATTRS|
      ensures Decides(eq, v.positions[i], PairValue(named[i]))
    {
      assert ProperDicts(named[i]);
      AgreeIff(eq, v.positions[i], PairValue(named[i]));
    }
  }

  /** Two container kinds, one tuple: a dictionary and the list of its pairs in key order are not told apart. */
  lemma DictMatchesItsPairs(eq: TensorEqual, x: int, y: int)
    ensures var dict := Dict([Item("b", Leaf(Int(y))), Item("a", Leaf(Int(x)))]);
            var pairs := Sequence([Sequence([Leaf(Str("a")), Leaf(Int(x))]), Sequence([Leaf(Str("b")), Leaf(Int(y))])]);
            SnapshotsEqual(eq, dict, pairs)
  {
    var items := [Item("b", Leaf(Int(y))), Item("a", Leaf(Int(x)))];
    var es := [Sequence([Leaf(Str("a")), Leaf(Int(x))]), Sequence([Leaf(Str("b")), Leaf(Int(y))])];
    SnapshotExistsIff(Dict(items));
    SnapshotExistsIff(Sequence(es));
    assert Supported(es[0]) && Supported(es[1]) && ProperDicts(es[0]) && ProperDicts(es[1]);
    assert PairKey(es[0]) == "a" && PairKey(es[1]) == "b" && "a"[0] == 'a' && "b"[0] == 'b';
    assert StringLe("a", "b");
    assert Ascending(es);
    var ys := ItemsOf(es);
    assert ys[0].key == "a" && ys[1].key == "b";
    assert PayloadsAgree(eq, items[0].value, ys[1].value) && EntryAgrees(eq, "b", items[0].value, ys);
    assert PayloadsAgree(eq, items[1].value, ys[0].value) && EntryAgrees(eq, "a", items[1].value, ys);
    assert PayloadsAgree(eq, Dict(items), Sequence(es));
    AgreeIff(eq, Dict(items), Sequence(es));
  }
}
