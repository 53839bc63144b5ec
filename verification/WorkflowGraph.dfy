/**
  Injection into ComfyUI workflow graphs
  (apps/render-worker/src/render-job-executor.ts, validateDeclaredTopology,
  mutateWorkflow and validateMiniMaxH3ReferenceToVideoInputSchema).

  The mutation is proved to be a fixed plan of edits, and edits are proved to
  be last-one-wins; what an injected value, an untouched field, a loader node
  or a slot link looks like afterwards follows from the plan.
*/
module WorkflowGraph {
  import opened Common

  // ----- graphs -----

  datatype Json = Num(n: real) | Str(s: string) | Arr(items: seq<Json>) | Other

  type Inputs = map<string, Json>

  /** A workflow entry: a node, or a value that is no object at all. */
  datatype Node = Node(classType: Option<string>, inputs: Option<Inputs>) | Scalar(truthy: bool)

  type Workflow = map<string, Node>

  predicate HasInputs(w: Workflow, id: string) {
    id in w && w[id].Node? && w[id].inputs.Some?
  }

  function Read(w: Workflow, id: string, field: string): Option<Json> {
    if HasInputs(w, id) && field in w[id].inputs.value then Some(w[id].inputs.value[field]) else None
  }

  // ----- topology, payload, profile -----

  datatype Target = Target(nodeId: string, classType: string, inputField: string)

  datatype Topology = Topology(
    prompt: Target,
    negativePrompt: Option<Target>,
    seed: Target,
    audioPrompt: Option<Target>,
    frameCount: Option<Target>,
    referenceImage: Option<Target>,
    firstFrame: Option<Target>,
    lastFrame: Option<Target>,
    width: Option<Target>,
    height: Option<Target>,
    refImageSize: Option<Target>,
    referenceNode: Option<Target>,
    referenceImages: Option<seq<Target>>,
    referenceSlotFields: Option<seq<string>>)

  datatype Injected = Injected(
    prompt: Option<string>,
    negativePrompt: Option<string>,
    seed: Option<int>,
    audioPrompt: Option<string>,
    frameCount: Option<int>,
    referenceImage: Option<string>,
    referenceImages: seq<string>)

  /** profile.baseline; None also stands for zero, which the program treats alike. */
  datatype Baseline = Baseline(width: Option<int>, height: Option<int>)

  datatype MutationError =
    | ReferenceImageInvariant
    | BadTopology
    | UnsupportedInjection
    | TooManyReferences
    | NoLoaderForReference
    | SchemaRejected

  const MAX_REFERENCES: nat := 9
  const REFERENCE_TO_VIDEO: string := "MiniMaxH3ReferenceToVideo"
  const LOAD_IMAGE: string := "LoadImage"
  /** ref_images.ref_image_0 to ref_images.ref_image_8 */
  function SlotField(s: nat): string
    requires s < MAX_REFERENCES
  {
    "ref_images.ref_image_" + [('0' as int + s) as char]
  }

  // ----- validateDeclaredTopology -----

  predicate NodeMatches(w: Workflow, t: Target) {
    HasInputs(w, t.nodeId) && w[t.nodeId].classType == Some(t.classType)
  }

  predicate TargetExists(w: Workflow, t: Target) {
    NodeMatches(w, t) && t.inputField in w[t.nodeId].inputs.value
  }

  predicate OptionalTargetExists(w: Workflow, t: Option<Target>) {
    t.Some? ==> TargetExists(w, t.value)
  }

  /** The template links slot field to the loader's first output; further elements are not looked at. */
  predicate LinksTo(w: Workflow, id: string, field: string, loader: string) {
    var link := Read(w, id, field);
    && link.Some? && link.value.Arr? && |link.value.items| >= 2
    && link.value.items[0] == Str(loader) && link.value.items[1] == Num(0.0)
  }

  predicate LoadersExist(w: Workflow, loaders: seq<Target>) {
    && (forall i | 0 <= i < |loaders| :: TargetExists(w, loaders[i]))
    && (forall i, j | 0 <= i < j < |loaders| :: loaders[i].nodeId != loaders[j].nodeId)
  }

  predicate SlotsWired(w: Workflow, t: Topology) {
    t.referenceImages.Some? && t.referenceSlotFields.Some? && t.referenceNode.Some? ==>
      && |t.referenceSlotFields.value| == |t.referenceImages.value|
      && forall i | 0 <= i < |t.referenceImages.value| ::
           LinksTo(w, t.referenceNode.value.nodeId, t.referenceSlotFields.value[i], t.referenceImages.value[i].nodeId)
  }

  predicate TopologyHolds(w: Workflow, t: Topology) {
    && TargetExists(w, t.prompt) && OptionalTargetExists(w, t.negativePrompt) && TargetExists(w, t.seed)
    && OptionalTargetExists(w, t.audioPrompt) && OptionalTargetExists(w, t.frameCount)
    && OptionalTargetExists(w, t.width) && OptionalTargetExists(w, t.height) && OptionalTargetExists(w, t.refImageSize)
    && (t.referenceNode.Some? ==>
          if t.referenceSlotFields.Some? then NodeMatches(w, t.referenceNode.value)
          else TargetExists(w, t.referenceNode.value))
    && OptionalTargetExists(w, t.referenceImage)
    && OptionalTargetExists(w, t.firstFrame) && OptionalTargetExists(w, t.lastFrame)
    && (t.referenceImages.Some? ==> LoadersExist(w, t.referenceImages.value))
    && SlotsWired(w, t)
  }

  method CheckLoaders(w: Workflow, loaders: seq<Target>) returns (ok: bool)
    ensures ok <==> LoadersExist(w, loaders)
  {
    var seen: set<string> := {};
    for i := 0 to |loaders|
      invariant seen == set j | 0 <= j < i :: loaders[j].nodeId
      invariant LoadersExist(w, loaders[..i])
    {
      if loaders[i].nodeId in seen {
        ghost var j :| 0 <= j < i && loaders[j].nodeId == loaders[i].nodeId;
        return false;
      }
      seen := seen + {loaders[i].nodeId};
      if !TargetExists(w, loaders[i]) {
        return false;
      }
    }
    assert loaders[..|loaders|] == loaders;
    return true;
  }

  method CheckSlots(w: Workflow, t: Topology) returns (ok: bool)
    requires t.referenceImages.Some? && t.referenceSlotFields.Some? && t.referenceNode.Some?
    ensures ok <==> SlotsWired(w, t)
  {
    var loaders, fields := t.referenceImages.value, t.referenceSlotFields.value;
    if |fields| != |loaders| {
      return false;
    }
    for i := 0 to |fields|
      invariant forall j | 0 <= j < i :: LinksTo(w, t.referenceNode.value.nodeId, fields[j], loaders[j].nodeId)
    {
      if !LinksTo(w, t.referenceNode.value.nodeId, fields[i], loaders[i].nodeId) {
        return false;
      }
    }
    return true;
  }

  method ValidateDeclaredTopology(w: Workflow, t: Topology) returns (ok: bool)
    ensures ok <==> TopologyHolds(w, t)
  {
    if !TargetExists(w, t.prompt) { return false; }
    if !OptionalTargetExists(w, t.negativePrompt) { return false; }
    if !TargetExists(w, t.seed) { return false; }
    if !OptionalTargetExists(w, t.audioPrompt) { return false; }
    if !OptionalTargetExists(w, t.frameCount) { return false; }
    if !OptionalTargetExists(w, t.width) { return false; }
    if !OptionalTargetExists(w, t.height) { return false; }
    if !OptionalTargetExists(w, t.refImageSize) { return false; }
    if t.referenceNode.Some? {
      if t.referenceSlotFields.Some? {
        if !NodeMatches(w, t.referenceNode.value) { return false; }
      } else if !TargetExists(w, t.referenceNode.value) {
        return false;
      }
    }
    if !OptionalTargetExists(w, t.referenceImage) { return false; }
    if !OptionalTargetExists(w, t.firstFrame) { return false; }
    if !OptionalTargetExists(w, t.lastFrame) { return false; }
    ok := true;
    if t.referenceImages.Some? {
      ok := CheckLoaders(w, t.referenceImages.value);
      if ok && t.referenceSlotFields.Some? && t.referenceNode.Some? {
        ok := CheckSlots(w, t);
      }
    }
  }

  /** The template has the target's node, of its class, with its field. */
  ghost predicate Present(w: Workflow, target: Target) {
    && target.nodeId in w && w[target.nodeId].Node? && w[target.nodeId].classType == Some(target.classType)
    && w[target.nodeId].inputs.Some? && target.inputField in w[target.nodeId].inputs.value
  }

  /** The link found at a field: a loader's id, then output 0. */
  ghost predicate Wired(w: Workflow, id: string, field: string, loader: string) {
    && id in w && w[id].Node? && w[id].inputs.Some? && field in w[id].inputs.value
    && var link := w[id].inputs.value[field];
       link.Arr? && |link.items| >= 2 && link.items[..2] == [Str(loader), Num(0.0)]
  }

  /** Every target declared on its own is present. */
  ghost predicate SinglesPresent(w: Workflow, t: Topology) {
    forall o | o in [Some(t.prompt), Some(t.seed), t.negativePrompt, t.audioPrompt, t.frameCount, t.width, t.height,
                     t.refImageSize, t.referenceImage, t.firstFrame, t.lastFrame] && o.Some? :: Present(w, o.value)
  }

  /** The reference node is there with its class and, unless there are slots, its field. */
  ghost predicate ReferenceNodePresent(w: Workflow, t: Topology) {
    t.referenceNode.Some? ==>
      var node := t.referenceNode.value;
      && node.nodeId in w && w[node.nodeId].Node? && w[node.nodeId].inputs.Some?
      && w[node.nodeId].classType == Some(node.classType)
      && (t.referenceSlotFields.None? ==> Present(w, node))
  }

  /** Loaders are present on different nodes, and slot field i is wired to loader i. */
  ghost predicate LoadersWired(w: Workflow, t: Topology) {
    t.referenceImages.Some? ==>
      var loaders := t.referenceImages.value;
      && (forall i | 0 <= i < |loaders| :: Present(w, loaders[i]))
      && (forall i, j | 0 <= i < j < |loaders| :: loaders[i].nodeId != loaders[j].nodeId)
      && (t.referenceSlotFields.Some? && t.referenceNode.Some? ==>
            && |t.referenceSlotFields.value| == |loaders|
            && forall i | 0 <= i < |loaders| ::
                 Wired(w, t.referenceNode.value.nodeId, t.referenceSlotFields.value[i], loaders[i].nodeId))
  }

  lemma PresentIff(w: Workflow, target: Target)
    ensures TargetExists(w, target) <==> Present(w, target)
  {
  }

  lemma SinglesPresentIff(w: Workflow, t: Topology)
    ensures SinglesPresent(w, t) <==>
            && TargetExists(w, t.prompt) && TargetExists(w, t.seed)
            && OptionalTargetExists(w, t.negativePrompt) && OptionalTargetExists(w, t.audioPrompt)
            && OptionalTargetExists(w, t.frameCount) && OptionalTargetExists(w, t.width)
            && OptionalTargetExists(w, t.height) && OptionalTargetExists(w, t.refImageSize)
            && OptionalTargetExists(w, t.referenceImage)
            && OptionalTargetExists(w, t.firstFrame) && OptionalTargetExists(w, t.lastFrame)
  {
    var single := [Some(t.prompt), Some(t.seed), t.negativePrompt, t.audioPrompt, t.frameCount, t.width, t.height,
                   t.refImageSize, t.referenceImage, t.firstFrame, t.lastFrame];
    assert SinglesPresent(w, t) <==> forall i | 0 <= i < |single| :: OptionalTargetExists(w, single[i]);
    assert |single| == 11 && single[0] == Some(t.prompt) && single[1] == Some(t.seed);
  }

  lemma LoadersWiredIff(w: Workflow, t: Topology)
    ensures LoadersWired(w, t) <==>
            (t.referenceImages.Some? ==> LoadersExist(w, t.referenceImages.value)) && SlotsWired(w, t)
  {
    if t.referenceImages.Some? {
      var loaders := t.referenceImages.value;
      forall i | 0 <= i < |loaders| ensures TargetExists(w, loaders[i]) <==> Present(w, loaders[i]) {
        PresentIff(w, loaders[i]);
      }
    }
  }

  /**
    Which templates fit a topology: every declared target is present, the
    reference node at least with its class, loaders sit on different nodes, and
    slot field i is wired to loader i.
  */
  lemma TopologyHoldsIff(w: Workflow, t: Topology)
    ensures TopologyHolds(w, t) <==> SinglesPresent(w, t) && ReferenceNodePresent(w, t) && LoadersWired(w, t)
  {
    SinglesPresentIff(w, t);
    LoadersWiredIff(w, t);
  }

  // ----- edits -----

  datatype Edit =
    | Write(id: string, field: string, value: Json)
    | DropNode(id: string)
    | DropField(id: string, field: string)

  function ApplyEdit(w: Workflow, e: Edit): Workflow {
    match e
    case Write(id, field, value) =>
      if HasInputs(w, id) then w[id := w[id].(inputs := Some(w[id].inputs.value[field := value]))] else w
    case DropNode(id) => w - {id}
    case DropField(id, field) =>
      if HasInputs(w, id) then w[id := w[id].(inputs := Some(w[id].inputs.value - {field}))] else w
  }

  function ApplyAll(w: Workflow, es: seq<Edit>): Workflow {
    if es == [] then w else ApplyEdit(ApplyAll(w, es[..|es| - 1]), es[|es| - 1])
  }

  /** What the edits after an original value leave at one field of a node that is never dropped. */
  function LastWins(es: seq<Edit>, id: string, field: string, original: Option<Json>): Option<Json> {
    if es == [] then original
    else
      var e := es[|es| - 1];
      if e.Write? && e.id == id && e.field == field then Some(e.value)
      else if e.DropField? && e.id == id && e.field == field then None
      else LastWins(es[..|es| - 1], id, field, original)
  }

  lemma {:induction false} ApplyAllAppend(w: Workflow, es: seq<Edit>, fs: seq<Edit>)
    ensures ApplyAll(w, es + fs) == ApplyAll(ApplyAll(w, es), fs)
  {
    if fs == [] {
      assert es + fs == es;
    } else {
      ApplyAllAppend(w, es, fs[..|fs| - 1]);
      assert (es + fs)[..|es + fs| - 1] == es + fs[..|fs| - 1];
    }
  }

  /** A plan of edits keeps exactly the nodes it does not drop, with their class types. */
  lemma {:induction false} EditsKeepNodes(w: Workflow, es: seq<Edit>)
    ensures var v := ApplyAll(w, es);
            forall id :: (id in v <==> id in w && DropNode(id) !in es)
                         && (id in v ==> (HasInputs(v, id) <==> HasInputs(w, id)))
                         && (id in v && w[id].Node? ==> v[id].Node? && v[id].classType == w[id].classType)
                         && (id in v && w[id].Scalar? ==> v[id] == w[id])
  {
    if es != [] {
      EditsKeepNodes(w, es[..|es| - 1]);
      assert es == es[..|es| - 1] + [es[|es| - 1]];
    }
  }

  lemma EditRead(w: Workflow, e: Edit, id: string, field: string)
    ensures Read(ApplyEdit(w, e), id, field) ==
            if e == DropNode(id) || e == DropField(id, field) then None
            else if e.Write? && e.id == id && e.field == field && HasInputs(w, id) then Some(e.value)
            else Read(w, id, field)
  {
  }

  /** The last edit of a field wins. */
  lemma {:induction false} EditsReadBack(w: Workflow, es: seq<Edit>, id: string, field: string)
    ensures Read(ApplyAll(w, es), id, field) ==
            if HasInputs(w, id) && DropNode(id) !in es then LastWins(es, id, field, Read(w, id, field)) else None
  {
    if es != [] {
      var front, e := es[..|es| - 1], es[|es| - 1];
      EditsReadBack(w, front, id, field);
      EditRead(ApplyAll(w, front), e, id, field);
      assert DropNode(id) in es <==> DropNode(id) in front || e == DropNode(id) by {
        assert es == front + [e];
      }
      assert HasInputs(ApplyAll(w, front), id) <==> HasInputs(w, id) && DropNode(id) !in front by {
        EditsKeepNodes(w, front);
      }
    }
  }

  // ----- the input schema of the reference node -----

  /** Blankness of strings (trim) is a parameter. */
  type Blank = string -> bool

  predicate IsLink(w: Workflow, link: Option<Json>) {
    && link.Some? && link.value.Arr? && |link.value.items| == 2
    && link.value.items[0].Str? && link.value.items[1].Num?
    && link.value.items[0].s in w && (w[link.value.items[0].s].Scalar? ==> w[link.value.items[0].s].truthy)
  }

  predicate IsPositive(v: Option<Json>) {
    v.Some? && v.value.Num? && v.value.n > 0.0
  }

  /** An active slot links to an existing image loader. */
  predicate SlotActive(w: Workflow, id: string, field: string) {
    var link := Read(w, id, field);
    && IsLink(w, link)
    && var up := w[link.value.items[0].s]; up.Node? && up.classType == Some(LOAD_IMAGE)
  }

  /** The slot part of the schema: slots below n active, the others absent. */
  predicate SlotsAccepted(w: Workflow, id: string, n: nat) {
    forall s | 0 <= s < MAX_REFERENCES ::
      if s < n then SlotActive(w, id, SlotField(s)) else Read(w, id, SlotField(s)).None?
  }

  /** The schema apart from its slots: class, links, sizes, prompt and size mode. */
  predicate ControlsHold(blank: Blank, w: Workflow, id: string) {
    && HasInputs(w, id) && w[id].classType == Some(REFERENCE_TO_VIDEO)
    && IsLink(w, Read(w, id, "clip")) && IsLink(w, Read(w, id, "vae")) && IsLink(w, Read(w, id, "audio_vae"))
    && IsPositive(Read(w, id, "width")) && IsPositive(Read(w, id, "height")) && IsPositive(Read(w, id, "length"))
    && (var p := Read(w, id, "prompt"); p.Some? && p.value.Str? && !blank(p.value.s))
    && (Read(w, id, "ref_image_size") == Some(Str("match")) || Read(w, id, "ref_image_size") == Some(Str("max")))
  }

  predicate SchemaHolds(blank: Blank, w: Workflow, id: string, n: nat) {
    ControlsHold(blank, w, id) && SlotsAccepted(w, id, n)
  }

  method ValidateReferenceSchema(blank: Blank, w: Workflow, id: string, n: nat) returns (ok: bool)
    ensures ok <==> SchemaHolds(blank, w, id, n)
  {
    if !(HasInputs(w, id) && w[id].classType == Some(REFERENCE_TO_VIDEO)) { return false; }
    var required := ["clip", "vae", "audio_vae", "prompt", "width", "height", "length"];
    for i := 0 to |required|
      invariant forall j | 0 <= j < i :: Read(w, id, required[j]).Some?
    {
      if Read(w, id, required[i]).None? {
        assert required[i] in required;
        return false;
      }
    }
    var links := ["clip", "vae", "audio_vae"];
    for i := 0 to |links|
      invariant forall j | 0 <= j < i :: IsLink(w, Read(w, id, links[j]))
    {
      if !IsLink(w, Read(w, id, links[i])) { return false; }
    }
    assert IsLink(w, Read(w, id, links[0])) && IsLink(w, Read(w, id, links[1])) && IsLink(w, Read(w, id, links[2]));
    if !IsPositive(Read(w, id, "width")) { return false; }
    if !IsPositive(Read(w, id, "height")) { return false; }
    if !IsPositive(Read(w, id, "length")) { return false; }
    var prompt := Read(w, id, "prompt");
    if !(prompt.Some? && prompt.value.Str?) || blank(prompt.value.s) { return false; }
    var size := Read(w, id, "ref_image_size");
    if size != Some(Str("match")) && size != Some(Str("max")) { return false; }
    for s := 0 to MAX_REFERENCES
      invariant forall k | 0 <= k < s ::
          if k < n then SlotActive(w, id, SlotField(k)) else Read(w, id, SlotField(k)).None?
    {
      if s < n {
        if !SlotActive(w, id, SlotField(s)) { return false; }
      } else if Read(w, id, SlotField(s)).Some? {
        return false;
      }
    }
    return true;
  }

  /** The field holds a pair of an entry's id, which is in the workflow and not falsy, and a number. */
  ghost predicate Linked(w: Workflow, inputs: Inputs, field: string) {
    && field in inputs && inputs[field].Arr? && |inputs[field].items| == 2
    && inputs[field].items[0].Str? && inputs[field].items[1].Num?
    && var up := inputs[field].items[0].s;
       up in w && (w[up].Node? || w[up].truthy)
  }

  ghost predicate PositiveNumber(inputs: Inputs, field: string) {
    field in inputs && inputs[field].Num? && inputs[field].n > 0.0
  }

  /** The links, sizes, prompt and size mode the reference node asks for. */
  ghost predicate ReferenceInputs(blank: Blank, w: Workflow, inputs: Inputs) {
    && Linked(w, inputs, "clip") && Linked(w, inputs, "vae") && Linked(w, inputs, "audio_vae")
    && PositiveNumber(inputs, "width") && PositiveNumber(inputs, "height") && PositiveNumber(inputs, "length")
    && "prompt" in inputs && inputs["prompt"].Str? && !blank(inputs["prompt"].s)
    && "ref_image_size" in inputs && inputs["ref_image_size"] in {Str("match"), Str("max")}
  }

  ghost predicate LinkedToImage(w: Workflow, inputs: Inputs, field: string) {
    && Linked(w, inputs, field)
    && var up := w[inputs[field].items[0].s];
       up.Node? && up.classType == Some("LoadImage")
  }

  /** Which slot fields the schema looks at. */
  lemma SlotNames()
    ensures SlotField(0) == "ref_images.ref_image_0" && SlotField(1) == "ref_images.ref_image_1"
    ensures SlotField(2) == "ref_images.ref_image_2" && SlotField(3) == "ref_images.ref_image_3"
    ensures SlotField(4) == "ref_images.ref_image_4" && SlotField(5) == "ref_images.ref_image_5"
    ensures SlotField(6) == "ref_images.ref_image_6" && SlotField(7) == "ref_images.ref_image_7"
    ensures SlotField(8) == "ref_images.ref_image_8"
  {
  }

  /**
    Which reference nodes the schema accepts: one of its class with these
    inputs, its first n slots linked to image loaders and no further slot.
  */
  lemma SchemaHoldsIff(blank: Blank, w: Workflow, id: string, n: nat)
    ensures SchemaHolds(blank, w, id, n) <==>
            && id in w && w[id].Node? && w[id].classType == Some("MiniMaxH3ReferenceToVideo") && w[id].inputs.Some?
            && ReferenceInputs(blank, w, w[id].inputs.value)
            && forall s | 0 <= s < 9 ::
                 if s < n then LinkedToImage(w, w[id].inputs.value, SlotField(s))
                 else SlotField(s) !in w[id].inputs.value
  {
    if HasInputs(w, id) {
      var inputs := w[id].inputs.value;
      assert forall field :: IsLink(w, Read(w, id, field)) <==> Linked(w, inputs, field);
      assert forall field :: IsPositive(Read(w, id, field)) <==> PositiveNumber(inputs, field);
      assert forall field :: SlotActive(w, id, field) <==> LinkedToImage(w, inputs, field);
    }
  }

  // ----- the plan of one mutation -----

  function WriteText(t: Option<Target>, value: Option<string>): seq<Edit> {
    if t.Some? && value.Some? then [Write(t.value.nodeId, t.value.inputField, Str(value.value))] else []
  }

  function WriteNumber(t: Option<Target>, value: Option<int>): seq<Edit> {
    if t.Some? && value.Some? then [Write(t.value.nodeId, t.value.inputField, Num(value.value as real))] else []
  }

  function LoaderWrites(loaders: seq<Target>, images: seq<string>, n: nat): seq<Edit>
    requires n <= |loaders| && n <= |images|
  {
    seq(n, i requires 0 <= i < n => Write(loaders[i].nodeId, loaders[i].inputField, Str(images[i])))
  }

  function LoaderDrops(loaders: seq<Target>, n: nat): seq<Edit>
    requires n <= |loaders|
  {
    seq(|loaders| - n, i requires 0 <= i < |loaders| - n => DropNode(loaders[n + i].nodeId))
  }

  function SlotDrops(id: string, fields: seq<string>, n: nat): seq<Edit> {
    if n >= |fields| then []
    else seq(|fields| - n, i requires 0 <= i < |fields| - n => DropField(id, fields[n + i]))
  }

  function SizeWrites(t: Topology, n: nat, b: Baseline): seq<Edit>
    requires t.referenceNode.Some?
  {
    var id := t.referenceNode.value.nodeId;
    (if t.refImageSize.Some? then [Write(id, t.refImageSize.value.inputField, Str(if n > 0 then "max" else "match"))]
     else [])
    + (if t.width.Some? && b.width.Some? then [Write(id, t.width.value.inputField, Num(b.width.value as real))] else [])
    + (if t.height.Some? && b.height.Some? then [Write(id, t.height.value.inputField, Num(b.height.value as real))]
       else [])
  }

  function ReferenceNodeEdits(t: Topology, n: nat, b: Baseline): seq<Edit> {
    if t.referenceNode.None? then []
    else
      (if t.referenceSlotFields.Some? then SlotDrops(t.referenceNode.value.nodeId, t.referenceSlotFields.value, n)
       else [])
      + SizeWrites(t, n, b)
  }

  function ReferenceEdits(t: Topology, images: seq<string>, b: Baseline): seq<Edit>
    requires t.referenceImages.Some? && |images| <= |t.referenceImages.value|
  {
    LoaderWrites(t.referenceImages.value, images, |images|)
    + LoaderDrops(t.referenceImages.value, |images|)
    + ReferenceNodeEdits(t, |images|, b)
  }

  function ScalarEdits(t: Topology, p: Injected): seq<Edit> {
    WriteText(Some(t.prompt), p.prompt)
    + WriteText(t.negativePrompt, p.negativePrompt)
    + WriteNumber(Some(t.seed), p.seed)
    + WriteText(t.audioPrompt, p.audioPrompt)
    + WriteNumber(t.frameCount, p.frameCount)
    + WriteText(t.referenceImage, p.referenceImage)
  }

  predicate PlanFits(t: Topology, p: Injected) {
    t.referenceImages.Some? ==> |p.referenceImages| <= |t.referenceImages.value|
  }

  function Plan(t: Topology, p: Injected, b: Baseline): seq<Edit>
    requires PlanFits(t, p)
  {
    ScalarEdits(t, p) + (if t.referenceImages.Some? then ReferenceEdits(t, p.referenceImages, b) else [])
  }

  /** A value is asked for whose target is not declared. */
  predicate AsksUndeclared(t: Topology, p: Injected) {
    || (p.negativePrompt.Some? && t.negativePrompt.None?)
    || (p.audioPrompt.Some? && t.audioPrompt.None?)
    || (p.frameCount.Some? && t.frameCount.None?)
  }

  predicate HasText(blank: Blank, s: Option<string>) {
    s.Some? && !blank(s.value)
  }

  /** Every value asked for has a target, and a reference image is given exactly when there is a target for one. */
  predicate ScalarsFit(blank: Blank, t: Topology, p: Injected) {
    !AsksUndeclared(t, p) && if t.referenceImage.Some? then HasText(blank, p.referenceImage) else p.referenceImage.None?
  }

  /** The payload asks only for what the topology declares, and for no more references than it has loaders. */
  predicate PayloadFits(blank: Blank, t: Topology, p: Injected) {
    && ScalarsFit(blank, t, p)
    && (t.referenceImages.Some? ==>
          |p.referenceImages| <= MAX_REFERENCES && |p.referenceImages| <= |t.referenceImages.value|)
  }

  predicate FinalSchemaHolds(blank: Blank, t: Topology, p: Injected, w: Workflow) {
    t.referenceImages.Some? && t.referenceNode.Some? && t.referenceNode.value.classType == REFERENCE_TO_VIDEO ==>
      SchemaHolds(blank, w, t.referenceNode.value.nodeId, |p.referenceImages|)
  }

  predicate MutationAccepted(blank: Blank, w: Workflow, t: Topology, p: Injected, b: Baseline) {
    TopologyHolds(w, t) && PayloadFits(blank, t, p) && FinalSchemaHolds(blank, t, p, ApplyAll(w, Plan(t, p, b)))
  }

  // ----- mutateWorkflow -----

  lemma ApplyOneMore(w: Workflow, es: seq<Edit>, e: Edit)
    ensures ApplyAll(w, es + [e]) == ApplyEdit(ApplyAll(w, es), e)
  {
    assert (es + [e])[..|es|] == es;
  }

  /** A guarded injection at a declared target: the program re-checks the node before it assigns. */
  method InjectOptional(w: Workflow, t: Option<Target>, value: Option<Json>) returns (v: Workflow)
    requires t.Some? && value.Some? ==> HasInputs(w, t.value.nodeId)
    ensures v == ApplyAll(w, if t.Some? && value.Some?
                             then [Write(t.value.nodeId, t.value.inputField, value.value)] else [])
  {
    v := w;
    if t.Some? && value.Some? {
      var id := t.value.nodeId;
      v := w[id := w[id].(inputs := Some(w[id].inputs.value[t.value.inputField := value.value]))];
      ApplyOneMore(w, [], Write(id, t.value.inputField, value.value));
    }
  }

  function TextJson(s: Option<string>): Option<Json> {
    if s.Some? then Some(Str(s.value)) else None
  }

  function NumberJson(n: Option<int>): Option<Json> {
    if n.Some? then Some(Num(n.value as real)) else None
  }

  ghost predicate SameNodes(w: Workflow, v: Workflow) {
    forall id :: HasInputs(w, id) ==> HasInputs(v, id)
  }

  lemma WritesKeepNodes(w: Workflow, es: seq<Edit>)
    requires forall e | e in es :: e.Write?
    ensures SameNodes(w, ApplyAll(w, es))
  {
    EditsKeepNodes(w, es);
  }

  predicate Declared(w: Workflow, t: Option<Target>) {
    t.Some? ==> HasInputs(w, t.value.nodeId)
  }

  predicate ScalarsDeclared(w: Workflow, t: Topology) {
    && Declared(w, Some(t.prompt)) && Declared(w, t.negativePrompt) && Declared(w, Some(t.seed))
    && Declared(w, t.audioPrompt) && Declared(w, t.frameCount) && Declared(w, t.referenceImage)
  }

  method InjectScalars(w: Workflow, t: Topology, p: Injected) returns (v: Workflow)
    requires ScalarsDeclared(w, t)
    ensures v == ApplyAll(w, ScalarEdits(t, p))
  {
    ghost var a, b := WriteText(Some(t.prompt), p.prompt), WriteText(t.negativePrompt, p.negativePrompt);
    ghost var c := WriteNumber(Some(t.seed), p.seed);
    v := InjectNext(w, [], a, w, Some(t.prompt), TextJson(p.prompt));
    assert [] + a == a;
    v := InjectNext(w, a, b, v, t.negativePrompt, TextJson(p.negativePrompt));
    v := InjectNext(w, a + b, c, v, Some(t.seed), NumberJson(p.seed));
    v := InjectMore(w, a + b + c, v, t, p);
  }

  method InjectMore(ghost w: Workflow, ghost es: seq<Edit>, u: Workflow, t: Topology, p: Injected) returns (v: Workflow)
    requires u == ApplyAll(w, es) && forall e | e in es :: e.Write?
    requires Declared(w, t.audioPrompt) && Declared(w, t.frameCount) && Declared(w, t.referenceImage)
    ensures v == ApplyAll(w, es + WriteText(t.audioPrompt, p.audioPrompt) + WriteNumber(t.frameCount, p.frameCount)
                             + WriteText(t.referenceImage, p.referenceImage))
  {
    ghost var d, e := WriteText(t.audioPrompt, p.audioPrompt), WriteNumber(t.frameCount, p.frameCount);
    v := InjectNext(w, es, d, u, t.audioPrompt, TextJson(p.audioPrompt));
    v := InjectNext(w, es + d, e, v, t.frameCount, NumberJson(p.frameCount));
    v := InjectNext(w, es + d + e, WriteText(t.referenceImage, p.referenceImage), v, t.referenceImage,
                    TextJson(p.referenceImage));
  }

  /** One more injection behind the writes es. */
  method InjectNext(ghost w: Workflow, ghost es: seq<Edit>, ghost next: seq<Edit>, u: Workflow, t: Option<Target>,
                    value: Option<Json>)
    returns (v: Workflow)
    requires u == ApplyAll(w, es) && forall e | e in es :: e.Write?
    requires next == if t.Some? && value.Some? then [Write(t.value.nodeId, t.value.inputField, value.value)] else []
    requires t.Some? ==> HasInputs(w, t.value.nodeId)
    ensures v == ApplyAll(w, es + next) && forall e | e in es + next :: e.Write?
  {
    WritesKeepNodes(w, es);
    v := InjectOptional(u, t, value);
    ApplyAllAppend(w, es, next);
  }

  method InjectLoaders(w: Workflow, loaders: seq<Target>, images: seq<string>) returns (v: Workflow)
    requires |images| <= |loaders| && forall i | 0 <= i < |loaders| :: HasInputs(w, loaders[i].nodeId)
    ensures v == ApplyAll(w, LoaderWrites(loaders, images, |images|))
  {
    v := w;
    ghost var all := LoaderWrites(loaders, images, |images|);
    for i := 0 to |images|
      invariant v == ApplyAll(w, all[..i])
    {
      WritesKeepNodes(w, all[..i]);
      ApplyOneMore(w, all[..i], all[i]);
      assert all[..i + 1] == all[..i] + [all[i]];
      var id := loaders[i].nodeId;
      v := v[id := v[id].(inputs := Some(v[id].inputs.value[loaders[i].inputField := Str(images[i])]))];
    }
    assert all[..|images|] == all;
  }

  method DropLoaders(w: Workflow, loaders: seq<Target>, n: nat) returns (v: Workflow)
    requires n <= |loaders|
    ensures v == ApplyAll(w, LoaderDrops(loaders, n))
  {
    v := w;
    ghost var all := LoaderDrops(loaders, n);
    for i := n to |loaders|
      invariant v == ApplyAll(w, all[..i - n])
    {
      ApplyOneMore(w, all[..i - n], all[i - n]);
      assert all[..i + 1 - n] == all[..i - n] + [all[i - n]];
      v := v - {loaders[i].nodeId};
    }
    assert all[..|loaders| - n] == all;
  }

  method DropSlots(w: Workflow, id: string, fields: seq<string>, n: nat) returns (v: Workflow)
    requires HasInputs(w, id)
    ensures v == ApplyAll(w, SlotDrops(id, fields, n)) && HasInputs(v, id)
  {
    v := w;
    ghost var all := SlotDrops(id, fields, n);
    var i := n;
    while i < |fields|
      invariant n <= i && (n <= |fields| ==> i <= |fields|)
      invariant v == ApplyAll(w, all[..if n <= |fields| then i - n else 0]) && HasInputs(v, id)
    {
      ApplyOneMore(w, all[..i - n], all[i - n]);
      assert all[..i + 1 - n] == all[..i - n] + [all[i - n]];
      v := v[id := v[id].(inputs := Some(v[id].inputs.value - {fields[i]}))];
      i := i + 1;
    }
    assert all[..|all|] == all;
  }

  /** Steps on the reference node; when it was a dropped loader itself there is nothing to edit. */
  method EditReferenceNode(w: Workflow, t: Topology, n: nat, b: Baseline) returns (v: Workflow)
    ensures v == ApplyAll(w, ReferenceNodeEdits(t, n, b))
  {
    v := w;
    if t.referenceNode.None? {
      return;
    }
    var id := t.referenceNode.value.nodeId;
    if !HasInputs(w, id) {
      EditsWithoutNode(w, ReferenceNodeEdits(t, n, b), id);
      return;
    }
    ghost var drops := if t.referenceSlotFields.Some? then SlotDrops(id, t.referenceSlotFields.value, n) else [];
    if t.referenceSlotFields.Some? {
      v := DropSlots(v, id, t.referenceSlotFields.value, n);
    }
    ApplyAllAppend(w, drops, SizeWrites(t, n, b));
    v := WriteSizes(v, t, n, b);
  }

  method WriteSizes(w: Workflow, t: Topology, n: nat, b: Baseline) returns (v: Workflow)
    requires t.referenceNode.Some? && HasInputs(w, t.referenceNode.value.nodeId)
    ensures v == ApplyAll(w, SizeWrites(t, n, b))
  {
    var node := t.referenceNode.value;
    var size := if t.refImageSize.Some? then Some(node.(inputField := t.refImageSize.value.inputField)) else None;
    var width := if t.width.Some? then Some(node.(inputField := t.width.value.inputField)) else None;
    var height := if t.height.Some? then Some(node.(inputField := t.height.value.inputField)) else None;
    ghost var es := if size.Some?
        then [Write(node.nodeId, size.value.inputField, Str(if n > 0 then "max" else "match"))] else [];
    v := InjectOptional(w, size, Some(Str(if n > 0 then "max" else "match")));
    WritesKeepNodes(w, es);
    ghost var ws := if width.Some? && b.width.Some?
        then [Write(node.nodeId, width.value.inputField, Num(b.width.value as real))] else [];
    v := InjectNext(w, es, ws, v, width, NumberJson(b.width));
    ghost var hs := if height.Some? && b.height.Some?
        then [Write(node.nodeId, height.value.inputField, Num(b.height.value as real))] else [];
    v := InjectNext(w, es + ws, hs, v, height, NumberJson(b.height));
    assert SizeWrites(t, n, b) == es + ws + hs;
  }

  /** Edits of one absent node change nothing. */
  lemma {:induction false} EditsWithoutNode(w: Workflow, es: seq<Edit>, id: string)
    requires !HasInputs(w, id)
    requires forall e | e in es :: (e.Write? || e.DropField?) && e.id == id
    ensures ApplyAll(w, es) == w
  {
    if es != [] {
      EditsWithoutNode(w, es[..|es| - 1], id);
    }
  }

  /**
    The whole mutation: it succeeds exactly when the topology, the payload and
    the final schema are accepted, and then performs exactly its plan.
  */
  method MutateWorkflow(blank: Blank, template: Workflow, t: Topology, p: Injected, b: Baseline)
    returns (r: Result<Workflow, MutationError>)
    ensures r.Ok? <==> MutationAccepted(blank, template, t, p, b)
    ensures r.Ok? ==> r.value == ApplyAll(template, Plan(t, p, b))
    ensures r == Err(BadTopology) <==>
            !TopologyHolds(template, t) && (p.referenceImage.Some? ==> t.referenceImage.Some?)
    ensures r == Err(SchemaRejected) <==>
            && TopologyHolds(template, t) && PayloadFits(blank, t, p)
            && !FinalSchemaHolds(blank, t, p, ApplyAll(template, Plan(t, p, b)))
    ensures r == Err(ReferenceImageInvariant) <==>
            || (p.referenceImage.Some? && t.referenceImage.None?)
            || (&& TopologyHolds(template, t) && !AsksUndeclared(t, p)
                && t.referenceImage.Some? && !HasText(blank, p.referenceImage))
    ensures r == Err(UnsupportedInjection) <==>
            && (p.referenceImage.Some? ==> t.referenceImage.Some?) && TopologyHolds(template, t)
            && AsksUndeclared(t, p)
    ensures r == Err(TooManyReferences) <==>
            && TopologyHolds(template, t) && ScalarsFit(blank, t, p)
            && t.referenceImages.Some? && |p.referenceImages| > 9
    ensures r == Err(NoLoaderForReference) <==>
            && TopologyHolds(template, t) && ScalarsFit(blank, t, p)
            && t.referenceImages.Some? && |t.referenceImages.value| < |p.referenceImages| <= 9
  {
    if p.referenceImage.Some? && t.referenceImage.None? {
      return Err(ReferenceImageInvariant);
    }
    var valid := ValidateDeclaredTopology(template, t);
    if !valid {
      return Err(BadTopology);
    }
    if (p.negativePrompt.Some? && t.negativePrompt.None?) || (p.audioPrompt.Some? && t.audioPrompt.None?)
       || (p.frameCount.Some? && t.frameCount.None?) {
      return Err(UnsupportedInjection);
    }
    if t.referenceImage.Some? && (p.referenceImage.None? || blank(p.referenceImage.value)) {
      return Err(ReferenceImageInvariant);
    }
    var workflow := InjectScalars(template, t, p);
    if t.referenceImages.None? {
      assert Plan(t, p, b) == ScalarEdits(t, p);
      return Ok(workflow);
    }
    if |p.referenceImages| > MAX_REFERENCES {
      return Err(TooManyReferences);
    }
    if |p.referenceImages| > |t.referenceImages.value| {
      return Err(NoLoaderForReference);
    }
    workflow := InjectReferences(template, workflow, t, p, b);
    var ok := CheckFinalSchema(blank, t, p, workflow);
    return if ok then Ok(workflow) else Err(SchemaRejected);
  }

  method CheckFinalSchema(blank: Blank, t: Topology, p: Injected, w: Workflow) returns (ok: bool)
    requires t.referenceImages.Some?
    ensures ok <==> FinalSchemaHolds(blank, t, p, w)
  {
    ok := true;
    if t.referenceNode.Some? && t.referenceNode.value.classType == REFERENCE_TO_VIDEO {
      ok := ValidateReferenceSchema(blank, w, t.referenceNode.value.nodeId, |p.referenceImages|);
    }
  }

  method InjectReferences(ghost template: Workflow, w: Workflow, t: Topology, p: Injected, b: Baseline)
      returns (v: Workflow)
    requires t.referenceImages.Some? && |p.referenceImages| <= |t.referenceImages.value|
    requires forall i | 0 <= i < |t.referenceImages.value| :: HasInputs(template, t.referenceImages.value[i].nodeId)
    requires w == ApplyAll(template, ScalarEdits(t, p))
    ensures v == ApplyAll(template, Plan(t, p, b))
  {
    WritesKeepNodes(template, ScalarEdits(t, p));
    v := InjectLoaders(w, t.referenceImages.value, p.referenceImages);
    v := DropLoaders(v, t.referenceImages.value, |p.referenceImages|);
    v := EditReferenceNode(v, t, |p.referenceImages|, b);
    PlanInParts(template, t, p, b);
  }

  /** The plan, part by part. */
  lemma PlanInParts(template: Workflow, t: Topology, p: Injected, b: Baseline)
    requires t.referenceImages.Some? && |p.referenceImages| <= |t.referenceImages.value|
    ensures var n := |p.referenceImages|;
            var w := ApplyAll(template, ScalarEdits(t, p));
            var loaded := ApplyAll(w, LoaderWrites(t.referenceImages.value, p.referenceImages, n));
            var dropped := ApplyAll(loaded, LoaderDrops(t.referenceImages.value, n));
            ApplyAll(template, Plan(t, p, b)) == ApplyAll(dropped, ReferenceNodeEdits(t, n, b))
  {
    var n := |p.referenceImages|;
    var w := ApplyAll(template, ScalarEdits(t, p));
    var writes := LoaderWrites(t.referenceImages.value, p.referenceImages, n);
    var drops := LoaderDrops(t.referenceImages.value, n);
    ApplyAllAppend(template, ScalarEdits(t, p), ReferenceEdits(t, p.referenceImages, b));
    ApplyAllAppend(w, writes + drops, ReferenceNodeEdits(t, n, b));
    ApplyAllAppend(w, writes, drops);
  }

  // ----- what a mutation leaves behind -----

  /** No two edits of one field disagree. */
  ghost predicate Consistent(es: seq<Edit>) {
    forall e, f | e in es && f in es && !e.DropNode? && !f.DropNode? && e.id == f.id && e.field == f.field :: e == f
  }

  lemma {:induction false} ConsistentWins(es: seq<Edit>, e: Edit, original: Option<Json>)
    requires Consistent(es) && e in es && !e.DropNode?
    ensures LastWins(es, e.id, e.field, original) == if e.Write? then Some(e.value) else None
  {
    var last := es[|es| - 1];
    assert last in es;
    if last != e {
      var front := es[..|es| - 1];
      assert es == front + [last];
      ConsistentWins(front, e, original);
    }
  }

  lemma {:induction false} UnnamedFieldKept(es: seq<Edit>, id: string, field: string, original: Option<Json>)
    requires forall e | e in es && !e.DropNode? :: e.id != id || e.field != field
    ensures LastWins(es, id, field, original) == original
  {
    if es != [] {
      assert es[|es| - 1] in es;
      UnnamedFieldKept(es[..|es| - 1], id, field, original);
    }
  }

  /**
    With consistent edits a planned write reads back afterwards exactly when
    its node is not dropped.
  */
  lemma WritesReadBackIff(w: Workflow, es: seq<Edit>, e: Edit)
    requires Consistent(es) && e in es && e.Write? && HasInputs(w, e.id)
    ensures Read(ApplyAll(w, es), e.id, e.field) == Some(e.value) <==> DropNode(e.id) !in es
  {
    EditsReadBack(w, es, e.id, e.field);
    ConsistentWins(es, e, Read(w, e.id, e.field));
  }

  /** Fields no edit names are untouched in every node that stays. */
  lemma OtherFieldsUntouched(w: Workflow, es: seq<Edit>, id: string, field: string)
    requires DropNode(id) !in es
    requires forall e | e in es && !e.DropNode? :: e.id != id || e.field != field
    ensures Read(ApplyAll(w, es), id, field) == Read(w, id, field)
  {
    EditsReadBack(w, es, id, field);
    UnnamedFieldKept(es, id, field, Read(w, id, field));
  }

  ghost predicate IsUnusedLoader(t: Topology, n: nat, id: string) {
    t.referenceImages.Some? && exists i :: n <= i < |t.referenceImages.value| && t.referenceImages.value[i].nodeId == id
  }

  /** Which part of the plan an edit comes from shows in its kind. */
  lemma PlanByKind(t: Topology, p: Injected, b: Baseline)
    requires PlanFits(t, p)
    ensures forall e | e in ScalarEdits(t, p) :: e.Write?
    ensures t.referenceImages.Some? ==>
              var n := |p.referenceImages|;
              forall e | e in Plan(t, p, b) ::
                && (e.DropNode? ==> e in LoaderDrops(t.referenceImages.value, n))
                && (e.DropField? ==>
                      && t.referenceNode.Some? && t.referenceSlotFields.Some?
                      && e in SlotDrops(t.referenceNode.value.nodeId, t.referenceSlotFields.value, n))
  {
    assert forall e | e in ScalarEdits(t, p) :: e.Write?;
    if t.referenceImages.Some? {
      var n, loaders := |p.referenceImages|, t.referenceImages.value;
      assert forall e | e in LoaderWrites(loaders, p.referenceImages, n) :: e.Write?;
      assert forall e | e in LoaderDrops(loaders, n) :: e.DropNode?;
      if t.referenceNode.Some? {
        assert forall e | e in SizeWrites(t, n, b) :: e.Write?;
        assert t.referenceSlotFields.Some? ==>
                 forall e | e in SlotDrops(t.referenceNode.value.nodeId, t.referenceSlotFields.value, n) ::
                   e.DropField? && e.id == t.referenceNode.value.nodeId;
      }
    }
  }

  lemma DropsAreUnusedLoaders(t: Topology, p: Injected, b: Baseline, id: string)
    requires PlanFits(t, p)
    ensures DropNode(id) in Plan(t, p, b) <==> IsUnusedLoader(t, |p.referenceImages|, id)
  {
    if DropNode(id) in Plan(t, p, b) {
      DroppedIsUnused(t, p, b, id);
    }
    if IsUnusedLoader(t, |p.referenceImages|, id) {
      UnusedIsDropped(t, p, b, id);
    }
  }

  lemma DropComesFromLoaders(t: Topology, p: Injected, b: Baseline, id: string)
    requires PlanFits(t, p) && DropNode(id) in Plan(t, p, b)
    ensures t.referenceImages.Some? && DropNode(id) in LoaderDrops(t.referenceImages.value, |p.referenceImages|)
  {
    PlanByKind(t, p, b);
  }

  lemma LoaderDropIsUnused(loaders: seq<Target>, n: nat, id: string) returns (i: nat)
    requires n <= |loaders| && DropNode(id) in LoaderDrops(loaders, n)
    ensures n <= i < |loaders| && loaders[i].nodeId == id
  {
    var k: nat :| k < |loaders| - n && LoaderDrops(loaders, n)[k] == DropNode(id);
    i := n + k;
  }

  lemma DroppedIsUnused(t: Topology, p: Injected, b: Baseline, id: string)
    requires PlanFits(t, p) && DropNode(id) in Plan(t, p, b)
    ensures IsUnusedLoader(t, |p.referenceImages|, id)
  {
    DropComesFromLoaders(t, p, b, id);
    var i := LoaderDropIsUnused(t.referenceImages.value, |p.referenceImages|, id);
  }

  lemma UnusedIsDropped(t: Topology, p: Injected, b: Baseline, id: string)
    requires PlanFits(t, p) && IsUnusedLoader(t, |p.referenceImages|, id)
    ensures DropNode(id) in Plan(t, p, b)
  {
    var n, loaders := |p.referenceImages|, t.referenceImages.value;
    var i :| n <= i < |loaders| && loaders[i].nodeId == id;
    assert LoaderDrops(loaders, n)[i - n] == DropNode(id);
    assert DropNode(id) in ReferenceEdits(t, p.referenceImages, b);
  }

  /** The nodes removed are exactly the loaders of unused slots; class types never change. */
  lemma LoadersRemovedExactly(w: Workflow, t: Topology, p: Injected, b: Baseline)
    requires PlanFits(t, p)
    ensures var v := ApplyAll(w, Plan(t, p, b));
            forall id :: (id in v <==> id in w && !IsUnusedLoader(t, |p.referenceImages|, id))
                         && (id in v && w[id].Node? ==> v[id].Node? && v[id].classType == w[id].classType)
  {
    EditsKeepNodes(w, Plan(t, p, b));
    forall id ensures DropNode(id) in Plan(t, p, b) <==> IsUnusedLoader(t, |p.referenceImages|, id) {
      DropsAreUnusedLoaders(t, p, b, id);
    }
  }

  // ----- declared targets -----

  /** The places a topology may declare a target for. */
  datatype Place =
    | Prompt | NegativePrompt | Seed | AudioPrompt | FrameCount | ReferenceImage
    | Loader(i: nat) | Slot(s: nat) | ImageSize | Width | Height

  function OwnKey(t: Option<Target>): Option<(string, string)> {
    if t.Some? then Some((t.value.nodeId, t.value.inputField)) else None
  }

  /** Sizes are written on the reference node, whatever node their target names. */
  function ReferenceKey(t: Topology, s: Option<Target>): Option<(string, string)> {
    if t.referenceImages.Some? && t.referenceNode.Some? && s.Some?
    then Some((t.referenceNode.value.nodeId, s.value.inputField)) else None
  }

  /** The (node, field) pair a place stands for. */
  function Key(t: Topology, place: Place): Option<(string, string)> {
    match place
    case Prompt => OwnKey(Some(t.prompt))
    case NegativePrompt => OwnKey(t.negativePrompt)
    case Seed => OwnKey(Some(t.seed))
    case AudioPrompt => OwnKey(t.audioPrompt)
    case FrameCount => OwnKey(t.frameCount)
    case ReferenceImage => OwnKey(t.referenceImage)
    case Loader(i) =>
      if t.referenceImages.Some? && i < |t.referenceImages.value| then OwnKey(Some(t.referenceImages.value[i]))
      else None
    case Slot(s) =>
      if t.referenceImages.Some? && t.referenceNode.Some? && t.referenceSlotFields.Some?
         && s < |t.referenceSlotFields.value|
      then Some((t.referenceNode.value.nodeId, t.referenceSlotFields.value[s])) else None
    case ImageSize => ReferenceKey(t, t.refImageSize)
    case Width => ReferenceKey(t, t.width)
    case Height => ReferenceKey(t, t.height)
  }

  /** No two places share a (node, field) pair. */
  ghost predicate DistinctTargets(t: Topology) {
    forall a, b :: Key(t, a).Some? && Key(t, a) == Key(t, b) ==> a == b
  }

  /** What the mutation should leave at a place: a value, no field (Some(None)), or whatever was there (None). */
  function Intended(t: Topology, p: Injected, b: Baseline, place: Place): Option<Option<Json>> {
    var n := |p.referenceImages|;
    match place
    case Prompt => Wanted(TextJson(p.prompt))
    case NegativePrompt => Wanted(TextJson(p.negativePrompt))
    case Seed => Wanted(NumberJson(p.seed))
    case AudioPrompt => Wanted(TextJson(p.audioPrompt))
    case FrameCount => Wanted(NumberJson(p.frameCount))
    case ReferenceImage => Wanted(TextJson(p.referenceImage))
    case Loader(i) => if i < n then Some(Some(Str(p.referenceImages[i]))) else None
    case Slot(s) => if n <= s then Some(None) else None
    case ImageSize => Some(Some(Str(if n > 0 then "max" else "match")))
    case Width => Wanted(NumberJson(b.width))
    case Height => Wanted(NumberJson(b.height))
  }

  function Wanted(v: Option<Json>): Option<Option<Json>> {
    if v.Some? then Some(v) else None
  }

  function EditAt(key: (string, string), v: Option<Json>): Edit {
    if v.Some? then Write(key.0, key.1, v.value) else DropField(key.0, key.1)
  }

  /** Edit e carries out the intention for a place. */
  ghost predicate CarriesOut(t: Topology, p: Injected, b: Baseline, e: Edit, place: Place) {
    Key(t, place).Some? && Intended(t, p, b, place).Some?
    && e == EditAt(Key(t, place).value, Intended(t, p, b, place).value)
  }

  lemma ScalarEditPlace(t: Topology, p: Injected, b: Baseline, e: Edit) returns (place: Place)
    requires e in ScalarEdits(t, p)
    ensures CarriesOut(t, p, b, e, place)
  {
    place := if e in WriteText(Some(t.prompt), p.prompt) then Prompt
    else if e in WriteText(t.negativePrompt, p.negativePrompt) then NegativePrompt
    else if e in WriteNumber(Some(t.seed), p.seed) then Seed
    else if e in WriteText(t.audioPrompt, p.audioPrompt) then AudioPrompt
    else if e in WriteNumber(t.frameCount, p.frameCount) then FrameCount
    else ReferenceImage;
  }

  lemma SizeEditPlace(t: Topology, p: Injected, b: Baseline, e: Edit) returns (place: Place)
    requires t.referenceImages.Some? && t.referenceNode.Some? && e in SizeWrites(t, |p.referenceImages|, b)
    ensures CarriesOut(t, p, b, e, place)
  {
    if CarriesOut(t, p, b, e, ImageSize) {
      place := ImageSize;
    } else if CarriesOut(t, p, b, e, Width) {
      place := Width;
    } else {
      place := Height;
    }
  }

  lemma ReferenceEditPlace(t: Topology, p: Injected, b: Baseline, e: Edit) returns (place: Place)
    requires t.referenceImages.Some? && PlanFits(t, p)
    requires e in ReferenceEdits(t, p.referenceImages, b) && !e.DropNode?
    ensures CarriesOut(t, p, b, e, place)
  {
    var n, loaders := |p.referenceImages|, t.referenceImages.value;
    var writes := LoaderWrites(loaders, p.referenceImages, n);
    if e in writes {
      var i: nat :| i < |writes| && writes[i] == e;
      place := Loader(i);
    } else {
      assert e in ReferenceNodeEdits(t, n, b);
      if t.referenceSlotFields.Some? && e in SlotDrops(t.referenceNode.value.nodeId, t.referenceSlotFields.value, n) {
        var drops := SlotDrops(t.referenceNode.value.nodeId, t.referenceSlotFields.value, n);
        var i: nat :| i < |drops| && drops[i] == e;
        place := Slot(n + i);
      } else {
        place := SizeEditPlace(t, p, b, e);
      }
    }
  }

  /** Every edit of a field carries out what is intended for some place. */
  lemma EditPlace(t: Topology, p: Injected, b: Baseline, e: Edit) returns (place: Place)
    requires PlanFits(t, p) && e in Plan(t, p, b) && !e.DropNode?
    ensures CarriesOut(t, p, b, e, place)
  {
    if e in ScalarEdits(t, p) {
      place := ScalarEditPlace(t, p, b, e);
    } else {
      place := ReferenceEditPlace(t, p, b, e);
    }
  }

  lemma ScalarIsPlanned(t: Topology, p: Injected, b: Baseline, place: Place)
    requires Key(t, place).Some? && Intended(t, p, b, place).Some?
    requires place in {Prompt, NegativePrompt, Seed, AudioPrompt, FrameCount, ReferenceImage}
    ensures EditAt(Key(t, place).value, Intended(t, p, b, place).value) in ScalarEdits(t, p)
  {
  }

  lemma ReferenceIsPlanned(t: Topology, p: Injected, b: Baseline, place: Place)
    requires PlanFits(t, p) && Key(t, place).Some? && Intended(t, p, b, place).Some?
    requires place.Loader? || place.Slot? || place in {ImageSize, Width, Height}
    ensures t.referenceImages.Some?
            && EditAt(Key(t, place).value, Intended(t, p, b, place).value) in ReferenceEdits(t, p.referenceImages, b)
  {
    var n, e := |p.referenceImages|, EditAt(Key(t, place).value, Intended(t, p, b, place).value);
    if place.Loader? {
      assert LoaderWrites(t.referenceImages.value, p.referenceImages, n)[place.i] == e;
    } else if place.Slot? {
      assert SlotDrops(t.referenceNode.value.nodeId, t.referenceSlotFields.value, n)[place.s - n] == e;
      assert e in ReferenceNodeEdits(t, n, b);
    } else {
      assert e in SizeWrites(t, n, b);
      assert e in ReferenceNodeEdits(t, n, b);
    }
  }

  /** With distinct targets no two edits of one field disagree. */
  lemma DistinctTargetsAreConsistent(t: Topology, p: Injected, b: Baseline)
    requires PlanFits(t, p) && DistinctTargets(t)
    ensures Consistent(Plan(t, p, b))
  {
    forall e, f | e in Plan(t, p, b) && f in Plan(t, p, b) && !e.DropNode? && !f.DropNode? && e.id == f.id
        && e.field == f.field
      ensures e == f
    {
      var x := EditPlace(t, p, b, e);
      var y := EditPlace(t, p, b, f);
      assert Key(t, x) == Some((e.id, e.field)) && Key(t, y) == Some((f.id, f.field));
    }
  }

  lemma IntendedIsPlanned(t: Topology, p: Injected, b: Baseline, place: Place)
    requires PlanFits(t, p) && Key(t, place).Some? && Intended(t, p, b, place).Some?
    ensures EditAt(Key(t, place).value, Intended(t, p, b, place).value) in Plan(t, p, b)
  {
    if place in {Prompt, NegativePrompt, Seed, AudioPrompt, FrameCount, ReferenceImage} {
      ScalarIsPlanned(t, p, b, place);
    } else {
      ReferenceIsPlanned(t, p, b, place);
    }
  }

  lemma UnintendedIsUnnamed(t: Topology, p: Injected, b: Baseline, place: Place)
    requires PlanFits(t, p) && DistinctTargets(t) && Key(t, place).Some? && Intended(t, p, b, place).None?
    ensures forall e | e in Plan(t, p, b) && !e.DropNode? :: Key(t, place) != Some((e.id, e.field))
  {
    forall e | e in Plan(t, p, b) && !e.DropNode? ensures Key(t, place) != Some((e.id, e.field)) {
      var x := EditPlace(t, p, b, e);
      assert Key(t, x) == Some((e.id, e.field));
    }
  }

  /**
    With distinct targets the mutation leaves at every declared place what is
    intended there, provided the place's node is not a pruned loader.
  */
  lemma PlacesAfterMutation(w: Workflow, t: Topology, p: Injected, b: Baseline, place: Place)
    requires PlanFits(t, p) && DistinctTargets(t) && Key(t, place).Some?
    ensures var (id, field) := Key(t, place).value;
            HasInputs(w, id) && !IsUnusedLoader(t, |p.referenceImages|, id) ==>
              Read(ApplyAll(w, Plan(t, p, b)), id, field)
              == if Intended(t, p, b, place).Some? then Intended(t, p, b, place).value else Read(w, id, field)
  {
    var (id, field) := Key(t, place).value;
    var plan := Plan(t, p, b);
    EditsReadBack(w, plan, id, field);
    DropsAreUnusedLoaders(t, p, b, id);
    if Intended(t, p, b, place).Some? {
      IntendedIsPlanned(t, p, b, place);
      DistinctTargetsAreConsistent(t, p, b);
      ConsistentWins(plan, EditAt((id, field), Intended(t, p, b, place).value), Read(w, id, field));
    } else {
      UnintendedIsUnnamed(t, p, b, place);
      UnnamedFieldKept(plan, id, field, Read(w, id, field));
    }
  }

  /** A pair no place stands for is untouched in every node that stays. */
  lemma UndeclaredFieldsUntouched(w: Workflow, t: Topology, p: Injected, b: Baseline, id: string, field: string)
    requires PlanFits(t, p) && !IsUnusedLoader(t, |p.referenceImages|, id)
    requires forall place :: Key(t, place) != Some((id, field))
    ensures Read(ApplyAll(w, Plan(t, p, b)), id, field) == Read(w, id, field)
  {
    DropsAreUnusedLoaders(t, p, b, id);
    forall e | e in Plan(t, p, b) && !e.DropNode? ensures e.id != id || e.field != field {
      var x := EditPlace(t, p, b, e);
      assert Key(t, x) == Some((e.id, e.field));
    }
    OtherFieldsUntouched(w, Plan(t, p, b), id, field);
  }

  /** An injected value is lost exactly when its target sits on a pruned loader. */
  lemma InjectedValueLostIff(w: Workflow, t: Topology, p: Injected, b: Baseline, place: Place)
    requires PlanFits(t, p) && DistinctTargets(t) && Key(t, place).Some? && HasInputs(w, Key(t, place).value.0)
    requires Intended(t, p, b, place).Some? && Intended(t, p, b, place).value.Some?
    ensures var (id, field) := Key(t, place).value;
            Read(ApplyAll(w, Plan(t, p, b)), id, field) != Intended(t, p, b, place).value
            <==> IsUnusedLoader(t, |p.referenceImages|, id)
  {
    var (id, field) := Key(t, place).value;
    PlacesAfterMutation(w, t, p, b, place);
    DropsAreUnusedLoaders(t, p, b, id);
    EditsReadBack(w, Plan(t, p, b), id, field);
  }

  // ----- slots -----

  /** Nine image loaders, none the reference node, each wired to the slot field of its index. */
  ghost predicate NineSlots(t: Topology) {
    && t.referenceNode.Some? && t.referenceImages.Some? && t.referenceSlotFields.Some?
    && |t.referenceImages.value| == MAX_REFERENCES == |t.referenceSlotFields.value|
    && (forall i | 0 <= i < MAX_REFERENCES ::
          && t.referenceImages.value[i].classType == LOAD_IMAGE
          && t.referenceImages.value[i].nodeId != t.referenceNode.value.nodeId
          && t.referenceSlotFields.value[i] == SlotField(i))
  }

  /** Slots in use keep the template's link; the others are gone. */
  lemma SlotsAfterMutation(w: Workflow, t: Topology, p: Injected, b: Baseline, s: nat)
    requires PlanFits(t, p) && NineSlots(t) && DistinctTargets(t) && TopologyHolds(w, t) && s < MAX_REFERENCES
    ensures var id := t.referenceNode.value.nodeId;
            Read(ApplyAll(w, Plan(t, p, b)), id, SlotField(s))
            == if s < |p.referenceImages| then Read(w, id, SlotField(s)) else None
  {
    PlacesAfterMutation(w, t, p, b, Slot(s));
  }

  /** Every slot in use links to a loader that survives, of the class the schema asks for. */
  lemma ActiveSlotsKeepTheirLoader(w: Workflow, t: Topology, p: Injected, b: Baseline, s: nat)
    requires PlanFits(t, p) && NineSlots(t) && DistinctTargets(t) && TopologyHolds(w, t) && s < |p.referenceImages|
    ensures var v := ApplyAll(w, Plan(t, p, b));
            var loader := t.referenceImages.value[s].nodeId;
            && LinksTo(v, t.referenceNode.value.nodeId, SlotField(s), loader)
            && HasInputs(v, loader) && v[loader].classType == Some(LOAD_IMAGE)
  {
    SlotsAfterMutation(w, t, p, b, s);
    LoadersRemovedExactly(w, t, p, b);
    EditsKeepNodes(w, Plan(t, p, b));
    assert LinksTo(w, t.referenceNode.value.nodeId, t.referenceSlotFields.value[s], t.referenceImages.value[s].nodeId);
  }

  /**
    The slot checks of the final schema accept exactly when every active
    slot's link in the template has two elements: the declared-topology check
    lets longer links through, the schema does not.
  */
  lemma SlotChecksAcceptIff(w: Workflow, t: Topology, p: Injected, b: Baseline)
    requires PlanFits(t, p) && NineSlots(t) && DistinctTargets(t) && TopologyHolds(w, t)
    ensures var id := t.referenceNode.value.nodeId;
            SlotsAccepted(ApplyAll(w, Plan(t, p, b)), id, |p.referenceImages|)
            <==> forall s | 0 <= s < |p.referenceImages| :: |Read(w, id, SlotField(s)).value.items| == 2
  {
    var id, v, n := t.referenceNode.value.nodeId, ApplyAll(w, Plan(t, p, b)), |p.referenceImages|;
    forall s | 0 <= s < MAX_REFERENCES
      ensures s < n ==>
                && Read(v, id, SlotField(s)) == Read(w, id, SlotField(s))
                && Read(v, id, SlotField(s)).Some? && Read(v, id, SlotField(s)).value.Arr?
                && (SlotActive(v, id, SlotField(s)) <==> |Read(w, id, SlotField(s)).value.items| == 2)
      ensures n <= s ==> Read(v, id, SlotField(s)).None?
    {
      SlotsAfterMutation(w, t, p, b, s);
      if s < n {
        ActiveSlotsKeepTheirLoader(w, t, p, b, s);
      }
    }
  }

  /**
    With nine slots and distinct targets a mutation is accepted exactly when
    topology, payload and the schema's controls are, and every active slot's
    link in the template has two elements.
  */
  lemma MutationAcceptedIff(blank: Blank, w: Workflow, t: Topology, p: Injected, b: Baseline)
    requires PlanFits(t, p) && NineSlots(t) && DistinctTargets(t)
    requires t.referenceNode.value.classType == REFERENCE_TO_VIDEO
    ensures var id := t.referenceNode.value.nodeId;
            MutationAccepted(blank, w, t, p, b) <==>
              && TopologyHolds(w, t) && PayloadFits(blank, t, p)
              && ControlsHold(blank, ApplyAll(w, Plan(t, p, b)), id)
              && forall s | 0 <= s < |p.referenceImages| :: |Read(w, id, SlotField(s)).value.items| == 2
  {
    if TopologyHolds(w, t) {
      SlotChecksAcceptIff(w, t, p, b);
    }
  }

  // ----- the shipped reference-to-video topology -----

  /** Loader nodes 201 to 209. */
  function LoaderId(i: nat): string
    requires i < MAX_REFERENCES
  {
    "20" + [('1' as int + i) as char]
  }

  function Loaders(): seq<Target> {
    seq(MAX_REFERENCES, i requires 0 <= i < MAX_REFERENCES => Target(LoaderId(i), LOAD_IMAGE, "image"))
  }

  function SlotFields(): seq<string> {
    seq(MAX_REFERENCES, i requires 0 <= i < MAX_REFERENCES => SlotField(i))
  }

  function RefNode(field: string): Target {
    Target("105", REFERENCE_TO_VIDEO, field)
  }

  /** MINIMAX_H3_720P_5S_REF2V_V1_INJECTION_TOPOLOGY */
  function ShippedTopology(): Topology {
    Topology(RefNode("prompt"), None, Target("15", "RandomNoise", "noise_seed"), None, Some(RefNode("length")),
             None, None, None, Some(RefNode("width")), Some(RefNode("height")), Some(RefNode("ref_image_size")),
             Some(RefNode("ref_images")), Some(Loaders()), Some(SlotFields()))
  }

  /** A number that tells the shipped places apart. */
  function Mark(key: (string, string)): int {
    if |key.0| != 3 then 0
    else if key.0[0] == '2' then 100 + key.0[2] as int
    else if |key.1| == 22 then 200 + key.1[21] as int
    else if |key.1| == 14 then 2
    else if |key.1| == 0 then 3
    else 300 + key.1[0] as int
  }

  function PlaceMark(place: Place): int {
    match place
    case Prompt => 300 + 'p' as int
    case FrameCount => 300 + 'l' as int
    case Seed => 0
    case Loader(i) => 100 + '1' as int + i
    case Slot(s) => 200 + '0' as int + s
    case ImageSize => 2
    case Width => 300 + 'w' as int
    case Height => 300 + 'h' as int
    case _ => 4
  }

  lemma ShippedMark(place: Place)
    requires Key(ShippedTopology(), place).Some?
    ensures Mark(Key(ShippedTopology(), place).value) == PlaceMark(place)
  {
  }

  lemma ShippedTargetsAreDistinct()
    ensures DistinctTargets(ShippedTopology()) && NineSlots(ShippedTopology())
  {
    var t := ShippedTopology();
    forall a, b | Key(t, a).Some? && Key(t, a) == Key(t, b) ensures a == b {
      ShippedMark(a);
      ShippedMark(b);
    }
    forall i | 0 <= i < MAX_REFERENCES ensures t.referenceImages.value[i].nodeId != "105" {
      assert t.referenceImages.value[i].nodeId[0] == '2';
    }
  }

  /** The shipped topology with its prompt moved onto the last loader. */
  function MovedTopology(): Topology {
    ShippedTopology().(prompt := Target("209", LOAD_IMAGE, "caption"))
  }

  lemma MovedTargetsAreDistinct()
    ensures DistinctTargets(MovedTopology()) && NineSlots(MovedTopology())
  {
    var t := MovedTopology();
    forall place | place != Prompt && Key(t, place).Some?
      ensures Key(t, place) == Key(ShippedTopology(), place) && Key(t, place) != Key(t, Prompt)
    {
      assert Key(t, Prompt).value.1[0] == 'c' && Key(t, Prompt).value.1[1] == 'a';
    }
    ShippedTargetsAreDistinct();
  }

  // ----- two readings that are too strong -----

  predicate IsExample(t: Topology) {
    t == ShippedTopology() || t == MovedTopology()
  }

  /** A wired template; long adds a third element to every slot link. */
  ghost function RefInput(field: string, long: bool): Json {
    if |field| == 22 && '0' <= field[21] <= '8' then
      Arr([Str(LoaderId(field[21] as int - '0' as int)), Num(0.0)] + (if long then [Num(0.0)] else []))
    else if field in {"clip", "vae", "audio_vae"} then Arr([Str("15"), Num(0.0)])
    else if field in {"length", "width", "height"} then Num(1.0)
    else Str("x")
  }

  ghost function RefInputs(long: bool): Inputs {
    var controls := {"clip", "vae", "audio_vae", "prompt", "length", "width", "height", "ref_image_size"};
    var fields := controls + (set f | f in SlotFields());
    map f | f in fields :: RefInput(f, long)
  }

  ghost function TemplateNode(id: string, long: bool): Node {
    if id == "105" then Node(Some(REFERENCE_TO_VIDEO), Some(RefInputs(long)))
    else if id == "15" then Node(Some("RandomNoise"), Some(map["noise_seed" := Num(0.0)]))
    else Node(Some(LOAD_IMAGE), Some(map["image" := Str("x"), "caption" := Str("x")]))
  }

  ghost function Template(long: bool): Workflow {
    var ids := {"105", "15"} + (set l | l in Loaders() :: l.nodeId);
    map id | id in ids :: TemplateNode(id, long)
  }

  lemma TemplateLoader(long: bool, i: nat)
    requires i < MAX_REFERENCES
    ensures LoaderId(i) in Template(long)
    ensures Template(long)[LoaderId(i)] == Node(Some(LOAD_IMAGE), Some(map["image" := Str("x"), "caption" := Str("x")]))
  {
    assert Loaders()[i].nodeId == LoaderId(i) && LoaderId(i)[0] == '2';
  }

  lemma RefInputsSlot(long: bool, s: nat)
    requires s < MAX_REFERENCES
    ensures SlotField(s) in RefInputs(long)
    ensures RefInputs(long)[SlotField(s)] == Arr([Str(LoaderId(s)), Num(0.0)] + (if long then [Num(0.0)] else []))
  {
    assert SlotFields()[s] == SlotField(s);
    assert |SlotField(s)| == 22 && SlotField(s)[21] == ('0' as int + s) as char;
  }

  lemma TemplateReference(long: bool)
    ensures HasInputs(Template(long), "105") && Template(long)["105"].inputs.value == RefInputs(long)
    ensures Template(long)["105"].classType == Some(REFERENCE_TO_VIDEO)
    ensures "15" in Template(long) && Template(long)["15"].Node?
  {
  }

  lemma TemplateSlot(long: bool, s: nat)
    requires s < MAX_REFERENCES
    ensures HasInputs(Template(long), "105")
    ensures Read(Template(long), "105", SlotField(s))
            == Some(Arr([Str(LoaderId(s)), Num(0.0)] + (if long then [Num(0.0)] else [])))
  {
    RefInputsSlot(long, s);
    TemplateReference(long);
  }

  /** Everything the schema asks of the reference node besides its slots. */
  ghost predicate Complete(w: Workflow) {
    var link := Some(Arr([Str("15"), Num(0.0)]));
    && HasInputs(w, "105") && w["105"].classType == Some(REFERENCE_TO_VIDEO) && "15" in w && w["15"].Node?
    && Read(w, "105", "clip") == link && Read(w, "105", "vae") == link && Read(w, "105", "audio_vae") == link
    && Read(w, "105", "length") == Some(Num(1.0)) && Read(w, "105", "width") == Some(Num(1.0))
    && Read(w, "105", "height") == Some(Num(1.0)) && Read(w, "105", "prompt") == Some(Str("x"))
  }

  lemma PromptIsNoSize()
    ensures "prompt" !in {"length", "width", "height"} && "prompt" !in {"clip", "vae", "audio_vae"}
  {
    assert "prompt"[0] == 'p' && "length"[0] == 'l' && "height"[0] == 'h';
  }

  lemma TemplateIsComplete(long: bool)
    ensures Complete(Template(long))
  {
    TemplateReference(long);
    PromptIsNoSize();
  }

  lemma TemplateIsWired(long: bool)
    ensures TopologyHolds(Template(long), ShippedTopology()) && TopologyHolds(Template(long), MovedTopology())
  {
    var w := Template(long);
    TemplateReference(long);
    forall i | 0 <= i < MAX_REFERENCES
      ensures TargetExists(w, Loaders()[i]) && LinksTo(w, "105", SlotFields()[i], Loaders()[i].nodeId)
    {
      TemplateLoader(long, i);
      TemplateSlot(long, i);
    }
    LoaderIdsDiffer();
    TemplateLoader(long, 8);
    assert LoaderId(8) == "209";
  }

  lemma LoaderIdsDiffer()
    ensures forall i, j | 0 <= i < j < MAX_REFERENCES :: Loaders()[i].nodeId != Loaders()[j].nodeId
  {
    forall i, j | 0 <= i < j < MAX_REFERENCES ensures Loaders()[i].nodeId != Loaders()[j].nodeId {
      assert Loaders()[i].nodeId[2] != Loaders()[j].nodeId[2];
    }
  }

  // ----- the schema's controls after a mutation of a complete template -----

  lemma ExampleFits(t: Topology)
    requires IsExample(t)
    ensures DistinctTargets(t) && NineSlots(t) && t.referenceNode.value == RefNode("ref_images")
  {
    ShippedTargetsAreDistinct();
    MovedTargetsAreDistinct();
  }

  lemma NotALoader(t: Topology, n: nat)
    requires IsExample(t)
    ensures !IsUnusedLoader(t, n, "105") && !IsUnusedLoader(t, n, "15")
  {
    forall i | 0 <= i < MAX_REFERENCES ensures t.referenceImages.value[i].nodeId !in {"105", "15"} {
      assert t.referenceImages.value[i].nodeId[0] == '2';
    }
  }

  lemma LinkIsUndeclared(t: Topology, field: string, place: Place)
    requires IsExample(t) && field in {"clip", "vae", "audio_vae"}
    ensures Key(t, place) != Some(("105", field))
  {
    if place.Loader? && Key(t, place).Some? {
      assert Key(t, place).value.0[0] == '2';
    }
  }

  lemma LinksAreKept(w: Workflow, t: Topology, p: Injected, b: Baseline, field: string)
    requires IsExample(t) && PlanFits(t, p) && field in {"clip", "vae", "audio_vae"}
    ensures Read(ApplyAll(w, Plan(t, p, b)), "105", field) == Read(w, "105", field)
  {
    NotALoader(t, |p.referenceImages|);
    forall place ensures Key(t, place) != Some(("105", field)) {
      LinkIsUndeclared(t, field, place);
    }
    UndeclaredFieldsUntouched(w, t, p, b, "105", field);
  }

  /** A place on the reference node holds what is intended for it, else what the template had. */
  lemma PlaceOnReferenceNode(w: Workflow, t: Topology, p: Injected, b: Baseline, place: Place, field: string)
    requires IsExample(t) && PlanFits(t, p) && HasInputs(w, "105") && Key(t, place) == Some(("105", field))
    ensures Read(ApplyAll(w, Plan(t, p, b)), "105", field)
            == if Intended(t, p, b, place).Some? then Intended(t, p, b, place).value else Read(w, "105", field)
  {
    ExampleFits(t);
    NotALoader(t, |p.referenceImages|);
    PlacesAfterMutation(w, t, p, b, place);
  }

  lemma NumberAfterMutation(
    w: Workflow, t: Topology, p: Injected, b: Baseline, place: Place, field: string, wanted: Option<int>)
    requires IsExample(t) && PlanFits(t, p) && HasInputs(w, "105") && Read(w, "105", field) == Some(Num(1.0))
    requires Key(t, place) == Some(("105", field)) && Intended(t, p, b, place) == Wanted(NumberJson(wanted))
    ensures IsPositive(Read(ApplyAll(w, Plan(t, p, b)), "105", field)) <==> (wanted.Some? ==> wanted.value > 0)
  {
    PlaceOnReferenceNode(w, t, p, b, place, field);
  }

  lemma WidthAfterMutation(w: Workflow, t: Topology, p: Injected, b: Baseline)
    requires IsExample(t) && PlanFits(t, p) && Complete(w)
    ensures IsPositive(Read(ApplyAll(w, Plan(t, p, b)), "105", "width")) <==> (b.width.Some? ==> b.width.value > 0)
  {
    NumberAfterMutation(w, t, p, b, Width, "width", b.width);
  }

  lemma HeightAfterMutation(w: Workflow, t: Topology, p: Injected, b: Baseline)
    requires IsExample(t) && PlanFits(t, p) && Complete(w)
    ensures IsPositive(Read(ApplyAll(w, Plan(t, p, b)), "105", "height")) <==> (b.height.Some? ==> b.height.value > 0)
  {
    NumberAfterMutation(w, t, p, b, Height, "height", b.height);
  }

  lemma LengthAfterMutation(w: Workflow, t: Topology, p: Injected, b: Baseline)
    requires IsExample(t) && PlanFits(t, p) && Complete(w)
    ensures IsPositive(Read(ApplyAll(w, Plan(t, p, b)), "105", "length"))
            <==> (p.frameCount.Some? ==> p.frameCount.value > 0)
  {
    NumberAfterMutation(w, t, p, b, FrameCount, "length", p.frameCount);
  }

  lemma ImageSizeAfterMutation(w: Workflow, t: Topology, p: Injected, b: Baseline)
    requires IsExample(t) && PlanFits(t, p) && HasInputs(w, "105")
    ensures Read(ApplyAll(w, Plan(t, p, b)), "105", "ref_image_size")
            == Some(Str(if |p.referenceImages| > 0 then "max" else "match"))
  {
    PlaceOnReferenceNode(w, t, p, b, ImageSize, "ref_image_size");
  }

  /** The prompt the reference node ends up with. */
  function FinalPrompt(t: Topology, p: Injected): string {
    if t == ShippedTopology() && p.prompt.Some? then p.prompt.value else "x"
  }

  lemma PromptAfterMutation(w: Workflow, t: Topology, p: Injected, b: Baseline)
    requires IsExample(t) && PlanFits(t, p) && Complete(w)
    ensures Read(ApplyAll(w, Plan(t, p, b)), "105", "prompt") == Some(Str(FinalPrompt(t, p)))
  {
    if t == ShippedTopology() {
      PlaceOnReferenceNode(w, t, p, b, Prompt, "prompt");
    } else {
      NotALoader(t, |p.referenceImages|);
      forall place ensures Key(t, place) != Some(("105", "prompt")) {
        MovedPromptIsUndeclared(place);
      }
      UndeclaredFieldsUntouched(w, t, p, b, "105", "prompt");
    }
  }

  lemma MovedPromptIsUndeclared(place: Place)
    ensures Key(MovedTopology(), place) != Some(("105", "prompt"))
  {
    PromptIsNoSize();
    if place.Loader? && Key(MovedTopology(), place).Some? {
      assert Key(MovedTopology(), place).value.0[0] == '2';
    }
  }

  lemma LinkStillHolds(w: Workflow, t: Topology, p: Injected, b: Baseline, field: string)
    requires IsExample(t) && PlanFits(t, p) && Complete(w) && field in {"clip", "vae", "audio_vae"}
    ensures IsLink(ApplyAll(w, Plan(t, p, b)), Read(ApplyAll(w, Plan(t, p, b)), "105", field))
  {
    LinksAreKept(w, t, p, b, field);
    NotALoader(t, |p.referenceImages|);
    LoadersRemovedExactly(w, t, p, b);
  }

  /** Injected text and numbers the schema accepts. */
  predicate Usable(blank: Blank, t: Topology, p: Injected, b: Baseline) {
    && !blank(FinalPrompt(t, p)) && (p.frameCount.Some? ==> p.frameCount.value > 0)
    && (b.width.Some? ==> b.width.value > 0) && (b.height.Some? ==> b.height.value > 0)
  }

  lemma ControlsAfterMutation(blank: Blank, w: Workflow, t: Topology, p: Injected, b: Baseline)
    requires IsExample(t) && PlanFits(t, p) && Complete(w)
    ensures ControlsHold(blank, ApplyAll(w, Plan(t, p, b)), "105") <==> Usable(blank, t, p, b)
  {
    var v := ApplyAll(w, Plan(t, p, b));
    LinkStillHolds(w, t, p, b, "clip");
    LinkStillHolds(w, t, p, b, "vae");
    LinkStillHolds(w, t, p, b, "audio_vae");
    WidthAfterMutation(w, t, p, b);
    HeightAfterMutation(w, t, p, b);
    LengthAfterMutation(w, t, p, b);
    ImageSizeAfterMutation(w, t, p, b);
    PromptAfterMutation(w, t, p, b);
    ReferenceNodeStays(w, t, p, b);
  }

  lemma ReferenceNodeStays(w: Workflow, t: Topology, p: Injected, b: Baseline)
    requires IsExample(t) && PlanFits(t, p) && HasInputs(w, "105")
    ensures var v := ApplyAll(w, Plan(t, p, b)); HasInputs(v, "105") && v["105"].classType == w["105"].classType
  {
    NotALoader(t, |p.referenceImages|);
    LoadersRemovedExactly(w, t, p, b);
    EditsKeepNodes(w, Plan(t, p, b));
  }

  /**
    The schema can reject what the declared-topology check let through: a
    complete template whose slot links carry a third element passes the
    topology check, and a mutation of it succeeds exactly without references;
    with two-element links it succeeds for every payload that fits.
  */
  lemma LongLinksAreRejected(blank: Blank, p: Injected, b: Baseline, long: bool)
    ensures var t := ShippedTopology();
            && TopologyHolds(Template(long), t)
            && (MutationAccepted(blank, Template(long), t, p, b) <==>
                PayloadFits(blank, t, p) && Usable(blank, t, p, b) && (long ==> p.referenceImages == []))
  {
    var w, t := Template(long), ShippedTopology();
    TemplateIsWired(long);
    if PayloadFits(blank, t, p) {
      ExampleFits(t);
      TemplateIsComplete(long);
      ControlsAfterMutation(blank, w, t, p, b);
      MutationAcceptedIff(blank, w, t, p, b);
      forall s | 0 <= s < |p.referenceImages|
        ensures |Read(w, "105", SlotField(s)).value.items| == if long then 3 else 2
      {
        TemplateSlot(long, s);
      }
      if p.referenceImages != [] {
        assert |Read(w, "105", SlotField(0)).value.items| == if long then 3 else 2;
      }
    }
  }

  /**
    A mutation that succeeds can still lose an injected value, although all
    targets are distinct: its target sits on a pruned loader.
  */
  lemma TargetOnUnusedLoaderIsLost(blank: Blank)
    requires !blank("x")
    ensures var t, b := MovedTopology(), Baseline(None, None);
            var p := Injected(Some("sunrise"), None, None, None, None, None, []);
            && DistinctTargets(t) && MutationAccepted(blank, Template(false), t, p, b)
            && Read(ApplyAll(Template(false), Plan(t, p, b)), "209", "caption") != Some(Str("sunrise"))
  {
    var t, b := MovedTopology(), Baseline(None, None);
    var p := Injected(Some("sunrise"), None, None, None, None, None, []);
    TemplateIsWired(false);
    TemplateIsComplete(false);
    ExampleFits(t);
    assert t != ShippedTopology() by {
      assert "209"[0] != "105"[0];
    }
    ControlsAfterMutation(blank, Template(false), t, p, b);
    MutationAcceptedIff(blank, Template(false), t, p, b);
    PromptIsLost(t, p, b);
  }

  lemma PromptIsLost(t: Topology, p: Injected, b: Baseline)
    requires t == MovedTopology() && p == Injected(Some("sunrise"), None, None, None, None, None, [])
    ensures Read(ApplyAll(Template(false), Plan(t, p, b)), "209", "caption") != Some(Str("sunrise"))
  {
    TemplateLoader(false, 8);
    assert LoaderId(8) == "209";
    MovedTargetsAreDistinct();
    assert t.referenceImages.value[8].nodeId == "209";
    InjectedValueLostIff(Template(false), t, p, b, Prompt);
  }
}
