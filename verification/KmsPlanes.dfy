/**
 * Plane allocation for one KMS request: which plane a layer gets, at which zpos, and which
 * properties the request sets for it.
 */
module KmsPlanes {
  import opened Options

  // The device.

  datatype PlaneKind = Primary | Overlay | Cursor

  datatype Transform = Rotate0 | Rotate90 | Rotate180 | Rotate270 | ReflectX | ReflectY

  datatype Blend = BlendNone | Premultiplied | Coverage

  datatype Zpos = Zpos(min: int, max: int, hardcoded: bool)

  datatype Rotation = Rotation(supported: set<Transform>, hardcoded: Option<set<Transform>>)

  /** `modified` holds the supported pairs of format and modifier, if there is such a list. */
  datatype Plane = Plane(
    id: nat, kind: PlaneKind, crtcs: set<nat>,
    formats: set<nat>, modified: Option<set<(nat, nat)>>,
    zpos: Option<Zpos>, rotation: Option<Rotation>,
    alpha: Option<int>, blend: Option<set<Blend>>, inFence: bool)

  /** The CRTC a request is for: its id, and its index in the masks of the planes. */
  datatype Crtc = Crtc(id: nat, index: nat)

  const MAX_PLANES := 128
  const INT64_MAX := 0x7FFF_FFFF_FFFF_FFFF

  ghost predicate ValidPlanes(planes: seq<Plane>) {
    && |planes| <= MAX_PLANES
    && (forall i, j :: 0 <= i < j < |planes| ==> planes[i].id != planes[j].id)
    && (forall i :: 0 <= i < |planes| && planes[i].zpos.Some? ==>
          planes[i].zpos.value.min <= planes[i].zpos.value.max < INT64_MAX)
  }

  /** The indices of the planes that can be shown on the CRTC. */
  ghost function Usable(planes: seq<Plane>, crtc: Crtc): set<nat> {
    set i | 0 <= i < |planes| && crtc.index in planes[i].crtcs
  }

  // Layers.

  datatype Pixfmt = Pixfmt(code: nat, isOpaque: bool, opaqueCode: nat)

  datatype Rect = Rect(x: int, y: int, w: int, h: int)

  datatype Layer = Layer(
    fb: nat, format: Pixfmt, modifier: Option<nat>, src: Rect, dst: Rect,
    rotation: Option<set<Transform>>, enforceRotation: bool,
    inFence: Option<nat>, preferCursor: bool)

  /** A layer of a request: the index of its plane, and its zpos if the plane has one. */
  datatype Pushed = Pushed(layer: Layer, plane: nat, zpos: Option<int>)

  datatype PropName =
    | CrtcId | FbId | CrtcX | CrtcY | CrtcW | CrtcH | SrcX | SrcY | SrcW | SrcH
    | ZposProp | RotationProp | AlphaProp | BlendProp | InFenceFd

  datatype PropValue = Number(n: int) | Turned(t: set<Transform>) | Blended(b: Blend)

  /** One property of the plane with the given id. */
  datatype Prop = Prop(plane: nat, name: PropName, value: PropValue)

  /** A request under construction. */
  datatype Request = Request(available: set<nat>, layers: seq<Pushed>, nextZpos: int, props: seq<Prop>)

  // Which plane fits.

  datatype Range = Range(lo: int, hi: int)

  datatype Criteria = Criteria(
    allowed: set<PlaneKind>, format: nat, modifier: Option<nat>,
    zpos: Option<Range>, rotation: Option<set<Transform>>, idFrom: Option<nat>)

  predicate CanRotate(plane: Plane, rotation: set<Transform>) {
    && plane.rotation.Some?
    && (plane.rotation.value.hardcoded.Some? ==> plane.rotation.value.hardcoded.value == rotation)
    && rotation <= plane.rotation.value.supported
  }

  predicate Qualifies(plane: Plane, c: Criteria) {
    && plane.kind in c.allowed
    && (if c.modifier.Some? then plane.modified.Some? && (c.format, c.modifier.value) in plane.modified.value
        else c.format in plane.formats)
    && (c.zpos.Some? ==>
          plane.zpos.Some? && c.zpos.value.lo <= plane.zpos.value.max && plane.zpos.value.min <= c.zpos.value.hi)
    && (c.idFrom.Some? ==> c.idFrom.value <= plane.id)
    && (c.rotation.Some? ==> CanRotate(plane, c.rotation.value))
  }

  /** The first available plane at or after index `i` that qualifies. */
  function FirstFit(planes: seq<Plane>, available: set<nat>, c: Criteria, i: nat): (r: Option<nat>)
    requires i <= |planes|
    ensures r.Some? ==>
              && i <= r.value < |planes| && r.value in available && Qualifies(planes[r.value], c)
              && forall j :: i <= j < r.value && j in available ==> !Qualifies(planes[j], c)
    ensures r.None? ==> forall j :: i <= j < |planes| && j in available ==> !Qualifies(planes[j], c)
    decreases |planes| - i
  {
    if i == |planes| then None
    else if i in available && Qualifies(planes[i], c) then Some(i)
    else FirstFit(planes, available, c, i + 1)
  }

  // The attempts to find a plane for a layer, in order.

  /** Whether a plane that cannot rotate the layer will do. */
  predicate MayDropRotation(layer: Layer) { layer.rotation.Some? && !layer.enforceRotation }

  function CursorAttempt(layer: Layer, rotation: Option<set<Transform>>): Criteria {
    Criteria({Cursor}, layer.format.code, layer.modifier, None, rotation, None)
  }

  function PrimaryAttempt(layer: Layer, format: nat, rotation: Option<set<Transform>>): Criteria {
    Criteria({Primary}, format, layer.modifier, None, rotation, None)
  }

  /** An overlay plane with room at or above `zpos`. */
  function AboveAttempt(layer: Layer, zpos: int, rotation: Option<set<Transform>>): Criteria {
    Criteria({Overlay}, layer.format.code, layer.modifier, Some(Range(zpos, INT64_MAX)), rotation, None)
  }

  /** An overlay plane with a higher id than the plane `below`. */
  function HigherIdAttempt(layer: Layer, below: nat, rotation: Option<set<Transform>>): Criteria {
    Criteria({Overlay}, layer.format.code, layer.modifier, None, rotation, Some(below + 1))
  }

  function CursorAttempts(layer: Layer): seq<Criteria> {
    if !layer.preferCursor then []
    else if MayDropRotation(layer) then [CursorAttempt(layer, layer.rotation), CursorAttempt(layer, None)]
    else [CursorAttempt(layer, layer.rotation)]
  }

  function PrimaryFormats(layer: Layer, rotation: Option<set<Transform>>): seq<Criteria> {
    if layer.format.isOpaque then [PrimaryAttempt(layer, layer.format.code, rotation)]
    else [PrimaryAttempt(layer, layer.format.code, rotation), PrimaryAttempt(layer, layer.format.opaqueCode, rotation)]
  }

  function PrimaryAttempts(layer: Layer): seq<Criteria> {
    if MayDropRotation(layer) then PrimaryFormats(layer, layer.rotation) + PrimaryFormats(layer, None)
    else PrimaryFormats(layer, layer.rotation)
  }

  function OverlayPair(layer: Layer, zpos: int, below: nat, rotation: Option<set<Transform>>): seq<Criteria> {
    [AboveAttempt(layer, zpos, rotation), HigherIdAttempt(layer, below, rotation)]
  }

  function OverlayAttempts(layer: Layer, zpos: int, below: nat): seq<Criteria> {
    if MayDropRotation(layer) then OverlayPair(layer, zpos, below, layer.rotation) + OverlayPair(layer, zpos, below, None)
    else OverlayPair(layer, zpos, below, layer.rotation)
  }

  /** A cursor plane if preferred, then a primary plane for the first layer, or an overlay plane. */
  function Attempts(planes: seq<Plane>, st: Request, layer: Layer): seq<Criteria>
    requires st.layers != [] ==> st.layers[|st.layers| - 1].plane < |planes|
  {
    CursorAttempts(layer)
    + if st.layers == [] then PrimaryAttempts(layer)
      else OverlayAttempts(layer, st.nextZpos, planes[st.layers[|st.layers| - 1].plane].id)
  }

  /** What the first successful attempt finds. */
  function FirstOf(planes: seq<Plane>, available: set<nat>, attempts: seq<Criteria>): (r: Option<nat>)
    ensures r.Some? ==> r.value < |planes| && r.value in available
    ensures r.None? <==>
              forall k, j :: 0 <= k < |attempts| && 0 <= j < |planes| && j in available ==>
                !Qualifies(planes[j], attempts[k])
  {
    if attempts == [] then None
    else if FirstFit(planes, available, attempts[0], 0).Some? then FirstFit(planes, available, attempts[0], 0)
    else FirstOf(planes, available, attempts[1..])
  }

  lemma {:induction false} FirstOfConcat(planes: seq<Plane>, available: set<nat>, a: seq<Criteria>, b: seq<Criteria>)
    ensures FirstOf(planes, available, a + b)
            == if FirstOf(planes, available, a).Some? then FirstOf(planes, available, a) else FirstOf(planes, available, b)
  {
    if a == [] {
      assert a + b == b;
    } else {
      assert (a + b)[1..] == a[1..] + b;
      FirstOfConcat(planes, available, a[1..], b);
    }
  }

  /** The plane found is the first fit of the first attempt that has one. */
  lemma {:induction false} FoundByAttempt(planes: seq<Plane>, available: set<nat>, attempts: seq<Criteria>) returns (k: nat)
    requires FirstOf(planes, available, attempts).Some?
    ensures k < |attempts| && FirstOf(planes, available, attempts) == FirstFit(planes, available, attempts[k], 0)
    ensures Qualifies(planes[FirstOf(planes, available, attempts).value], attempts[k])
    ensures forall l :: 0 <= l < k ==> FirstFit(planes, available, attempts[l], 0).None?
  {
    if FirstFit(planes, available, attempts[0], 0).Some? {
      k := 0;
    } else {
      k := FoundByAttempt(planes, available, attempts[1..]);
      forall l | 0 <= l < k + 1 ensures FirstFit(planes, available, attempts[l], 0).None? {
        assert l > 0 ==> attempts[l] == attempts[1..][l - 1];
      }
      k := k + 1;
    }
  }

  // Pushing a layer.

  const EIO := 5
  const ENOMEM := 12
  const EOPNOTSUPP := 95

  /** The lowest zpos that is above all earlier layers and not below the plane's range. */
  function ZposFor(plane: Plane, nextZpos: int): Option<int> {
    if plane.zpos.None? then None
    else Some(if plane.zpos.value.min > nextZpos then plane.zpos.value.min else nextZpos)
  }

  function Target(plane: Plane, crtc: Crtc, layer: Layer): seq<Prop> {
    [Prop(plane.id, CrtcId, Number(crtc.id)), Prop(plane.id, FbId, Number(layer.fb))]
  }

  function TargetSize(plane: Plane, layer: Layer): seq<Prop> {
    [Prop(plane.id, CrtcX, Number(layer.dst.x)), Prop(plane.id, CrtcY, Number(layer.dst.y)),
     Prop(plane.id, CrtcW, Number(layer.dst.w)), Prop(plane.id, CrtcH, Number(layer.dst.h))]
  }

  function Source(plane: Plane, layer: Layer): seq<Prop> {
    [Prop(plane.id, SrcX, Number(layer.src.x)), Prop(plane.id, SrcY, Number(layer.src.y)),
     Prop(plane.id, SrcW, Number(layer.src.w)), Prop(plane.id, SrcH, Number(layer.src.h))]
  }

  function Geometry(plane: Plane, crtc: Crtc, layer: Layer): seq<Prop> {
    Target(plane, crtc, layer) + TargetSize(plane, layer) + Source(plane, layer)
  }

  function Placement(plane: Plane, layer: Layer, zpos: Option<int>): seq<Prop> {
    (if zpos.Some? && plane.zpos.Some? && !plane.zpos.value.hardcoded
     then [Prop(plane.id, ZposProp, Number(zpos.value))] else [])
    + (if layer.rotation.Some? && CanRotate(plane, layer.rotation.value) && plane.rotation.value.hardcoded.None?
       then [Prop(plane.id, RotationProp, Turned(layer.rotation.value))] else [])
  }

  function Blending(plane: Plane, layer: Layer, first: bool): seq<Prop> {
    var mode := if first then BlendNone else Premultiplied;
    (if plane.alpha.Some? then [Prop(plane.id, AlphaProp, Number(plane.alpha.value))] else [])
    + (if plane.blend.Some? && mode in plane.blend.value then [Prop(plane.id, BlendProp, Blended(mode))] else [])
    + (if layer.inFence.Some? then [Prop(plane.id, InFenceFd, Number(layer.inFence.value))] else [])
  }

  function LayerProps(plane: Plane, crtc: Crtc, layer: Layer, zpos: Option<int>, first: bool): seq<Prop> {
    Geometry(plane, crtc, layer) + Placement(plane, layer, zpos) + Blending(plane, layer, first)
  }

  /** Zero and the request with the layer, or an error and the request as it was. */
  datatype Outcome = Outcome(code: int, st: Request)

  predicate Consistent(planes: seq<Plane>, st: Request) {
    && (forall i | i in st.available :: i < |planes|)
    && (forall k :: 0 <= k < |st.layers| ==> st.layers[k].plane < |planes|)
  }

  /** `limit` is how many properties a request can hold before its allocation fails. */
  function Push(planes: seq<Plane>, crtc: Crtc, limit: nat, st: Request, layer: Layer): Outcome
    requires Consistent(planes, st)
  {
    var found := FirstOf(planes, st.available, Attempts(planes, st, layer));
    if found.None? then Outcome(EIO, st)
    else
      var plane := planes[found.value];
      var zpos := ZposFor(plane, st.nextZpos);
      var props := LayerProps(plane, crtc, layer, zpos, st.layers == []);
      if layer.inFence.Some? && !plane.inFence then Outcome(EOPNOTSUPP, st)
      else if |st.props| + |props| > limit then Outcome(ENOMEM, st)
      else
        Outcome(0, Request(st.available - {found.value},
                           st.layers + [Pushed(layer, found.value, zpos)],
                           if zpos.Some? then zpos.value + 1 else st.nextZpos,
                           st.props + props))
  }

  /** A zpos for something that is not a plane of ours. */
  function PushPlaceholder(st: Request): (r: (Request, int)) {
    (st.(nextZpos := st.nextZpos + 1), st.nextZpos)
  }

  /** The lowest zpos of the first `n` planes that are usable. */
  function MinZpos(planes: seq<Plane>, crtc: Crtc, n: nat): (z: int)
    requires n <= |planes|
    ensures z <= INT64_MAX
    ensures forall i :: 0 <= i < n && crtc.index in planes[i].crtcs && planes[i].zpos.Some? ==> z <= planes[i].zpos.value.min
  {
    if n == 0 then INT64_MAX
    else
      var z := MinZpos(planes, crtc, n - 1);
      if crtc.index in planes[n - 1].crtcs && planes[n - 1].zpos.Some? && planes[n - 1].zpos.value.min < z
      then planes[n - 1].zpos.value.min else z
  }

  ghost function NewRequest(planes: seq<Plane>, crtc: Crtc): Request {
    Request(Usable(planes, crtc), [], MinZpos(planes, crtc, |planes|), [])
  }

  // What every request keeps.

  ghost function Allocated(layers: seq<Pushed>): set<nat> {
    set k | 0 <= k < |layers| :: layers[k].plane
  }

  /** Available and allocated planes partition the usable ones, and no plane is used twice. */
  ghost predicate Partitioned(planes: seq<Plane>, crtc: Crtc, st: Request) {
    && st.available !! Allocated(st.layers)
    && st.available + Allocated(st.layers) == Usable(planes, crtc)
    && (forall j, k :: 0 <= j < k < |st.layers| ==> st.layers[j].plane != st.layers[k].plane)
    && |st.available| + |st.layers| == |Usable(planes, crtc)|
  }

  ghost predicate ZposIncreases(st: Request) {
    && (forall k :: 0 <= k < |st.layers| && st.layers[k].zpos.Some? ==> st.layers[k].zpos.value < st.nextZpos)
    && (forall j, k :: 0 <= j < k < |st.layers| && st.layers[j].zpos.Some? && st.layers[k].zpos.Some? ==>
          st.layers[j].zpos.value < st.layers[k].zpos.value)
  }

  /** The zpos of layer `k` is within its plane's range and above every earlier layer's. */
  ghost predicate HigherZpos(planes: seq<Plane>, layers: seq<Pushed>, k: nat)
    requires k < |layers| && layers[k].plane < |planes|
  {
    var z, plane := layers[k].zpos, planes[layers[k].plane];
    && z.Some? && plane.zpos.Some? && plane.zpos.value.min <= z.value <= plane.zpos.value.max
    && forall j :: 0 <= j < k && layers[j].zpos.Some? ==> layers[j].zpos.value < z.value
  }

  /** How a layer above the first is stacked over the layers below it. */
  ghost predicate Stacked(planes: seq<Plane>, layers: seq<Pushed>, k: nat)
    requires 0 < k < |layers| && layers[k].plane < |planes| && layers[k - 1].plane < |planes|
  {
    || planes[layers[k].plane].kind == Cursor
    || HigherZpos(planes, layers, k)
    || planes[layers[k].plane].id > planes[layers[k - 1].plane].id
  }

  ghost predicate Inv(planes: seq<Plane>, crtc: Crtc, st: Request) {
    && Consistent(planes, st)
    && Partitioned(planes, crtc, st)
    && ZposIncreases(st)
    && (forall k :: 0 < k < |st.layers| ==> Stacked(planes, st.layers, k))
  }

  lemma NewRequestInv(planes: seq<Plane>, crtc: Crtc)
    ensures Inv(planes, crtc, NewRequest(planes, crtc))
  {
  }

  /** A cursor plane, or an overlay with room at `nextZpos`, or one with a higher id. */
  lemma UpperLayerQualifies(planes: seq<Plane>, st: Request, layer: Layer)
    requires Consistent(planes, st) && st.layers != []
    requires FirstOf(planes, st.available, Attempts(planes, st, layer)).Some?
    ensures var plane := planes[FirstOf(planes, st.available, Attempts(planes, st, layer)).value];
            || plane.kind == Cursor
            || (plane.zpos.Some? && st.nextZpos <= plane.zpos.value.max)
            || plane.id > planes[st.layers[|st.layers| - 1].plane].id
  {
    hide FirstOf, CanRotate, Attempts;
    var k := FoundByAttempt(planes, st.available, Attempts(planes, st, layer));
    UpperAttempts(planes, st, layer);
    var c := Attempts(planes, st, layer)[k];
  }

  lemma UpperAttempts(planes: seq<Plane>, st: Request, layer: Layer)
    requires Consistent(planes, st) && st.layers != []
    ensures forall k :: 0 <= k < |Attempts(planes, st, layer)| ==>
              var c := Attempts(planes, st, layer)[k];
              || c.allowed == {Cursor}
              || c.zpos == Some(Range(st.nextZpos, INT64_MAX))
              || c.idFrom == Some(planes[st.layers[|st.layers| - 1].plane].id + 1)
  {
    hide FirstOf, CanRotate, PrimaryFormats, Qualifies;
  }

  lemma AllocatedSnoc(layers: seq<Pushed>, p: Pushed)
    ensures Allocated(layers + [p]) == Allocated(layers) + {p.plane}
  {
    var r := layers + [p];
    assert r[|layers|] == p;
    forall k | 0 <= k < |layers| ensures layers[k].plane in Allocated(r) {
      assert r[k] == layers[k];
    }
  }

  lemma MoveElement(a: set<nat>, b: set<nat>, all: set<nat>, x: nat)
    requires a !! b && a + b == all && x in a
    ensures (a - {x}) !! (b + {x}) && (a - {x}) + (b + {x}) == all && |a - {x}| == |a| - 1
  {
  }

  lemma LayerIsAllocated(layers: seq<Pushed>, k: nat)
    requires k < |layers|
    ensures layers[k].plane in Allocated(layers)
  {
  }

  lemma TakePartitions(planes: seq<Plane>, crtc: Crtc, st: Request, r: Request, p: Pushed)
    requires Partitioned(planes, crtc, st) && p.plane in st.available
    requires r.available == st.available - {p.plane} && r.layers == st.layers + [p]
    ensures Partitioned(planes, crtc, r)
  {
    hide Usable, Allocated;
    AllocatedSnoc(st.layers, p);
    MoveElement(st.available, Allocated(st.layers), Usable(planes, crtc), p.plane);
    forall j, k | 0 <= j < k < |r.layers| ensures r.layers[j].plane != r.layers[k].plane {
      LayerIsAllocated(st.layers, j);
    }
  }

  /** The shape of a request after a push. */
  lemma PushShape(planes: seq<Plane>, crtc: Crtc, limit: nat, st: Request, layer: Layer)
    requires Consistent(planes, st)
    ensures var o := Push(planes, crtc, limit, st, layer);
            if o.code != 0 then o.st == st
            else
              var found := FirstOf(planes, st.available, Attempts(planes, st, layer));
              && found.Some?
              && var p := Pushed(layer, found.value, ZposFor(planes[found.value], st.nextZpos));
              && o.st.available == st.available - {p.plane} && o.st.layers == st.layers + [p]
              && o.st.nextZpos == (if p.zpos.Some? then p.zpos.value + 1 else st.nextZpos)
              && o.st.props == st.props + LayerProps(planes[p.plane], crtc, layer, p.zpos, st.layers == [])
              && |o.st.props| <= limit && (layer.inFence.Some? ==> planes[p.plane].inFence)
  {
    hide FirstOf, Attempts, LayerProps, ZposFor;
  }

  lemma PushPartitions(planes: seq<Plane>, crtc: Crtc, limit: nat, st: Request, layer: Layer)
    requires Inv(planes, crtc, st)
    ensures Partitioned(planes, crtc, Push(planes, crtc, limit, st, layer).st)
  {
    hide FirstOf, Attempts, LayerProps, ZposFor, Stacked, Push, Partitioned;
    PushShape(planes, crtc, limit, st, layer);
    var o := Push(planes, crtc, limit, st, layer);
    if o.code == 0 {
      TakePartitions(planes, crtc, st, o.st, o.st.layers[|st.layers|]);
    }
  }

  lemma PushStacks(planes: seq<Plane>, crtc: Crtc, limit: nat, st: Request, layer: Layer)
    requires ValidPlanes(planes) && Inv(planes, crtc, st)
    ensures var r := Push(planes, crtc, limit, st, layer).st;
            && Consistent(planes, r) && ZposIncreases(r)
            && forall k :: 0 < k < |r.layers| ==> Stacked(planes, r.layers, k)
  {
    hide FirstOf, Attempts, LayerProps, Allocated, Push, Partitioned;
    PushShape(planes, crtc, limit, st, layer);
    var o, n := Push(planes, crtc, limit, st, layer), |st.layers|;
    if o.code == 0 && n > 0 {
      UpperLayerQualifies(planes, st, layer);
      forall k | 0 < k < |o.st.layers| ensures Stacked(planes, o.st.layers, k) {
        if k < n {
          assert Stacked(planes, st.layers, k);
          StackedPrefix(planes, st.layers, o.st.layers[n], k);
        }
      }
    }
  }

  lemma StackedPrefix(planes: seq<Plane>, layers: seq<Pushed>, p: Pushed, k: nat)
    requires 0 < k < |layers| && layers[k].plane < |planes| && layers[k - 1].plane < |planes|
    requires Stacked(planes, layers, k)
    ensures Stacked(planes, layers + [p], k)
  {
  }

  lemma PushKeepsInv(planes: seq<Plane>, crtc: Crtc, limit: nat, st: Request, layer: Layer)
    requires ValidPlanes(planes) && Inv(planes, crtc, st)
    ensures Inv(planes, crtc, Push(planes, crtc, limit, st, layer).st)
  {
    hide Push, Stacked, Consistent, Partitioned;
    PushPartitions(planes, crtc, limit, st, layer);
    PushStacks(planes, crtc, limit, st, layer);
  }

  /** Every attempt asks for the layer's rotation, if the layer insists on it. */
  lemma AttemptsKeepRotation(planes: seq<Plane>, st: Request, layer: Layer, k: nat)
    requires st.layers != [] ==> st.layers[|st.layers| - 1].plane < |planes|
    requires k < |Attempts(planes, st, layer)|
    ensures var c := Attempts(planes, st, layer)[k];
            && (!MayDropRotation(layer) ==> c.rotation == layer.rotation)
            && c.modifier == layer.modifier
            && (c.format == layer.format.code
                || (st.layers == [] && !layer.format.isOpaque && c.format == layer.format.opaqueCode))
  {
  }

  predicate Shows(plane: Plane, format: nat, modifier: Option<nat>) {
    if modifier.Some? then plane.modified.Some? && (format, modifier.value) in plane.modified.value
    else format in plane.formats
  }

  /**
   * A pushed layer got a plane that can show it: the format with its modifier, or for the
   * bottom layer its opaque twin, and the rotation when it is enforced. The request then
   * turns the plane, unless the plane is turned that way for good.
   */
  lemma PushedLayerIsShowable(planes: seq<Plane>, crtc: Crtc, limit: nat, st: Request, layer: Layer)
    requires Consistent(planes, st) && Push(planes, crtc, limit, st, layer).code == 0
    ensures var r := Push(planes, crtc, limit, st, layer).st;
            |r.layers| == |st.layers| + 1 && r.layers[|st.layers|].plane in st.available
    ensures var r := Push(planes, crtc, limit, st, layer).st;
            var plane := planes[r.layers[|st.layers|].plane];
            && (Shows(plane, layer.format.code, layer.modifier)
                || (st.layers == [] && !layer.format.isOpaque && Shows(plane, layer.format.opaqueCode, layer.modifier)))
            && (layer.rotation.Some? && layer.enforceRotation ==>
                  && CanRotate(plane, layer.rotation.value)
                  && (plane.rotation.value.hardcoded == Some(layer.rotation.value)
                      || Prop(plane.id, RotationProp, Turned(layer.rotation.value)) in r.props))
            && (layer.inFence.Some? ==>
                  plane.inFence && Prop(plane.id, InFenceFd, Number(layer.inFence.value)) in r.props)
  {
    hide FirstOf, Attempts, CanRotate, Push;
    PushShape(planes, crtc, limit, st, layer);
    var k := FoundByAttempt(planes, st.available, Attempts(planes, st, layer));
    AttemptsKeepRotation(planes, st, layer, k);
    var r := Push(planes, crtc, limit, st, layer).st;
    var p := r.layers[|st.layers|];
    PropsOf(planes[p.plane], crtc, layer, p.zpos, st.layers == []);
  }

  lemma PropsOf(plane: Plane, crtc: Crtc, layer: Layer, zpos: Option<int>, first: bool)
    ensures var props := LayerProps(plane, crtc, layer, zpos, first);
            && (layer.rotation.Some? && CanRotate(plane, layer.rotation.value) ==>
                  plane.rotation.value.hardcoded == Some(layer.rotation.value)
                  || Prop(plane.id, RotationProp, Turned(layer.rotation.value)) in props)
            && (layer.inFence.Some? ==> Prop(plane.id, InFenceFd, Number(layer.inFence.value)) in props)
  {
    hide Geometry;
    var turned, fence := Placement(plane, layer, zpos), Blending(plane, layer, first);
    if layer.inFence.Some? {
      assert fence[|fence| - 1] == Prop(plane.id, InFenceFd, Number(layer.inFence.value));
    }
    if layer.rotation.Some? && CanRotate(plane, layer.rotation.value) && plane.rotation.value.hardcoded.None? {
      assert turned[|turned| - 1] == Prop(plane.id, RotationProp, Turned(layer.rotation.value));
    }
  }

  // Sequences of pushes.

  datatype Op = PushLayer(layer: Layer) | PushZpos

  ghost function Run(planes: seq<Plane>, crtc: Crtc, limit: nat, ops: seq<Op>): (st: Request)
    ensures Consistent(planes, st)
  {
    if ops == [] then NewRequest(planes, crtc)
    else
      var st := Run(planes, crtc, limit, ops[..|ops| - 1]);
      if ops[|ops| - 1].PushZpos? then PushPlaceholder(st).0
      else
        PushShape(planes, crtc, limit, st, ops[|ops| - 1].layer);
        Push(planes, crtc, limit, st, ops[|ops| - 1].layer).st
  }

  /** Every zpos that was handed out, to layers and placeholders, in order. */
  ghost function ZposLog(planes: seq<Plane>, crtc: Crtc, limit: nat, ops: seq<Op>): seq<int> {
    if ops == [] then []
    else
      var log := ZposLog(planes, crtc, limit, ops[..|ops| - 1]);
      var st := Run(planes, crtc, limit, ops[..|ops| - 1]);
      if ops[|ops| - 1].PushZpos? then log + [PushPlaceholder(st).1]
      else
        var r := Push(planes, crtc, limit, st, ops[|ops| - 1].layer);
        if r.code == 0 && r.st.layers != [] && r.st.layers[|r.st.layers| - 1].zpos.Some?
        then log + [r.st.layers[|r.st.layers| - 1].zpos.value]
        else log
  }

  ghost predicate Increasing(log: seq<int>, bound: int) {
    && (forall k :: 0 <= k < |log| ==> log[k] < bound)
    && (forall j, k :: 0 <= j < k < |log| ==> log[j] < log[k])
  }

  /** The invariants hold after any sequence of pushes, and no zpos is handed out twice. */
  lemma {:induction false} RunsKeepInv(planes: seq<Plane>, crtc: Crtc, limit: nat, ops: seq<Op>)
    requires ValidPlanes(planes)
    ensures Inv(planes, crtc, Run(planes, crtc, limit, ops))
    ensures Increasing(ZposLog(planes, crtc, limit, ops), Run(planes, crtc, limit, ops).nextZpos)
  {
    hide Push, LayerProps, NewRequest, Attempts, FirstOf, Inv;
    if ops == [] {
      NewRequestInv(planes, crtc);
    } else {
      hide Increasing;
      var st, op := Run(planes, crtc, limit, ops[..|ops| - 1]), ops[|ops| - 1];
      RunsKeepInv(planes, crtc, limit, ops[..|ops| - 1]);
      if op.PushLayer? {
        PushKeepsInv(planes, crtc, limit, st, op.layer);
        PushShape(planes, crtc, limit, st, op.layer);
      } else {
        PlaceholderKeepsInv(planes, crtc, st);
      }
      forall z | z >= st.nextZpos
        ensures Increasing(ZposLog(planes, crtc, limit, ops[..|ops| - 1]) + [z], z + 1)
      {
        IncreasingSnoc(ZposLog(planes, crtc, limit, ops[..|ops| - 1]), st.nextZpos, z);
      }
    }
  }

  lemma IncreasingSnoc(log: seq<int>, bound: int, z: int)
    requires Increasing(log, bound) && z >= bound
    ensures Increasing(log + [z], z + 1)
  {
  }

  lemma PlaceholderKeepsInv(planes: seq<Plane>, crtc: Crtc, st: Request)
    requires Inv(planes, crtc, st)
    ensures Inv(planes, crtc, PushPlaceholder(st).0)
  {
    hide Stacked;
  }
}
