/**
 * Atomic commits and the shadow of the kernel's plane state.
 *
 * A commit also disables the planes that the request does not use and that the shadow says
 * are active on its CRTC. The kernel applies a request completely or not at all.
 */
module KmsCommit {
  import opened Options
  import opened KmsPlanes
  import opened KmsBuilder

  /** What a plane shows and how: the part of the buffer, the place on the screen, the stacking. */
  datatype View = View(dst: Rect, src: Rect, zpos: int, rotation: set<Transform>, alpha: int, blend: Blend)

  /** Zero stands for no CRTC and no framebuffer. */
  datatype PlaneState = PlaneState(crtc: int, fb: int, view: View)

  predicate Active(s: PlaneState) { s.fb != 0 && s.crtc != 0 }

  predicate ActiveOn(s: PlaneState, crtc: int) { Active(s) && s.crtc == crtc }

  // What the kernel makes of a request.

  /** The last value a request sets for a property of a plane. */
  function LastValue(props: seq<Prop>, plane: nat, name: PropName): Option<PropValue> {
    if props == [] then None
    else
      var p := props[|props| - 1];
      if p.plane == plane && p.name == name then Some(p.value) else LastValue(props[..|props| - 1], plane, name)
  }

  function NumberOr(v: Option<PropValue>, n: int): int {
    if v.Some? && v.value.Number? then v.value.n else n
  }

  function TurnedOr(v: Option<PropValue>, t: set<Transform>): set<Transform> {
    if v.Some? && v.value.Turned? then v.value.t else t
  }

  function BlendedOr(v: Option<PropValue>, b: Blend): Blend {
    if v.Some? && v.value.Blended? then v.value.b else b
  }

  function AppliedView(v: View, props: seq<Prop>, plane: nat): View {
    View(Rect(NumberOr(LastValue(props, plane, CrtcX), v.dst.x), NumberOr(LastValue(props, plane, CrtcY), v.dst.y),
              NumberOr(LastValue(props, plane, CrtcW), v.dst.w), NumberOr(LastValue(props, plane, CrtcH), v.dst.h)),
         Rect(NumberOr(LastValue(props, plane, SrcX), v.src.x), NumberOr(LastValue(props, plane, SrcY), v.src.y),
              NumberOr(LastValue(props, plane, SrcW), v.src.w), NumberOr(LastValue(props, plane, SrcH), v.src.h)),
         NumberOr(LastValue(props, plane, ZposProp), v.zpos),
         TurnedOr(LastValue(props, plane, RotationProp), v.rotation),
         NumberOr(LastValue(props, plane, AlphaProp), v.alpha),
         BlendedOr(LastValue(props, plane, BlendProp), v.blend))
  }

  /** Properties that the request does not set keep their values. */
  function Applied(s: PlaneState, props: seq<Prop>, plane: nat): PlaneState {
    PlaneState(NumberOr(LastValue(props, plane, CrtcId), s.crtc), NumberOr(LastValue(props, plane, FbId), s.fb),
               AppliedView(s.view, props, plane))
  }

  lemma {:induction false} LastValueConcat(a: seq<Prop>, b: seq<Prop>, plane: nat, name: PropName)
    ensures LastValue(a + b, plane, name)
            == if LastValue(b, plane, name).Some? then LastValue(b, plane, name) else LastValue(a, plane, name)
  {
    if b == [] {
      assert a + b == a;
    } else {
      assert (a + b)[..|a + b| - 1] == a + b[..|b| - 1];
      LastValueConcat(a, b[..|b| - 1], plane, name);
    }
  }

  /** The value that property `name` of the plane must get for the layer; none if it is to be left alone. */
  function Wanted(plane: Plane, crtc: Crtc, p: Pushed, bottom: bool, name: PropName): Option<PropValue> {
    match name
    case CrtcId => Some(Number(crtc.id))
    case FbId => Some(Number(p.layer.fb))
    case CrtcX => Some(Number(p.layer.dst.x))
    case CrtcY => Some(Number(p.layer.dst.y))
    case CrtcW => Some(Number(p.layer.dst.w))
    case CrtcH => Some(Number(p.layer.dst.h))
    case SrcX => Some(Number(p.layer.src.x))
    case SrcY => Some(Number(p.layer.src.y))
    case SrcW => Some(Number(p.layer.src.w))
    case SrcH => Some(Number(p.layer.src.h))
    case ZposProp =>
      if plane.zpos.Some? && !plane.zpos.value.hardcoded && p.zpos.Some? then Some(Number(p.zpos.value)) else None
    case RotationProp =>
      if p.layer.rotation.Some? && CanRotate(plane, p.layer.rotation.value) && plane.rotation.value.hardcoded == None
      then Some(Turned(p.layer.rotation.value)) else None
    case AlphaProp => if plane.alpha.Some? then Some(Number(plane.alpha.value)) else None
    case BlendProp =>
      if plane.blend.None? then None
      else if bottom && BlendNone in plane.blend.value then Some(Blended(BlendNone))
      else if !bottom && Premultiplied in plane.blend.value then Some(Blended(Premultiplied))
      else None
    case InFenceFd => if p.layer.inFence.Some? then Some(Number(p.layer.inFence.value)) else None
  }

  /** The request sets exactly the properties the layer wants on the plane. */
  ghost predicate SetFor(props: seq<Prop>, plane: Plane, crtc: Crtc, p: Pushed, bottom: bool) {
    forall name :: LastValue(props, plane.id, name) == Wanted(plane, crtc, p, bottom, name)
  }

  lemma ListOfTwo(a: Prop, b: Prop, id: nat, name: PropName)
    ensures LastValue([a, b], id, name) == if b.plane == id && b.name == name then Some(b.value)
                                           else if a.plane == id && a.name == name then Some(a.value) else None
  {
    assert [a, b][..1] == [a];
    assert [a][..0] == [] && LastValue([], id, name) == None;
    assert LastValue([a], id, name) == if a.plane == id && a.name == name then Some(a.value) else None;
  }

  lemma ListOfFour(a: Prop, b: Prop, c: Prop, d: Prop, id: nat, name: PropName)
    ensures LastValue([a, b, c, d], id, name) ==
            if LastValue([c, d], id, name).Some? then LastValue([c, d], id, name) else LastValue([a, b], id, name)
  {
    assert [a, b, c, d] == [a, b] + [c, d];
    LastValueConcat([a, b], [c, d], id, name);
  }

  lemma Optional(on: bool, p: Prop, id: nat, name: PropName)
    ensures LastValue(if on then [p] else [], id, name) ==
            if on && p.plane == id && p.name == name then Some(p.value) else None
  {
    assert [p][..0] == [];
  }

  lemma GeometryValues(plane: Plane, crtc: Crtc, p: Pushed, bottom: bool, id: nat, name: PropName)
    ensures LastValue(Geometry(plane, crtc, p.layer), id, name) ==
            if id == plane.id && name in {CrtcId, FbId, CrtcX, CrtcY, CrtcW, CrtcH, SrcX, SrcY, SrcW, SrcH}
            then Wanted(plane, crtc, p, bottom, name) else None
  {
    hide LastValue;
    var a, b, c := Target(plane, crtc, p.layer), TargetSize(plane, p.layer), Source(plane, p.layer);
    LastValueConcat(a + b, c, id, name);
    LastValueConcat(a, b, id, name);
    ListOfTwo(a[0], a[1], id, name);
    ListOfTwo(b[0], b[1], id, name);
    ListOfTwo(b[2], b[3], id, name);
    ListOfFour(b[0], b[1], b[2], b[3], id, name);
    ListOfTwo(c[0], c[1], id, name);
    ListOfTwo(c[2], c[3], id, name);
    ListOfFour(c[0], c[1], c[2], c[3], id, name);
  }

  lemma PlacementValues(plane: Plane, crtc: Crtc, p: Pushed, bottom: bool, id: nat, name: PropName)
    ensures LastValue(Placement(plane, p.layer, p.zpos), id, name) ==
            if id == plane.id && name in {ZposProp, RotationProp} then Wanted(plane, crtc, p, bottom, name) else None
  {
    hide LastValue;
    var z := p.zpos.Some? && plane.zpos.Some? && !plane.zpos.value.hardcoded;
    var r := p.layer.rotation.Some? && CanRotate(plane, p.layer.rotation.value) && plane.rotation.value.hardcoded.None?;
    var zp := Prop(plane.id, ZposProp, Number(if p.zpos.Some? then p.zpos.value else 0));
    var rp := Prop(plane.id, RotationProp, Turned(if p.layer.rotation.Some? then p.layer.rotation.value else {}));
    Optional(z, zp, id, name);
    Optional(r, rp, id, name);
    LastValueConcat(if z then [zp] else [], if r then [rp] else [], id, name);
    assert Placement(plane, p.layer, p.zpos) == (if z then [zp] else []) + (if r then [rp] else []);
  }

  lemma BlendingValues(plane: Plane, crtc: Crtc, p: Pushed, bottom: bool, id: nat, name: PropName)
    ensures LastValue(Blending(plane, p.layer, bottom), id, name) ==
            if id == plane.id && name in {AlphaProp, BlendProp, InFenceFd} then Wanted(plane, crtc, p, bottom, name) else None
  {
    hide LastValue;
    var mode := if bottom then BlendNone else Premultiplied;
    var a, b, f := plane.alpha.Some?, plane.blend.Some? && mode in plane.blend.value, p.layer.inFence.Some?;
    var ap := Prop(plane.id, AlphaProp, Number(if a then plane.alpha.value else 0));
    var bp := Prop(plane.id, BlendProp, Blended(mode));
    var fp := Prop(plane.id, InFenceFd, Number(if f then p.layer.inFence.value else 0));
    Optional(a, ap, id, name);
    Optional(b, bp, id, name);
    Optional(f, fp, id, name);
    LastValueConcat((if a then [ap] else []) + (if b then [bp] else []), if f then [fp] else [], id, name);
    LastValueConcat(if a then [ap] else [], if b then [bp] else [], id, name);
    assert Blending(plane, p.layer, bottom) == (if a then [ap] else []) + (if b then [bp] else []) + (if f then [fp] else []);
  }

  /** A layer's properties are what it wants of its plane, and touch no other plane. */
  lemma LayerPropsApplied(plane: Plane, crtc: Crtc, p: Pushed, bottom: bool, id: nat, name: PropName)
    ensures LastValue(LayerProps(plane, crtc, p.layer, p.zpos, bottom), id, name) ==
            if id == plane.id then Wanted(plane, crtc, p, bottom, name) else None
  {
    hide LastValue, Geometry, Placement, Blending, Wanted;
    var a, b, c := Geometry(plane, crtc, p.layer), Placement(plane, p.layer, p.zpos), Blending(plane, p.layer, bottom);
    LastValueConcat(a + b, c, id, name);
    LastValueConcat(a, b, id, name);
    GeometryValues(plane, crtc, p, bottom, id, name);
    PlacementValues(plane, crtc, p, bottom, id, name);
    BlendingValues(plane, crtc, p, bottom, id, name);
  }

  /** The commit only looks at the first 32 planes. */
  const DISABLE_LIMIT := 32

  /** Planes that the commit cannot switch off: not of this request, and out of its reach. */
  predicate OutOfReach(planes: seq<Plane>, crtc: Crtc, i: nat)
    requires i < |planes|
  {
    i >= DISABLE_LIMIT || crtc.index !in planes[i].crtcs
  }

  ghost predicate Untouched(props: seq<Prop>, id: nat) { forall name :: LastValue(props, id, name) == None }

  /** A plane the request does not show is left alone or switched off. */
  ghost predicate OffOrUntouched(props: seq<Prop>, id: nat) {
    || Untouched(props, id)
    || forall name :: LastValue(props, id, name) == if name == CrtcId || name == FbId then Some(Number(0)) else None
  }

  /** What the properties of a request amount to. */
  ghost predicate Describes(planes: seq<Plane>, crtc: Crtc, st: Request) {
    && Consistent(planes, st)
    && (forall k :: 0 <= k < |st.layers| ==> SetFor(st.props, planes[st.layers[k].plane], crtc, st.layers[k], k == 0))
    && (forall i | 0 <= i < |planes| && i !in Allocated(st.layers) :: OffOrUntouched(st.props, planes[i].id))
    && (forall i | 0 <= i < |planes| && i !in Allocated(st.layers) && OutOfReach(planes, crtc, i) ::
          Untouched(st.props, planes[i].id))
  }

  /** The two property lists say the same of plane `id`. */
  ghost predicate SameFor(props: seq<Prop>, props': seq<Prop>, id: nat) {
    forall name :: LastValue(props, id, name) == LastValue(props', id, name)
  }

  lemma PropsAppended(planes: seq<Plane>, crtc: Crtc, st: Request, props: seq<Prop>, p: Pushed, i: nat)
    requires ValidPlanes(planes) && p.plane < |planes| && i < |planes|
    requires props == st.props + LayerProps(planes[p.plane], crtc, p.layer, p.zpos, st.layers == [])
    requires i == p.plane ==> OffOrUntouched(st.props, planes[i].id)
    ensures i == p.plane ==> SetFor(props, planes[i], crtc, p, st.layers == [])
    ensures i != p.plane ==> SameFor(st.props, props, planes[i].id)
  {
    hide LayerProps, LastValue;
    var more := LayerProps(planes[p.plane], crtc, p.layer, p.zpos, st.layers == []);
    forall name
      ensures LastValue(props, planes[i].id, name) ==
              if LastValue(more, planes[i].id, name).Some? then LastValue(more, planes[i].id, name)
              else LastValue(st.props, planes[i].id, name)
      ensures LastValue(more, planes[i].id, name) ==
              if i == p.plane then Wanted(planes[i], crtc, p, st.layers == [], name) else None
    {
      LayerPropsApplied(planes[p.plane], crtc, p, st.layers == [], planes[i].id, name);
      LastValueConcat(st.props, more, planes[i].id, name);
    }
  }

  lemma NewPlaneIsNew(planes: seq<Plane>, crtc: Crtc, st: Request, k: nat, i: nat)
    requires Partitioned(planes, crtc, st) && i in st.available && k < |st.layers|
    ensures st.layers[k].plane != i
  {
    LayerIsAllocated(st.layers, k);
  }

  lemma PushDescribes(planes: seq<Plane>, crtc: Crtc, limit: nat, st: Request, layer: Layer)
    requires ValidPlanes(planes) && Inv(planes, crtc, st) && Describes(planes, crtc, st)
    ensures Describes(planes, crtc, Push(planes, crtc, limit, st, layer).st)
  {
    hide FirstOf, Attempts, LayerProps, Push, Allocated, Stacked, Partitioned, SetFor, OffOrUntouched, Untouched;
    PushShape(planes, crtc, limit, st, layer);
    var o := Push(planes, crtc, limit, st, layer);
    if o.code == 0 {
      var p := o.st.layers[|st.layers|];
      AllocatedSnoc(st.layers, p);
      assert p.plane !in Allocated(st.layers) by { AvailableIsFree(planes, crtc, st, p.plane); }
      forall i | 0 <= i < |planes|
        ensures i == p.plane ==> SetFor(o.st.props, planes[i], crtc, p, st.layers == [])
        ensures i != p.plane ==> SameFor(st.props, o.st.props, planes[i].id)
      {
        PropsAppended(planes, crtc, st, o.st.props, p, i);
      }
      forall k | 0 <= k < |o.st.layers|
        ensures SetFor(o.st.props, planes[o.st.layers[k].plane], crtc, o.st.layers[k], k == 0)
      {
        if k < |st.layers| {
          NewPlaneIsNew(planes, crtc, st, k, p.plane);
          SameSet(st.props, o.st.props, planes[st.layers[k].plane], crtc, st.layers[k], k == 0);
        }
      }
      forall i | 0 <= i < |planes| && i != p.plane
        ensures OffOrUntouched(st.props, planes[i].id) <==> OffOrUntouched(o.st.props, planes[i].id)
        ensures Untouched(st.props, planes[i].id) <==> Untouched(o.st.props, planes[i].id)
      {
        SameOff(st.props, o.st.props, planes[i].id);
      }
    }
  }

  lemma AvailableIsFree(planes: seq<Plane>, crtc: Crtc, st: Request, i: nat)
    requires Partitioned(planes, crtc, st) && i in st.available
    ensures i !in Allocated(st.layers)
  {
  }

  lemma SameSet(props: seq<Prop>, props': seq<Prop>, plane: Plane, crtc: Crtc, p: Pushed, bottom: bool)
    requires SetFor(props, plane, crtc, p, bottom) && SameFor(props, props', plane.id)
    ensures SetFor(props', plane, crtc, p, bottom)
  {
  }

  lemma SameOff(props: seq<Prop>, props': seq<Prop>, id: nat)
    requires SameFor(props, props', id)
    ensures OffOrUntouched(props, id) <==> OffOrUntouched(props', id)
    ensures Untouched(props, id) <==> Untouched(props', id)
  {
  }

  // Committing.

  /** The states of all planes, as the kernel has them and as the device remembers them. */
  datatype PlaneStates = PlaneStates(kernel: seq<PlaneState>, shadow: seq<PlaneState>)

  predicate ToDisable(crtc: Crtc, available: set<nat>, shadow: seq<PlaneState>, i: nat)
    requires i < |shadow|
  {
    i in available && ActiveOn(shadow[i], crtc.id)
  }

  function Off(id: nat): seq<Prop> { [Prop(id, CrtcId, Number(0)), Prop(id, FbId, Number(0))] }

  /** The properties that disable, among the first `n` planes, those the request does not use. */
  function Disables(planes: seq<Plane>, crtc: Crtc, available: set<nat>, shadow: seq<PlaneState>, n: nat): seq<Prop>
    requires n <= |planes| == |shadow|
  {
    if n == 0 then []
    else if ToDisable(crtc, available, shadow, n - 1) then
      Disables(planes, crtc, available, shadow, n - 1) + Off(planes[n - 1].id)
    else Disables(planes, crtc, available, shadow, n - 1)
  }

  function DisableCount(planes: seq<Plane>): nat {
    if |planes| < DISABLE_LIMIT then |planes| else DISABLE_LIMIT
  }

  /** What the device remembers of a plane it committed a layer to. */
  function Remembered(s: PlaneState, crtc: Crtc, p: Pushed): PlaneState {
    PlaneState(crtc.id, p.layer.fb,
               s.view.(dst := p.layer.dst, src := p.layer.src,
                       zpos := if p.zpos.Some? then p.zpos.value else s.view.zpos,
                       rotation := if p.layer.rotation.Some? then p.layer.rotation.value else s.view.rotation))
  }

  /** The shadow after the layers were committed. */
  function Remember(shadow: seq<PlaneState>, crtc: Crtc, layers: seq<Pushed>): (r: seq<PlaneState>)
    ensures |r| == |shadow|
  {
    if layers == [] then shadow
    else
      var r, p := Remember(shadow, crtc, layers[..|layers| - 1]), layers[|layers| - 1];
      if p.plane < |r| then r[p.plane := Remembered(r[p.plane], crtc, p)] else r
  }

  predicate SameLength(planes: seq<Plane>, dev: PlaneStates) { |planes| == |dev.kernel| == |dev.shadow| }

  function CommitProps(planes: seq<Plane>, crtc: Crtc, st: Request, dev: PlaneStates): seq<Prop>
    requires SameLength(planes, dev)
  {
    st.props + Disables(planes, crtc, st.available, dev.shadow, DisableCount(planes))
  }

  /** The disabling properties stay in the request even when the kernel rejects it. */
  function CommitRequest(planes: seq<Plane>, crtc: Crtc, st: Request, dev: PlaneStates): Request
    requires SameLength(planes, dev)
  {
    st.(props := CommitProps(planes, crtc, st, dev))
  }

  ghost function Commit(planes: seq<Plane>, crtc: Crtc, st: Request, dev: PlaneStates, accepted: bool): (r: PlaneStates)
    requires SameLength(planes, dev)
    ensures SameLength(planes, r)
  {
    if !accepted then dev
    else
      var props := CommitProps(planes, crtc, st, dev);
      PlaneStates(seq(|planes|, i requires 0 <= i < |planes| => Applied(dev.kernel[i], props, planes[i].id)),
                  Remember(dev.shadow, crtc, st.layers))
  }

  /** The same framebuffer on the same CRTC, from the same part of it to the same place. */
  predicate SamePicture(s: PlaneState, t: PlaneState) {
    s.crtc == t.crtc && s.fb == t.fb && s.view.dst == t.view.dst && s.view.src == t.view.src
  }

  /** The shadow knows of every plane that is active what it shows: it may only know too much. */
  ghost predicate ShadowCovers(dev: PlaneStates) {
    && |dev.kernel| == |dev.shadow|
    && forall i :: 0 <= i < |dev.kernel| && Active(dev.kernel[i]) ==> SamePicture(dev.shadow[i], dev.kernel[i])
  }

  lemma {:induction false} DisablesValue(planes: seq<Plane>, crtc: Crtc, available: set<nat>, shadow: seq<PlaneState>,
                                         n: nat, i: nat, name: PropName)
    requires ValidPlanes(planes) && n <= |planes| == |shadow| && i < |planes|
    ensures LastValue(Disables(planes, crtc, available, shadow, n), planes[i].id, name) ==
            if i < n && ToDisable(crtc, available, shadow, i) && (name == CrtcId || name == FbId) then Some(Number(0)) else None
  {
    if n > 0 {
      DisablesValue(planes, crtc, available, shadow, n - 1, i, name);
      if ToDisable(crtc, available, shadow, n - 1) {
        var off := Off(planes[n - 1].id);
        LastValueConcat(Disables(planes, crtc, available, shadow, n - 1), off, planes[i].id, name);
        ListOfTwo(off[0], off[1], planes[i].id, name);
      }
    }
  }

  /** The values the whole commit sets for plane `i`. */
  lemma CommitValue(planes: seq<Plane>, crtc: Crtc, st: Request, dev: PlaneStates, i: nat, name: PropName)
    requires ValidPlanes(planes) && SameLength(planes, dev) && i < |planes|
    ensures LastValue(CommitProps(planes, crtc, st, dev), planes[i].id, name) ==
            if i < DISABLE_LIMIT && ToDisable(crtc, st.available, dev.shadow, i) && (name == CrtcId || name == FbId)
            then Some(Number(0)) else LastValue(st.props, planes[i].id, name)
  {
    hide Disables, LastValue;
    var n := DisableCount(planes);
    DisablesValue(planes, crtc, st.available, dev.shadow, n, i, name);
    LastValueConcat(st.props, Disables(planes, crtc, st.available, dev.shadow, n), planes[i].id, name);
  }

  lemma CommitDescribes(planes: seq<Plane>, crtc: Crtc, st: Request, dev: PlaneStates)
    requires ValidPlanes(planes) && SameLength(planes, dev)
    requires Partitioned(planes, crtc, st) && Describes(planes, crtc, st)
    ensures Describes(planes, crtc, CommitRequest(planes, crtc, st, dev))
  {
    hide CommitProps, LastValue, Allocated, SetFor, OffOrUntouched, Untouched;
    var r := CommitRequest(planes, crtc, st, dev);
    forall i | 0 <= i < |planes|
      ensures i in Allocated(st.layers) ==> SameFor(st.props, r.props, planes[i].id)
      ensures i !in Allocated(st.layers) ==> OffOrUntouched(r.props, planes[i].id)
      ensures i !in Allocated(st.layers) && OutOfReach(planes, crtc, i) ==> Untouched(r.props, planes[i].id)
    {
      CommittedProps(planes, crtc, st, dev, i);
    }
    forall k | 0 <= k < |st.layers| ensures SetFor(r.props, planes[st.layers[k].plane], crtc, st.layers[k], k == 0) {
      LayerIsAllocated(st.layers, k);
      SameSet(st.props, r.props, planes[st.layers[k].plane], crtc, st.layers[k], k == 0);
    }
  }

  lemma CommittedProps(planes: seq<Plane>, crtc: Crtc, st: Request, dev: PlaneStates, i: nat)
    requires ValidPlanes(planes) && SameLength(planes, dev) && i < |planes|
    requires Partitioned(planes, crtc, st) && Describes(planes, crtc, st)
    ensures var props, id := CommitProps(planes, crtc, st, dev), planes[i].id;
            && (i in Allocated(st.layers) ==> SameFor(st.props, props, id))
            && (i !in Allocated(st.layers) ==> OffOrUntouched(props, id))
            && (i !in Allocated(st.layers) && OutOfReach(planes, crtc, i) ==> Untouched(props, id))
  {
    hide CommitProps, LastValue, Allocated, SetFor;
    assert i in st.available ==> i in Usable(planes, crtc);
    var props, id := CommitProps(planes, crtc, st, dev), planes[i].id;
    var off := i < DISABLE_LIMIT && ToDisable(crtc, st.available, dev.shadow, i);
    forall name
      ensures LastValue(props, id, name) ==
              if off && (name == CrtcId || name == FbId) then Some(Number(0)) else LastValue(st.props, id, name)
    {
      CommitValue(planes, crtc, st, dev, i, name);
    }
  }

  lemma {:induction false} RememberAt(shadow: seq<PlaneState>, crtc: Crtc, layers: seq<Pushed>, i: nat)
    requires i < |shadow|
    ensures i !in Allocated(layers) ==> Remember(shadow, crtc, layers)[i] == shadow[i]
    ensures i in Allocated(layers) ==>
              exists k :: 0 <= k < |layers| && layers[k].plane == i && ShowsLayer(Remember(shadow, crtc, layers)[i], crtc, layers[k])
  {
    if layers != [] {
      var front, p := layers[..|layers| - 1], layers[|layers| - 1];
      RememberAt(shadow, crtc, front, i);
      AllocatedSnoc(front, p);
      assert layers == front + [p];
      if p.plane == i {
        assert layers[|layers| - 1].plane == i;
      }
    }
  }

  /** The layer's framebuffer, from its source to its destination rectangle. */
  predicate ShowsLayer(s: PlaneState, crtc: Crtc, p: Pushed) {
    s.crtc == crtc.id && s.fb == p.layer.fb && s.view.dst == p.layer.dst && s.view.src == p.layer.src
  }

  /**
   * The plane shows the layer as it wants to be shown: at its zpos if the plane's zpos can be
   * set, turned if the plane can turn it, opaque at the bottom and blended above.
   */
  predicate Displays(s: PlaneState, plane: Plane, crtc: Crtc, p: Pushed, bottom: bool) {
    && ShowsLayer(s, crtc, p)
    && (plane.zpos.Some? && !plane.zpos.value.hardcoded && p.zpos.Some? ==> s.view.zpos == p.zpos.value)
    && (p.layer.rotation.Some? && CanRotate(plane, p.layer.rotation.value) && plane.rotation.value.hardcoded.None? ==>
          s.view.rotation == p.layer.rotation.value)
    && (plane.alpha.Some? ==> s.view.alpha == plane.alpha.value)
    && (plane.blend.Some? && bottom && BlendNone in plane.blend.value ==> s.view.blend == BlendNone)
    && (plane.blend.Some? && !bottom && Premultiplied in plane.blend.value ==> s.view.blend == Premultiplied)
  }

  lemma SetMeansDisplays(s: PlaneState, props: seq<Prop>, plane: Plane, crtc: Crtc, p: Pushed, bottom: bool)
    requires SetFor(props, plane, crtc, p, bottom)
    ensures Displays(Applied(s, props, plane.id), plane, crtc, p, bottom)
  {
    hide LastValue, CanRotate, SetFor;
    SetMeansShowsLayer(s, props, plane, crtc, p, bottom);
    SetValue(props, plane, crtc, p, bottom, ZposProp);
    SetValue(props, plane, crtc, p, bottom, RotationProp);
    SetValue(props, plane, crtc, p, bottom, AlphaProp);
    SetValue(props, plane, crtc, p, bottom, BlendProp);
  }

  lemma SetValue(props: seq<Prop>, plane: Plane, crtc: Crtc, p: Pushed, bottom: bool, name: PropName)
    requires SetFor(props, plane, crtc, p, bottom)
    ensures LastValue(props, plane.id, name) == Wanted(plane, crtc, p, bottom, name)
  {
    hide LastValue, Wanted;
  }

  lemma SetMeansShowsLayer(s: PlaneState, props: seq<Prop>, plane: Plane, crtc: Crtc, p: Pushed, bottom: bool)
    requires SetFor(props, plane, crtc, p, bottom)
    ensures ShowsLayer(Applied(s, props, plane.id), crtc, p)
  {
    hide LastValue, SetFor, CanRotate;
    SetValue(props, plane, crtc, p, bottom, CrtcId);
    SetValue(props, plane, crtc, p, bottom, FbId);
    SetValue(props, plane, crtc, p, bottom, CrtcX);
    SetValue(props, plane, crtc, p, bottom, CrtcY);
    SetValue(props, plane, crtc, p, bottom, CrtcW);
    SetValue(props, plane, crtc, p, bottom, CrtcH);
    SetValue(props, plane, crtc, p, bottom, SrcX);
    SetValue(props, plane, crtc, p, bottom, SrcY);
    SetValue(props, plane, crtc, p, bottom, SrcW);
    SetValue(props, plane, crtc, p, bottom, SrcH);
  }

  lemma OffMeansInactive(s: PlaneState, props: seq<Prop>, id: nat)
    requires OffOrUntouched(props, id)
    ensures Untouched(props, id) ==> Applied(s, props, id) == s
    ensures Applied(s, props, id) == s || !Active(Applied(s, props, id))
  {
    hide LastValue;
  }

  /** The planes active on the CRTC are those of the request's layers, and display them. */
  ghost predicate ShowsExactly(planes: seq<Plane>, crtc: Crtc, st: Request, kernel: seq<PlaneState>)
    requires |kernel| == |planes| && Consistent(planes, st)
  {
    && (forall k :: 0 <= k < |st.layers| ==>
          Displays(kernel[st.layers[k].plane], planes[st.layers[k].plane], crtc, st.layers[k], k == 0))
    && (forall i | 0 <= i < |planes| && i !in Allocated(st.layers) :: !ActiveOn(kernel[i], crtc.id))
  }

  /** Plane `i` after an accepted commit. */
  lemma CommittedState(planes: seq<Plane>, crtc: Crtc, st: Request, dev: PlaneStates, i: nat)
    requires ValidPlanes(planes) && SameLength(planes, dev) && i < |planes|
    requires Partitioned(planes, crtc, st) && Describes(planes, crtc, st) && ShadowCovers(dev)
    ensures var s := Commit(planes, crtc, st, dev, true).kernel[i];
            && (forall k :: 0 <= k < |st.layers| && st.layers[k].plane == i ==> Displays(s, planes[i], crtc, st.layers[k], k == 0))
            && (i !in Allocated(st.layers) && OutOfReach(planes, crtc, i) ==> s == dev.kernel[i])
            && (i !in Allocated(st.layers) ==> s == dev.kernel[i] || !Active(s))
            && (i !in Allocated(st.layers) && !OutOfReach(planes, crtc, i) ==> !ActiveOn(s, crtc.id))
  {
    hide CommitProps, LastValue, Allocated, SetFor, OffOrUntouched, Untouched, Applied, Displays;
    var props, s := CommitProps(planes, crtc, st, dev), Commit(planes, crtc, st, dev, true).kernel[i];
    assert s == Applied(dev.kernel[i], props, planes[i].id);
    CommittedProps(planes, crtc, st, dev, i);
    forall k | 0 <= k < |st.layers| && st.layers[k].plane == i ensures Displays(s, planes[i], crtc, st.layers[k], k == 0) {
      LayerIsAllocated(st.layers, k);
      SameSet(st.props, props, planes[i], crtc, st.layers[k], k == 0);
      SetMeansDisplays(dev.kernel[i], props, planes[i], crtc, st.layers[k], k == 0);
    }
    if i !in Allocated(st.layers) {
      OffMeansInactive(dev.kernel[i], props, planes[i].id);
      if !OutOfReach(planes, crtc, i) {
        ReachedIsOff(planes, crtc, st, dev, i);
      }
    }
  }

  lemma ReachedIsOff(planes: seq<Plane>, crtc: Crtc, st: Request, dev: PlaneStates, i: nat)
    requires ValidPlanes(planes) && SameLength(planes, dev) && i < |planes|
    requires Partitioned(planes, crtc, st) && Describes(planes, crtc, st) && ShadowCovers(dev)
    requires i !in Allocated(st.layers) && !OutOfReach(planes, crtc, i)
    ensures !ActiveOn(Applied(dev.kernel[i], CommitProps(planes, crtc, st, dev), planes[i].id), crtc.id)
  {
    hide CommitProps, LastValue, Allocated, AppliedView, SetFor;
    assert i in Usable(planes, crtc);
    CommitValue(planes, crtc, st, dev, i, CrtcId);
    CommitValue(planes, crtc, st, dev, i, FbId);
    assert OffOrUntouched(st.props, planes[i].id);
    forall name ensures LastValue(st.props, planes[i].id, name) in {None, Some(Number(0))} {}
  }

  /**
   * After an accepted commit the planes active on the CRTC are exactly those of the request
   * if and only if no plane out of the commit's reach was active there before.
   */
  lemma CommitShowsExactlyIff(planes: seq<Plane>, crtc: Crtc, st: Request, dev: PlaneStates)
    requires ValidPlanes(planes) && SameLength(planes, dev)
    requires Partitioned(planes, crtc, st) && Describes(planes, crtc, st) && ShadowCovers(dev)
    ensures ShowsExactly(planes, crtc, st, Commit(planes, crtc, st, dev, true).kernel)
            <==> forall i | 0 <= i < |planes| && i !in Allocated(st.layers) && OutOfReach(planes, crtc, i) ::
                   !ActiveOn(dev.kernel[i], crtc.id)
  {
    hide Commit, Allocated, Displays, SetFor, OffOrUntouched, Untouched;
    var kernel := Commit(planes, crtc, st, dev, true).kernel;
    forall i | 0 <= i < |planes|
      ensures forall k :: 0 <= k < |st.layers| && st.layers[k].plane == i ==>
                Displays(kernel[i], planes[i], crtc, st.layers[k], k == 0)
      ensures i !in Allocated(st.layers) && OutOfReach(planes, crtc, i) ==> kernel[i] == dev.kernel[i]
      ensures i !in Allocated(st.layers) && !OutOfReach(planes, crtc, i) ==> !ActiveOn(kernel[i], crtc.id)
    {
      CommittedState(planes, crtc, st, dev, i);
    }
  }

  /** The shadow still knows what every active plane shows, although disabled planes are never cleared from it. */
  lemma CommitKeepsShadow(planes: seq<Plane>, crtc: Crtc, st: Request, dev: PlaneStates, accepted: bool)
    requires ValidPlanes(planes) && SameLength(planes, dev)
    requires Partitioned(planes, crtc, st) && Describes(planes, crtc, st) && ShadowCovers(dev)
    ensures ShadowCovers(Commit(planes, crtc, st, dev, accepted))
  {
    if accepted {
      hide Applied, CommitProps, Allocated, Remember, SetFor, OffOrUntouched, Untouched;
      var r := Commit(planes, crtc, st, dev, true);
      forall i | 0 <= i < |planes| && Active(r.kernel[i]) ensures SamePicture(r.shadow[i], r.kernel[i]) {
        CommittedState(planes, crtc, st, dev, i);
        RememberAt(dev.shadow, crtc, st.layers, i);
      }
    }
  }

  // The commit as it runs.

  const EBUSY := 16

  /** What fits into a request with room for `limit` properties. */
  function Clip(props: seq<Prop>, limit: nat): seq<Prop> {
    if |props| <= limit then props else props[..limit]
  }

  lemma ClipSnoc(props: seq<Prop>, p: Prop, limit: nat)
    ensures Clip(props + [p], limit) == if |Clip(props, limit)| < limit then Clip(props, limit) + [p] else Clip(props, limit)
  {
  }

  /** The device's memory of what is on its planes. */
  class Committer {
    const planes: seq<Plane>
    const committed: array<PlaneState>

    constructor (planes: seq<Plane>, initial: seq<PlaneState>)
      requires |planes| == |initial|
      ensures this.planes == planes && fresh(committed) && committed[..] == initial
    {
      this.planes := planes;
      committed := new PlaneState[|initial|](i requires 0 <= i < |initial| => initial[i]);
    }

    /** `props` is what the request would hold if it had room for everything. */
    method SwitchOff(b: RequestBuilder, i: nat, ghost props: seq<Prop>)
      requires i < |planes| && b.req.props == Clip(props, b.req.limit)
      modifies b.req
      ensures b.req.props == Clip(props + Off(planes[i].id), b.req.limit)
    {
      var _ := b.req.AddProperty(planes[i].id, CrtcId, Number(0));
      ClipSnoc(props, Prop(planes[i].id, CrtcId, Number(0)), b.req.limit);
      var _ := b.req.AddProperty(planes[i].id, FbId, Number(0));
      ClipSnoc(props + [Prop(planes[i].id, CrtcId, Number(0))], Prop(planes[i].id, FbId, Number(0)), b.req.limit);
      assert props + Off(planes[i].id) ==
             props + [Prop(planes[i].id, CrtcId, Number(0))] + [Prop(planes[i].id, FbId, Number(0))];
    }

    method AddDisables(b: RequestBuilder)
      requires b.planes == planes && |planes| == committed.Length && b.Valid()
      modifies b.req
      ensures b.req.props == Clip(old(b.req.props)
                                  + Disables(planes, b.crtc, b.available, committed[..], DisableCount(planes)), b.req.limit)
    {
      ghost var shadow, before := committed[..], b.req.props;
      ghost var n := DisableCount(planes);
      assert before + [] == before;
      for i := 0 to DISABLE_LIMIT
        invariant b.req.props == Clip(before + Disables(planes, b.crtc, b.available, shadow, if i < n then i else n), b.req.limit)
        invariant committed[..] == shadow
      {
        if i in b.available {
          if ActiveOn(committed[i], b.crtc.id) {
            ghost var props := before + Disables(planes, b.crtc, b.available, shadow, i);
            SwitchOff(b, i, props);
            assert before + Disables(planes, b.crtc, b.available, shadow, i + 1) == props + Off(planes[i].id);
          }
        }
      }
    }

    /**
     * The atomic, non-blocking path of a commit. `master` says whether the device may
     * commit now, `answer` is the kernel's errno, zero if it accepts. Disabling properties
     * that find no room are silently left out.
     */
    method CommitAtomic(b: RequestBuilder, master: bool, answer: nat) returns (ok: nat)
      requires b.planes == planes && |planes| == committed.Length && b.Valid()
      modifies b.req, committed
      ensures ok == if master then answer else EBUSY
      ensures var request := CommitRequest(planes, b.crtc, old(b.State()), PlaneStates(old(committed[..]), old(committed[..])));
              b.State() == if master then request.(props := Clip(request.props, b.req.limit)) else old(b.State())
      ensures committed[..] == if ok == 0 then Remember(old(committed[..]), b.crtc, b.layers) else old(committed[..])
    {
      if !master {
        return EBUSY;
      }
      AddDisables(b);
      if answer != 0 {
        return answer;
      }
      ghost var shadow, props := committed[..], b.req.props;
      assert b.layers[..0] == [];
      for i := 0 to |b.layers|
        invariant b.req.props == props
        invariant committed[..] == Remember(shadow, b.crtc, b.layers[..i])
      {
        var p := b.layers[i];
        assert b.layers[..i + 1][..i] == b.layers[..i];
        committed[p.plane] := Remembered(committed[p.plane], b.crtc, p);
      }
      assert b.layers[..|b.layers|] == b.layers;
      return 0;
    }
  }
}
