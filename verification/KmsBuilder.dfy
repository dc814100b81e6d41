/** The request builder as it runs, for drivers with atomic mode setting. */
module KmsBuilder {
  import opened Options
  import opened KmsPlanes

  /** libdrm's request: a list of properties with room for `limit`. */
  class AtomicReq {
    const limit: nat
    var props: seq<Prop>

    constructor (limit: nat)
      ensures this.limit == limit && props == []
    {
      this.limit, props := limit, [];
    }

    /** Negative on failure. */
    method AddProperty(plane: nat, name: PropName, value: PropValue) returns (ok: int)
      modifies this`props
      ensures if |old(props)| < limit then ok >= 0 && props == old(props) + [Prop(plane, name, value)]
              else ok == -ENOMEM && props == old(props)
    {
      if |props| >= limit {
        return -ENOMEM;
      }
      props := props + [Prop(plane, name, value)];
      ok := |props|;
    }

    function GetCursor(): (n: nat)
      reads this
    {
      |props|
    }

    method SetCursor(n: nat)
      requires n <= |props|
      modifies this`props
      ensures props == old(props)[..n]
    {
      props := props[..n];
    }

    /** `more` was added, or it did not fit and an initial part of it was. */
    twostate predicate Added(more: seq<Prop>, ok: int)
      reads this
    {
      if |old(props)| + |more| <= limit then ok >= 0 && props == old(props) + more
      else ok == -ENOMEM && |old(props)| <= |props| && props[..|old(props)|] == old(props)
    }
  }

  class RequestBuilder {
    const planes: seq<Plane>
    const crtc: Crtc
    const req: AtomicReq
    var available: set<nat>
    var layers: seq<Pushed>
    var nextZpos: int

    ghost function State(): Request
      reads this, req
    {
      Request(available, layers, nextZpos, req.props)
    }

    ghost predicate Valid()
      reads this, req
    {
      ValidPlanes(planes) && Consistent(planes, State()) && |req.props| <= req.limit
    }

    /** `drmdev_create_request_builder` */
    constructor (planes: seq<Plane>, crtc: Crtc, limit: nat)
      requires ValidPlanes(planes)
      ensures Valid() && fresh(req) && this.planes == planes && this.crtc == crtc && req.limit == limit
      ensures State() == NewRequest(planes, crtc)
    {
      this.planes, this.crtc := planes, crtc;
      req := new AtomicReq(limit);
      available, layers, nextZpos := {}, [], INT64_MAX;
      new;
      for i := 0 to |planes|
        invariant available == set j | 0 <= j < i && crtc.index in planes[j].crtcs
        invariant nextZpos == MinZpos(planes, crtc, i)
        invariant layers == [] && req.props == []
      {
        if crtc.index in planes[i].crtcs {
          available := available + {i};
          if planes[i].zpos.Some? && planes[i].zpos.value.min < nextZpos {
            nextZpos := planes[i].zpos.value.min;
          }
        }
      }
    }

    /** The first available plane that qualifies is taken. */
    method AllocatePlane(c: Criteria) returns (r: Option<nat>)
      requires Valid()
      modifies this`available
      ensures r == FirstFit(planes, old(available), c, 0)
      ensures available == if r.Some? then old(available) - {r.value} else old(available)
    {
      for i := 0 to MAX_PLANES
        invariant available == old(available)
        invariant i <= |planes| ==> FirstFit(planes, available, c, 0) == FirstFit(planes, available, c, i)
        invariant i > |planes| ==> FirstFit(planes, available, c, 0).None?
      {
        if i in available {
          if Qualifies(planes[i], c) {
            available := available - {i};
            return Some(i);
          }
        }
      }
      return None;
    }

    /** Makes the plane with that id available again, if there is one. */
    method ReleasePlane(id: nat)
      requires Valid()
      modifies this`available
      ensures forall i | 0 <= i < |planes| && planes[i].id == id :: available == old(available) + {i}
      ensures (forall i | 0 <= i < |planes| :: planes[i].id != id) ==> available == old(available)
    {
      var i := 0;
      while i < |planes| && planes[i].id != id
        invariant 0 <= i <= |planes| && forall j :: 0 <= j < i ==> planes[j].id != id
      {
        i := i + 1;
      }
      if i == |planes| {
        return;
      }
      available := available + {i};
    }

    method TryCursor(layer: Layer) returns (r: Option<nat>, onCursor: Option<bool>)
      requires Valid()
      modifies this`available
      ensures r == FirstOf(planes, old(available), CursorAttempts(layer))
      ensures available == if r.Some? then old(available) - {r.value} else old(available)
      ensures onCursor == if layer.preferCursor then Some(r.Some?) else None
    {
      r, onCursor := None, None;
      if layer.preferCursor {
        r := AllocatePlane(CursorAttempt(layer, layer.rotation));
        if r.None? && layer.rotation.Some? && !layer.enforceRotation {
          r := AllocatePlane(CursorAttempt(layer, None));
        }
        onCursor := Some(r.Some?);
      }
    }

    method TryPrimary(layer: Layer) returns (r: Option<nat>)
      requires Valid()
      modifies this`available
      ensures r == FirstOf(planes, old(available), PrimaryAttempts(layer))
      ensures available == if r.Some? then old(available) - {r.value} else old(available)
    {
      r := TryPrimaryTurned(layer, layer.rotation);
      if MayDropRotation(layer) {
        FirstOfConcat(planes, old(available), PrimaryFormats(layer, layer.rotation), PrimaryFormats(layer, None));
        if r.None? {
          r := TryPrimaryTurned(layer, None);
        }
      }
    }

    method TryPrimaryTurned(layer: Layer, rotation: Option<set<Transform>>) returns (r: Option<nat>)
      requires Valid()
      modifies this`available
      ensures r == FirstOf(planes, old(available), PrimaryFormats(layer, rotation))
      ensures available == if r.Some? then old(available) - {r.value} else old(available)
    {
      r := AllocatePlane(PrimaryAttempt(layer, layer.format.code, rotation));
      if r.None? && !layer.format.isOpaque {
        r := AllocatePlane(PrimaryAttempt(layer, layer.format.opaqueCode, rotation));
      }
    }

    method TryOverlay(layer: Layer, below: nat) returns (r: Option<nat>)
      requires Valid()
      modifies this`available
      ensures r == FirstOf(planes, old(available), OverlayAttempts(layer, nextZpos, below))
      ensures available == if r.Some? then old(available) - {r.value} else old(available)
    {
      r := TryOverlayTurned(layer, below, layer.rotation);
      if MayDropRotation(layer) {
        FirstOfConcat(planes, old(available), OverlayPair(layer, nextZpos, below, layer.rotation),
                      OverlayPair(layer, nextZpos, below, None));
        if r.None? {
          r := TryOverlayTurned(layer, below, None);
        }
      }
    }

    method TryOverlayTurned(layer: Layer, below: nat, rotation: Option<set<Transform>>) returns (r: Option<nat>)
      requires Valid()
      modifies this`available
      ensures r == FirstOf(planes, old(available), OverlayPair(layer, nextZpos, below, rotation))
      ensures available == if r.Some? then old(available) - {r.value} else old(available)
    {
      r := AllocatePlane(AboveAttempt(layer, nextZpos, rotation));
      if r.None? {
        r := AllocatePlane(HigherIdAttempt(layer, below, rotation));
      }
    }

    method FindPlane(layer: Layer) returns (r: Option<nat>, onCursor: Option<bool>)
      requires Valid()
      modifies this`available
      ensures r == FirstOf(planes, old(available), Attempts(planes, old(State()), layer))
      ensures available == if r.Some? then old(available) - {r.value} else old(available)
      ensures onCursor == if layer.preferCursor then Some(FirstOf(planes, old(available), CursorAttempts(layer)).Some?) else None
    {
      hide FirstOf, PrimaryAttempts, OverlayAttempts, CursorAttempts;
      r, onCursor := TryCursor(layer);
      if layers == [] {
        FirstOfConcat(planes, old(available), CursorAttempts(layer), PrimaryAttempts(layer));
        if r.None? {
          r := TryPrimary(layer);
        }
      } else {
        var below := planes[layers[|layers| - 1].plane].id;
        FirstOfConcat(planes, old(available), CursorAttempts(layer), OverlayAttempts(layer, nextZpos, below));
        if r.None? {
          r := TryOverlay(layer, below);
        }
      }
    }

    method AddGeometry(plane: Plane, layer: Layer) returns (ok: int)
      requires |req.props| <= req.limit
      modifies req
      ensures req.Added(Geometry(plane, crtc, layer), ok)
    {
      hide Target, TargetSize, Source;
      ok := AddTarget(plane, layer);
      if ok < 0 {
        return;
      }
      ok := AddTargetSize(plane, layer);
      if ok < 0 {
        return;
      }
      ok := AddSource(plane, layer);
    }

    method AddTarget(plane: Plane, layer: Layer) returns (ok: int)
      modifies req
      ensures req.Added(Target(plane, crtc, layer), ok)
    {
      ok := req.AddProperty(plane.id, CrtcId, Number(crtc.id));
      if ok < 0 {
        return;
      }
      ok := req.AddProperty(plane.id, FbId, Number(layer.fb));
    }

    method AddTargetSize(plane: Plane, layer: Layer) returns (ok: int)
      modifies req
      ensures req.Added(TargetSize(plane, layer), ok)
    {
      ok := req.AddProperty(plane.id, CrtcX, Number(layer.dst.x));
      if ok < 0 {
        return;
      }
      ok := req.AddProperty(plane.id, CrtcY, Number(layer.dst.y));
      if ok < 0 {
        return;
      }
      ok := req.AddProperty(plane.id, CrtcW, Number(layer.dst.w));
      if ok < 0 {
        return;
      }
      ok := req.AddProperty(plane.id, CrtcH, Number(layer.dst.h));
    }

    method AddSource(plane: Plane, layer: Layer) returns (ok: int)
      modifies req
      ensures req.Added(Source(plane, layer), ok)
    {
      ok := req.AddProperty(plane.id, SrcX, Number(layer.src.x));
      if ok < 0 {
        return;
      }
      ok := req.AddProperty(plane.id, SrcY, Number(layer.src.y));
      if ok < 0 {
        return;
      }
      ok := req.AddProperty(plane.id, SrcW, Number(layer.src.w));
      if ok < 0 {
        return;
      }
      ok := req.AddProperty(plane.id, SrcH, Number(layer.src.h));
    }

    method AddPlacement(plane: Plane, layer: Layer, zpos: Option<int>) returns (ok: int)
      requires layer.rotation.Some? && layer.enforceRotation ==> CanRotate(plane, layer.rotation.value)
      requires |req.props| <= req.limit
      modifies req
      ensures req.Added(Placement(plane, layer, zpos), ok)
    {
      ok := 0;
      if zpos.Some? && plane.zpos.Some? && !plane.zpos.value.hardcoded {
        ok := req.AddProperty(plane.id, ZposProp, Number(zpos.value));
        if ok < 0 {
          return;
        }
      }
      if layer.rotation.Some? {
        var canApply := CanRotate(plane, layer.rotation.value);
        if canApply && plane.rotation.value.hardcoded.None? {
          ok := req.AddProperty(plane.id, RotationProp, Turned(layer.rotation.value));
        } else if !canApply && layer.enforceRotation {
          assert false;
        }
      }
    }

    method AddBlending(plane: Plane, layer: Layer, first: bool) returns (ok: int)
      requires |req.props| <= req.limit
      modifies req
      ensures req.Added(Blending(plane, layer, first), ok)
    {
      ok := 0;
      if plane.alpha.Some? {
        ok := req.AddProperty(plane.id, AlphaProp, Number(plane.alpha.value));
        if ok < 0 {
          return;
        }
      }
      if plane.blend.Some? {
        var mode := if first then BlendNone else Premultiplied;
        if mode in plane.blend.value {
          ok := req.AddProperty(plane.id, BlendProp, Blended(mode));
          if ok < 0 {
            return;
          }
        }
      }
      if layer.inFence.Some? {
        ok := req.AddProperty(plane.id, InFenceFd, Number(layer.inFence.value));
      }
    }

    method AddLayerProps(plane: Plane, layer: Layer, zpos: Option<int>, first: bool) returns (ok: int)
      requires layer.rotation.Some? && layer.enforceRotation ==> CanRotate(plane, layer.rotation.value)
      requires |req.props| <= req.limit
      modifies req
      ensures req.Added(LayerProps(plane, crtc, layer, zpos, first), ok)
    {
      hide Geometry, Placement, Blending;
      ok := AddGeometry(plane, layer);
      if ok < 0 {
        return;
      }
      ok := AddPlacement(plane, layer, zpos);
      if ok < 0 {
        return;
      }
      ok := AddBlending(plane, layer, first);
    }

    /**
     * Pushes a layer. On failure nothing is left of the attempt: the plane is available
     * again and the request holds the properties it held before.
     */
    method PushFbLayer(layer: Layer) returns (code: int, onCursor: Option<bool>)
      requires Valid()
      modifies this, req
      ensures Valid()
      ensures Push(planes, crtc, req.limit, old(State()), layer) == Outcome(code, State())
      ensures code != 0 ==> State() == old(State())
    {
      hide FirstOf, Attempts, LayerProps, CanRotate;
      ghost var st := State();
      var found;
      found, onCursor := FindPlane(layer);
      if found.None? {
        return EIO, onCursor;
      }
      var plane := planes[found.value];
      var zpos := if plane.zpos.Some? then Some(if plane.zpos.value.min > nextZpos then plane.zpos.value.min else nextZpos)
                  else None;
      if layer.inFence.Some? && !plane.inFence {
        ReleasePlane(plane.id);
        return EOPNOTSUPP, onCursor;
      }
      var cursor := req.GetCursor();
      FoundPlaneTurns(planes, st, layer);
      var ok := AddLayerProps(plane, layer, zpos, layers == []);
      if ok < 0 {
        req.SetCursor(cursor);
        ReleasePlane(plane.id);
        return -ok, onCursor;
      }
      layers := layers + [Pushed(layer, found.value, zpos)];
      if zpos.Some? {
        nextZpos := zpos.value + 1;
      }
      return 0, onCursor;
    }

    method PushZposPlaceholder() returns (zpos: int)
      requires Valid()
      modifies this`nextZpos
      ensures Valid() && (State(), zpos) == PushPlaceholder(old(State()))
    {
      zpos := nextZpos;
      nextZpos := nextZpos + 1;
    }
  }

  /** The rotation a layer insists on needs no second check once a plane is found. */
  lemma FoundPlaneTurns(planes: seq<Plane>, st: Request, layer: Layer)
    requires Consistent(planes, st) && FirstOf(planes, st.available, Attempts(planes, st, layer)).Some?
    ensures layer.rotation.Some? && layer.enforceRotation ==>
              CanRotate(planes[FirstOf(planes, st.available, Attempts(planes, st, layer)).value], layer.rotation.value)
  {
    hide FirstOf, Attempts, CanRotate;
    var k := FoundByAttempt(planes, st.available, Attempts(planes, st, layer));
    AttemptsKeepRotation(planes, st, layer, k);
  }
}
