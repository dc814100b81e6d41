/** Which plane a layer gets: the best of the planes that suit it, if there is one. */
module KmsChoice {
  import opened Options
  import opened KmsPlanes

  /** The plane can be turned as the layer wants, or the layer does not care. */
  predicate KeepsRotation(plane: Plane, layer: Layer) {
    layer.rotation.Some? ==> CanRotate(plane, layer.rotation.value)
  }

  predicate RoomAbove(plane: Plane, zpos: int) { plane.zpos.Some? && zpos <= plane.zpos.value.max }

  /**
   * The plane will do for the layer: a cursor plane if the layer prefers one, a primary plane
   * for the bottom layer, an overlay plane that ends up above the layer below for the others.
   */
  predicate Suits(planes: seq<Plane>, st: Request, layer: Layer, plane: Plane)
    requires Consistent(planes, st)
  {
    && (layer.enforceRotation ==> KeepsRotation(plane, layer))
    && match plane.kind
       case Cursor => layer.preferCursor && Shows(plane, layer.format.code, layer.modifier)
       case Primary =>
         st.layers == []
         && (Shows(plane, layer.format.code, layer.modifier)
             || (!layer.format.isOpaque && Shows(plane, layer.format.opaqueCode, layer.modifier)))
       case Overlay =>
         st.layers != [] && Shows(plane, layer.format.code, layer.modifier)
         && (RoomAbove(plane, st.nextZpos) || plane.id > planes[st.layers[|st.layers| - 1].plane].id)
  }

  /**
   * How good a suiting plane is; less is better. Cursor planes come first, then planes that
   * keep the layer's rotation, then those that keep its format or have room above.
   */
  function Rank(st: Request, layer: Layer, plane: Plane): nat {
    var turned := if KeepsRotation(plane, layer) then 0 else 1;
    match plane.kind
    case Cursor => turned
    case Primary => 2 + 2 * turned + (if Shows(plane, layer.format.code, layer.modifier) then 0 else 1)
    case Overlay => 2 + 2 * turned + (if RoomAbove(plane, st.nextZpos) then 0 else 1)
  }

  /** The rank of the planes that an attempt is for. */
  function AttemptRank(layer: Layer, c: Criteria): nat {
    var turned := if c.rotation == layer.rotation then 0 else 1;
    if Cursor in c.allowed then turned
    else if Primary in c.allowed then 2 + 2 * turned + (if c.format == layer.format.code then 0 else 1)
    else 2 + 2 * turned + (if c.zpos.Some? then 0 else 1)
  }

  /** Attempt `k` among those for the layer's own kind of plane. */
  function OwnAttempts(planes: seq<Plane>, st: Request, layer: Layer): seq<Criteria>
    requires Consistent(planes, st)
  {
    if st.layers == [] then PrimaryAttempts(layer)
    else OverlayAttempts(layer, st.nextZpos, planes[st.layers[|st.layers| - 1].plane].id)
  }

  lemma AttemptsSplit(planes: seq<Plane>, st: Request, layer: Layer)
    requires Consistent(planes, st)
    ensures Attempts(planes, st, layer) == CursorAttempts(layer) + OwnAttempts(planes, st, layer)
  {
  }

  /** Ranks grow along the list; equal ranks are repeated attempts. */
  ghost predicate Ranked(layer: Layer, a: seq<Criteria>, lo: nat, hi: nat) {
    && (forall k :: 0 <= k < |a| ==> lo <= AttemptRank(layer, a[k]) < hi)
    && forall j, k :: 0 <= j < k < |a| ==> AttemptRank(layer, a[j]) < AttemptRank(layer, a[k]) || a[j] == a[k]
  }

  lemma CursorsAreRanked(layer: Layer)
    ensures Ranked(layer, CursorAttempts(layer), 0, 2)
  {
  }

  lemma PrimariesAreRanked(layer: Layer)
    ensures Ranked(layer, PrimaryAttempts(layer), 2, 6)
  {
    var a := PrimaryFormats(layer, layer.rotation);
    assert Ranked(layer, a, 2, 4);
    if MayDropRotation(layer) {
      var b := PrimaryFormats(layer, None);
      assert Ranked(layer, b, 4, 6);
      RankedTwice(layer, a, b, 2, 4, 6);
    }
  }

  lemma OverlaysAreRanked(layer: Layer, zpos: int, below: nat)
    ensures Ranked(layer, OverlayAttempts(layer, zpos, below), 2, 6)
  {
    var a := OverlayPair(layer, zpos, below, layer.rotation);
    assert Ranked(layer, a, 2, 4);
    if MayDropRotation(layer) {
      var b := OverlayPair(layer, zpos, below, None);
      assert Ranked(layer, b, 4, 6);
      RankedTwice(layer, a, b, 2, 4, 6);
    }
  }

  lemma RankedTwice(layer: Layer, a: seq<Criteria>, b: seq<Criteria>, lo: nat, mid: nat, hi: nat)
    requires Ranked(layer, a, lo, mid) && Ranked(layer, b, mid, hi) && lo <= mid <= hi
    ensures Ranked(layer, a + b, lo, hi)
  {
    hide AttemptRank;
  }

  /** The attempts are tried from the best rank to the worst. */
  lemma AttemptsAreRanked(planes: seq<Plane>, st: Request, layer: Layer)
    requires Consistent(planes, st)
    ensures Ranked(layer, Attempts(planes, st, layer), 0, 6)
  {
    hide AttemptRank, CursorAttempts, PrimaryAttempts, OverlayAttempts, Attempts, Ranked;
    AttemptsSplit(planes, st, layer);
    CursorsAreRanked(layer);
    if st.layers == [] {
      PrimariesAreRanked(layer);
    } else {
      OverlaysAreRanked(layer, st.nextZpos, planes[st.layers[|st.layers| - 1].plane].id);
    }
    RankedTwice(layer, CursorAttempts(layer), OwnAttempts(planes, st, layer), 0, 2, 6);
  }

  /** A plane that an attempt accepts suits the layer, and is at least as good as the attempt. */
  lemma QualifiedSuits(planes: seq<Plane>, st: Request, layer: Layer, plane: Plane, k: nat)
    requires Consistent(planes, st) && k < |Attempts(planes, st, layer)|
    requires Qualifies(plane, Attempts(planes, st, layer)[k])
    ensures Suits(planes, st, layer, plane) && Rank(st, layer, plane) <= AttemptRank(layer, Attempts(planes, st, layer)[k])
  {
    hide CanRotate, Attempts, CursorAttempts, OwnAttempts, Qualifies;
    AttemptsSplit(planes, st, layer);
    var n, c := |CursorAttempts(layer)|, Attempts(planes, st, layer)[k];
    if k < n {
      assert c == CursorAttempts(layer)[k];
      CursorSuits(planes, st, layer, plane, k);
    } else {
      assert c == OwnAttempts(planes, st, layer)[k - n];
      OwnSuits(planes, st, layer, plane, k - n);
    }
  }

  lemma CursorSuits(planes: seq<Plane>, st: Request, layer: Layer, plane: Plane, k: nat)
    requires Consistent(planes, st) && k < |CursorAttempts(layer)| && Qualifies(plane, CursorAttempts(layer)[k])
    ensures Suits(planes, st, layer, plane) && Rank(st, layer, plane) <= AttemptRank(layer, CursorAttempts(layer)[k])
  {
    hide CanRotate;
  }

  lemma OwnSuits(planes: seq<Plane>, st: Request, layer: Layer, plane: Plane, k: nat)
    requires Consistent(planes, st) && k < |OwnAttempts(planes, st, layer)|
    requires Qualifies(plane, OwnAttempts(planes, st, layer)[k])
    ensures Suits(planes, st, layer, plane) && Rank(st, layer, plane) <= AttemptRank(layer, OwnAttempts(planes, st, layer)[k])
  {
    hide CanRotate;
    if st.layers == [] {
      PrimarySuits(planes, st, layer, plane, k);
    }
  }

  lemma PrimarySuits(planes: seq<Plane>, st: Request, layer: Layer, plane: Plane, k: nat)
    requires Consistent(planes, st) && st.layers == [] && k < |PrimaryAttempts(layer)|
    requires Qualifies(plane, PrimaryAttempts(layer)[k])
    ensures Suits(planes, st, layer, plane) && Rank(st, layer, plane) <= AttemptRank(layer, PrimaryAttempts(layer)[k])
  {
    hide CanRotate;
    var n := |PrimaryFormats(layer, layer.rotation)|;
    assert k >= n ==> PrimaryAttempts(layer)[k] == PrimaryFormats(layer, None)[k - n];
  }

  /** A plane that suits the layer is accepted by the attempt of its rank. */
  lemma SuitingQualifies(planes: seq<Plane>, st: Request, layer: Layer, plane: Plane) returns (k: nat)
    requires ValidPlanes(planes) && plane in planes && Consistent(planes, st) && Suits(planes, st, layer, plane)
    ensures k < |Attempts(planes, st, layer)| && Qualifies(plane, Attempts(planes, st, layer)[k])
    ensures AttemptRank(layer, Attempts(planes, st, layer)[k]) == Rank(st, layer, plane)
  {
    hide CanRotate, Attempts, Qualifies, PrimaryAttempts, OverlayAttempts;
    AttemptsSplit(planes, st, layer);
    var n := |CursorAttempts(layer)|;
    if plane.kind == Cursor {
      k := CursorQualifies(layer, st, plane);
      assert Attempts(planes, st, layer)[k] == CursorAttempts(layer)[k];
    } else {
      k := if plane.kind == Primary then PrimaryIndex(layer, plane) else OverlayIndex(layer, st, plane);
      if plane.kind == Primary {
        PrimaryQualifies(planes, st, layer, plane);
      } else {
        OverlayQualifies(planes, st, layer, plane);
      }
      assert Attempts(planes, st, layer)[n + k] == OwnAttempts(planes, st, layer)[k];
      k := n + k;
    }
  }

  lemma CursorQualifies(layer: Layer, st: Request, plane: Plane) returns (k: nat)
    requires plane.kind == Cursor && layer.preferCursor && Shows(plane, layer.format.code, layer.modifier)
    requires layer.enforceRotation ==> KeepsRotation(plane, layer)
    ensures k < |CursorAttempts(layer)| && Qualifies(plane, CursorAttempts(layer)[k])
    ensures AttemptRank(layer, CursorAttempts(layer)[k]) == Rank(st, layer, plane)
  {
    k := if KeepsRotation(plane, layer) then 0 else 1;
  }

  function PrimaryIndex(layer: Layer, plane: Plane): nat {
    (if KeepsRotation(plane, layer) then 0 else |PrimaryFormats(layer, None)|)
    + if Shows(plane, layer.format.code, layer.modifier) then 0 else 1
  }

  lemma PrimaryQualifies(planes: seq<Plane>, st: Request, layer: Layer, plane: Plane)
    requires Consistent(planes, st) && plane.kind == Primary && Suits(planes, st, layer, plane)
    ensures var k := PrimaryIndex(layer, plane);
            && k < |PrimaryAttempts(layer)| && Qualifies(plane, PrimaryAttempts(layer)[k])
            && AttemptRank(layer, PrimaryAttempts(layer)[k]) == Rank(st, layer, plane)
  {
    hide CanRotate;
    var n := |PrimaryFormats(layer, layer.rotation)|;
    var k := PrimaryIndex(layer, plane);
    assert n == |PrimaryFormats(layer, None)|;
    assert !KeepsRotation(plane, layer) ==> PrimaryAttempts(layer)[k] == PrimaryFormats(layer, None)[k - n];
  }

  function OverlayIndex(layer: Layer, st: Request, plane: Plane): nat {
    (if KeepsRotation(plane, layer) then 0 else 2) + if RoomAbove(plane, st.nextZpos) then 0 else 1
  }

  lemma OverlayQualifies(planes: seq<Plane>, st: Request, layer: Layer, plane: Plane)
    requires ValidPlanes(planes) && plane in planes
    requires Consistent(planes, st) && plane.kind == Overlay && Suits(planes, st, layer, plane)
    ensures var k, below := OverlayIndex(layer, st, plane), planes[st.layers[|st.layers| - 1].plane].id;
            var a := OverlayAttempts(layer, st.nextZpos, below);
            && k < |a| && Qualifies(plane, a[k]) && AttemptRank(layer, a[k]) == Rank(st, layer, plane)
  {
    hide CanRotate;
  }

  /** The plane the attempts find suits the layer, no available one is better, and none as good has a lower index. */
  ghost predicate Best(planes: seq<Plane>, st: Request, layer: Layer, f: nat)
    requires Consistent(planes, st)
  {
    && f in st.available && f < |planes| && Suits(planes, st, layer, planes[f])
    && forall j :: 0 <= j < |planes| && j in st.available && Suits(planes, st, layer, planes[j]) ==>
         || Rank(st, layer, planes[f]) < Rank(st, layer, planes[j])
         || (Rank(st, layer, planes[f]) == Rank(st, layer, planes[j]) && f <= j)
  }

  lemma FoundIsBest(planes: seq<Plane>, st: Request, layer: Layer)
    requires ValidPlanes(planes) && Consistent(planes, st) && FirstOf(planes, st.available, Attempts(planes, st, layer)).Some?
    ensures Best(planes, st, layer, FirstOf(planes, st.available, Attempts(planes, st, layer)).value)
  {
    hide FirstOf, Attempts, Qualifies, Suits, Rank, AttemptRank;
    var a := Attempts(planes, st, layer);
    var f := FirstOf(planes, st.available, a).value;
    var k := FoundByAttempt(planes, st.available, a);
    QualifiedSuits(planes, st, layer, planes[f], k);
    AttemptsAreRanked(planes, st, layer);
    forall j | 0 <= j < |planes| && j in st.available && Suits(planes, st, layer, planes[j])
      ensures Rank(st, layer, planes[f]) < Rank(st, layer, planes[j])
              || (Rank(st, layer, planes[f]) == Rank(st, layer, planes[j]) && f <= j)
    {
      var l := SuitingQualifies(planes, st, layer, planes[j]);
      EarlierRefuse(planes, st.available, a, k, j);
    }
  }

  lemma EarlierRefuse(planes: seq<Plane>, available: set<nat>, a: seq<Criteria>, k: nat, j: nat)
    requires k <= |a| && forall l :: 0 <= l < k ==> FirstFit(planes, available, a[l], 0).None?
    requires j < |planes| && j in available
    ensures forall l :: 0 <= l < k ==> !Qualifies(planes[j], a[l])
  {
    hide Qualifies;
  }

  /**
   * A pushed layer gets the best available plane that suits it, the one with the lowest index
   * among equals. A push is refused for want of a plane exactly if none suits.
   */
  lemma BestPlaneIsPushed(planes: seq<Plane>, crtc: Crtc, limit: nat, st: Request, layer: Layer)
    requires ValidPlanes(planes) && Consistent(planes, st)
    ensures var o := Push(planes, crtc, limit, st, layer);
            && (o.code == 0 ==> |o.st.layers| == |st.layers| + 1 && Best(planes, st, layer, o.st.layers[|st.layers|].plane))
            && (o.code == EIO <==> forall j :: 0 <= j < |planes| && j in st.available ==> !Suits(planes, st, layer, planes[j]))
  {
    hide FirstOf, Attempts, Qualifies, Suits, LayerProps, Best;
    PushShape(planes, crtc, limit, st, layer);
    var found := FirstOf(planes, st.available, Attempts(planes, st, layer));
    if found.Some? {
      FoundIsBest(planes, st, layer);
      BestSuits(planes, st, layer, found.value);
    } else {
      forall j | 0 <= j < |planes| && j in st.available ensures !Suits(planes, st, layer, planes[j]) {
        if Suits(planes, st, layer, planes[j]) {
          var k := SuitingQualifies(planes, st, layer, planes[j]);
        }
      }
    }
  }

  lemma BestSuits(planes: seq<Plane>, st: Request, layer: Layer, f: nat)
    requires Consistent(planes, st) && Best(planes, st, layer, f)
    ensures f in st.available && f < |planes| && Suits(planes, st, layer, planes[f])
  {
  }

  // Which zpos the layer gets.

  /** The first zpos is the lowest that a plane of the CRTC has. */
  lemma {:induction false} MinZposIsLowest(planes: seq<Plane>, crtc: Crtc, n: nat)
    requires ValidPlanes(planes) && n <= |planes|
    ensures MinZpos(planes, crtc, n) == INT64_MAX <==>
            forall i :: 0 <= i < n && crtc.index in planes[i].crtcs ==> planes[i].zpos.None?
    ensures MinZpos(planes, crtc, n) == INT64_MAX
            || exists i :: 0 <= i < n && crtc.index in planes[i].crtcs && planes[i].zpos.Some?
                           && MinZpos(planes, crtc, n) == planes[i].zpos.value.min
    ensures forall i :: 0 <= i < n && crtc.index in planes[i].crtcs && planes[i].zpos.Some? ==>
                          MinZpos(planes, crtc, n) <= planes[i].zpos.value.min
  {
    if n > 0 {
      MinZposIsLowest(planes, crtc, n - 1);
    }
  }

  /** No layer was pushed yet and no placeholder, or the last zpos handed out is one below the next. */
  lemma {:induction false} NextZposIs(planes: seq<Plane>, crtc: Crtc, limit: nat, ops: seq<Op>)
    ensures var log := ZposLog(planes, crtc, limit, ops);
            Run(planes, crtc, limit, ops).nextZpos ==
            if log == [] then MinZpos(planes, crtc, |planes|) else log[|log| - 1] + 1
  {
    hide Push, LayerProps, Attempts, FirstOf, MinZpos;
    if ops != [] {
      var st, op := Run(planes, crtc, limit, ops[..|ops| - 1]), ops[|ops| - 1];
      NextZposIs(planes, crtc, limit, ops[..|ops| - 1]);
      if op.PushLayer? {
        PushShape(planes, crtc, limit, st, op.layer);
      }
    }
  }

  /** Not below the plane's range, and above every zpos handed out. */
  predicate Allowed(plane: Plane, log: seq<int>, z: int) {
    plane.zpos.Some? && plane.zpos.value.min <= z && forall k :: 0 <= k < |log| ==> log[k] < z
  }

  /** A layer on a plane with a zpos gets the lowest zpos its plane has that is above all handed out before. */
  lemma LowestZposIsPushed(planes: seq<Plane>, crtc: Crtc, limit: nat, ops: seq<Op>, layer: Layer)
    requires ValidPlanes(planes)
    requires Push(planes, crtc, limit, Run(planes, crtc, limit, ops), layer).code == 0
    ensures var st := Run(planes, crtc, limit, ops);
            var r, log := Push(planes, crtc, limit, st, layer).st, ZposLog(planes, crtc, limit, ops);
            && |r.layers| == |st.layers| + 1
            && var p := r.layers[|st.layers|];
               p.plane < |planes| && (p.zpos.Some? <==> planes[p.plane].zpos.Some?)
               && (p.zpos.Some? ==>
                     Allowed(planes[p.plane], log, p.zpos.value)
                     && forall z :: Allowed(planes[p.plane], log, z) ==> p.zpos.value <= z)
  {
    hide Push, LayerProps, Attempts, FirstOf, MinZpos, Run, ZposLog, Inv;
    var st, log := Run(planes, crtc, limit, ops), ZposLog(planes, crtc, limit, ops);
    RunsKeepInv(planes, crtc, limit, ops);
    NextZposIs(planes, crtc, limit, ops);
    PushShape(planes, crtc, limit, st, layer);
    PlaneIsUsable(planes, crtc, limit, st, layer);
  }

  lemma PlaneIsUsable(planes: seq<Plane>, crtc: Crtc, limit: nat, st: Request, layer: Layer)
    requires Inv(planes, crtc, st) && Push(planes, crtc, limit, st, layer).code == 0
    ensures var r := Push(planes, crtc, limit, st, layer).st;
            && |r.layers| == |st.layers| + 1
            && var p := r.layers[|st.layers|].plane;
               p < |planes| && (planes[p].zpos.Some? ==> MinZpos(planes, crtc, |planes|) <= planes[p].zpos.value.min)
  {
    hide Push, LayerProps, Attempts, FirstOf, MinZpos;
    PushShape(planes, crtc, limit, st, layer);
    var p := Push(planes, crtc, limit, st, layer).st.layers[|st.layers|].plane;
    assert p in st.available && p in Usable(planes, crtc);
  }
}
