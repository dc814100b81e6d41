/**
 * Whole runs of a device: requests for any of its CRTCs are built, pushed to and committed
 * in any interleaving, and framebuffers disappear from planes behind the device's back.
 */
module KmsRuns {
  import opened Options
  import opened KmsPlanes
  import opened KmsCommit

  /** A request and the CRTC it is for. */
  datatype Req = Req(crtc: Crtc, st: Request)

  datatype World = World(reqs: map<nat, Req>, dev: PlaneStates)

  datatype Event =
    | Create(req: nat, crtc: Crtc)
    | PushTo(req: nat, layer: Layer)
    | PlaceholderTo(req: nat)
    | CommitReq(req: nat, accepted: bool)
    /** The kernel switches a plane off, for instance because its framebuffer was removed. */
    | PlaneLost(plane: nat)

  /** CRTC ids are not zero, and a CRTC has one index. */
  ghost predicate ValidCrtcs(crtcs: set<Crtc>) {
    && (forall c | c in crtcs :: c.id != 0)
    && (forall c, d | c in crtcs && d in crtcs :: c.id == d.id ==> c == d)
  }

  ghost predicate Enabled(planes: seq<Plane>, crtcs: set<Crtc>, w: World, e: Event) {
    match e
    case Create(r, crtc) => r !in w.reqs && crtc in crtcs
    case PushTo(r, _) => r in w.reqs
    case PlaceholderTo(r) => r in w.reqs
    case CommitReq(r, _) => r in w.reqs
    case PlaneLost(p) => p < |planes|
  }

  /** Request `r` and the device are well-formed, as they are in every run. */
  ghost predicate Proper(planes: seq<Plane>, w: World, r: nat) {
    r in w.reqs && Consistent(planes, w.reqs[r].st) && SameLength(planes, w.dev)
  }

  ghost function Next(planes: seq<Plane>, limit: nat, w: World, e: Event): World {
    match e
    case Create(r, crtc) => w.(reqs := w.reqs[r := Req(crtc, NewRequest(planes, crtc))])
    case PushTo(r, layer) =>
      if !Proper(planes, w, r) then w
      else w.(reqs := w.reqs[r := w.reqs[r].(st := Push(planes, w.reqs[r].crtc, limit, w.reqs[r].st, layer).st)])
    case PlaceholderTo(r) =>
      if !Proper(planes, w, r) then w
      else w.(reqs := w.reqs[r := w.reqs[r].(st := PushPlaceholder(w.reqs[r].st).0)])
    case CommitReq(r, accepted) =>
      if !Proper(planes, w, r) then w
      else
        World(w.reqs[r := w.reqs[r].(st := CommitRequest(planes, w.reqs[r].crtc, w.reqs[r].st, w.dev))],
              Commit(planes, w.reqs[r].crtc, w.reqs[r].st, w.dev, accepted))
    case PlaneLost(p) =>
      if p >= |w.dev.kernel| then w
      else w.(dev := w.dev.(kernel := w.dev.kernel[p := w.dev.kernel[p].(crtc := 0, fb := 0)]))
  }

  ghost predicate ReqOk(planes: seq<Plane>, r: Req) {
    Inv(planes, r.crtc, r.st) && Describes(planes, r.crtc, r.st)
  }

  /** Whatever is active on a CRTC is on a plane that can be shown there. */
  ghost predicate OnUsable(planes: seq<Plane>, crtcs: set<Crtc>, kernel: seq<PlaneState>) {
    && |kernel| == |planes|
    && forall i, c | 0 <= i < |planes| && c in crtcs && ActiveOn(kernel[i], c.id) :: c.index in planes[i].crtcs
  }

  ghost predicate WorldInv(planes: seq<Plane>, crtcs: set<Crtc>, w: World) {
    && SameLength(planes, w.dev)
    && ShadowCovers(w.dev)
    && OnUsable(planes, crtcs, w.dev.kernel)
    && (forall r | r in w.reqs :: w.reqs[r].crtc in crtcs && ReqOk(planes, w.reqs[r]))
  }

  lemma NewRequestOk(planes: seq<Plane>, crtc: Crtc)
    ensures ReqOk(planes, Req(crtc, NewRequest(planes, crtc)))
  {
    NewRequestInv(planes, crtc);
  }

  lemma PlaceholderOk(planes: seq<Plane>, r: Req)
    requires ReqOk(planes, r)
    ensures ReqOk(planes, r.(st := PushPlaceholder(r.st).0))
  {
    hide Stacked, OffOrUntouched, Untouched, SetFor;
    PlaceholderKeepsInv(planes, r.crtc, r.st);
  }

  lemma CommitOk(planes: seq<Plane>, r: Req, dev: PlaneStates)
    requires ValidPlanes(planes) && SameLength(planes, dev) && ReqOk(planes, r)
    ensures ReqOk(planes, r.(st := CommitRequest(planes, r.crtc, r.st, dev)))
  {
    hide Stacked, Describes, Allocated;
    CommitDescribes(planes, r.crtc, r.st, dev);
  }

  lemma CommitOnUsable(planes: seq<Plane>, crtcs: set<Crtc>, r: Req, dev: PlaneStates)
    requires ValidPlanes(planes) && ValidCrtcs(crtcs) && r.crtc in crtcs && SameLength(planes, dev)
    requires ReqOk(planes, r) && ShadowCovers(dev) && OnUsable(planes, crtcs, dev.kernel)
    ensures OnUsable(planes, crtcs, Commit(planes, r.crtc, r.st, dev, true).kernel)
  {
    hide Describes, Stacked, Commit;
    var kernel := Commit(planes, r.crtc, r.st, dev, true).kernel;
    forall i, c | 0 <= i < |planes| && c in crtcs && ActiveOn(kernel[i], c.id)
      ensures c.index in planes[i].crtcs
    {
      CommittedState(planes, r.crtc, r.st, dev, i);
      if i in Allocated(r.st.layers) {
        assert i in Usable(planes, r.crtc);
      }
    }
  }

  lemma StepKeepsWorld(planes: seq<Plane>, crtcs: set<Crtc>, limit: nat, w: World, e: Event)
    requires ValidPlanes(planes) && ValidCrtcs(crtcs) && WorldInv(planes, crtcs, w) && Enabled(planes, crtcs, w, e)
    ensures WorldInv(planes, crtcs, Next(planes, limit, w, e))
  {
    hide Inv, Describes, Push, Commit, CommitRequest, NewRequest, PushPlaceholder;
    if e.Create? {
      NewRequestOk(planes, e.crtc);
    } else if e.PushTo? {
      PushKeepsInv(planes, w.reqs[e.req].crtc, limit, w.reqs[e.req].st, e.layer);
      PushDescribes(planes, w.reqs[e.req].crtc, limit, w.reqs[e.req].st, e.layer);
    } else if e.PlaceholderTo? {
      PlaceholderOk(planes, w.reqs[e.req]);
    } else if e.CommitReq? {
      var r := w.reqs[e.req];
      CommitOk(planes, r, w.dev);
      ReqPartitioned(planes, r);
      CommitKeepsShadow(planes, r.crtc, r.st, w.dev, e.accepted);
      if e.accepted {
        CommitOnUsable(planes, crtcs, r, w.dev);
      } else {
        RejectedCommit(planes, r, w.dev);
      }
    }
  }

  lemma ReqPartitioned(planes: seq<Plane>, r: Req)
    requires ReqOk(planes, r)
    ensures Partitioned(planes, r.crtc, r.st) && Describes(planes, r.crtc, r.st)
  {
  }

  lemma RejectedCommit(planes: seq<Plane>, r: Req, dev: PlaneStates)
    requires SameLength(planes, dev)
    ensures Commit(planes, r.crtc, r.st, dev, false) == dev
  {
  }

  // Runs.

  datatype Trace = Start(kernel: seq<PlaneState>) | Then(before: Trace, e: Event)

  ghost function After(planes: seq<Plane>, limit: nat, t: Trace): World {
    match t
    case Start(kernel) => World(map[], PlaneStates(kernel, kernel))
    case Then(before, e) => Next(planes, limit, After(planes, limit, before), e)
  }

  /**
   * The device starts with the kernel's state of all planes, and whatever is active then
   * is on a plane that can be shown there.
   */
  ghost predicate Legal(planes: seq<Plane>, crtcs: set<Crtc>, limit: nat, t: Trace) {
    match t
    case Start(kernel) => |kernel| == |planes| && OnUsable(planes, crtcs, kernel)
    case Then(before, e) =>
      Legal(planes, crtcs, limit, before) && Enabled(planes, crtcs, After(planes, limit, before), e)
  }

  lemma {:induction false} RunsKeepWorld(planes: seq<Plane>, crtcs: set<Crtc>, limit: nat, t: Trace)
    requires ValidPlanes(planes) && ValidCrtcs(crtcs) && Legal(planes, crtcs, limit, t)
    ensures WorldInv(planes, crtcs, After(planes, limit, t))
    decreases t
  {
    if t.Then? {
      hide Next, WorldInv, Enabled;
      RunsKeepWorld(planes, crtcs, limit, t.before);
      StepKeepsWorld(planes, crtcs, limit, After(planes, limit, t.before), t.e);
    }
  }

  /**
   * After any run, an accepted commit leaves exactly the request's layers on its CRTC, on a
   * device with at most 32 planes.
   */
  lemma OnlyTheLayersAreShown(planes: seq<Plane>, crtcs: set<Crtc>, limit: nat, t: Trace, r: nat)
    requires ValidPlanes(planes) && ValidCrtcs(crtcs) && |planes| <= DISABLE_LIMIT
    requires Legal(planes, crtcs, limit, Then(t, CommitReq(r, true)))
    ensures var w, w' := After(planes, limit, t), After(planes, limit, Then(t, CommitReq(r, true)));
            && r in w.reqs && Consistent(planes, w.reqs[r].st) && |w'.dev.kernel| == |planes|
            && ShowsExactly(planes, w.reqs[r].crtc, w.reqs[r].st, w'.dev.kernel)
  {
    hide Commit, CommitRequest, Describes, Partitioned, Stacked, ZposIncreases, Legal;
    var w := After(planes, limit, t);
    LegalBefore(planes, crtcs, limit, t, CommitReq(r, true));
    RunsKeepWorld(planes, crtcs, limit, t);
    ReqPartitioned(planes, w.reqs[r]);
    CommitShowsExactlyIff(planes, w.reqs[r].crtc, w.reqs[r].st, w.dev);
  }

  lemma LegalBefore(planes: seq<Plane>, crtcs: set<Crtc>, limit: nat, t: Trace, e: Event)
    requires Legal(planes, crtcs, limit, Then(t, e))
    ensures Legal(planes, crtcs, limit, t) && Enabled(planes, crtcs, After(planes, limit, t), e)
  {
  }

  /** 33 overlay planes for one CRTC, and only the last one is on. */
  ghost function ManyPlanes(): seq<Plane> {
    seq(33, (i: nat) => Plane(i + 1, Overlay, {0}, {}, None, None, None, None, None, false))
  }

  const FULL := View(Rect(0, 0, 640, 480), Rect(0, 0, 640, 480), 0, {}, 255, BlendNone)

  ghost function LastOneOn(): seq<PlaneState> {
    seq(33, (i: nat) => if i == 32 then PlaneState(7, 9, FULL) else PlaneState(0, 0, FULL))
  }

  /** A commit does not reach the 33rd plane: it stays on screen although no layer uses it. */
  lemma PlaneBeyondReachStaysOn()
    ensures var t := Then(Then(Start(LastOneOn()), Create(0, Crtc(7, 0))), CommitReq(0, true));
            && ValidPlanes(ManyPlanes()) && ValidCrtcs({Crtc(7, 0)}) && Legal(ManyPlanes(), {Crtc(7, 0)}, 100, t)
            && var w := After(ManyPlanes(), 100, t);
               0 in w.reqs && w.reqs[0].st.layers == [] && |w.dev.kernel| == 33 && ActiveOn(w.dev.kernel[32], 7)
  {
    hide *;
    StartsWithLastOneOn();
    EmptyCommit(ManyPlanes(), Crtc(7, 0), 100, LastOneOn(), 32);
  }

  /** The commit of an empty request, and the state of a plane out of its reach. */
  lemma EmptyCommit(planes: seq<Plane>, crtc: Crtc, limit: nat, kernel: seq<PlaneState>, i: nat)
    requires ValidPlanes(planes) && ValidCrtcs({crtc}) && |kernel| == |planes| && OnUsable(planes, {crtc}, kernel)
    requires NewRequest(planes, crtc).layers == [] && i < |planes| && OutOfReach(planes, crtc, i)
    ensures var t := Then(Then(Start(kernel), Create(0, crtc)), CommitReq(0, true));
            && Legal(planes, {crtc}, limit, t)
            && var w := After(planes, limit, t);
               0 in w.reqs && w.reqs[0].st.layers == [] && |w.dev.kernel| == |planes| && w.dev.kernel[i] == kernel[i]
  {
    hide Legal, After, WorldInv, ReqOk, Describes, Partitioned, OnUsable, ValidPlanes, Commit, CommitRequest, NewRequest, OutOfReach;
    var start := Then(Start(kernel), Create(0, crtc));
    OneRequest(planes, crtc, limit, kernel);
    var w, st := After(planes, limit, start), NewRequest(planes, crtc);
    OneInv(planes, crtc, w);
    OneStep(planes, {crtc}, limit, start, CommitReq(0, true));
    CommittedState(planes, crtc, st, w.dev, i);
    assert i !in Allocated(st.layers);
    CommitKeepsLayers(planes, crtc, st, w.dev);
  }

  lemma OneRequest(planes: seq<Plane>, crtc: Crtc, limit: nat, kernel: seq<PlaneState>)
    requires ValidPlanes(planes) && ValidCrtcs({crtc}) && |kernel| == |planes| && OnUsable(planes, {crtc}, kernel)
    ensures var start := Then(Start(kernel), Create(0, crtc));
            && Legal(planes, {crtc}, limit, start)
            && After(planes, limit, start) == World(map[0 := Req(crtc, NewRequest(planes, crtc))], PlaneStates(kernel, kernel))
            && WorldInv(planes, {crtc}, After(planes, limit, start))
  {
    hide Legal, After, Inv, Describes, ValidPlanes, OnUsable, NewRequest, ValidCrtcs, WorldInv;
    Starting(planes, {crtc}, limit, kernel);
    OneStep(planes, {crtc}, limit, Start(kernel), Create(0, crtc));
    RunsKeepWorld(planes, {crtc}, limit, Then(Start(kernel), Create(0, crtc)));
  }

  lemma OneInv(planes: seq<Plane>, crtc: Crtc, w: World)
    requires WorldInv(planes, {crtc}, w) && 0 in w.reqs && w.reqs[0].crtc == crtc
    ensures SameLength(planes, w.dev) && ShadowCovers(w.dev) && Consistent(planes, w.reqs[0].st)
    ensures Partitioned(planes, crtc, w.reqs[0].st) && Describes(planes, crtc, w.reqs[0].st)
  {
    ReqPartitioned(planes, w.reqs[0]);
  }

  lemma CommitKeepsLayers(planes: seq<Plane>, crtc: Crtc, st: Request, dev: PlaneStates)
    requires SameLength(planes, dev)
    ensures CommitRequest(planes, crtc, st, dev).layers == st.layers
    ensures |Commit(planes, crtc, st, dev, true).kernel| == |planes|
  {
  }

  lemma Starting(planes: seq<Plane>, crtcs: set<Crtc>, limit: nat, kernel: seq<PlaneState>)
    requires |kernel| == |planes| && OnUsable(planes, crtcs, kernel)
    ensures Legal(planes, crtcs, limit, Start(kernel))
    ensures After(planes, limit, Start(kernel)) == World(map[], PlaneStates(kernel, kernel))
  {
  }

  lemma OneStep(planes: seq<Plane>, crtcs: set<Crtc>, limit: nat, t: Trace, e: Event)
    requires Legal(planes, crtcs, limit, t) && Enabled(planes, crtcs, After(planes, limit, t), e)
    ensures Legal(planes, crtcs, limit, Then(t, e))
    ensures After(planes, limit, Then(t, e)) == Next(planes, limit, After(planes, limit, t), e)
  {
    hide Enabled, Next;
  }

  lemma StartsWithLastOneOn()
    ensures var planes, crtc, kernel := ManyPlanes(), Crtc(7, 0), LastOneOn();
            && ValidPlanes(planes) && ValidCrtcs({crtc}) && OnUsable(planes, {crtc}, kernel)
            && |planes| == |kernel| == 33 && ActiveOn(kernel[32], 7)
            && NewRequest(planes, crtc).layers == [] && OutOfReach(planes, crtc, 32)
  {
  }
}
