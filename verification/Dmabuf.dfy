/**
 * Buffers that producers hand to dmabuf surfaces, and when they get them back.
 *
 * A buffer is reference-counted: by the surface that will show it next, by every KMS request
 * with a layer of it, and by callers that took it out of a surface and release it outside
 * the lock. Requests are those of `KmsRetire`; a layer's release callback drops its buffer.
 */
module Dmabuf {
  import opened Counting
  import opened Options
  import K = KmsRetire
  import P = KmsPlanes

  // One buffer.

  /** `fb` says whether the buffer has a framebuffer; a rejected buffer was never queued. */
  datatype Buf = Buf(accepted: bool, refs: int, fb: bool, importFailed: bool)

  datatype Event = FbAdded(buf: nat) | FbRemoved(buf: nat) | ReturnedToProducer(buf: nat)

  const ACCEPTED := Buf(true, 1, false, false)
  const REJECTED := Buf(false, 0, false, false)

  /** The framebuffer goes first: the producer renders into the buffer again. */
  function Destroy(id: nat, b: Buf): seq<Event> {
    if b.fb then [FbRemoved(id), ReturnedToProducer(id)] else [ReturnedToProducer(id)]
  }

  /** What presenting a buffer does; `queued` says whether a request now has a layer of it. */
  datatype Presented = Presented(buf: Buf, events: seq<Event>, queued: bool)

  function Import(id: nat, b: Buf, importOk: bool): Presented {
    if b.importFailed then Presented(b, [], false)
    else if b.fb then Presented(b, [], true)
    else if importOk then Presented(b.(fb := true), [FbAdded(id)], true)
    else Presented(b.(importFailed := true), [], false)
  }

  function Present(id: nat, b: Buf, importOk: bool, pushOk: bool): Presented {
    var p := Import(id, b, importOk);
    if !p.queued then p
    else if pushOk then p.(buf := p.buf.(refs := p.buf.refs + 1))
    else p.(queued := false)
  }

  const DRM_ID_NONE := 0xFFFF_FFFF

  predicate IsValidId(id: nat) { id != 0 && id != DRM_ID_NONE }

  /** The size and layout of a buffer. */
  datatype BufferLayout = BufferLayout(width: nat, height: nat, format: P.Pixfmt, modifier: Option<nat>)

  class RefcountedDmabuf {
    const id: nat
    const layout: BufferLayout
    var nRefs: int
    var drmFbId: nat
    var importFailed: bool

    ghost function Value(): Buf
      reads this
    {
      Buf(true, nRefs, IsValidId(drmFbId), importFailed)
    }

    constructor (id: nat, layout: BufferLayout)
      ensures this.id == id && this.layout == layout && Value() == ACCEPTED
    {
      this.id, this.layout, nRefs, drmFbId, importFailed := id, layout, 1, DRM_ID_NONE, false;
    }

    method Ref()
      modifies this`nRefs
      ensures Value() == old(Value()).(refs := old(nRefs) + 1)
    {
      nRefs := nRefs + 1;
    }

    method Unref() returns (events: seq<Event>)
      modifies this`nRefs
      ensures Value() == old(Value()).(refs := old(nRefs) - 1)
      ensures events == if old(nRefs) == 1 then Destroy(id, old(Value())) else []
    {
      nRefs := nRefs - 1;
      events := [];
      if nRefs == 0 {
        if IsValidId(drmFbId) {
          events := [FbRemoved(id)];
        }
        events := events + [ReturnedToProducer(id)];
      }
    }
  }

  class DmabufSurface {
    var nextBuf: RefcountedDmabuf?

    constructor ()
      ensures nextBuf == null
    {
      nextBuf := null;
    }

    /** `posted` is the answer of the texture. The buffer taken out is for the caller to release. */
    method PushDmabuf(id: nat, layout: BufferLayout, posted: nat) returns (ok: nat, previous: RefcountedDmabuf?)
      modifies this
      ensures ok == posted
      ensures if posted == 0 then nextBuf != null && fresh(nextBuf) && nextBuf.id == id && nextBuf.layout == layout && nextBuf.Value() == ACCEPTED
                                  && previous == old(nextBuf)
              else nextBuf == old(nextBuf) && previous == null
    {
      previous := null;
      var b := new RefcountedDmabuf(id, layout);
      if posted != 0 {
        return posted, previous;
      }
      previous := nextBuf;
      nextBuf := b;
      ok := 0;
    }

    method Clear() returns (buffer: RefcountedDmabuf?)
      modifies this
      ensures nextBuf == null && buffer == old(nextBuf)
    {
      buffer := nextBuf;
      nextBuf := null;
    }

    /**
     * `fbId` is the kernel's answer to an import, no valid id if it fails; `pushed` that of
     * the request. A layer that is offered to the request shows the whole buffer in `rect`.
     */
    method PresentKms(rect: P.Rect, fbId: nat, pushed: nat) returns (ok: nat, events: seq<Event>, offered: Option<P.Layer>)
      requires nextBuf != null ==> nextBuf.nRefs >= 1
      modifies nextBuf
      ensures nextBuf == null ==> ok == 0 && events == [] && offered == None
      ensures nextBuf != null ==>
                var x, y := old(nextBuf.Value()), nextBuf.Value();
                var p := Present(nextBuf.id, x, IsValidId(fbId), pushed == 0);
                && y == p.buf && events == p.events
                && (offered.Some? <==> !x.importFailed && (x.fb || IsValidId(fbId)))
                && ok == (if offered.Some? then pushed else 0)
                && nextBuf.drmFbId == (if !x.importFailed && !x.fb && IsValidId(fbId) then fbId else old(nextBuf.drmFbId))
                && (offered.Some? ==>
                      var z := nextBuf.layout;
                      offered.value == P.Layer(nextBuf.drmFbId, z.format, z.modifier,
                                               P.Rect(0, 0, z.width * 0x1_0000, z.height * 0x1_0000), rect,
                                               None, false, None, false))
    {
      events, offered := [], None;
      if nextBuf == null || nextBuf.importFailed {
        return 0, events, offered;
      }
      if !IsValidId(nextBuf.drmFbId) {
        if !IsValidId(fbId) {
          nextBuf.importFailed := true;
          return 0, events, offered;
        }
        nextBuf.drmFbId := fbId;
        events := [FbAdded(nextBuf.id)];
      }
      var z := nextBuf.layout;
      offered := Some(P.Layer(nextBuf.drmFbId, z.format, z.modifier,
                              P.Rect(0, 0, z.width * 0x1_0000, z.height * 0x1_0000), rect, None, false, None, false));
      nextBuf.Ref();
      if pushed != 0 {
        var more := nextBuf.Unref();
        events := events + more;
        return pushed, events, offered;
      }
      ok := 0;
    }
  }

  // All surfaces and requests together.

  /**
   * `next` is per surface. `holds` are the layers ever queued, with their buffer until the
   * layer's callback has run; `layerOf` says of each which request and layer it is. `inHand`
   * are buffers taken out of a surface and not yet released.
   */
  datatype World = World(
    kms: K.World, bufs: seq<Buf>, next: seq<Option<nat>>, inHand: multiset<nat>,
    holds: seq<Option<nat>>, layerOf: seq<(nat, nat)>, log: seq<Event>)

  datatype Action =
    | PushDmabuf(s: nat, ok: bool)
    | Clear(s: nat)
    | PresentKms(s: nat, r: nat, importOk: bool, pushOk: bool)
    | Release(b: nat)
    | Callback(k: nat)
    | Kms(a: K.Action)

  /** What is held are buffers that exist. */
  ghost predicate InRange(w: World) {
    && |w.holds| == |w.layerOf|
    && (forall s :: 0 <= s < |w.next| && w.next[s].Some? ==> w.next[s].value < |w.bufs|)
    && (forall k :: 0 <= k < |w.holds| && w.holds[k].Some? ==> w.holds[k].value < |w.bufs|)
    && (forall b | b in w.inHand :: b < |w.bufs|)
  }

  ghost predicate Shape(w: World) { K.Inv(w.kms) && InRange(w) }

  ghost predicate Enabled(w: World, a: Action) {
    match a
    case PushDmabuf(s, _) => s < |w.next|
    case Clear(s) => s < |w.next|
    case PresentKms(s, r, _, _) => s < |w.next| && K.Held(w.kms, r)
    case Release(b) => b in w.inHand
    case Callback(k) => k < |w.holds| == |w.layerOf| && w.holds[k].Some? && K.Gone(w.kms, w.layerOf[k].0)
    case Kms(a) => K.Enabled(w.kms, a)
  }

  function TakenOut(inHand: multiset<nat>, b: Option<nat>): multiset<nat> {
    if b.Some? then inHand + multiset{b.value} else inHand
  }

  ghost function Unref(w: World, b: nat): World
    requires b < |w.bufs|
  {
    w.(bufs := w.bufs[b := w.bufs[b].(refs := w.bufs[b].refs - 1)],
       log := if w.bufs[b].refs == 1 then w.log + Destroy(b, w.bufs[b]) else w.log)
  }

  ghost function Next(w: World, a: Action): World
    requires Shape(w) && Enabled(w, a)
  {
    match a
    case PushDmabuf(s, ok) =>
      if ok then w.(bufs := w.bufs + [ACCEPTED], next := w.next[s := Some(|w.bufs|)], inHand := TakenOut(w.inHand, w.next[s]))
      else w.(bufs := w.bufs + [REJECTED])
    case Clear(s) => w.(next := w.next[s := None], inHand := TakenOut(w.inHand, w.next[s]))
    case PresentKms(s, r, importOk, pushOk) =>
      if w.next[s].None? then w
      else
        var b := w.next[s].value;
        var p := Present(b, w.bufs[b], importOk, pushOk);
        var w' := w.(bufs := w.bufs[b := p.buf], log := w.log + p.events);
        if !p.queued then w'
        else
          w'.(kms := K.Next(w.kms, K.AddLayer(r, false)),
              holds := w.holds + [Some(b)], layerOf := w.layerOf + [(r, |w.kms.layers[r]|)])
    case Release(b) => Unref(w.(inHand := w.inHand - multiset{b}), b)
    case Callback(k) => Unref(w.(holds := w.holds[k := None]), w.holds[k].value)
    case Kms(a) =>
      K.StepKeepsInv(w.kms, a);
      w.(kms := K.Next(w.kms, a))
  }

  // References.

  ghost function Holders(w: World, b: nat): int {
    multiset(w.next)[Some(b)] + w.inHand[b] + multiset(w.holds)[Some(b)]
  }

  ghost predicate RefInv(w: World) {
    && (forall b :: 0 <= b < |w.bufs| ==> w.bufs[b].refs == Holders(w, b))
    && (forall b: nat :: b >= |w.bufs| ==> Holders(w, b) == 0)
  }

  /** A layer's hold on its buffer lasts at least as long as its request. */
  ghost predicate HoldInv(w: World) {
    && |w.holds| == |w.layerOf| && |w.kms.layers| == |w.kms.refs|
    && forall k :: 0 <= k < |w.holds| ==>
         && w.layerOf[k].0 < |w.kms.refs| && w.layerOf[k].1 < |w.kms.layers[w.layerOf[k].0]|
         && (w.kms.refs[w.layerOf[k].0] > 0 ==> w.holds[k].Some?)
  }

  /** The number of holders of buffer `b` that an action adds. */
  ghost function Delta(w: World, a: Action, b: nat): int
    requires Shape(w) && Enabled(w, a)
  {
    match a
    case PushDmabuf(_, ok) => if ok && b == |w.bufs| then 1 else 0
    case Clear(_) => 0
    case PresentKms(s, _, importOk, pushOk) =>
      if w.next[s] == Some(b) && Present(b, w.bufs[b], importOk, pushOk).queued then 1 else 0
    case Release(x) => if b == x then -1 else 0
    case Callback(k) => if w.holds[k] == Some(b) then -1 else 0
    case Kms(_) => 0
  }

  lemma PresentFields(w: World, a: Action)
    requires Shape(w) && Enabled(w, a) && a.PresentKms?
    ensures var w' := Next(w, a);
            && w'.next == w.next && w'.inHand == w.inHand
            && (if w.next[a.s].Some?
                   && Present(w.next[a.s].value, w.bufs[w.next[a.s].value], a.importOk, a.pushOk).queued
                then w'.holds == w.holds + [w.next[a.s]] else w'.holds == w.holds)
  {
    hide K.Inv, K.Next, Present;
  }

  /** The counts of all buffers change as the numbers of their holders do. */
  ghost predicate RefsMove(w: World, a: Action)
    requires Shape(w) && Enabled(w, a)
  {
    var w' := Next(w, a);
    && |w'.bufs| == |w.bufs| + (if a.PushDmabuf? then 1 else 0)
    && (forall b :: 0 <= b < |w'.bufs| ==>
          w'.bufs[b].refs == (if b < |w.bufs| then w.bufs[b].refs else 0) + Delta(w, a, b))
    && forall b: nat :: b >= |w'.bufs| ==> Delta(w, a, b) == 0
  }

  lemma PresentMovesRefs(w: World, a: Action)
    requires Shape(w) && Enabled(w, a) && a.PresentKms?
    ensures RefsMove(w, a)
  {
    hide K.Inv, K.Next, Destroy;
  }

  lemma UnrefMovesRefs(w: World, a: Action)
    requires Shape(w) && Enabled(w, a) && (a.Release? || a.Callback?)
    ensures RefsMove(w, a)
  {
    hide K.Inv, K.Next, Destroy;
  }

  lemma RefsChange(w: World, a: Action)
    requires Shape(w) && Enabled(w, a)
    ensures RefsMove(w, a)
  {
    hide K.Inv, K.Next, Destroy;
    if a.PresentKms? {
      hide *;
      PresentMovesRefs(w, a);
    } else if a.Release? || a.Callback? {
      hide *;
      UnrefMovesRefs(w, a);
    }
  }

  lemma TakingOutKeepsHolders(w: World, a: Action, b: nat)
    requires Shape(w) && Enabled(w, a) && (a.PushDmabuf? || a.Clear?)
    ensures Holders(Next(w, a), b) == Holders(w, b) + Delta(w, a, b)
  {
    hide K.Inv, K.Next, Destroy, Present;
    if a.Clear? {
      UpdateCount(w.next, a.s, None, Some(b));
    } else if a.ok {
      UpdateCount(w.next, a.s, Some(|w.bufs|), Some(b));
    }
  }

  lemma PresentMovesHolders(w: World, a: Action, b: nat)
    requires Shape(w) && Enabled(w, a) && a.PresentKms?
    ensures Holders(Next(w, a), b) == Holders(w, b) + Delta(w, a, b)
  {
    hide Next, K.Inv, Present;
    PresentFields(w, a);
    if w.next[a.s].Some? {
      SnocCount(w.holds, w.next[a.s], Some(b));
    }
  }

  lemma HoldersChange(w: World, a: Action, b: nat)
    requires Shape(w) && Enabled(w, a)
    ensures Holders(Next(w, a), b) == Holders(w, b) + Delta(w, a, b)
  {
    hide K.Inv, K.Next, Destroy, Present;
    if a.PushDmabuf? || a.Clear? {
      hide *;
      TakingOutKeepsHolders(w, a, b);
    } else if a.PresentKms? {
      hide *;
      PresentMovesHolders(w, a, b);
    } else if a.Callback? {
      UpdateCount(w.holds, a.k, None, Some(b));
    }
  }

  lemma StepKeepsRefs(w: World, a: Action)
    requires Shape(w) && Enabled(w, a) && RefInv(w)
    ensures RefInv(Next(w, a))
  {
    hide Next, Holders, Shape, Enabled;
    RefsChange(w, a);
    var w' := Next(w, a);
    forall b: nat
      ensures b < |w'.bufs| ==> w'.bufs[b].refs == Holders(w', b)
      ensures b >= |w'.bufs| ==> Holders(w', b) == 0
    {
      HoldersChange(w, a, b);
    }
  }

  lemma StepKeepsRange(w: World, a: Action)
    requires Shape(w) && Enabled(w, a)
    ensures InRange(Next(w, a))
  {
    hide K.Inv, K.Next, Destroy, Present;
    if a.PresentKms? {
      hide *;
      PresentKeepsRange(w, a);
    } else if a.Release? || a.Callback? {
      hide *;
      UnrefKeepsRange(w, a);
    }
  }

  lemma PresentKeepsRange(w: World, a: Action)
    requires Shape(w) && Enabled(w, a) && a.PresentKms?
    ensures InRange(Next(w, a))
  {
    hide K.Inv, K.Next, Destroy, Present;
  }

  lemma UnrefKeepsRange(w: World, a: Action)
    requires Shape(w) && Enabled(w, a) && (a.Release? || a.Callback?)
    ensures InRange(Next(w, a))
  {
    hide K.Inv, K.Next, Destroy, Present;
  }

  lemma StepKeepsShape(w: World, a: Action)
    requires Shape(w) && Enabled(w, a)
    ensures Shape(Next(w, a))
  {
    StepKeepsRange(w, a);
    hide K.Inv, K.Next, Destroy, Present, InRange;
    if a.PresentKms? {
      K.StepKeepsInv(w.kms, K.AddLayer(a.r, false));
    } else if a.Kms? {
      K.StepKeepsInv(w.kms, a.a);
    }
  }

  lemma PresentKeepsHolds(w: World, a: Action)
    requires Shape(w) && Enabled(w, a) && HoldInv(w) && a.PresentKms?
    ensures HoldInv(Next(w, a))
  {
    K.HeldIsAlive(w.kms, a.r);
    hide Destroy, Present, K.Inv, InRange;
  }

  lemma CallbackKeepsHolds(w: World, a: Action)
    requires Shape(w) && Enabled(w, a) && HoldInv(w) && a.Callback?
    ensures HoldInv(Next(w, a))
  {
    hide Destroy, K.Inv;
  }

  lemma KmsKeepsHolds(w: World, a: Action)
    requires Shape(w) && Enabled(w, a) && HoldInv(w) && a.Kms?
    ensures HoldInv(Next(w, a))
  {
    KmsKeepsGone(w.kms, a.a);
    hide K.Inv, K.Next, K.Enabled, InRange;
  }

  lemma StepKeepsHolds(w: World, a: Action)
    requires Shape(w) && Enabled(w, a) && HoldInv(w)
    ensures HoldInv(Next(w, a))
  {
    hide Destroy, Present, K.Inv, K.Next, K.Enabled;
    if a.PresentKms? {
      hide *;
      PresentKeepsHolds(w, a);
    } else if a.Kms? {
      hide *;
      KmsKeepsHolds(w, a);
    } else if a.Callback? {
      hide *;
      CallbackKeepsHolds(w, a);
    }
  }

  lemma KmsLayersGrow(w: K.World, a: K.Action)
    requires K.Defined(w, a)
    ensures var w' := K.Next(w, a);
            |w'.layers| >= |w.layers| && forall r :: 0 <= r < |w.layers| ==> |w'.layers[r]| >= |w.layers[r]|
  {
    hide K.Destroyed, K.FlipSection, K.PopSection, K.SetCallback;
  }

  lemma KmsRefsFromLife(w: K.World, a: K.Action)
    requires K.Defined(w, a) && K.RefInv(w)
    ensures forall r :: 0 <= r < |w.refs| && K.Next(w, a).refs[r] > 0 ==> w.refs[r] > 0
    ensures |K.Next(w, a).refs| >= |w.refs| && |K.Next(w, a).layers| == |K.Next(w, a).refs|
  {
    K.RefsChange(w, a);
    if a.Ref? || (a.Commit? && a.accepted) {
      K.HeldIsAlive(w, a.r);
    }
    hide K.Next, K.RefInv;
  }

  /** Requests keep their layers, and destroyed requests stay destroyed. */
  lemma KmsKeepsGone(w: K.World, a: K.Action)
    requires K.Inv(w) && K.Enabled(w, a)
    ensures K.Defined(w, a)
    ensures var w' := K.Next(w, a);
            && |w'.layers| == |w'.refs| >= |w.refs| == |w.layers|
            && forall r :: 0 <= r < |w.refs| ==>
                 |w'.layers[r]| >= |w.layers[r]| && (w'.refs[r] > 0 ==> w.refs[r] > 0)
  {
    K.StepKeepsInv(w, a);
    hide K.Next, K.DoneInv, K.FlipInv, K.CallbackInv, K.Enabled;
    KmsLayersGrow(w, a);
    KmsRefsFromLife(w, a);
    hide K.RefInv;
  }

  // What producers see.

  /** The events of one buffer, in order. */
  ghost function Of(log: seq<Event>, b: nat): seq<Event> {
    if log == [] then []
    else if log[|log| - 1].buf == b then Of(log[..|log| - 1], b) + [log[|log| - 1]]
    else Of(log[..|log| - 1], b)
  }

  /** All that can have happened to a buffer: it comes back once, after its framebuffer went. */
  ghost function Life(b: nat, x: Buf): seq<Event> {
    if !x.accepted then []
    else if x.refs > 0 then if x.fb then [FbAdded(b)] else []
    else (if x.fb then [FbAdded(b)] else []) + Destroy(b, x)
  }

  ghost predicate LogInv(w: World) {
    && (forall b :: 0 <= b < |w.bufs| ==> Of(w.log, b) == Life(b, w.bufs[b]) && (!w.bufs[b].accepted ==> w.bufs[b].refs == 0))
    && (forall b: nat :: b >= |w.bufs| ==> Of(w.log, b) == [])
  }

  lemma {:induction false} OfConcat(log: seq<Event>, more: seq<Event>, b: nat)
    ensures Of(log + more, b) == Of(log, b) + Of(more, b)
  {
    if more == [] {
      assert log + more == log;
    } else {
      assert (log + more)[..|log + more| - 1] == log + more[..|more| - 1];
      OfConcat(log, more[..|more| - 1], b);
    }
  }

  lemma OfOne(e: Event, b: nat)
    ensures Of([], b) == [] && Of([e], b) == if e.buf == b then [e] else []
  {
    assert [e][..0] == [];
  }

  lemma OfDestroy(id: nat, x: Buf, b: nat)
    ensures Of(Destroy(id, x), b) == if id == b then Destroy(id, x) else []
  {
    OfOne(ReturnedToProducer(id), b);
    OfOne(FbRemoved(id), b);
    OfConcat([FbRemoved(id)], [ReturnedToProducer(id)], b);
    assert [FbRemoved(id)] + [ReturnedToProducer(id)] == [FbRemoved(id), ReturnedToProducer(id)];
  }

  lemma UnrefKeepsLog(w: World, x: nat)
    requires LogInv(w) && x < |w.bufs| && w.bufs[x].refs > 0
    ensures LogInv(Unref(w, x))
  {
    hide Of, Destroy;
    var w' := Unref(w, x);
    forall b: nat
      ensures b < |w'.bufs| ==> Of(w'.log, b) == Life(b, w'.bufs[b])
      ensures b >= |w'.bufs| ==> Of(w'.log, b) == []
    {
      OfDestroy(x, w.bufs[x], b);
      OfConcat(w.log, Destroy(x, w.bufs[x]), b);
      SameDestroy(x, w.bufs[x], w'.bufs[x]);
    }
  }

  lemma SameDestroy(b: nat, x: Buf, y: Buf)
    requires x.fb == y.fb
    ensures Destroy(b, x) == Destroy(b, y)
  {
  }

  lemma PresentKeepsLog(w: World, x: nat, importOk: bool, pushOk: bool)
    requires LogInv(w) && x < |w.bufs| && w.bufs[x].refs > 0
    ensures var p := Present(x, w.bufs[x], importOk, pushOk);
            LogInv(w.(bufs := w.bufs[x := p.buf], log := w.log + p.events))
  {
    hide Of, Destroy;
    var p := Present(x, w.bufs[x], importOk, pushOk);
    assert p.events == [] || (p.events == [FbAdded(x)] && !w.bufs[x].fb);
    var w' := w.(bufs := w.bufs[x := p.buf], log := w.log + p.events);
    forall b: nat
      ensures b < |w'.bufs| ==> Of(w'.log, b) == Life(b, w'.bufs[b])
      ensures b >= |w'.bufs| ==> Of(w'.log, b) == []
    {
      OfConcat(w.log, p.events, b);
      OfOne(FbAdded(x), b);
    }
  }

  lemma NewKeepsLog(w: World, x: Buf)
    requires LogInv(w) && (x == ACCEPTED || x == REJECTED)
    ensures LogInv(w.(bufs := w.bufs + [x]))
  {
    hide Of;
  }

  lemma HeldBuffers(w: World, b: nat)
    requires RefInv(w) && Holders(w, b) > 0
    ensures b < |w.bufs| && w.bufs[b].refs > 0
  {
  }

  lemma StepKeepsLog(w: World, a: Action)
    requires Shape(w) && Enabled(w, a) && RefInv(w) && LogInv(w)
    ensures LogInv(Next(w, a))
  {
    hide K.Inv, K.Next, RefInv, LogInv, Unref;
    if a.PushDmabuf? {
      NewKeepsLog(w, if a.ok then ACCEPTED else REJECTED);
      SameLog(w.(bufs := w.bufs + [if a.ok then ACCEPTED else REJECTED]), Next(w, a));
    } else if a.PresentKms? {
      if w.next[a.s].Some? {
        var b := w.next[a.s].value;
        assert w.next[a.s] in multiset(w.next);
        HeldBuffers(w, b);
        PresentKeepsLog(w, b, a.importOk, a.pushOk);
        var p := Present(b, w.bufs[b], a.importOk, a.pushOk);
        SameLog(w.(bufs := w.bufs[b := p.buf], log := w.log + p.events), Next(w, a));
      }
    } else if a.Release? {
      HeldBuffers(w, a.b);
      var w' := w.(inHand := w.inHand - multiset{a.b});
      SameLog(w, w');
      UnrefKeepsLog(w', a.b);
    } else if a.Callback? {
      assert w.holds[a.k] in multiset(w.holds);
      HeldBuffers(w, w.holds[a.k].value);
      var w' := w.(holds := w.holds[a.k := None]);
      SameLog(w, w');
      UnrefKeepsLog(w', w.holds[a.k].value);
    } else {
      SameLog(w, Next(w, a));
    }
  }

  lemma SameLog(w: World, w': World)
    requires LogInv(w) && w'.bufs == w.bufs && w'.log == w.log
    ensures LogInv(w')
  {
  }

  // Whole runs.

  datatype Trace = Start(surfaces: nat, crtcs: nat) | Then(before: Trace, a: Action)

  ghost predicate Inv(w: World) { Shape(w) && RefInv(w) && HoldInv(w) && LogInv(w) }

  ghost function Initial(surfaces: nat, crtcs: nat): World {
    World(K.Initial(crtcs), [], seq(surfaces, _ => None), multiset{}, [], [], [])
  }

  ghost function After(t: Trace): World {
    match t
    case Start(surfaces, crtcs) => Initial(surfaces, crtcs)
    case Then(before, a) =>
      if Shape(After(before)) && Enabled(After(before), a) then Next(After(before), a) else After(before)
  }

  ghost predicate Legal(t: Trace) {
    match t
    case Start(_, _) => true
    case Then(before, a) => Legal(before) && Enabled(After(before), a)
  }

  lemma InitialInv(surfaces: nat, crtcs: nat)
    ensures Inv(Initial(surfaces, crtcs))
  {
    K.InitialInv(crtcs);
    hide K.Inv;
    var w := Initial(surfaces, crtcs);
    forall b: nat ensures Holders(w, b) == 0 {
      assert Some(b) !in w.next && Some(b) !in multiset(w.next);
    }
  }

  lemma {:induction false} RunsKeepInv(t: Trace)
    requires Legal(t)
    ensures Inv(After(t))
    decreases t
  {
    if t.Start? {
      InitialInv(t.surfaces, t.crtcs);
    } else {
      hide Next, Shape, RefInv, HoldInv, LogInv, Enabled;
      RunsKeepInv(t.before);
      var w := After(t.before);
      StepKeepsShape(w, t.a);
      StepKeepsRefs(w, t.a);
      StepKeepsHolds(w, t.a);
      StepKeepsLog(w, t.a);
    }
  }

  /**
   * The whole story of a buffer, in every run. A rejected push leaves no trace. An accepted
   * buffer comes back to its producer exactly once nobody holds it, never twice, and if it
   * had a framebuffer that was removed just before.
   */
  lemma BufferStory(t: Trace, b: nat)
    requires Legal(t) && b < |After(t).bufs|
    ensures var w := After(t); var x := w.bufs[b];
            && (!x.accepted ==> Of(w.log, b) == [])
            && (x.accepted && Holders(w, b) > 0 ==> Of(w.log, b) == if x.fb then [FbAdded(b)] else [])
            && (x.accepted && Holders(w, b) == 0 ==>
                  Of(w.log, b) == if x.fb then [FbAdded(b), FbRemoved(b), ReturnedToProducer(b)] else [ReturnedToProducer(b)])
  {
    RunsKeepInv(t);
    hide After, Legal, Holders, Shape, HoldInv, Of;
  }

  lemma {:induction false} OfMember(log: seq<Event>, e: Event)
    ensures e in Of(log, e.buf) <==> e in log
  {
    if log != [] {
      OfMember(log[..|log| - 1], e);
      assert log == log[..|log| - 1] + [log[|log| - 1]];
    }
  }

  /** A buffer that a surface will show next was not given back. */
  lemma NextBufferIsKept(t: Trace, s: nat)
    requires Legal(t) && s < |After(t).next| && After(t).next[s].Some?
    ensures ReturnedToProducer(After(t).next[s].value) !in After(t).log
  {
    RunsKeepInv(t);
    var w := After(t);
    hide After, Legal, Of, HoldInv;
    var b := w.next[s].value;
    assert w.next[s] in multiset(w.next);
    HeldBuffers(w, b);
    OfMember(w.log, ReturnedToProducer(b));
  }

  /**
   * A buffer with a layer in a request that is alive was not given back. This holds in
   * particular for the requests in the kernel and on screen.
   */
  lemma ScannedOutBufferIsKept(t: Trace, k: nat)
    requires Legal(t) && k < |After(t).layerOf|
    requires var r := After(t).layerOf[k].0; r < |After(t).kms.refs| && After(t).kms.refs[r] > 0
    ensures var w := After(t);
            && k < |w.holds| && w.holds[k].Some? && ReturnedToProducer(w.holds[k].value) !in w.log
  {
    RunsKeepInv(t);
    var w := After(t);
    hide After, Legal, Of;
    var b := w.holds[k].value;
    assert w.holds[k] in multiset(w.holds);
    HeldBuffers(w, b);
    OfMember(w.log, ReturnedToProducer(b));
  }

  /** The same, from the CRTC's point of view: in the kernel or on screen. */
  lemma OnScreenBufferIsKept(t: Trace, c: nat, k: nat)
    requires Legal(t) && k < |After(t).layerOf| && K.Shape(After(t).kms) && c < |After(t).kms.pending|
    requires K.OnScreen(After(t).kms, c, After(t).layerOf[k].0)
    ensures var w := After(t);
            && k < |w.holds| && w.holds[k].Some? && ReturnedToProducer(w.holds[k].value) !in w.log
  {
    RunsKeepInv(t);
    var w := After(t);
    hide After, Legal, K.OnScreen, K.RefInv, K.DoneInv, K.FlipInv, K.CallbackInv;
    K.OnScreenIsAlive(w.kms, c, w.layerOf[k].0);
    ScannedOutBufferIsKept(t, k);
  }
}
