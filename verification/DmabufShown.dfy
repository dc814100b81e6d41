/** Which buffers dmabuf surfaces get on screen. */
module DmabufShown {
  import opened Options
  import opened Dmabuf
  import K = KmsRetire

  lemma LegalStep(t: Trace, a: Action)
    requires Legal(Then(t, a))
    ensures Legal(t) && Shape(After(t)) && Enabled(After(t), a) && After(Then(t, a)) == Next(After(t), a)
  {
    RunsKeepInv(t);
    hide Next, Enabled, Shape, RefInv, HoldInv, LogInv;
  }

  /** The buffer that surface `s` will show next can be shown: it has a framebuffer, or gets one now. */
  ghost predicate CanShow(w: World, s: nat, importOk: bool)
    requires s < |w.next| && Shape(w)
  {
    w.next[s].Some? && var x := w.bufs[w.next[s].value]; !x.importFailed && (x.fb || importOk)
  }

  /** Nothing but the framebuffer of buffer `b` and the memory of a failed import changes. */
  ghost predicate OnlyImported(w: World, w': World, b: nat)
    requires b < |w.bufs| == |w'.bufs|
  {
    w'.kms == w.kms && w'.holds == w.holds && w'.layerOf == w.layerOf && w'.bufs[b].refs == w.bufs[b].refs
  }

  /** The buffer `b`, presented: the framebuffer it has or gets, a failure to import, and the event. */
  ghost predicate Imported(w: World, w': World, b: nat, importOk: bool)
    requires b < |w.bufs|
  {
    var x := w.bufs[b];
    && |w'.bufs| == |w.bufs| && (forall c :: 0 <= c < |w.bufs| && c != b ==> w'.bufs[c] == w.bufs[c])
    && w'.next == w.next && w'.inHand == w.inHand && w'.bufs[b].accepted == x.accepted
    && w'.bufs[b].fb == (x.fb || (!x.importFailed && importOk))
    && w'.bufs[b].importFailed == (x.importFailed || (!x.fb && !importOk))
    && w'.log == (if !x.importFailed && !x.fb && importOk then w.log + [FbAdded(b)] else w.log)
  }

  /** Request `r` has one more layer, which holds buffer `b`. */
  ghost predicate LayerShown(w: World, w': World, b: nat, r: nat)
    requires b < |w.bufs| == |w'.bufs| && r < |w.kms.layers|
  {
    && w'.kms.layers == w.kms.layers[r := w.kms.layers[r] + [false]]
    && w'.holds == w.holds + [Some(b)] && w'.layerOf == w.layerOf + [(r, |w.kms.layers[r]|)]
    && w'.bufs[b].refs == w.bufs[b].refs + 1
  }

  /**
   * A present adds exactly one layer to the request, which holds the buffer, if the buffer
   * has a framebuffer or its first import succeeds, and the request takes the layer. In all
   * other cases no request and no hold changes.
   */
  lemma PresentShowsIff(t: Trace, s: nat, r: nat, importOk: bool, pushOk: bool)
    requires Legal(Then(t, PresentKms(s, r, importOk, pushOk)))
    ensures var w, w' := After(t), After(Then(t, PresentKms(s, r, importOk, pushOk)));
            && Shape(w) && s < |w.next| && r < |w.kms.layers|
            && (w.next[s].None? ==> w' == w)
            && (w.next[s].Some? ==>
                  && Imported(w, w', w.next[s].value, importOk)
                  && if CanShow(w, s, importOk) && pushOk then LayerShown(w, w', w.next[s].value, r)
                     else OnlyImported(w, w', w.next[s].value))
  {
    var a := PresentKms(s, r, importOk, pushOk);
    hide After, Legal, Next, Imported, LayerShown, OnlyImported, CanShow;
    LegalStep(t, a);
    PresentStep(After(t), s, r, importOk, pushOk);
  }

  lemma PresentStep(w: World, s: nat, r: nat, importOk: bool, pushOk: bool)
    requires Shape(w) && Enabled(w, PresentKms(s, r, importOk, pushOk))
    ensures var w' := Next(w, PresentKms(s, r, importOk, pushOk));
            && r < |w.kms.layers|
            && (w.next[s].None? ==> w' == w)
            && (w.next[s].Some? ==>
                  && Imported(w, w', w.next[s].value, importOk)
                  && if CanShow(w, s, importOk) && pushOk then LayerShown(w, w', w.next[s].value, r)
                     else OnlyImported(w, w', w.next[s].value))
  {
    hide K.Inv, K.Next;
    LayerAdded(w.kms, r);
    if w.next[s].Some? {
      var b := w.next[s].value;
      hide Destroy;
      PresentOutcome(b, w.bufs[b], importOk, pushOk);
      hide Present;
    }
  }

  lemma PresentOutcome(b: nat, x: Buf, importOk: bool, pushOk: bool)
    ensures var p, shows := Present(b, x, importOk, pushOk), !x.importFailed && (x.fb || importOk) && pushOk;
            && p.queued == shows
            && p.buf == Buf(x.accepted, if shows then x.refs + 1 else x.refs, x.fb || (!x.importFailed && importOk),
                            x.importFailed || (!x.fb && !importOk))
            && p.events == if !x.importFailed && !x.fb && importOk then [FbAdded(b)] else []
  {
  }

  lemma LayerAdded(w: K.World, r: nat)
    requires K.Inv(w) && K.Held(w, r)
    ensures r < |w.layers| && K.Defined(w, K.AddLayer(r, false))
    ensures K.Next(w, K.AddLayer(r, false)).layers == w.layers[r := w.layers[r] + [false]]
  {
    hide K.RefInv, K.DoneInv, K.FlipInv, K.CallbackInv;
    InvShape(w);
  }

  lemma InvShape(w: K.World)
    requires K.Inv(w)
    ensures K.Shape(w)
  {
    hide K.Holders, K.DoneInv, K.FlipInv, K.CallbackInv;
  }

  // A failed import is never tried again.

  /** A buffer whose import failed has no framebuffer and no layer; what has a layer has a framebuffer. */
  ghost predicate ShownInv(w: World) {
    && (forall b :: 0 <= b < |w.bufs| && w.bufs[b].importFailed ==> !w.bufs[b].fb)
    && (forall k :: 0 <= k < |w.holds| && w.holds[k].Some? ==> w.holds[k].value < |w.bufs| && w.bufs[w.holds[k].value].fb)
  }

  /** Framebuffers stay and failed imports stay failed. */
  ghost predicate Steady(w: World, w': World) {
    && |w'.bufs| >= |w.bufs|
    && forall b :: 0 <= b < |w.bufs| ==>
         (w.bufs[b].fb ==> w'.bufs[b].fb) && (w.bufs[b].importFailed ==> w'.bufs[b].importFailed)
  }

  lemma StepKeepsShown(w: World, a: Action)
    requires Shape(w) && Enabled(w, a) && ShownInv(w)
    ensures ShownInv(Next(w, a)) && Steady(w, Next(w, a))
  {
    hide *;
    if a.PresentKms? {
      PresentKeepsShown(w, a);
    } else if a.Release? || a.Callback? {
      UnrefKeepsShown(w, a);
    } else {
      OthersKeepShown(w, a);
    }
  }

  lemma PresentKeepsShown(w: World, a: Action)
    requires Shape(w) && Enabled(w, a) && ShownInv(w) && a.PresentKms?
    ensures ShownInv(Next(w, a)) && Steady(w, Next(w, a))
  {
    hide Next, K.Inv, K.Held;
    PresentStep(w, a.s, a.r, a.importOk, a.pushOk);
  }

  lemma OthersKeepShown(w: World, a: Action)
    requires Shape(w) && Enabled(w, a) && ShownInv(w) && (a.PushDmabuf? || a.Clear? || a.Kms?)
    ensures ShownInv(Next(w, a)) && Steady(w, Next(w, a))
  {
    hide K.Inv, K.Next, K.Enabled;
  }

  lemma UnrefKeepsShown(w: World, a: Action)
    requires Shape(w) && Enabled(w, a) && ShownInv(w) && (a.Release? || a.Callback?)
    ensures ShownInv(Next(w, a)) && Steady(w, Next(w, a))
  {
    UnrefFields(w, a);
    hide Next, K.Inv, Shape, Enabled;
  }

  /** Losing a reference touches no framebuffer. */
  lemma UnrefFields(w: World, a: Action)
    requires Shape(w) && Enabled(w, a) && (a.Release? || a.Callback?)
    ensures var w' := Next(w, a);
            && |w'.bufs| == |w.bufs| && |w'.holds| == |w.holds|
            && (forall b :: 0 <= b < |w.bufs| ==> w'.bufs[b].fb == w.bufs[b].fb && w'.bufs[b].importFailed == w.bufs[b].importFailed)
            && (forall k :: 0 <= k < |w.holds| ==> w'.holds[k] == w.holds[k] || w'.holds[k] == None)
  {
    hide K.Inv, Destroy;
  }

  lemma {:induction false} RunsKeepShown(t: Trace)
    requires Legal(t)
    ensures ShownInv(After(t))
  {
    if t.Then? {
      hide Next, Enabled, Shape, ShownInv;
      LegalStep(t.before, t.a);
      RunsKeepShown(t.before);
      StepKeepsShown(After(t.before), t.a);
    }
  }

  /**
   * A buffer whose import failed stays like that whatever follows: no framebuffer is ever
   * made of it and no request ever has a layer of it.
   */
  lemma FailedImportIsFinal(t: Trace, a: Action, b: nat)
    requires Legal(Then(t, a)) && b < |After(t).bufs| && After(t).bufs[b].importFailed
    ensures var w' := After(Then(t, a));
            b < |w'.bufs| && w'.bufs[b].importFailed && FbAdded(b) !in w'.log && Some(b) !in w'.holds
  {
    LegalStep(t, a);
    RunsKeepShown(t);
    StepKeepsShown(After(t), a);
    RunsKeepShown(Then(t, a));
    RunsKeepInv(Then(t, a));
    var w' := After(Then(t, a));
    hide After, Legal, Next, Enabled, Shape, RefInv, HoldInv, Of;
    OfMember(w'.log, FbAdded(b));
    assert Of(w'.log, b) == Life(b, w'.bufs[b]);
  }
}
