/** What every run of the frame scheduler and its display keeps. */
module SchedulerRuns {
  import opened Options
  import opened Scheduler
  import opened SchedulerWorld

  /** What a step does, whichever kind of step it is. */
  function EffectOf(w: World, a: Action): Effect
    requires Enabled(w, a)
  {
    if a.APerform? then CallEffect(w, w.pool[a.k][0], a.accepted) else ApiEffect(w, a)
  }

  function Issues(w: World, a: Action): seq<Call>
    requires Enabled(w, a)
  {
    EffectOf(w, a).calls
  }

  // Every callback issued is either made or still to be made.

  ghost predicate Accounted(w: World, c: Call) {
    w.issued[c] == Count(Is(c), w.done) + CountPool(Is(c), w.pool)
  }

  ghost predicate Ledger(w: World) { forall c: Call :: Accounted(w, c) }

  lemma IssuedStep(w: World, a: Action, c: Call)
    requires Enabled(w, a)
    ensures Next(w, a).issued[c] == w.issued[c] + Count(Is(c), Issues(w, a))
  {
    hide Count, CallEffect, ApiEffect;
    CountIsMultiset(c, Issues(w, a));
    IssuedField(w, a);
  }

  lemma IssuedField(w: World, a: Action)
    requires Enabled(w, a)
    ensures Next(w, a).issued == w.issued + multiset(Issues(w, a))
    ensures Next(w, a).presents == w.presents + Presents(Issues(w, a))
    ensures Next(w, a).done == if a.APerform? then w.done + [w.pool[a.k][0]] else w.done
    ensures var e := EffectOf(w, a).w;
            && Next(w, a).s == e.s && Next(w, a).frames == e.frames && Next(w, a).batons == e.batons
            && Next(w, a).accepted == e.accepted && Next(w, a).withdrawn == e.withdrawn
            && Next(w, a).scanouts == e.scanouts && Next(w, a).failures == e.failures
            && Next(w, a).destroyed == e.destroyed
  {
    hide CallEffect, ApiEffect, Presents;
  }

  lemma LedgerStep(w: World, a: Action)
    requires Ledger(w) && Enabled(w, a)
    ensures Ledger(Next(w, a))
  {
    hide Next, Enabled, Count, CountPool, CallEffect, ApiEffect;
    forall c: Call ensures Accounted(Next(w, a), c) {
      assert Accounted(w, c);
      LedgerStepOne(w, a, c);
    }
  }

  lemma LedgerStepOne(w: World, a: Action, c: Call)
    requires Accounted(w, c) && Enabled(w, a)
    ensures Accounted(Next(w, a), c)
  {
    hide Next, Count, CountPool, CallEffect, ApiEffect, Sat;
    IssuedField(w, a);
    IssuedStep(w, a, c);
    CountNext(Is(c), w, a);
    if a.APerform? {
      CountAppend(Is(c), w.done, [w.pool[a.k][0]]);
      CountOne(Is(c), w.pool[a.k][0]);
    }
  }

  // Every frame is presented or cancelled at most once.

  /** How often `f` was given to a present or cancel callback, plus once if it is queued. */
  function Fate(w: World, f: Frame): nat {
    w.issued[Present(f)] + w.issued[Cancel(f)] + One(w.s.queued == Some(f))
  }

  ghost predicate FateOk(w: World, f: Frame) {
    if f in w.frames then Fate(w, f) <= 1 && (f.cancellable ==> Fate(w, f) == 1) else Fate(w, f) == 0
  }

  ghost predicate FrameInv(w: World) {
    && (forall i :: 0 <= i < |w.frames| ==> w.frames[i].id == i)
    && (w.s.queued.Some? ==> w.s.queued.value in w.frames)
    && (forall f: Frame :: FateOk(w, f))
  }

  /** A callback moves a queued frame to its present or cancel callback and touches no other frame. */
  lemma CallFate(w: World, c: Call, ok: bool, f: Frame)
    requires SchedOk(w.s)
    ensures var e := CallEffect(w, c, ok);
            var after := Count(Is(Present(f)), e.calls) + Count(Is(Cancel(f)), e.calls) + One(e.w.s.queued == Some(f));
            after <= One(w.s.queued == Some(f)) && (f.cancellable ==> after == One(w.s.queued == Some(f)))
    ensures CallEffect(w, c, ok).w.frames == w.frames
    ensures CallEffect(w, c, ok).w.s.queued.Some? ==> CallEffect(w, c, ok).w.s.queued == w.s.queued
  {
    hide Count, CountPool, RunAll;
    CallEffectCounts(Is(Present(f)), w, c, ok);
    CallEffectCounts(Is(Cancel(f)), w, c, ok);
    match c {
      case ReportFailure =>
      case OnScanout(_) =>
      case _ =>
    }
  }

  lemma ApiFate(w: World, a: Action, f: Frame)
    requires SchedOk(w.s) && !a.APerform?
    ensures var e := ApiEffect(w, a);
            var before := One(w.s.queued == Some(f)) + One(a.ASubmit? && f == Frame(|w.frames|, a.cancellable));
            var after := Count(Is(Present(f)), e.calls) + Count(Is(Cancel(f)), e.calls) + One(e.w.s.queued == Some(f));
            w.s.queued != Some(Frame(|w.frames|, f.cancellable)) ==>
              after <= before && (f.cancellable ==> after == before)
    ensures var e := ApiEffect(w, a).w;
            && e.frames == (if a.ASubmit? then w.frames + [Frame(|w.frames|, a.cancellable)] else w.frames)
            && (e.s.queued.Some? ==> e.s.queued == w.s.queued || (a.ASubmit? && e.s.queued.value == e.frames[|w.frames|]))
  {
    hide Count, CountPool, RunAll, IndexOf;
    ApiEffectCounts(Is(Present(f)), w, a);
    ApiEffectCounts(Is(Cancel(f)), w, a);
    match a {
      case ASubmit(_) =>
      case ADestroy =>
      case _ =>
    }
  }

  lemma FateStep(w: World, a: Action, f: Frame)
    requires TokenInv(w) && FrameInv(w) && Enabled(w, a)
    ensures FateOk(Next(w, a), f)
  {
    hide Next, Count, CountPool, CallEffect, ApiEffect, SchedOk;
    assert FateOk(w, f);
    IssuedField(w, a);
    IssuedStep(w, a, Present(f));
    IssuedStep(w, a, Cancel(f));
    if a.APerform? {
      CallFate(w, w.pool[a.k][0], a.accepted, f);
    } else {
      ApiFate(w, a, f);
    }
  }

  lemma FrameStep(w: World, a: Action)
    requires TokenInv(w) && FrameInv(w) && Enabled(w, a)
    ensures FrameInv(Next(w, a))
  {
    hide Next, Count, CountPool, CallEffect, ApiEffect, SchedOk, FateOk;
    forall f: Frame ensures FateOk(Next(w, a), f) { FateStep(w, a, f); }
    IssuedField(w, a);
    var f := Frame(0, true);
    if a.APerform? {
      CallFate(w, w.pool[a.k][0], a.accepted, f);
    } else {
      ApiFate(w, a, f);
    }
  }

  // Every vsync request is deferred or answered exactly once.

  ghost predicate BatonOk(w: World, b: int) {
    w.issued[Reply(b)] + One(w.s.baton == b) == w.batons[b]
  }

  ghost predicate BatonInv(w: World) { forall b: int :: b != 0 ==> BatonOk(w, b) }

  lemma CallBaton(w: World, c: Call, ok: bool, b: int)
    requires SchedOk(w.s) && b != 0
    ensures var e := CallEffect(w, c, ok);
            Count(Is(Reply(b)), e.calls) + One(e.w.s.baton == b) == One(w.s.baton == b) && e.w.batons == w.batons
  {
    hide Count, CountPool, RunAll;
    CallEffectCounts(Is(Reply(b)), w, c, ok);
    match c {
      case ReportFailure =>
      case OnScanout(_) =>
      case _ =>
    }
  }

  lemma ApiBaton(w: World, a: Action, b: int)
    requires SchedOk(w.s) && b != 0 && Enabled(w, a) && !a.APerform?
    ensures var e := ApiEffect(w, a);
            Count(Is(Reply(b)), e.calls) + One(e.w.s.baton == b) ==
            One(w.s.baton == b) + One(a.AVsync? && a.baton == b)
    ensures ApiEffect(w, a).w.batons == if a.AVsync? then w.batons + multiset{a.baton} else w.batons
  {
    hide Count, CountPool, RunAll, IndexOf;
    ApiEffectCounts(Is(Reply(b)), w, a);
    match a {
      case AVsync(_) =>
      case _ =>
    }
  }

  lemma BatonStep(w: World, a: Action)
    requires TokenInv(w) && BatonInv(w) && Enabled(w, a)
    ensures BatonInv(Next(w, a))
  {
    hide Next, Count, CountPool, CallEffect, ApiEffect, SchedOk;
    IssuedField(w, a);
    forall b: int | b != 0 ensures BatonOk(Next(w, a), b) {
      assert BatonOk(w, b);
      IssuedStep(w, a, Reply(b));
      if a.APerform? {
        CallBaton(w, w.pool[a.k][0], a.accepted, b);
      } else {
        ApiBaton(w, a, b);
      }
    }
  }

  // Every accepted listener is waiting, run once, or withdrawn.

  ghost predicate ListenerOk(w: World, l: Listener) {
    w.issued[RunListener(l)] + multiset(w.s.listeners)[l] + w.withdrawn[l] == w.accepted[l]
  }

  ghost predicate ListenerInv(w: World) { forall l: Listener :: ListenerOk(w, l) }

  /** Swap-removal takes out one listener equal to `l` and no other. */
  lemma CancelListenerRemovesOne(s: Sched, l: Listener)
    ensures CancelListener(s, l).1 <==> l in s.listeners
    ensures multiset(CancelListener(s, l).0.listeners) == multiset(s.listeners) - multiset{l}
    ensures CancelListener(s, l).0 == s.(listeners := CancelListener(s, l).0.listeners)
  {
    var ls, i := s.listeners, IndexOf(s.listeners, l);
    if i < |ls| {
      SwapRemove(ls, i);
    } else {
      assert ls[..i] == ls;
    }
  }

  lemma SwapRemove(ls: seq<Listener>, i: nat)
    requires i < |ls|
    ensures multiset(ls[i := ls[|ls| - 1]][..|ls| - 1]) == multiset(ls) - multiset{ls[i]}
  {
    var last := |ls| - 1;
    var front := ls[..last];
    assert ls == front + [ls[last]];
    if i < last {
      assert ls[i := ls[last]][..last] == front[i := ls[last]];
      assert front == front[..i] + [ls[i]] + front[i + 1..];
      assert front[i := ls[last]] == front[..i] + [ls[last]] + front[i + 1..];
    } else {
      assert ls[i := ls[last]][..last] == front;
    }
  }

  lemma CallListener(w: World, c: Call, ok: bool, l: Listener)
    ensures var e := CallEffect(w, c, ok);
            Count(Is(RunListener(l)), e.calls) + multiset(e.w.s.listeners)[l] == multiset(w.s.listeners)[l]
            && e.w.accepted == w.accepted && e.w.withdrawn == w.withdrawn
  {
    hide Count, CountPool, RunAll;
    CallEffectCounts(Is(RunListener(l)), w, c, ok);
    match c {
      case FireListeners =>
      case ReportFailure =>
      case OnScanout(_) =>
      case _ =>
    }
  }

  lemma ApiListener(w: World, a: Action, l: Listener)
    requires !a.APerform?
    ensures var e := ApiEffect(w, a);
            Count(Is(RunListener(l)), e.calls) + multiset(e.w.s.listeners)[l] + e.w.withdrawn[l] + w.accepted[l] ==
            multiset(w.s.listeners)[l] + w.withdrawn[l] + e.w.accepted[l]
  {
    hide Count, CountPool, CountOptional, RunAll, CancelListener, CancelOf, ReplyOf;
    ApiEffectCounts(Is(RunListener(l)), w, a);
    match a {
      case AListen(_) =>
      case AUnlisten(m) => CancelListenerRemovesOne(w.s, m);
      case ADestroy => NoRuns(w.s.queued, w.s.baton, l);
      case AVsync(b) =>
        NoRuns(w.s.queued, w.s.baton, l);
        NoRuns(w.s.queued, b, l);
      case ASubmit(_) => NoRuns(w.s.queued, 0, l);
      case _ =>
    }
  }

  lemma NoRuns(f: Option<Frame>, baton: int, l: Listener)
    ensures CountOptional(Is(RunListener(l)), CancelOf(f)) == 0
    ensures CountOptional(Is(RunListener(l)), ReplyOf(baton)) == 0
  {
  }

  lemma ListenerStep(w: World, a: Action)
    requires ListenerInv(w) && Enabled(w, a)
    ensures ListenerInv(Next(w, a))
  {
    hide Next, Count, CountPool, CallEffect, ApiEffect;
    IssuedField(w, a);
    forall l: Listener ensures ListenerOk(Next(w, a), l) {
      assert ListenerOk(w, l);
      IssuedStep(w, a, RunListener(l));
      if a.APerform? {
        CallListener(w, w.pool[a.k][0], a.accepted, l);
      } else {
        ApiListener(w, a, l);
      }
    }
  }

  // Frames are presented in the order of their submission.

  ghost predicate Increasing(fs: seq<Frame>) {
    forall i, j :: 0 <= i < j < |fs| ==> fs[i].id < fs[j].id
  }

  /** Every frame whose presentation was decided came before the queued one. */
  ghost predicate OrderInv(w: World) {
    && Increasing(w.presents)
    && (forall i :: 0 <= i < |w.presents| ==> w.presents[i].id < |w.frames|)
    && (w.s.queued.Some? ==> w.s.queued.value.id < |w.frames|)
    && (w.s.queued.Some? ==> forall i :: 0 <= i < |w.presents| ==> w.presents[i].id < w.s.queued.value.id)
    && |w.presents| == w.scanouts + w.failures + One(w.s.waiting)
  }

  lemma {:induction false} PresentsOfRuns(ls: seq<Listener>)
    ensures Presents(RunAll(ls)) == []
  {
    if ls != [] {
      assert RunAll(ls)[..|ls| - 1] == RunAll(ls[..|ls| - 1]);
      PresentsOfRuns(ls[..|ls| - 1]);
    }
  }

  lemma CallPresents(w: World, c: Call, ok: bool)
    requires SchedOk(w.s) && (Sat(Tokens, c) ==> w.s.waiting)
    ensures var e := CallEffect(w, c, ok);
            && Presents(e.calls) == (if c.OnScanout? && w.s.queued.Some? then [w.s.queued.value] else [])
            && e.w.frames == w.frames
            && (e.w.s.queued.Some? ==> e.w.s.queued == w.s.queued && Presents(e.calls) == [])
            && |Presents(e.calls)| + w.scanouts + w.failures + One(w.s.waiting) ==
               e.w.scanouts + e.w.failures + One(e.w.s.waiting)
  {
    CallPresentCalls(w, c, ok);
    hide Presents, RunAll, CancelOf, ReplyOf;
  }

  lemma CallPresentCalls(w: World, c: Call, ok: bool)
    requires SchedOk(w.s) && (Sat(Tokens, c) ==> w.s.waiting)
    ensures Presents(CallEffect(w, c, ok).calls) == if c.OnScanout? && w.s.queued.Some? then [w.s.queued.value] else []
  {
    hide Presents, RunAll;
    match c {
      case Present(_) => PresentsOfOne([if ok then DispatchFlips else ReportFailure]);
      case ReportFailure => PresentsOfFailure(w.s);
      case OnScanout(_) => PresentsOfFlip(w.s);
      case DispatchFlips => DispatchPresentsNothing(w, ok);
      case FireListeners => PresentsOfRuns(w.s.listeners);
      case _ => PresentsOfOne([]);
    }
  }

  lemma DispatchPresentsNothing(w: World, ok: bool)
    ensures Presents(CallEffect(w, DispatchFlips, ok).calls) == []
  {
    hide Presents;
    PresentsOfOne([DispatchFlips]);
    PresentsOfOne([]);
    if w.flips != [] && w.flips[0].Some? {
      PresentsOfOne([OnScanout(w.flips[0].value)]);
      PresentsAppend([OnScanout(w.flips[0].value)], [DispatchFlips]);
    } else {
      assert [] + [DispatchFlips] == [DispatchFlips];
    }
  }

  lemma ApiPresents(w: World, a: Action)
    requires SchedOk(w.s) && !a.APerform?
    ensures var e := ApiEffect(w, a);
            && Presents(e.calls) == (if a.ASubmit? && !w.s.waiting then [Frame(|w.frames|, a.cancellable)] else [])
            && e.w.frames == (if a.ASubmit? then w.frames + [Frame(|w.frames|, a.cancellable)] else w.frames)
            && (e.w.s.queued.Some? ==> e.w.s.queued == w.s.queued || (a.ASubmit? && e.w.s.queued.value.id == |w.frames|))
            && (e.w.s.queued.Some? ==> Presents(e.calls) == [])
            && |Presents(e.calls)| + w.scanouts + w.failures + One(w.s.waiting) ==
               e.w.scanouts + e.w.failures + One(e.w.s.waiting)
  {
    ApiPresentCalls(w, a);
    hide Presents, RunAll, IndexOf, CancelListener, CancelOf, ReplyOf;
    match a {
      case AUnlisten(l) => CancelListenerRemovesOne(w.s, l);
      case _ =>
    }
  }

  lemma ApiPresentCalls(w: World, a: Action)
    requires !a.APerform?
    ensures Presents(ApiEffect(w, a).calls) ==
            if a.ASubmit? && !w.s.waiting then [Frame(|w.frames|, a.cancellable)] else []
  {
    hide Presents, RunAll, IndexOf, CancelListener;
    match a {
      case ASubmit(_) => PresentsOfSubmit(w.s, Frame(|w.frames|, a.cancellable));
      case AVsync(b) =>
        PresentsOfOne(ReplyOf(b));
        PresentsOfOne(ReplyOf(w.s.baton));
      case ADestroy =>
        PresentsAppend(CancelOf(w.s.queued), RunAll(w.s.listeners));
        PresentsOfRuns(w.s.listeners);
        PresentsOfOne(CancelOf(w.s.queued));
      case AFlip => PresentsOfOne([DispatchFlips]);
      case _ => PresentsOfOne([]);
    }
  }

  lemma OrderStep(w: World, a: Action)
    requires TokenInv(w) && OrderInv(w) && Enabled(w, a)
    ensures OrderInv(Next(w, a))
  {
    hide Next, Count, CountPool, CallEffect, ApiEffect, SchedOk, Presents, Sat;
    IssuedField(w, a);
    if a.APerform? {
      if Sat(Tokens, w.pool[a.k][0]) {
        TokenIsUnique(w, a.k);
      }
      CallPresents(w, w.pool[a.k][0], a.accepted);
    } else {
      ApiPresents(w, a);
    }
  }

  /**
   * Present callbacks run in the order in which they were decided: at most the last of them
   * is still to be made.
   */
  ghost predicate DoneInv(w: World) {
    && Presents(w.done) == (if CountPool(Presenting, w.pool) == 0 || w.presents == [] then w.presents
                            else w.presents[..|w.presents| - 1])
    && (CountPool(Presenting, w.pool) > 0 ==> w.presents != [])
    && (forall f: Frame :: LastPresented(w, f))
  }

  ghost predicate LastPresented(w: World, f: Frame) {
    CountPool(Is(Present(f)), w.pool) > 0 ==> w.presents != [] && f == w.presents[|w.presents| - 1]
  }

  lemma {:induction false} PresentingAreTokens(calls: seq<Call>)
    ensures Count(Presenting, calls) <= Count(Tokens, calls)
    ensures forall f :: Count(Is(Present(f)), calls) <= Count(Presenting, calls)
  {
    if calls != [] {
      PresentingAreTokens(calls[..|calls| - 1]);
    }
  }

  lemma {:induction false} PresentingInPool(pool: seq<seq<Call>>)
    ensures CountPool(Presenting, pool) <= CountPool(Tokens, pool)
    ensures forall f :: CountPool(Is(Present(f)), pool) <= CountPool(Presenting, pool)
  {
    hide Count;
    if pool != [] {
      PresentingInPool(pool[..|pool| - 1]);
      PresentingAreTokens(pool[|pool| - 1]);
    }
  }

  lemma {:induction false} TokensAdd(pool: seq<seq<Call>>, c: Call)
    requires Sat(Tokens, c) && !c.Present?
    ensures CountPool(Presenting, pool) + CountPool(Is(c), pool) <= CountPool(Tokens, pool)
  {
    hide Count;
    if pool != [] {
      TokensAdd(pool[..|pool| - 1], c);
      TokensAddCalls(pool[|pool| - 1], c);
    }
  }

  lemma {:induction false} TokensAddCalls(calls: seq<Call>, c: Call)
    requires Sat(Tokens, c) && !c.Present?
    ensures Count(Presenting, calls) + Count(Is(c), calls) <= Count(Tokens, calls)
  {
    if calls != [] {
      TokensAddCalls(calls[..|calls| - 1], c);
    }
  }

  /** If the only token is about to be spent by something else, no present callback is outstanding. */
  lemma OtherTokens(pool: seq<seq<Call>>, k: nat)
    requires k < |pool| && pool[k] != [] && Sat(Tokens, pool[k][0]) && CountPool(Tokens, pool) == 1
    ensures !pool[k][0].Present? ==> CountPool(Presenting, pool) == 0
  {
    hide Count, CountPool;
    var c := pool[k][0];
    if !c.Present? {
      TokensAdd(pool, c);
      CountHead(Is(c), pool[k]);
      CountPoolMember(Is(c), pool, k);
    }
  }

  /** The present callbacks a step issues, in the three ways of counting them. */
  lemma IssuesPresents(w: World, a: Action)
    requires TokenInv(w) && Enabled(w, a)
    ensures |Presents(Issues(w, a))| <= 1
    ensures Count(Presenting, Issues(w, a)) == |Presents(Issues(w, a))|
    ensures forall f: Frame :: Count(Is(Present(f)), Issues(w, a)) == One(Presents(Issues(w, a)) == [f])
    ensures Presents(Issues(w, a)) != [] ==> CountPool(Presenting, w.pool) == 0
  {
    hide Count, CountPool, Presents, RunAll, CallEffect, ApiEffect, SchedOk, CancelOf, ReplyOf;
    PresentingInPool(w.pool);
    if a.APerform? {
      var c := w.pool[a.k][0];
      if Sat(Tokens, c) {
        TokenIsUnique(w, a.k);
        OtherTokens(w.pool, a.k);
      }
      CallPresents(w, c, a.accepted);
      CallPresenting(w, c, a.accepted);
    } else {
      ApiPresents(w, a);
      ApiPresenting(w, a);
    }
  }

  lemma CallPresenting(w: World, c: Call, ok: bool)
    requires SchedOk(w.s) && (Sat(Tokens, c) ==> w.s.waiting)
    ensures var e := CallEffect(w, c, ok);
            && Count(Presenting, e.calls) == One(c.OnScanout? && w.s.queued.Some?)
            && forall f: Frame :: Count(Is(Present(f)), e.calls) == One(c.OnScanout? && w.s.queued == Some(f))
  {
    hide Count, CountPool, Presents, RunAll, CallEffect;
    CallEffectCounts(Presenting, w, c, ok);
    forall f: Frame
      ensures Count(Is(Present(f)), CallEffect(w, c, ok).calls) == One(c.OnScanout? && w.s.queued == Some(f))
    {
      CallEffectCounts(Is(Present(f)), w, c, ok);
    }
  }

  lemma ApiPresenting(w: World, a: Action)
    requires SchedOk(w.s) && !a.APerform?
    ensures var e, f0 := ApiEffect(w, a), if a.ASubmit? then Frame(|w.frames|, a.cancellable) else Frame(0, false);
            && Count(Presenting, e.calls) == One(a.ASubmit? && !w.s.waiting)
            && forall f: Frame :: Count(Is(Present(f)), e.calls) == One(a.ASubmit? && !w.s.waiting && f == f0)
  {
    hide Count, CountPool, Presents, RunAll, ApiEffect;
    ApiEffectCounts(Presenting, w, a);
    var f0 := if a.ASubmit? then Frame(|w.frames|, a.cancellable) else Frame(0, false);
    forall f: Frame
      ensures Count(Is(Present(f)), ApiEffect(w, a).calls) == One(a.ASubmit? && !w.s.waiting && f == f0)
    {
      ApiEffectCounts(Is(Present(f)), w, a);
    }
  }

  lemma LastPresentedStep(w: World, a: Action, f: Frame)
    requires TokenInv(w) && LastPresented(w, f) && Enabled(w, a)
    ensures LastPresented(Next(w, a), f)
  {
    hide Next, Enabled, Count, CountPool, TokenInv, Issues, Presents;
    IssuedField(w, a);
    IssuesPresents(w, a);
    PresentingStep(w, a, Is(Present(f)));
    PresentingInPool(w.pool);
  }

  lemma DoneStep(w: World, a: Action)
    requires TokenInv(w) && DoneInv(w) && Enabled(w, a)
    ensures DoneInv(Next(w, a))
  {
    hide Next, Count, CountPool, Presents, TokenInv, Issues, LastPresented;
    forall f: Frame ensures LastPresented(Next(w, a), f) {
      assert LastPresented(w, f);
      LastPresentedStep(w, a, f);
    }
    IssuedField(w, a);
    IssuesPresents(w, a);
    PresentingStep(w, a, Presenting);
    OnlyOnePresenting(w);
    if a.APerform? {
      DoneAfter(w, a.k);
    }
  }

  lemma DoneAfter(w: World, k: nat)
    requires DoneInv(w) && k < |w.pool| && w.pool[k] != []
    ensures var c := w.pool[k][0];
            if c.Present? then
              CountPool(Presenting, w.pool) > 0 && w.presents != [] &&
              (CountPool(Presenting, w.pool) == 1 ==> Presents(w.done + [c]) == w.presents)
            else Presents(w.done + [c]) == Presents(w.done)
  {
    hide Count, CountPool, Presents;
    var c := w.pool[k][0];
    PresentsAppend(w.done, [c]);
    PresentsOfOne([c]);
    HeadCounted(w, k);
    if c.Present? {
      assert LastPresented(w, c.frame);
      assert w.presents == w.presents[..|w.presents| - 1] + [c.frame];
    }
  }

  lemma OnlyOnePresenting(w: World)
    requires TokenInv(w)
    ensures CountPool(Presenting, w.pool) <= 1
  {
    hide CountPool;
    PresentingInPool(w.pool);
  }

  lemma HeadCounted(w: World, k: nat)
    requires k < |w.pool| && w.pool[k] != []
    ensures w.pool[k][0].Present? ==>
              CountPool(Presenting, w.pool) > 0 && CountPool(Is(w.pool[k][0]), w.pool) > 0
  {
    hide CountPool, Count;
    CountHead(Presenting, w.pool[k]);
    CountPoolMember(Presenting, w.pool, k);
    CountHead(Is(w.pool[k][0]), w.pool[k]);
    CountPoolMember(Is(w.pool[k][0]), w.pool, k);
  }

  lemma PresentingStep(w: World, a: Action, q: Query)
    requires Enabled(w, a)
    ensures CountPool(q, Next(w, a).pool) + One(a.APerform? && Sat(q, w.pool[a.k][0])) ==
            CountPool(q, w.pool) + Count(q, Issues(w, a))
  {
    hide Next, Count, CountPool, CallEffect, ApiEffect, Sat;
    CountNext(q, w, a);
  }
}
