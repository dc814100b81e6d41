/** The guarantees of the frame scheduler, over every run and every interleaving of its callbacks. */
module SchedulerSafety {
  import opened Options
  import opened Scheduler
  import opened SchedulerWorld
  import opened SchedulerRuns

  ghost predicate Inv(w: World) {
    TokenInv(w) && Ledger(w) && FrameInv(w) && BatonInv(w) && ListenerInv(w) && OrderInv(w) && DoneInv(w)
  }

  lemma InvInitial(doubleBuffered: bool)
    ensures Inv(Initial(doubleBuffered))
  {
    hide TokenInv, Ledger, FrameInv, BatonInv, ListenerInv, OrderInv, DoneInv, Initial;
    InitialCounts(doubleBuffered);
    InitialState(doubleBuffered);
  }

  lemma InitialState(doubleBuffered: bool)
    ensures var w := Initial(doubleBuffered);
            TokenInv(w) && FrameInv(w) && BatonInv(w) && ListenerInv(w) && OrderInv(w)
  {
    var w := Initial(doubleBuffered);
    assert CountPool(Tokens, w.pool) == 0;
    hide CountPool;
  }

  lemma InitialCounts(doubleBuffered: bool)
    ensures Ledger(Initial(doubleBuffered)) && DoneInv(Initial(doubleBuffered))
  {
    var w := Initial(doubleBuffered);
    forall c: Call ensures Accounted(w, c) {}
    forall f: Frame ensures LastPresented(w, f) {}
  }

  lemma InvStep(w: World, a: Action)
    requires Inv(w) && Enabled(w, a)
    ensures Inv(Next(w, a))
  {
    hide Next, Enabled, TokenInv, Ledger, FrameInv, BatonInv, ListenerInv, OrderInv, DoneInv;
    TokenStep(w, a);
    LedgerStep(w, a);
    FrameStep(w, a);
    BatonStep(w, a);
    ListenerStep(w, a);
    OrderStep(w, a);
    DoneStep(w, a);
  }

  lemma {:induction false} Safety(doubleBuffered: bool, r: Run)
    requires Legal(Initial(doubleBuffered), r)
    ensures Inv(After(Initial(doubleBuffered), r))
  {
    hide Next, Enabled, Inv, Initial;
    if r.Begin? {
      InvInitial(doubleBuffered);
    } else {
      Safety(doubleBuffered, r.before);
      InvStep(After(Initial(doubleBuffered), r.before), r.act);
    }
  }

  /**
   * One commit in flight. Frames handed out for presentation minus accepted scanouts minus
   * reported failures is 0 or 1, and 1 exactly while the scheduler waits for a scanout.
   * At most one flip waits for its dispatch.
   */
  lemma OneCommitInFlight(doubleBuffered: bool, r: Run)
    requires Legal(Initial(doubleBuffered), r)
    ensures var w := After(Initial(doubleBuffered), r);
            && |w.presents| - w.scanouts - w.failures == (if w.s.waiting then 1 else 0)
            && |w.flips| <= 1
            && (w.kernel.Some? ==> w.s.waiting && w.flips == [])
  {
    hide Legal, After, Initial, Ledger, FrameInv, BatonInv, ListenerInv, DoneInv, CountPool;
    Safety(doubleBuffered, r);
  }

  /**
   * What a callback about to be made may rely on. A present callback finds no commit pending
   * in the kernel and no scanout callback set on the CRTC; a failure is only reported, and a
   * scanout only delivered, while the scheduler waits for one.
   */
  lemma CallbacksAreExpected(doubleBuffered: bool, r: Run, k: nat)
    requires Legal(Initial(doubleBuffered), r)
    requires k < |After(Initial(doubleBuffered), r).pool| && After(Initial(doubleBuffered), r).pool[k] != []
    ensures var w := After(Initial(doubleBuffered), r);
            var c := w.pool[k][0];
            && (c.Present? ==> w.kernel == None && w.callback == None && w.flips == [] && w.s.waiting)
            && (c.ReportFailure? || c.OnScanout? ==> w.s.waiting)
  {
    hide Legal, After, Initial, Ledger, FrameInv, BatonInv, ListenerInv, OrderInv, DoneInv, TokenInv;
    Safety(doubleBuffered, r);
    var w := After(Initial(doubleBuffered), r);
    if Sat(Tokens, w.pool[k][0]) {
      TokenIsUnique(w, k);
    }
  }

  /**
   * Nothing is stranded: a queued frame or a deferred vsync request implies a commit that is
   * still to be made, still pending, or still to be reported.
   */
  lemma NothingIsStranded(doubleBuffered: bool, r: Run)
    requires Legal(Initial(doubleBuffered), r)
    ensures var w := After(Initial(doubleBuffered), r);
            w.s.queued.Some? || w.s.baton != 0 ==>
              CountPool(Tokens, w.pool) + One(w.kernel.Some?) + |w.flips| == 1
  {
    hide Legal, After, Initial, Ledger, FrameInv, BatonInv, ListenerInv, OrderInv, DoneInv, CountPool;
    Safety(doubleBuffered, r);
  }

  /** At most once, at any time: no frame is both presented and cancelled, or either of them twice. */
  lemma AtMostOnce(doubleBuffered: bool, r: Run, f: Frame)
    requires Legal(Initial(doubleBuffered), r)
    ensures var w := After(Initial(doubleBuffered), r);
            Count(Is(Present(f)), w.done) + Count(Is(Cancel(f)), w.done) <= (if f in w.frames then 1 else 0)
  {
    hide Legal, After, Initial, TokenInv, BatonInv, ListenerInv, OrderInv, DoneInv, Count, CountPool;
    Safety(doubleBuffered, r);
    var w := After(Initial(doubleBuffered), r);
    assert FateOk(w, f) && Accounted(w, Present(f)) && Accounted(w, Cancel(f));
  }

  /** How often a callback was made or is owed. */
  ghost function Made(w: World, c: Call): nat { Count(Is(c), w.done) + CountPool(Is(c), w.pool) }

  lemma {:induction false} IdleCountsNothing(q: Query, pool: seq<seq<Call>>)
    requires Idle(pool)
    ensures CountPool(q, pool) == 0
  {
    if pool != [] {
      IdleCountsNothing(q, pool[..|pool| - 1]);
      assert pool[|pool| - 1] == [];
    }
  }

  ghost predicate Emptied(w: World) {
    w.destroyed ==> w.s.queued == None && w.s.listeners == []
  }

  lemma CallKeepsEmptied(w: World, c: Call, ok: bool)
    requires Emptied(w)
    ensures Emptied(CallEffect(w, c, ok).w)
  {
    hide RunAll;
  }

  lemma EmptiedStep(w: World, a: Action)
    requires Emptied(w) && Enabled(w, a)
    ensures Emptied(Next(w, a))
  {
    hide Next, CallEffect, Presents;
    IssuedField(w, a);
    if a.APerform? {
      CallKeepsEmptied(w, w.pool[a.k][0], a.accepted);
    }
  }

  lemma {:induction false} NothingLeft(doubleBuffered: bool, r: Run)
    requires Legal(Initial(doubleBuffered), r)
    ensures Emptied(After(Initial(doubleBuffered), r))
  {
    if r.Then? {
      hide Next, Enabled, Initial, Emptied;
      NothingLeft(doubleBuffered, r.before);
      EmptiedStep(After(Initial(doubleBuffered), r.before), r.act);
    }
  }

  /** Present callbacks run in the order in which their frames were submitted. */
  lemma PresentedInOrder(doubleBuffered: bool, r: Run)
    requires Legal(Initial(doubleBuffered), r)
    ensures Increasing(Presents(After(Initial(doubleBuffered), r).done))
  {
    hide Legal, After, Initial, TokenInv, Ledger, FrameInv, BatonInv, ListenerInv, Presents, CountPool;
    Safety(doubleBuffered, r);
  }

  /** A listener whose cancellation succeeded, accepted once, never runs. */
  lemma WithdrawnNeverRuns(doubleBuffered: bool, r: Run, l: Listener)
    requires Legal(Initial(doubleBuffered), r)
    ensures var w := After(Initial(doubleBuffered), r);
            w.withdrawn[l] >= w.accepted[l] ==> Count(Is(RunListener(l)), w.done) == 0 && l !in w.s.listeners
  {
    hide Legal, After, Initial, TokenInv, FrameInv, BatonInv, OrderInv, DoneInv, Count, CountPool;
    Safety(doubleBuffered, r);
    var w := After(Initial(doubleBuffered), r);
    assert ListenerOk(w, l) && Accounted(w, RunListener(l));
  }

  // Listeners and the frame presented at their flip.

  /**
   * Activation `k` owes a present callback, `i` callbacks from now, before it fires any
   * listeners; and no other activation owes a firing.
   */
  ghost predicate Guarded(w: World, k: nat, i: nat) {
    && k < |w.pool| && i < |w.pool[k]| && w.pool[k][i].Present?
    && Count(Fires, w.pool[k][..i]) == 0
    && CountPool(Fires, w.pool) == Count(Fires, w.pool[k])
  }

  lemma CountSplit(q: Query, calls: seq<Call>, i: nat)
    requires i <= |calls|
    ensures Count(q, calls) == Count(q, calls[..i]) + Count(q, calls[i..])
  {
    assert calls == calls[..i] + calls[i..];
    CountAppend(q, calls[..i], calls[i..]);
  }

  /** Where a guarded present callback is owed, it is the one token. */
  lemma GuardIsToken(w: World, k: nat, i: nat)
    requires TokenInv(w) && Guarded(w, k, i)
    ensures w.s.waiting && w.kernel == None && w.flips == []
    ensures Count(Tokens, w.pool[k]) == 1 && CountPool(Tokens, w.pool) == 1
    ensures Count(Tokens, w.pool[k][..i]) == 0
  {
    hide Count, CountPool;
    var calls := w.pool[k];
    CountPoolMember(Tokens, w.pool, k);
    CountSplit(Tokens, calls, i);
    CountHead(Tokens, calls[i..]);
  }

  lemma {:induction false} TwoMembers(q: Query, pool: seq<seq<Call>>, j: nat, k: nat)
    requires j < |pool| && k < |pool| && j != k
    ensures Count(q, pool[j]) + Count(q, pool[k]) <= CountPool(q, pool)
    decreases |pool|
  {
    hide Count;
    var last := |pool| - 1;
    if j < last && k < last {
      TwoMembers(q, pool[..last], j, k);
    } else if j == last {
      CountPoolMember(q, pool[..last], k);
    } else {
      CountPoolMember(q, pool[..last], j);
    }
  }

  /** While a present callback is guarded, no other callback does anything to listeners or tokens. */
  lemma GuardedCalls(w: World, k: nat, i: nat, j: nat)
    requires TokenInv(w) && Guarded(w, k, i) && j < |w.pool| && w.pool[j] != [] && (j == k ==> i > 0)
    ensures !Sat(Tokens, w.pool[j][0]) && !Sat(Fires, w.pool[j][0])
  {
    hide Count, CountPool, TokenInv;
    GuardIsToken(w, k, i);
    CountHead(Tokens, w.pool[j]);
    CountHead(Fires, w.pool[j]);
    if j == k {
      CountHead(Tokens, w.pool[k][..i]);
      CountHead(Fires, w.pool[k][..i]);
    } else {
      TwoMembers(Tokens, w.pool, j, k);
      TwoMembers(Fires, w.pool, j, k);
    }
  }

  /**
   * One step while a present callback is guarded: it is either made, or stays guarded and no
   * listener is taken out to be run.
   */
  lemma GuardStep(w: World, k: nat, i: nat, a: Action) returns (i': nat)
    requires TokenInv(w) && Guarded(w, k, i) && Enabled(w, a) && !(a.APerform? && a.k == k && i == 0)
    ensures Guarded(Next(w, a), k, i') && Next(w, a).pool[k][i'] == w.pool[k][i]
    ensures forall l: Listener :: Next(w, a).issued[RunListener(l)] == w.issued[RunListener(l)]
  {
    GuardIsToken(w, k, i);
    i' := i;
    if a.APerform? {
      GuardedCalls(w, k, i, a.k);
      var c := w.pool[a.k][0];
      assert CallEffect(w, c, a.accepted).calls == [];
      hide Count, CountPool, CallEffect, TokenInv, Presents;
      CountNext(Fires, w, a);
      CountOne(Fires, c);
      if a.k == k {
        i' := i - 1;
        CountHead(Fires, w.pool[k]);
        CountHead(Fires, w.pool[k][..i]);
        assert w.pool[k][..i][1..] == w.pool[k][1..][..i'];
        assert [] + w.pool[k][1..] == w.pool[k][1..];
      }
      forall l: Listener ensures Next(w, a).issued[RunListener(l)] == w.issued[RunListener(l)] {
        IssuedStep(w, a, RunListener(l));
        CountOne(Is(RunListener(l)), c);
      }
    } else {
      GuardedApi(w, k, i, a);
    }
  }

  lemma GuardedApi(w: World, k: nat, i: nat, a: Action)
    requires Guarded(w, k, i) && Enabled(w, a) && !a.APerform? && w.kernel == None
    ensures Guarded(Next(w, a), k, i) && Next(w, a).pool[k] == w.pool[k]
    ensures forall l: Listener :: Next(w, a).issued[RunListener(l)] == w.issued[RunListener(l)]
  {
    assert w.pool[k] != [];
    hide Count, CountPool, ApiEffect, Presents;
    CountNext(Fires, w, a);
    ApiEffectCounts(Fires, w, a);
    NoFires(w.s.queued, w.s.baton);
    if a.AVsync? {
      NoFires(w.s.queued, a.baton);
    }
    forall l: Listener ensures Next(w, a).issued[RunListener(l)] == w.issued[RunListener(l)] {
      IssuedStep(w, a, RunListener(l));
      ApiEffectCounts(Is(RunListener(l)), w, a);
      NoRuns(w.s.queued, w.s.baton, l);
      if a.AVsync? {
        NoRuns(w.s.queued, a.baton, l);
      }
    }
  }

  lemma NoFires(f: Option<Frame>, baton: int)
    ensures CountOptional(Fires, CancelOf(f)) == 0 && CountOptional(Fires, ReplyOf(baton)) == 0
  {
  }

  /**
   * The guard is up when a flip is accepted and no other activation still owes a firing: the
   * activation of the flip then owes the present callback of the queued frame first.
   */
  lemma GuardStart(w: World, k: nat, ok: bool) returns (i: nat)
    requires TokenInv(w) && k < |w.pool| && w.pool[k] != [] && w.pool[k][0].OnScanout? && w.s.queued.Some?
    requires CountPool(Fires, w.pool) == Count(Fires, w.pool[k])
    ensures Enabled(w, APerform(k, ok))
    ensures var w' := Next(w, APerform(k, ok));
            Guarded(w', k, i) && w'.pool[k][i] == Present(w.s.queued.value)
  {
    hide Count, CountPool, CallEffect, TokenInv, Presents, ReplyOf;
    TokenIsUnique(w, k);
    var c, rest := w.pool[k][0], w.pool[k][1..];
    var reply, f := ReplyOf(w.s.baton), w.s.queued.value;
    i := |reply|;
    ScanoutCalls(w, c, ok);
    var calls := reply + [Present(f)] + [FireListeners] + rest;
    PoolAfter(w, k, ok);
    assert calls[..i] == reply && calls[i] == Present(f);
    NoFires(None, w.s.baton);
    ReplyIsShort(w.s.baton);
    CountAtMostOne(Fires, reply);
    CountNext(Fires, w, APerform(k, ok));
    CountAppend(Fires, reply + [Present(f)] + [FireListeners], rest);
    CountHead(Fires, w.pool[k]);
  }

  lemma ReplyIsShort(baton: int)
    ensures |ReplyOf(baton)| <= 1
  {
  }

  lemma PoolAfter(w: World, k: nat, ok: bool)
    requires Enabled(w, APerform(k, ok))
    ensures Next(w, APerform(k, ok)).pool == w.pool[k := CallEffect(w, w.pool[k][0], ok).calls + w.pool[k][1..]]
  {
    hide CallEffect, Presents;
  }

  lemma ScanoutCalls(w: World, c: Call, ok: bool)
    requires c.OnScanout? && w.s.waiting && w.s.queued.Some?
    ensures CallEffect(w, c, ok).calls == ReplyOf(w.s.baton) + [Present(w.s.queued.value)] + [FireListeners]
  {
    hide ReplyOf;
  }

  /**
   * Over any run from a guarded state, either the guarded frame gets presented or no listener
   * is taken out to be run.
   */
  lemma {:induction false} GuardHolds(w: World, k: nat, i: nat, r: Run) returns (i': nat)
    requires TokenInv(w) && Guarded(w, k, i) && Legal(w, r)
    ensures var w', c := After(w, r), w.pool[k][i];
            && TokenInv(w')
            && (Count(Is(c), w'.done) > Count(Is(c), w.done) ||
                (Guarded(w', k, i') && w'.pool[k][i'] == c && Count(Is(c), w'.done) >= Count(Is(c), w.done)
                 && forall l: Listener :: w'.issued[RunListener(l)] == w.issued[RunListener(l)]))
  {
    hide Next, Enabled, Count, CountPool, TokenInv;
    i' := i;
    if r.Then? {
      i' := GuardHolds(w, k, i, r.before);
      var v, c := After(w, r.before), w.pool[k][i];
      TokenStep(v, r.act);
      DoneGrows(v, r.act, c);
      if Count(Is(c), v.done) <= Count(Is(c), w.done) {
        GuardedHead(v, k, i');
        if r.act.APerform? && r.act.k == k && i' == 0 {
        } else {
          i' := GuardStep(v, k, i', r.act);
        }
      }
    }
  }

  lemma GuardedHead(w: World, k: nat, i: nat)
    requires Guarded(w, k, i)
    ensures k < |w.pool| && i < |w.pool[k]|
  {
  }

  lemma DoneGrows(w: World, a: Action, c: Call)
    requires Enabled(w, a)
    ensures Count(Is(c), Next(w, a).done) ==
            Count(Is(c), w.done) + One(a.APerform? && w.pool[a.k][0] == c)
  {
    hide Next, Count, CountPool, CallEffect, ApiEffect, Presents;
    IssuedField(w, a);
    if a.APerform? {
      CountAppend(Is(c), w.done, [w.pool[a.k][0]]);
      CountOne(Is(c), w.pool[a.k][0]);
    }
  }

  /** Until `f` is presented, no run takes a listener out to be run. */
  ghost predicate OrderKept(w: World, f: Frame) {
    forall r: Run :: Legal(w, r) ==> OrderKeptBy(w, f, r)
  }

  ghost predicate OrderKeptBy(w: World, f: Frame, r: Run)
    requires Legal(w, r)
  {
    Count(Is(Present(f)), After(w, r).done) == Count(Is(Present(f)), w.done) ==>
      forall l: Listener :: After(w, r).issued[RunListener(l)] == w.issued[RunListener(l)]
  }

  /** A firing that activation `j` owes after `p` other callbacks can be reached without presenting anything. */
  lemma {:induction false} OwedFiringIsReachable(w: World, k: nat, j: nat, p: nat, f: Frame, l: Listener) returns (r: Run)
    requires TokenInv(w) && k < |w.pool| && j < |w.pool| && j != k && p < |w.pool[j]|
    requires Count(Tokens, w.pool[k]) > 0 && w.pool[j][p] == FireListeners && l in w.s.listeners
    ensures Legal(w, r)
    ensures var w' := After(w, r);
            Count(Is(Present(f)), w'.done) == Count(Is(Present(f)), w.done)
            && w'.issued[RunListener(l)] > w.issued[RunListener(l)]
    decreases p
  {
    hide Next, Enabled, Legal, After, Count, CountPool, TokenInv;
    var a := APerform(j, false);
    OnlyTokenElsewhere(w, k, j);
    NextDone(w, j, f);
    if w.pool[j][0].FireListeners? {
      FiringNow(w, j, l);
      OneStep(w, a);
      r := Then(Begin, a);
    } else {
      QuietStep(w, j, l);
      TokenStep(w, a);
      var rest := OwedFiringIsReachable(Next(w, a), k, j, p - 1, f, l);
      r := Prepend(w, a, rest);
    }
  }

  lemma OneStep(w: World, a: Action)
    requires Enabled(w, a)
    ensures Legal(w, Then(Begin, a)) && After(w, Then(Begin, a)) == Next(w, a)
  {
    hide Next, Enabled;
    assert Legal(w, Begin) && After(w, Begin) == w;
  }

  lemma NextDone(w: World, j: nat, f: Frame)
    requires j < |w.pool| && w.pool[j] != [] && !Sat(Tokens, w.pool[j][0])
    ensures Enabled(w, APerform(j, false))
    ensures Count(Is(Present(f)), Next(w, APerform(j, false)).done) == Count(Is(Present(f)), w.done)
  {
    hide Next, Count;
    DoneGrows(w, APerform(j, false), Present(f));
  }

  lemma FiringNow(w: World, j: nat, l: Listener)
    requires Enabled(w, APerform(j, false)) && w.pool[j][0].FireListeners? && l in w.s.listeners
    ensures Next(w, APerform(j, false)).issued[RunListener(l)] > w.issued[RunListener(l)]
  {
    hide Next, Count, CallEffect;
    IssuedStep(w, APerform(j, false), RunListener(l));
    CallEffectCounts(Is(RunListener(l)), w, w.pool[j][0], false);
  }

  lemma QuietStep(w: World, j: nat, l: Listener)
    requires Enabled(w, APerform(j, false)) && w.flips == []
    requires !Sat(Tokens, w.pool[j][0]) && !w.pool[j][0].FireListeners?
    ensures var w' := Next(w, APerform(j, false));
            && w'.pool == w.pool[j := w.pool[j][1..]] && w'.s.listeners == w.s.listeners
            && w'.issued[RunListener(l)] == w.issued[RunListener(l)]
  {
    hide Next, Count, CallEffect, Sat;
    var c := w.pool[j][0];
    QuietCall(w, c);
    PoolAfterFailing(w, j);
    assert [] + w.pool[j][1..] == w.pool[j][1..];
    IssuedField(w, APerform(j, false));
    IssuedStep(w, APerform(j, false), RunListener(l));
    CountOne(Is(RunListener(l)), c);
  }

  lemma PoolAfterFailing(w: World, k: nat)
    requires Enabled(w, APerform(k, false))
    ensures Next(w, APerform(k, false)).pool == w.pool[k := CallEffect(w, w.pool[k][0], false).calls + w.pool[k][1..]]
  {
    hide CallEffect, Presents;
  }

  lemma OnlyTokenElsewhere(w: World, k: nat, j: nat)
    requires TokenInv(w) && k < |w.pool| && j < |w.pool| && j != k && w.pool[j] != [] && Count(Tokens, w.pool[k]) > 0
    ensures !Sat(Tokens, w.pool[j][0]) && w.flips == []
  {
    hide Count, CountPool;
    TwoMembers(Tokens, w.pool, j, k);
    CountHead(Tokens, w.pool[j]);
  }

  lemma QuietCall(w: World, c: Call)
    requires !Sat(Tokens, c) && !c.FireListeners? && w.flips == []
    ensures CallEffect(w, c, false) == Effect(w, [])
  {
  }

  /** One step and then a run is a run. */
  lemma {:induction false} Prepend(w: World, a: Action, r: Run) returns (r': Run)
    requires Enabled(w, a) && Legal(Next(w, a), r)
    ensures Legal(w, r') && After(w, r') == After(Next(w, a), r)
  {
    hide Next, Enabled;
    if r.Begin? {
      r' := Then(Begin, a);
      assert Legal(w, Begin) && After(w, Begin) == w;
    } else {
      var before := Prepend(w, a, r.before);
      r' := Then(before, r.act);
    }
  }

  lemma {:induction false} FindFiring(calls: seq<Call>) returns (p: nat)
    requires Count(Fires, calls) > 0
    ensures p < |calls| && calls[p] == FireListeners
  {
    p := |calls| - 1;
    if !calls[p].FireListeners? {
      p := FindFiring(calls[..p]);
    }
  }

  lemma {:induction false} FindFiringElsewhere(pool: seq<seq<Call>>, k: nat) returns (j: nat, p: nat)
    requires k < |pool| && CountPool(Fires, pool) > Count(Fires, pool[k])
    ensures j < |pool| && j != k && p < |pool[j]| && pool[j][p] == FireListeners
  {
    hide Count;
    var last := |pool| - 1;
    if last != k && Count(Fires, pool[last]) > 0 {
      j := last;
      p := FindFiring(pool[last]);
    } else if k < last {
      j, p := FindFiringElsewhere(pool[..last], k);
    } else {
      j, p := FindFiringIn(pool[..last]);
    }
  }

  lemma {:induction false} FindFiringIn(pool: seq<seq<Call>>) returns (j: nat, p: nat)
    requires CountPool(Fires, pool) > 0
    ensures j < |pool| && p < |pool[j]| && pool[j][p] == FireListeners
  {
    hide Count;
    var last := |pool| - 1;
    if Count(Fires, pool[last]) > 0 {
      j := last;
      p := FindFiring(pool[last]);
    } else {
      j, p := FindFiringIn(pool[..last]);
    }
  }

  /** The world in which activation `k` is about to deliver a flip while a frame is queued. */
  ghost predicate Delivering(w: World, k: nat) {
    k < |w.pool| && w.pool[k] != [] && w.pool[k][0].OnScanout? && w.s.queued.Some?
  }

  /**
   * The documented order, "after any queued frame has been committed", and exactly when it
   * holds: the listeners waiting at a flip run only after the frame queued at that flip was
   * presented, in every continuation, if and only if no other activation still owes a firing
   * of listeners when the flip is delivered.
   */
  lemma ListenersRunAfterQueuedFrameIff(doubleBuffered: bool, before: Run, k: nat, ok: bool)
    requires Legal(Initial(doubleBuffered), before)
    requires Delivering(After(Initial(doubleBuffered), before), k)
    requires After(Initial(doubleBuffered), before).s.listeners != []
    ensures var w := After(Initial(doubleBuffered), before);
            Enabled(w, APerform(k, ok)) &&
            (OrderKept(Next(w, APerform(k, ok)), w.s.queued.value) <==>
             CountPool(Fires, w.pool) == Count(Fires, w.pool[k]))
  {
    hide Next, Legal, After, Initial, Count, CountPool, Inv, TokenInv, OrderKept;
    Safety(doubleBuffered, before);
    var w := After(Initial(doubleBuffered), before);
    TokenOfInv(w);
    CountPoolMember(Fires, w.pool, k);
    if CountPool(Fires, w.pool) == Count(Fires, w.pool[k]) {
      OrderKeptWhenAlone(w, k, ok);
    } else {
      OrderBrokenWhenOwed(w, k, ok);
    }
  }

  lemma OrderKeptWhenAlone(w: World, k: nat, ok: bool)
    requires TokenInv(w) && Delivering(w, k) && CountPool(Fires, w.pool) == Count(Fires, w.pool[k])
    ensures Enabled(w, APerform(k, ok)) && OrderKept(Next(w, APerform(k, ok)), w.s.queued.value)
  {
    hide Next, Legal, After, Count, CountPool, TokenInv, Guarded;
    var i := GuardStart(w, k, ok);
    TokenStep(w, APerform(k, ok));
    var w1 := Next(w, APerform(k, ok));
    forall r: Run | Legal(w1, r) ensures OrderKeptBy(w1, w.s.queued.value, r) {
      GuardedHead(w1, k, i);
      var i' := GuardHolds(w1, k, i, r);
    }
  }

  lemma OrderBrokenWhenOwed(w: World, k: nat, ok: bool)
    requires TokenInv(w) && Delivering(w, k) && CountPool(Fires, w.pool) > Count(Fires, w.pool[k])
    requires w.s.listeners != []
    ensures Enabled(w, APerform(k, ok)) && !OrderKept(Next(w, APerform(k, ok)), w.s.queued.value)
  {
    hide Next, Legal, After, Count, CountPool, TokenInv, CallEffect, ReplyOf;
    TokenIsUnique(w, k);
    var c, f := w.pool[k][0], w.s.queued.value;
    var j, p := FindFiringElsewhere(w.pool, k);
    ScanoutCalls(w, c, ok);
    PoolAfter(w, k, ok);
    IssuedField(w, APerform(k, ok));
    ScanoutKeepsListeners(w, c, ok);
    TokenStep(w, APerform(k, ok));
    var w1 := Next(w, APerform(k, ok));
    var reply := ReplyOf(w.s.baton);
    CountAppend(Tokens, reply + [Present(f)] + [FireListeners], w.pool[k][1..]);
    CountAppend(Tokens, reply + [Present(f)], [FireListeners]);
    CountAppend(Tokens, reply, [Present(f)]);
    CountOne(Tokens, Present(f));
    var r := OwedFiringIsReachable(w1, k, j, p, f, w.s.listeners[0]);
    assert !OrderKeptBy(w1, f, r);
  }

  lemma ScanoutKeepsListeners(w: World, c: Call, ok: bool)
    requires c.OnScanout?
    ensures CallEffect(w, c, ok).w.s.listeners == w.s.listeners
  {
  }

  lemma TokenOfInv(w: World)
    requires Inv(w)
    ensures TokenInv(w)
  {
    hide TokenInv, Ledger, FrameInv, BatonInv, ListenerInv, OrderInv, DoneInv;
  }

  // Without that condition the documented order can fail.

  const F0 := Frame(0, true)
  const F1 := Frame(1, true)
  const F2 := Frame(2, true)
  const L := Listener(1, 1)

  /** What matters of a world for the race. */
  ghost predicate RaceState(w: World, s: Sched, pool: seq<seq<Call>>, kernel: Option<Frame>, flips: seq<Option<Frame>>) {
    w.s == s && w.pool == pool && w.kernel == kernel && w.callback == kernel && w.flips == flips && !w.destroyed
  }

  lemma Submits(w: World, s: Sched, pool: seq<seq<Call>>, kernel: Option<Frame>)
    requires RaceState(w, s, pool, kernel, []) && s.queued == None
    ensures Enabled(w, ASubmit(true))
    ensures var f, w' := Frame(|w.frames|, true), Next(w, ASubmit(true));
            && |w'.frames| == |w.frames| + 1
            && if s.waiting then RaceState(w', s.(queued := Some(f)), pool + [[]], kernel, [])
               else RaceState(w', s.(waiting := true), pool + [[Present(f)]], kernel, [])
  {
    hide Presents;
  }

  lemma Listens(w: World, s: Sched, pool: seq<seq<Call>>, kernel: Option<Frame>)
    requires RaceState(w, s, pool, kernel, []) && s.listeners == []
    ensures Enabled(w, AListen(L))
    ensures RaceState(Next(w, AListen(L)), s.(listeners := [L]), pool + [[]], kernel, [])
    ensures |Next(w, AListen(L)).frames| == |w.frames|
  {
    hide Presents;
  }

  lemma Flips(w: World, s: Sched, pool: seq<seq<Call>>, f: Frame)
    requires RaceState(w, s, pool, Some(f), [])
    ensures Enabled(w, AFlip)
    ensures RaceState(Next(w, AFlip), s, pool + [[DispatchFlips]], None, [Some(f)])
    ensures |Next(w, AFlip).frames| == |w.frames|
  {
    hide Presents;
  }

  /** Making the next callback of activation `k`, for each kind of callback in the race. */
  lemma Performs(w: World, s: Sched, pool: seq<seq<Call>>, kernel: Option<Frame>, flips: seq<Option<Frame>>,
                 k: nat, c: Call, rest: seq<Call>)
    requires RaceState(w, s, pool, kernel, flips) && k < |pool| && pool[k] == [c] + rest
    requires c.Present? ==> kernel == None && flips == []
    requires c.OnScanout? ==> s.waiting && s.queued.Some? && s.baton == 0
    requires c.FireListeners? ==> s.listeners == [L]
    requires c.DispatchFlips? ==> flips == [] || (|flips| == 1 && flips[0].Some?)
    requires c.Present? || c.OnScanout? || c.FireListeners? || c.DispatchFlips? || c.RunListener?
    ensures Enabled(w, APerform(k, true))
    ensures var w' := Next(w, APerform(k, true));
            && w'.done == w.done + [c] && |w'.frames| == |w.frames|
            && match c
               case Present(f) => RaceState(w', s, pool[k := [DispatchFlips] + rest], Some(f), [])
               case OnScanout(_) =>
                 RaceState(w', s.(queued := None), pool[k := [Present(s.queued.value), FireListeners] + rest], kernel, flips)
               case FireListeners => RaceState(w', s.(listeners := []), pool[k := [RunListener(L)] + rest], kernel, flips)
               case DispatchFlips =>
                 if flips == [] then RaceState(w', s, pool[k := rest], kernel, flips)
                 else RaceState(w', s, pool[k := [OnScanout(flips[0].value), DispatchFlips] + rest], kernel, [])
               case _ => RaceState(w', s, pool[k := rest], kernel, flips)
  {
    assert w.pool[k][1..] == rest && [] + rest == rest;
    PerformsCalls(w, c);
    PoolAfter(w, k, true);
    IssuedField(w, APerform(k, true));
    NextDevice(w, k);
    hide Next, Presents, CallEffect;
  }

  lemma NextDevice(w: World, k: nat)
    requires Enabled(w, APerform(k, true))
    ensures var w', e := Next(w, APerform(k, true)), CallEffect(w, w.pool[k][0], true).w;
            w'.kernel == e.kernel && w'.callback == e.callback && w'.flips == e.flips
  {
    hide Presents, CallEffect;
  }

  lemma PerformsCalls(w: World, c: Call)
    requires c.OnScanout? ==> w.s.waiting && w.s.queued.Some? && w.s.baton == 0
    requires c.FireListeners? ==> w.s.listeners == [L]
    requires c.DispatchFlips? ==> w.flips == [] || (|w.flips| == 1 && w.flips[0].Some?)
    requires c.Present? || c.OnScanout? || c.FireListeners? || c.DispatchFlips? || c.RunListener?
    ensures var e := CallEffect(w, c, true);
            && e.w.frames == w.frames && e.w.destroyed == w.destroyed
            && e.calls == (match c
                           case Present(_) => [DispatchFlips]
                           case OnScanout(_) => [Present(w.s.queued.value), FireListeners]
                           case FireListeners => [RunListener(L)]
                           case DispatchFlips =>
                             if w.flips == [] then [] else [OnScanout(w.flips[0].value), DispatchFlips]
                           case _ => [])
            && e.w.s == (if c.OnScanout? then w.s.(queued := None) else if c.FireListeners? then w.s.(listeners := []) else w.s)
            && e.w.kernel == (if c.Present? then Some(c.frame) else w.kernel)
            && e.w.callback == (if c.Present? then Some(c.frame) else w.callback)
            && e.w.flips == (if c.DispatchFlips? then [] else w.flips)
  {
    match c {
      case FireListeners => assert RunAll([L]) == [RunListener(L)];
      case OnScanout(_) => assert [] + [Present(w.s.queued.value)] + [FireListeners] == [Present(w.s.queued.value), FireListeners];
      case _ =>
    }
  }

  lemma InitialIs(doubleBuffered: bool)
    ensures var w := Initial(doubleBuffered);
            RaceState(w, Sched(doubleBuffered, false, None, 0, []), [], None, []) && w.frames == []
  {
  }

  /** The first flip: delivered by the committing thread, which then presents F1 and still owes a firing. */
  lemma RaceFirstFlip(doubleBuffered: bool) returns (r: Run)
    ensures Legal(Initial(doubleBuffered), r)
    ensures var w := After(Initial(doubleBuffered), r);
            && RaceState(w, Sched(doubleBuffered, true, None, 0, []),
                   [[DispatchFlips, FireListeners, DispatchFlips], [], [DispatchFlips]], Some(F1), [])
            && |w.frames| == 2
  {
    hide Next, Enabled, CallEffect, RaceState, Initial;
    var w0 := Initial(doubleBuffered);
    var s := Sched(doubleBuffered, true, None, 0, []);
    r := Begin;
    InitialIs(doubleBuffered);
    Submits(w0, s.(waiting := false), [], None);
    r := Go(w0, r, ASubmit(true));
    var d, rest, empty: seq<Call> := [DispatchFlips], [FireListeners, DispatchFlips], [];
    var p0 := [[Present(F0)]];
    assert [] + p0 == p0 && [Present(F0)] + empty == [Present(F0)] && d + empty == d;
    Performs(After(w0, r), s, p0, None, [], 0, Present(F0), empty);
    r := Go(w0, r, APerform(0, true));
    assert p0[0 := d + empty] == [d];
    Submits(After(w0, r), s, [d], Some(F0));
    r := Go(w0, r, ASubmit(true));
    var q := s.(queued := Some(F1));
    assert [d] + [empty] == [d, empty];
    Flips(After(w0, r), q, [d, empty], F0);
    r := Go(w0, r, AFlip);
    assert [d, empty] + [d] == [d, empty, d];
    Performs(After(w0, r), q, [d, empty, d], None, [Some(F0)], 0, DispatchFlips, empty);
    r := Go(w0, r, APerform(0, true));
    var delivery := [OnScanout(F0), DispatchFlips];
    assert delivery + empty == delivery && delivery == [OnScanout(F0)] + d;
    assert [d, empty, d][0 := delivery + empty] == [delivery, empty, d];
    Performs(After(w0, r), q, [delivery, empty, d], None, [], 0, OnScanout(F0), d);
    r := Go(w0, r, APerform(0, true));
    var owed := [Present(F1), FireListeners] + d;
    assert owed == [Present(F1)] + rest && [delivery, empty, d][0 := owed] == [owed, empty, d];
    Performs(After(w0, r), s, [owed, empty, d], None, [], 0, Present(F1), rest);
    r := Go(w0, r, APerform(0, true));
    assert d + rest == [DispatchFlips, FireListeners, DispatchFlips];
    assert [owed, empty, d][0 := d + rest] == [d + rest, empty, d];
  }

  lemma Go(w: World, r: Run, a: Action) returns (r': Run)
    requires Legal(w, r) && Enabled(After(w, r), a)
    ensures r' == Then(r, a) && Legal(w, r') && After(w, r') == Next(After(w, r), a)
  {
    hide Next, Enabled;
    r' := Then(r, a);
  }

  /** The second flip, with F2 queued and `L` waiting, delivered by the event loop. */
  lemma RaceSecondFlip(doubleBuffered: bool) returns (r: Run)
    ensures Legal(Initial(doubleBuffered), r)
    ensures RaceState(After(Initial(doubleBuffered), r), Sched(doubleBuffered, true, Some(F2), 0, [L]),
                [[DispatchFlips, FireListeners, DispatchFlips], [], [DispatchFlips], [], [], [OnScanout(F1), DispatchFlips]],
                None, [])
  {
    hide Next, Enabled, CallEffect, RaceState, Initial;
    var w0 := Initial(doubleBuffered);
    var s := Sched(doubleBuffered, true, None, 0, []);
    r := RaceFirstFlip(doubleBuffered);
    var d, c, empty: seq<Call> := [DispatchFlips], [DispatchFlips, FireListeners, DispatchFlips], [];
    Listens(After(w0, r), s, [c, empty, d], Some(F1));
    r := Go(w0, r, AListen(L));
    var l := s.(listeners := [L]);
    assert [c, empty, d] + [empty] == [c, empty, d, empty];
    Submits(After(w0, r), l, [c, empty, d, empty], Some(F1));
    r := Go(w0, r, ASubmit(true));
    var q := l.(queued := Some(F2));
    var p := [c, empty, d, empty, empty];
    assert [c, empty, d, empty] + [empty] == p;
    Flips(After(w0, r), q, p, F1);
    r := Go(w0, r, AFlip);
    assert d + empty == d && p + [d] == [c, empty, d, empty, empty, d];
    Performs(After(w0, r), q, p + [d], None, [Some(F1)], 5, DispatchFlips, empty);
    r := Go(w0, r, APerform(5, true));
    var delivery := [OnScanout(F1), DispatchFlips];
    assert delivery + empty == delivery;
    assert (p + [d])[5 := delivery + empty] == [c, empty, d, empty, empty, delivery];
  }

  /** Delivering the second flip, then what the committing thread still owes. */
  ghost function Overtaking(flip: Run): Run {
    Then(Then(Then(Then(flip, APerform(5, true)), APerform(0, true)), APerform(0, true)), APerform(0, true))
  }

  /** `L` waits and F2 is queued when activation 5 is about to deliver the flip. */
  ghost predicate BothWait(w: World) {
    w.s.queued == Some(F2) && L in w.s.listeners && |w.pool| == 6 && w.pool[5] != [] && w.pool[5][0].OnScanout?
  }

  /** `L` has just run, and presenting F2 is still owed. */
  ghost predicate Overtaken(w: World) {
    && |w.pool| == 6 && w.pool[5] != [] && w.pool[5][0] == Present(F2)
    && w.done != [] && w.done[|w.done| - 1] == RunListener(L)
  }

  /**
   * A listener that was waiting when the flip of F1 was delivered runs although F2, queued at
   * that flip, has not been presented yet: another thread still owed a firing of listeners.
   */
  lemma ListenerMayOvertakeQueuedFrame(doubleBuffered: bool) returns (flip: Run)
    ensures Legal(Initial(doubleBuffered), Overtaking(flip)) && Legal(Initial(doubleBuffered), flip)
    ensures BothWait(After(Initial(doubleBuffered), flip))
    ensures Overtaken(After(Initial(doubleBuffered), Overtaking(flip)))
  {
    hide Next, Enabled, CallEffect, Initial;
    var w0 := Initial(doubleBuffered);
    var s := Sched(doubleBuffered, true, None, 0, [L]);
    flip := RaceSecondFlip(doubleBuffered);
    var r := flip;
    var d, c, empty: seq<Call> := [DispatchFlips], [DispatchFlips, FireListeners, DispatchFlips], [];
    var delivery := [OnScanout(F1), DispatchFlips];
    var p := [c, empty, d, empty, empty, delivery];
    assert delivery == [OnScanout(F1)] + d;
    Performs(After(w0, r), s.(queued := Some(F2)), p, None, [], 5, OnScanout(F1), d);
    r := Go(w0, r, APerform(5, true));
    var owed := [Present(F2), FireListeners] + d;
    var p1 := [c, empty, d, empty, empty, owed];
    assert p[5 := owed] == p1 && c == d + [FireListeners, DispatchFlips];
    Performs(After(w0, r), s, p1, None, [], 0, DispatchFlips, [FireListeners, DispatchFlips]);
    r := Go(w0, r, APerform(0, true));
    var p2 := p1[0 := [FireListeners, DispatchFlips]];
    assert p2[0] == [FireListeners] + d;
    Performs(After(w0, r), s, p2, None, [], 0, FireListeners, d);
    r := Go(w0, r, APerform(0, true));
    var p3 := p2[0 := [RunListener(L)] + d];
    Performs(After(w0, r), s.(listeners := []), p3, None, [], 0, RunListener(L), d);
    r := Go(w0, r, APerform(0, true));
  }
}
