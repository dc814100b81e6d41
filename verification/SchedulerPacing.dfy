/** When vsync requests are deferred and when listeners are refused, over every run and every interleaving. */
module SchedulerPacing {
  import opened Options
  import opened Scheduler
  import opened SchedulerWorld
  import opened SchedulerRuns
  import opened SchedulerSafety

  // Vsync requests.

  /** A commit is still to be made, pending in the kernel, or still to be reported. */
  ghost predicate CommitUnderWay(w: World) {
    CountPool(Tokens, w.pool) + One(w.kernel.Some?) + |w.flips| == 1
  }

  /** The step that ends a commit: its scanout or its failure is delivered. */
  predicate EndsCommit(w: World, a: Action)
    requires Enabled(w, a)
  {
    a.APerform? && (w.pool[a.k][0].OnScanout? || w.pool[a.k][0].ReportFailure?)
  }

  /**
   * The request that is deferred after a run, 0 if none: with double buffering the last one
   * that came while a commit was under way, until that commit ends.
   */
  ghost function Deferred(doubleBuffered: bool, r: Run): int
    requires Legal(Initial(doubleBuffered), r)
  {
    if r.Begin? then 0
    else
      var w := After(Initial(doubleBuffered), r.before);
      if r.act.AVsync? && doubleBuffered && CommitUnderWay(w) then r.act.baton
      else if EndsCommit(w, r.act) then 0
      else Deferred(doubleBuffered, r.before)
  }

  lemma BatonAfter(w: World, a: Action)
    requires SchedOk(w.s) && Enabled(w, a)
    ensures var s := EffectOf(w, a).w.s;
            && s.doubleBuffered == w.s.doubleBuffered
            && s.baton == if a.AVsync? && w.s.doubleBuffered && w.s.waiting then a.baton
                          else if EndsCommit(w, a) then 0 else w.s.baton
  {
    hide CallEffect, ApiEffect;
    if a.APerform? {
      BatonAfterCall(w, w.pool[a.k][0], a.accepted);
    } else {
      BatonAfterApi(w, a);
    }
  }

  lemma BatonAfterCall(w: World, c: Call, ok: bool)
    requires SchedOk(w.s)
    ensures var s := CallEffect(w, c, ok).w.s;
            s.doubleBuffered == w.s.doubleBuffered && s.baton == if c.OnScanout? || c.ReportFailure? then 0 else w.s.baton
  {
    hide RunAll, CancelOf, ReplyOf;
  }

  lemma BatonAfterApi(w: World, a: Action)
    requires !a.APerform?
    ensures var s := ApiEffect(w, a).w.s;
            && s.doubleBuffered == w.s.doubleBuffered
            && s.baton == if a.AVsync? && w.s.doubleBuffered && w.s.waiting then a.baton else w.s.baton
  {
    hide RunAll, CancelOf, ReplyOf, IndexOf;
  }

  lemma {:induction false} BatonIsDeferred(doubleBuffered: bool, r: Run)
    requires Legal(Initial(doubleBuffered), r)
    ensures var w := After(Initial(doubleBuffered), r);
            w.s.doubleBuffered == doubleBuffered && w.s.baton == Deferred(doubleBuffered, r)
  {
    if r.Then? {
      var w := After(Initial(doubleBuffered), r.before);
      hide Next, Enabled, Initial, Inv, EndsCommit, EffectOf, CountPool, Issues, TokenInv, SchedOk;
      BatonIsDeferred(doubleBuffered, r.before);
      Safety(doubleBuffered, r.before);
      TokenOfInv(w);
      WaitingMeansUnderWay(w);
      BatonAfter(w, r.act);
      IssuedField(w, r.act);
    }
  }

  lemma WaitingMeansUnderWay(w: World)
    requires TokenInv(w)
    ensures (w.s.waiting <==> CommitUnderWay(w)) && SchedOk(w.s)
  {
    hide CountPool;
  }

  /**
   * Exactly the last request made while a commit was under way with double buffering waits
   * for that commit to end. Every other request was answered at once or when it was displaced.
   */
  lemma VsyncIsPaced(doubleBuffered: bool, r: Run)
    requires Legal(Initial(doubleBuffered), r)
    ensures var w := After(Initial(doubleBuffered), r);
            && w.s.baton == Deferred(doubleBuffered, r)
            && forall b :: b != 0 ==> Made(w, Reply(b)) + One(Deferred(doubleBuffered, r) == b) == w.batons[b]
  {
    hide Legal, After, Initial, Deferred, Made;
    BatonIsDeferred(doubleBuffered, r);
    RepliesAreMade(doubleBuffered, r);
  }

  lemma RepliesAreMade(doubleBuffered: bool, r: Run)
    requires Legal(Initial(doubleBuffered), r)
    ensures var w := After(Initial(doubleBuffered), r);
            forall b :: b != 0 ==> Made(w, Reply(b)) + One(w.s.baton == b) == w.batons[b]
  {
    hide Legal, After, Initial, TokenInv, FrameInv, ListenerInv, OrderInv, DoneInv, Count, CountPool;
    Safety(doubleBuffered, r);
    var w := After(Initial(doubleBuffered), r);
    forall b | b != 0 ensures Made(w, Reply(b)) + One(w.s.baton == b) == w.batons[b] {
      assert BatonOk(w, b) && Accounted(w, Reply(b));
    }
  }

  // Listeners.

  /** Listeners that were accepted and neither withdrawn nor run, nor taken out to be run. */
  ghost function Outstanding(w: World): int {
    |w.accepted| - |w.withdrawn| - Count(Runs, w.done) - CountPool(Runs, w.pool)
  }

  lemma {:induction false} OutstandingAreWaiting(doubleBuffered: bool, r: Run)
    requires Legal(Initial(doubleBuffered), r)
    ensures var w := After(Initial(doubleBuffered), r); Outstanding(w) == |w.s.listeners|
  {
    if r.Begin? {
      NothingOutstanding(doubleBuffered);
    } else {
      hide Next, Enabled, Initial, Outstanding;
      OutstandingAreWaiting(doubleBuffered, r.before);
      OutstandingStep(After(Initial(doubleBuffered), r.before), r.act);
    }
  }

  lemma NothingOutstanding(doubleBuffered: bool)
    ensures Outstanding(Initial(doubleBuffered)) == |Initial(doubleBuffered).s.listeners|
  {
  }

  lemma OutstandingStep(w: World, a: Action)
    requires Enabled(w, a) && Outstanding(w) == |w.s.listeners|
    ensures Outstanding(Next(w, a)) == |Next(w, a).s.listeners|
  {
    hide Next, Count, CountPool, CallEffect, ApiEffect, Sat;
    CountNext(Runs, w, a);
    IssuedField(w, a);
    if a.APerform? {
      var c := w.pool[a.k][0];
      CountAppend(Runs, w.done, [c]);
      CountOne(Runs, c);
      CallKeepsListeners(w, c, a.accepted);
    } else {
      ApiKeepsListeners(w, a);
    }
  }

  lemma CallKeepsListeners(w: World, c: Call, ok: bool)
    ensures var e := CallEffect(w, c, ok);
            && e.w.accepted == w.accepted && e.w.withdrawn == w.withdrawn
            && Count(Runs, e.calls) + |e.w.s.listeners| == |w.s.listeners|
  {
    hide Count, CountPool, RunAll, CancelOf, ReplyOf;
    CallEffectCounts(Runs, w, c, ok);
    NoRunsIn(w.s.queued, w.s.baton);
  }

  lemma NoRunsIn(f: Option<Frame>, baton: int)
    ensures CountOptional(Runs, CancelOf(f)) == 0 && CountOptional(Runs, ReplyOf(baton)) == 0
  {
  }

  lemma ApiKeepsListeners(w: World, a: Action)
    requires !a.APerform?
    ensures var e := ApiEffect(w, a);
            |e.w.accepted| - |e.w.withdrawn| - Count(Runs, e.calls) - |e.w.s.listeners| ==
            |w.accepted| - |w.withdrawn| - |w.s.listeners|
  {
    hide Count, CountPool, RunAll, CancelOf, ReplyOf, IndexOf;
    ApiEffectCounts(Runs, w, a);
    NoRunsIn(w.s.queued, w.s.baton);
    if a.AVsync? {
      NoRunsIn(w.s.queued, a.baton);
    }
  }

  /** A registration is refused exactly if 16 accepted listeners are outstanding; otherwise the listener is accepted. */
  lemma RefusedIffFull(doubleBuffered: bool, r: Run, l: Listener)
    requires Legal(Initial(doubleBuffered), Then(r, AListen(l)))
    ensures var w, w' := After(Initial(doubleBuffered), r), After(Initial(doubleBuffered), Then(r, AListen(l)));
            w'.accepted == if Outstanding(w) == 16 then w.accepted else w.accepted + multiset{l}
  {
    hide Initial, After, Legal, Outstanding, Inv, TokenInv, Next, Enabled, SchedOk;
    LegalBefore(doubleBuffered, r, AListen(l));
    var w := After(Initial(doubleBuffered), r);
    OutstandingAreWaiting(doubleBuffered, r);
    Safety(doubleBuffered, r);
    TokenOfInv(w);
    WaitingMeansUnderWay(w);
    ListenStep(w, l);
  }

  lemma ListenStep(w: World, l: Listener)
    requires SchedOk(w.s) && Enabled(w, AListen(l))
    ensures Next(w, AListen(l)).accepted == if |w.s.listeners| == 16 then w.accepted else w.accepted + multiset{l}
  {
    hide Presents;
  }

  lemma LegalBefore(doubleBuffered: bool, r: Run, a: Action)
    requires Legal(Initial(doubleBuffered), Then(r, a))
    ensures Legal(Initial(doubleBuffered), r) && Enabled(After(Initial(doubleBuffered), r), a)
    ensures After(Initial(doubleBuffered), Then(r, a)) == Next(After(Initial(doubleBuffered), r), a)
  {
    hide Next, Enabled, Initial;
  }

  // The order in which listeners run.

  /** The listeners that a sequence of callbacks runs. */
  function ListenersOf(calls: seq<Call>): (ls: seq<Listener>)
    ensures |ls| == Count(Runs, calls)
  {
    if calls == [] then [] else
      ListenersOf(calls[..|calls| - 1]) +
      (if calls[|calls| - 1].RunListener? then [calls[|calls| - 1].listener] else [])
  }

  /** The listener a step accepts. */
  ghost function Accepted(w: World, a: Action): seq<Listener>
    requires Enabled(w, a)
  {
    if a.AListen? && Next(w, a).accepted != w.accepted then [a.listener] else []
  }

  /** The listeners accepted in a run, in the order of their registration. */
  ghost function Registered(doubleBuffered: bool, r: Run): seq<Listener>
    requires Legal(Initial(doubleBuffered), r)
  {
    if r.Begin? then []
    else Registered(doubleBuffered, r.before) + Accepted(After(Initial(doubleBuffered), r.before), r.act)
  }

  /** The listeners taken out to be run, in the order in which the threads that took them call them. */
  ghost function Taken(doubleBuffered: bool, r: Run): seq<Listener>
    requires Legal(Initial(doubleBuffered), r)
  {
    if r.Begin? then []
    else Taken(doubleBuffered, r.before) + ListenersOf(Issues(After(Initial(doubleBuffered), r.before), r.act))
  }

  lemma {:induction false} ListenersOfAll(ls: seq<Listener>)
    ensures ListenersOf(RunAll(ls)) == ls
  {
    if ls != [] {
      var n := |ls| - 1;
      assert RunAll(ls)[..n] == RunAll(ls[..n]);
      ListenersOfAll(ls[..n]);
    }
  }

  lemma {:induction false} ListenersOfAppend(a: seq<Call>, b: seq<Call>)
    ensures ListenersOf(a + b) == ListenersOf(a) + ListenersOf(b)
  {
    if b == [] {
      assert a + b == a;
    } else {
      assert (a + b)[..|a + b| - 1] == a + b[..|b| - 1];
      ListenersOfAppend(a, b[..|b| - 1]);
    }
  }

  lemma TakenByCall(w: World, c: Call, ok: bool)
    ensures w.s.listeners == ListenersOf(CallEffect(w, c, ok).calls) + CallEffect(w, c, ok).w.s.listeners
  {
    hide Count, CountPool, RunAll, CancelOf, ReplyOf, ListenersOf;
    CallKeepsListeners(w, c, ok);
    if c.FireListeners? {
      ListenersOfAll(w.s.listeners);
    }
  }

  lemma TakenByApi(w: World, a: Action)
    requires !a.APerform? && !a.AUnlisten?
    ensures var e := ApiEffect(w, a);
            w.s.listeners + (if a.AListen? && e.w.accepted != w.accepted then [a.listener] else []) ==
            ListenersOf(e.calls) + e.w.s.listeners
  {
    hide Count, CountPool, RunAll, CancelOf, ReplyOf, ListenersOf;
    ApiKeepsListeners(w, a);
    if a.ADestroy? {
      ListenersOfAppend(CancelOf(w.s.queued), RunAll(w.s.listeners));
      ListenersOfAll(w.s.listeners);
      CancellingRunsNone(w.s.queued);
    }
    if a.AListen? {
      assert a.listener in w.accepted + multiset{a.listener};
    }
  }

  lemma CancellingRunsNone(f: Option<Frame>)
    ensures ListenersOf(CancelOf(f)) == []
  {
    hide Count;
    NoRunsIn(f, 0);
    CountAtMostOne(Runs, CancelOf(f));
  }

  lemma OrderStep(w: World, a: Action)
    requires Enabled(w, a) && Next(w, a).withdrawn == multiset{}
    ensures w.withdrawn == multiset{}
    ensures w.s.listeners + Accepted(w, a) == ListenersOf(Issues(w, a)) + Next(w, a).s.listeners
  {
    hide Next, CallEffect, ApiEffect, ListenersOf;
    IssuedField(w, a);
    WithdrawnStep(w, a);
    if a.APerform? {
      TakenByCall(w, w.pool[a.k][0], a.accepted);
    } else if a.AUnlisten? {
      NothingWithdrawn(w, a.listener);
    } else {
      TakenByApi(w, a);
    }
  }

  lemma WithdrawnStep(w: World, a: Action)
    requires Enabled(w, a)
    ensures w.withdrawn <= EffectOf(w, a).w.withdrawn
  {
  }

  lemma NothingWithdrawn(w: World, l: Listener)
    requires ApiEffect(w, AUnlisten(l)).w.withdrawn == multiset{}
    ensures ApiEffect(w, AUnlisten(l)) == Effect(w, [])
  {
    if IndexOf(w.s.listeners, l) < |w.s.listeners| {
      Grows(w.withdrawn, l);
    }
  }

  lemma Grows(m: multiset<Listener>, l: Listener)
    ensures m + multiset{l} != multiset{}
  {
    assert l in m + multiset{l};
  }

  /** Unless listeners are withdrawn, they run in the order in which they were registered. */
  lemma {:induction false} ListenersRunInOrder(doubleBuffered: bool, r: Run)
    requires Legal(Initial(doubleBuffered), r)
    requires After(Initial(doubleBuffered), r).withdrawn == multiset{}
    ensures Registered(doubleBuffered, r) == Taken(doubleBuffered, r) + After(Initial(doubleBuffered), r).s.listeners
  {
    if r.Begin? {
      NoListeners(doubleBuffered);
    } else {
      hide Next, Enabled, Initial, Accepted, Issues, ListenersOf;
      var w := After(Initial(doubleBuffered), r.before);
      LegalBefore(doubleBuffered, r.before, r.act);
      OrderStep(w, r.act);
      ListenersRunInOrder(doubleBuffered, r.before);
      hide *;
      Shifted(Taken(doubleBuffered, r.before), w.s.listeners, Accepted(w, r.act),
              ListenersOf(Issues(w, r.act)), Next(w, r.act).s.listeners);
      TakenAndRegistered(doubleBuffered, r);
    }
  }

  lemma TakenAndRegistered(doubleBuffered: bool, r: Run)
    requires Legal(Initial(doubleBuffered), r) && r.Then?
    ensures var w := After(Initial(doubleBuffered), r.before);
            && Registered(doubleBuffered, r) == Registered(doubleBuffered, r.before) + Accepted(w, r.act)
            && Taken(doubleBuffered, r) == Taken(doubleBuffered, r.before) + ListenersOf(Issues(w, r.act))
  {
    hide Next, Enabled, Initial, Accepted, Issues, ListenersOf;
  }

  lemma Shifted<T>(a: seq<T>, b: seq<T>, c: seq<T>, d: seq<T>, e: seq<T>)
    requires b + c == d + e
    ensures (a + b) + c == (a + d) + e
  {
    assert (a + b) + c == a + (b + c) == a + (d + e) == (a + d) + e;
  }

  lemma NoListeners(doubleBuffered: bool)
    ensures Initial(doubleBuffered).s.listeners == []
  {
  }
}
