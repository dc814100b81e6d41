/**
 * The frame scheduler together with the display it commits to.
 *
 * A world runs any number of threads. `pool[k]` is one activation of the scheduler: the
 * callbacks it still has to make, in order. Any activation may make its next callback at any
 * time, so every interleaving and every re-entrant call is a run. Presenting a frame commits
 * it; a failed commit reports back; a page flip is recorded and dispatched later, by
 * whichever thread gets to it.
 */
module SchedulerWorld {
  import opened Options
  import opened Scheduler

  datatype World = World(
    s: Sched,
    pool: seq<seq<Call>>,
    // the commit the kernel holds, the scanout callback of the CRTC, the recorded flips
    kernel: Option<Frame>,
    callback: Option<Frame>,
    flips: seq<Option<Frame>>,
    // history
    frames: seq<Frame>,
    batons: multiset<int>,
    accepted: multiset<Listener>,
    withdrawn: multiset<Listener>,
    presents: seq<Frame>,
    issued: multiset<Call>,
    done: seq<Call>,
    scanouts: nat,
    failures: nat,
    destroyed: bool)

  /**
   * Destroying the scheduler does not stop a commit in flight: its flip may still be
   * delivered here. In the source that would be a use after free and no step of the
   * scheduler; the guarantees hold with such steps and so without them.
   */
  datatype Action =
    | ASubmit(cancellable: bool)
    | AVsync(baton: int)
    | AListen(listener: Listener)
    | AUnlisten(listener: Listener)
    | AFlip
    | APerform(k: nat, accepted: bool)
    | ADestroy

  function Initial(doubleBuffered: bool): World {
    World(Sched(doubleBuffered, false, None, 0, []), [], None, None, [], [], multiset{}, multiset{}, multiset{},
          [], multiset{}, [], 0, 0, false)
  }

  /** No activation has a callback left to make. */
  predicate Idle(pool: seq<seq<Call>>) {
    forall i :: 0 <= i < |pool| ==> |pool[i]| == 0
  }

  predicate Enabled(w: World, a: Action) {
    match a
    case AVsync(b) => !w.destroyed && b != 0
    case AFlip => w.kernel.Some?
    // the kernel refuses a commit while another one is pending
    case APerform(k, ok) => k < |w.pool| && w.pool[k] != [] && (w.pool[k][0].Present? && ok ==> w.kernel == None)
    case ADestroy => !w.destroyed && Idle(w.pool)
    case _ => !w.destroyed
  }

  /** What one step does outside of `pool` and `done`; `calls` are the callbacks it owes. */
  datatype Effect = Effect(w: World, calls: seq<Call>)

  function CallEffect(w: World, c: Call, ok: bool): Effect {
    match c
    case Present(f) =>
      if ok then Effect(w.(kernel := Some(f), callback := Some(f)), [DispatchFlips])
      else Effect(w, [ReportFailure])
    case ReportFailure =>
      var t := FailedSection(w.s);
      Effect(w.(s := t.s, failures := w.failures + 1), t.calls)
    case OnScanout(f) =>
      var t := ScanoutSection(w.s);
      Effect(w.(s := t.s, scanouts := w.scanouts + if w.s.waiting then 1 else 0), t.calls)
    case DispatchFlips =>
      if w.flips == [] then Effect(w, [])
      else Effect(w.(flips := w.flips[1..]),
                  (if w.flips[0].Some? then [OnScanout(w.flips[0].value)] else []) + [DispatchFlips])
    case FireListeners =>
      var t := TakeSection(w.s);
      Effect(w.(s := t.s), t.calls)
    case _ => Effect(w, [])
  }

  /** Steps that start a new activation. */
  function ApiEffect(w: World, a: Action): Effect
    requires !a.APerform?
  {
    match a
    case ASubmit(c) =>
      var f := Frame(|w.frames|, c);
      var t := SubmitSection(w.s, f);
      Effect(w.(s := t.s, frames := w.frames + [f]), t.calls)
    case AVsync(b) =>
      var t := VsyncSection(w.s, b);
      Effect(w.(s := t.s, batons := w.batons + multiset{b}), t.calls)
    case AListen(l) =>
      var (s, ok) := NextScanout(w.s, l);
      Effect(w.(s := s, accepted := if ok then w.accepted + multiset{l} else w.accepted), [])
    case AUnlisten(l) =>
      var (s, removed) := CancelListener(w.s, l);
      Effect(w.(s := s, withdrawn := if removed then w.withdrawn + multiset{l} else w.withdrawn), [])
    case AFlip =>
      Effect(w.(kernel := None, callback := None, flips := w.flips + [w.callback]), [DispatchFlips])
    case ADestroy =>
      var t := DestroySection(w.s);
      Effect(w.(s := t.s, destroyed := true), t.calls)
  }

  function Next(w: World, a: Action): World
    requires Enabled(w, a)
  {
    if a.APerform? then
      var calls := w.pool[a.k];
      var e := CallEffect(w, calls[0], a.accepted);
      e.w.(pool := w.pool[a.k := e.calls + calls[1..]],
           presents := w.presents + Presents(e.calls),
           issued := w.issued + multiset(e.calls),
           done := w.done + [calls[0]])
    else
      var e := ApiEffect(w, a);
      e.w.(pool := w.pool + [e.calls],
           presents := w.presents + Presents(e.calls),
           issued := w.issued + multiset(e.calls),
           done := w.done)
  }

  // Runs: finite sequences of steps, each enabled where it is taken.

  datatype Run = Begin | Then(before: Run, act: Action)

  ghost predicate Legal(w: World, r: Run)
    decreases r, 0
  {
    r.Begin? || (Legal(w, r.before) && Enabled(After(w, r.before), r.act))
  }

  ghost function After(w: World, r: Run): World
    requires Legal(w, r)
    decreases r, 1
  {
    if r.Begin? then w else Next(After(w, r.before), r.act)
  }

  // Counting callbacks.

  datatype Query = Tokens | Presenting | Fires | Runs | Is(call: Call)

  /**
   * A token is whatever stands for the one commit in flight before the kernel has it and
   * after the kernel has let go of it.
   */
  predicate Sat(q: Query, c: Call) {
    match q
    case Tokens => c.Present? || c.ReportFailure? || c.OnScanout?
    case Presenting => c.Present?
    case Fires => c.FireListeners?
    case Runs => c.RunListener?
    case Is(d) => c == d
  }

  function One(b: bool): nat { if b then 1 else 0 }

  function Count(q: Query, calls: seq<Call>): nat {
    if calls == [] then 0 else Count(q, calls[..|calls| - 1]) + One(Sat(q, calls[|calls| - 1]))
  }

  function CountPool(q: Query, pool: seq<seq<Call>>): nat {
    if pool == [] then 0 else CountPool(q, pool[..|pool| - 1]) + Count(q, pool[|pool| - 1])
  }

  lemma {:induction false} CountAppend(q: Query, a: seq<Call>, b: seq<Call>)
    ensures Count(q, a + b) == Count(q, a) + Count(q, b)
  {
    if b == [] {
      assert a + b == a;
    } else {
      assert (a + b)[..|a + b| - 1] == a + b[..|b| - 1];
      CountAppend(q, a, b[..|b| - 1]);
    }
  }

  lemma CountOne(q: Query, c: Call)
    ensures Count(q, [c]) == One(Sat(q, c)) && Count(q, []) == 0
  {
    assert [c][..0] == [];
  }

  lemma CountHead(q: Query, calls: seq<Call>)
    requires calls != []
    ensures Count(q, calls) == One(Sat(q, calls[0])) + Count(q, calls[1..])
  {
    assert calls == [calls[0]] + calls[1..];
    CountAppend(q, [calls[0]], calls[1..]);
    CountOne(q, calls[0]);
  }

  lemma {:induction false} CountIsMultiset(c: Call, calls: seq<Call>)
    ensures Count(Is(c), calls) == multiset(calls)[c]
  {
    if calls != [] {
      CountIsMultiset(c, calls[..|calls| - 1]);
      assert calls == calls[..|calls| - 1] + [calls[|calls| - 1]];
    }
  }

  lemma {:induction false} CountPoolUpdate(q: Query, pool: seq<seq<Call>>, k: nat, calls: seq<Call>)
    requires k < |pool|
    ensures CountPool(q, pool[k := calls]) + Count(q, pool[k]) == CountPool(q, pool) + Count(q, calls)
    decreases |pool|
  {
    var last := |pool| - 1;
    if k < last {
      assert pool[k := calls][..last] == pool[..last][k := calls];
      CountPoolUpdate(q, pool[..last], k, calls);
    } else {
      assert pool[k := calls][..last] == pool[..last];
    }
  }

  lemma CountPoolAppend(q: Query, pool: seq<seq<Call>>, calls: seq<Call>)
    ensures CountPool(q, pool + [calls]) == CountPool(q, pool) + Count(q, calls)
  {
    assert (pool + [calls])[..|pool|] == pool;
  }

  lemma {:induction false} CountPoolMember(q: Query, pool: seq<seq<Call>>, k: nat)
    requires k < |pool|
    ensures Count(q, pool[k]) <= CountPool(q, pool)
  {
    if k < |pool| - 1 {
      CountPoolMember(q, pool[..|pool| - 1], k);
    }
  }

  /** How one step changes the callbacks still to be made. */
  lemma CountNext(q: Query, w: World, a: Action)
    requires Enabled(w, a)
    ensures a.APerform? ==>
              CountPool(q, Next(w, a).pool) + One(Sat(q, w.pool[a.k][0])) ==
              CountPool(q, w.pool) + Count(q, CallEffect(w, w.pool[a.k][0], a.accepted).calls)
    ensures !a.APerform? ==>
              CountPool(q, Next(w, a).pool) == CountPool(q, w.pool) + Count(q, ApiEffect(w, a).calls)
  {
    hide Sat, Count, CountPool, CallEffect, ApiEffect;
    if a.APerform? {
      var calls, e := w.pool[a.k], CallEffect(w, w.pool[a.k][0], a.accepted);
      CountPoolUpdate(q, w.pool, a.k, e.calls + calls[1..]);
      CountHead(q, calls);
      CountAppend(q, e.calls, calls[1..]);
    } else {
      CountPoolAppend(q, w.pool, ApiEffect(w, a).calls);
    }
  }

  // One commit in flight.

  ghost predicate TokenInv(w: World) {
    && CountPool(Tokens, w.pool) + One(w.kernel.Some?) + |w.flips| == One(w.s.waiting)
    && w.callback == w.kernel
    && (forall i :: 0 <= i < |w.flips| ==> w.flips[i].Some?)
    && SchedOk(w.s)
  }

  lemma CountSmall(q: Query, a: seq<Call>, b: seq<Call>, c: seq<Call>)
    requires |a| <= 1 && |b| <= 1 && |c| <= 1
    ensures Count(q, a) == One(a != [] && Sat(q, a[0]))
    ensures Count(q, a + b) == One(a != [] && Sat(q, a[0])) + One(b != [] && Sat(q, b[0]))
    ensures Count(q, a + b + c) ==
            One(a != [] && Sat(q, a[0])) + One(b != [] && Sat(q, b[0])) + One(c != [] && Sat(q, c[0]))
  {
    hide Count, Sat;
    CountAppend(q, a + b, c);
    CountAppend(q, a, b);
    CountAtMostOne(q, a);
    CountAtMostOne(q, b);
    CountAtMostOne(q, c);
  }

  lemma CountAtMostOne(q: Query, c: seq<Call>)
    requires |c| <= 1
    ensures Count(q, c) == One(c != [] && Sat(q, c[0]))
  {
    hide Sat;
    if c != [] {
      assert c[..0] == [];
    }
  }

  /** How many of the runs of these listeners are counted. */
  function RunCount(q: Query, ls: seq<Listener>): nat {
    if q.Runs? then |ls| else if q.Is? && q.call.RunListener? then multiset(ls)[q.call.listener] else 0
  }

  lemma {:induction false} CountRunAll(q: Query, ls: seq<Listener>)
    ensures Count(q, RunAll(ls)) == RunCount(q, ls)
  {
    if ls != [] {
      var n := |ls| - 1;
      assert ls == ls[..n] + [ls[n]];
      assert RunAll(ls)[..n] == RunAll(ls[..n]);
      CountRunAll(q, ls[..n]);
    }
  }

  /** What a callback turns into, counted. */
  lemma CallEffectCounts(q: Query, w: World, c: Call, ok: bool)
    ensures var n := Count(q, CallEffect(w, c, ok).calls);
            match c
            case Present(f) => n == One(Sat(q, if ok then DispatchFlips else ReportFailure))
            case ReportFailure =>
              n == CountOptional(q, CancelOf(w.s.queued)) + One(q == Fires || q == Is(FireListeners))
                   + CountOptional(q, ReplyOf(w.s.baton))
            case OnScanout(_) =>
              n == One(q == Fires || q == Is(FireListeners)) +
                   (if w.s.waiting then CountOptional(q, ReplyOf(w.s.baton)) +
                      (if w.s.queued.Some? then One(Sat(q, Present(w.s.queued.value))) else 0) else 0)
            case DispatchFlips =>
              n == (if w.flips != [] then One(Sat(q, DispatchFlips)) +
                      (if w.flips[0].Some? then One(Sat(q, OnScanout(w.flips[0].value))) else 0) else 0)
            case FireListeners =>
              n == RunCount(q, w.s.listeners)
            case _ => n == 0
  {
    hide Count, CountPool;
    match c {
      case Present(f) => CountOne(q, if ok then DispatchFlips else ReportFailure);
      case ReportFailure => CountSmall(q, CancelOf(w.s.queued), [FireListeners], ReplyOf(w.s.baton));
      case OnScanout(_) => ScanoutCounts(q, w.s);
      case DispatchFlips =>
        if w.flips != [] {
          CountSmall(q, if w.flips[0].Some? then [OnScanout(w.flips[0].value)] else [], [DispatchFlips], []);
        }
        CountOne(q, c);
      case FireListeners => CountRunAll(q, w.s.listeners);
      case _ => CountOne(q, c);
    }
  }

  function CountOptional(q: Query, c: seq<Call>): nat { One(c != [] && Sat(q, c[0])) }

  lemma ScanoutCounts(q: Query, s: Sched)
    ensures Count(q, ScanoutSection(s).calls) == One(q == Fires || q == Is(FireListeners)) +
            (if s.waiting then CountOptional(q, ReplyOf(s.baton)) +
               (if s.queued.Some? then One(Sat(q, Present(s.queued.value))) else 0) else 0)
  {
    hide Count, CountPool;
    if s.queued.Some? {
      CountSmall(q, ReplyOf(s.baton), [Present(s.queued.value)], [FireListeners]);
    } else {
      CountSmall(q, ReplyOf(s.baton), [FireListeners], []);
    }
    CountOne(q, FireListeners);
  }

  lemma ApiEffectCounts(q: Query, w: World, a: Action)
    requires !a.APerform?
    ensures var n := Count(q, ApiEffect(w, a).calls);
            match a
            case ASubmit(_) =>
              n == if w.s.waiting then CountOptional(q, CancelOf(w.s.queued))
                   else One(Sat(q, Present(Frame(|w.frames|, a.cancellable))))
            case AVsync(_) =>
              n == CountOptional(q, ReplyOf(if w.s.doubleBuffered && w.s.waiting then w.s.baton else a.baton))
            case AFlip => n == One(Sat(q, DispatchFlips))
            case ADestroy =>
              n == CountOptional(q, CancelOf(w.s.queued)) +
                   RunCount(q, w.s.listeners)
            case _ => n == 0
  {
    hide Count, CountPool;
    match a {
      case ASubmit(_) =>
        CountSmall(q, CancelOf(w.s.queued), [], []);
        CountOne(q, Present(Frame(|w.frames|, a.cancellable)));
      case AVsync(_) =>
        CountSmall(q, ReplyOf(w.s.baton), [], []);
        CountSmall(q, ReplyOf(a.baton), [], []);
      case AFlip => CountOne(q, DispatchFlips);
      case ADestroy =>
        CountAppend(q, CancelOf(w.s.queued), RunAll(w.s.listeners));
        CountSmall(q, CancelOf(w.s.queued), [], []);
        CountRunAll(q, w.s.listeners);
      case _ => CountOne(q, DispatchFlips);
    }
  }

  /** A token among the callbacks still to be made is the only one, and the kernel holds no commit. */
  lemma TokenIsUnique(w: World, k: nat)
    requires TokenInv(w) && k < |w.pool| && w.pool[k] != [] && Sat(Tokens, w.pool[k][0])
    ensures w.s.waiting && w.kernel == None && w.callback == None && w.flips == []
    ensures CountPool(Tokens, w.pool) == 1
  {
    hide Sat, Count, CountPool;
    CountPoolMember(Tokens, w.pool, k);
    CountHead(Tokens, w.pool[k]);
  }

  lemma NoTokens(f: Option<Frame>, baton: int)
    ensures CountOptional(Tokens, CancelOf(f)) == 0 && CountOptional(Tokens, ReplyOf(baton)) == 0
  {
  }

  lemma TokenStep(w: World, a: Action)
    requires TokenInv(w) && Enabled(w, a)
    ensures TokenInv(Next(w, a))
  {
    if a.APerform? {
      TokenPerform(w, a.k, a.accepted);
    } else {
      TokenApi(w, a);
    }
  }

  /** Every callback passes the token on, or gives it up together with `waiting`. */
  lemma EffectKeepsToken(w: World, c: Call, ok: bool)
    requires SchedOk(w.s) && w.callback == w.kernel && forall i :: 0 <= i < |w.flips| ==> w.flips[i].Some?
    requires Sat(Tokens, c) ==> w.s.waiting && w.kernel == None && w.flips == []
    ensures var e := CallEffect(w, c, ok);
            && Count(Tokens, e.calls) + One(e.w.kernel.Some?) + |e.w.flips| + One(w.s.waiting) ==
               One(Sat(Tokens, c)) + One(w.kernel.Some?) + |w.flips| + One(e.w.s.waiting)
            && e.w.callback == e.w.kernel
            && (forall i :: 0 <= i < |e.w.flips| ==> e.w.flips[i].Some?)
            && SchedOk(e.w.s)
  {
    hide Count, CountPool, RunAll, CancelOf, ReplyOf, CountOptional;
    CallEffectCounts(Tokens, w, c, ok);
    NoTokens(w.s.queued, w.s.baton);
  }

  lemma TokenPerform(w: World, k: nat, ok: bool)
    requires TokenInv(w) && Enabled(w, APerform(k, ok))
    ensures TokenInv(Next(w, APerform(k, ok)))
  {
    hide Count, CountPool, CallEffect, Sat, SchedOk;
    CountNext(Tokens, w, APerform(k, ok));
    var c := w.pool[k][0];
    if Sat(Tokens, c) {
      TokenIsUnique(w, k);
    }
    EffectKeepsToken(w, c, ok);
  }

  lemma ApiKeepsToken(w: World, a: Action)
    requires TokenInv(w) && Enabled(w, a) && !a.APerform?
    ensures var e := ApiEffect(w, a);
            && Count(Tokens, e.calls) + One(e.w.kernel.Some?) + |e.w.flips| + One(w.s.waiting) ==
               One(w.kernel.Some?) + |w.flips| + One(e.w.s.waiting)
            && e.w.callback == e.w.kernel
            && (forall i :: 0 <= i < |e.w.flips| ==> e.w.flips[i].Some?)
            && SchedOk(e.w.s)
  {
    hide Count, CountPool, RunAll, CancelOf, ReplyOf, CountOptional, IndexOf;
    ApiEffectCounts(Tokens, w, a);
    NoTokens(w.s.queued, w.s.baton);
    if a.AVsync? {
      NoTokens(w.s.queued, a.baton);
    }
  }

  lemma TokenApi(w: World, a: Action)
    requires TokenInv(w) && Enabled(w, a) && !a.APerform?
    ensures TokenInv(Next(w, a))
  {
    hide Count, CountPool, ApiEffect, SchedOk, Sat;
    CountNext(Tokens, w, a);
    ApiKeepsToken(w, a);
  }
}
