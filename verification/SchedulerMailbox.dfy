/** The frame scheduler is a mailbox, over every run and every interleaving of its callbacks. */
module SchedulerMailbox {
  import opened Options
  import opened Counting
  import opened Scheduler
  import opened SchedulerWorld
  import opened SchedulerRuns
  import opened SchedulerSafety

  /**
   * The specification: hold every frame submitted since the last commit; at the next flip
   * present the newest and discard the rest. A failed commit, and closing, discard all.
   */
  datatype Mailbox = Mailbox(busy: bool, held: seq<Frame>, presented: seq<Frame>, discarded: multiset<Frame>)

  datatype Event = Submit(frame: Frame) | Flip | CommitFailed | Close

  function Deliver(m: Mailbox, e: Event): Mailbox {
    match e
    case Submit(f) =>
      if m.busy then m.(held := m.held + [f])
      else m.(busy := true, presented := m.presented + [f])
    case Flip =>
      if m.held == [] then m.(busy := false) else
        m.(held := [], presented := m.presented + [m.held[|m.held| - 1]], discarded := m.discarded + Displaced(m.held))
    case CommitFailed => Mailbox(false, [], m.presented, m.discarded + multiset(m.held))
    case Close => m.(held := [], discarded := m.discarded + multiset(m.held))
  }

  /** The steps of the world that the mailbox sees. */
  function EventOf(w: World, a: Action): Option<Event>
    requires Enabled(w, a)
  {
    match a
    case ASubmit(c) => Some(Submit(Frame(|w.frames|, c)))
    case ADestroy => Some(Close)
    case APerform(k, _) =>
      (match w.pool[k][0]
       case OnScanout(_) => Some(Flip)
       case ReportFailure => Some(CommitFailed)
       case _ => None)
    case _ => None
  }

  function Follow(m: Mailbox, e: Option<Event>): Mailbox {
    if e.Some? then Deliver(m, e.value) else m
  }

  /** The mailbox beside a run. */
  ghost function MailboxAfter(w: World, r: Run): Mailbox
    requires Legal(w, r)
  {
    if r.Begin? then Mailbox(false, [], [], multiset{})
    else Follow(MailboxAfter(w, r.before), EventOf(After(w, r.before), r.act))
  }

  function Newest(held: seq<Frame>): Option<Frame> {
    if held == [] then None else Some(held[|held| - 1])
  }

  /** Held frames that will not be presented any more: a newer one is held. */
  function Displaced(held: seq<Frame>): multiset<Frame> {
    if held == [] then multiset{} else multiset(held[..|held| - 1])
  }

  /** The frames given up, displaced ones included. */
  function Dropped(m: Mailbox): multiset<Frame> { m.discarded + Displaced(m.held) }

  ghost predicate Matches(w: World, m: Mailbox) {
    && w.s.waiting == m.busy
    && (!m.busy ==> m.held == [])
    && w.s.queued == Newest(m.held)
    && w.presents == m.presented
    && forall f: Frame :: CancelsMatch(w, m, f)
  }

  /** Exactly the frames given up that have a cancel callback are cancelled, as soon as they are given up. */
  ghost predicate CancelsMatch(w: World, m: Mailbox, f: Frame) {
    w.issued[Cancel(f)] == if f.cancellable then Dropped(m)[f] else 0
  }

  lemma {:induction false} MailboxRefinement(doubleBuffered: bool, r: Run)
    requires Legal(Initial(doubleBuffered), r)
    ensures Matches(After(Initial(doubleBuffered), r), MailboxAfter(Initial(doubleBuffered), r))
  {
    if r.Then? {
      hide Next, Enabled, Initial, Inv, Matches, Follow, EventOf;
      MailboxRefinement(doubleBuffered, r.before);
      Safety(doubleBuffered, r.before);
      var w := After(Initial(doubleBuffered), r.before);
      TokenOfInv(w);
      MatchesStep(w, MailboxAfter(Initial(doubleBuffered), r.before), r.act);
    }
  }

  lemma MatchesStep(w: World, m: Mailbox, a: Action)
    requires TokenInv(w) && Matches(w, m) && Enabled(w, a)
    ensures Matches(Next(w, a), Follow(m, EventOf(w, a)))
  {
    hide Next, Count, CountPool, CallEffect, ApiEffect, Presents, SchedOk, Dropped, Follow;
    IssuedField(w, a);
    if a.APerform? {
      var c := w.pool[a.k][0];
      if Sat(Tokens, c) {
        TokenIsUnique(w, a.k);
      }
      CallPresents(w, c, a.accepted);
      CallState(w, c, a.accepted);
    } else {
      ApiPresents(w, a);
      ApiState(w, a);
    }
    FollowState(m, EventOf(w, a));
    forall f: Frame ensures CancelsMatch(Next(w, a), Follow(m, EventOf(w, a)), f) {
      assert CancelsMatch(w, m, f);
      CancelsStep(w, a, f);
      DroppedStep(m, EventOf(w, a), f);
    }
  }

  /** The queue and the pending commit after a callback. */
  lemma CallState(w: World, c: Call, ok: bool)
    requires SchedOk(w.s)
    ensures var s := CallEffect(w, c, ok).w.s;
            match c
            case OnScanout(_) => s.queued == None && (s.waiting <==> w.s.queued.Some?)
            case ReportFailure => s.queued == None && !s.waiting
            case _ => s.queued == w.s.queued && s.waiting == w.s.waiting
  {
  }

  lemma ApiState(w: World, a: Action)
    requires SchedOk(w.s) && !a.APerform?
    ensures var s := ApiEffect(w, a).w.s;
            match a
            case ASubmit(c) => s.waiting && s.queued == if w.s.waiting then Some(Frame(|w.frames|, c)) else None
            case ADestroy => s.queued == None && s.waiting == w.s.waiting
            case _ => s.queued == w.s.queued && s.waiting == w.s.waiting
  {
    hide IndexOf;
  }

  /** What the mailbox does, but for the frames it gives up. */
  lemma FollowState(m: Mailbox, e: Option<Event>)
    ensures var m' := Follow(m, e);
            match e
            case None => m' == m
            case Some(Submit(f)) =>
              && m'.busy && Newest(m'.held) == (if m.busy then Some(f) else Newest(m.held))
              && m'.presented == (if m.busy then m.presented else m.presented + [f])
            case Some(Flip) =>
              && m'.held == [] && m'.busy == (m.busy && m.held != [])
              && m'.presented == m.presented + (if m.held == [] then [] else [m.held[|m.held| - 1]])
            case Some(CommitFailed) => m'.held == [] && !m'.busy && m'.presented == m.presented
            case Some(Close) => m'.held == [] && m'.busy == m.busy && m'.presented == m.presented
  {
  }

  /** The frame given up at an event, if any: the one queued so far. */
  lemma CancelsStep(w: World, a: Action, f: Frame)
    requires TokenInv(w) && Enabled(w, a)
    ensures Next(w, a).issued[Cancel(f)] ==
            w.issued[Cancel(f)] + One(GivesUp(w.s.waiting, EventOf(w, a)) && w.s.queued == Some(f) && f.cancellable)
  {
    hide Next, Count, CountPool, CallEffect, ApiEffect;
    IssuedStep(w, a, Cancel(f));
    if a.APerform? {
      CallEffectCounts(Is(Cancel(f)), w, w.pool[a.k][0], a.accepted);
    } else {
      ApiEffectCounts(Is(Cancel(f)), w, a);
    }
  }

  /** The newest frame is given up at a submission while a commit is pending, a failure and at the end. */
  predicate GivesUp(busy: bool, e: Option<Event>) {
    e.Some? && ((e.value.Submit? && busy) || e.value.CommitFailed? || e.value.Close?)
  }

  lemma HeldSplits(held: seq<Frame>, f: Frame)
    ensures multiset(held)[f] == Displaced(held)[f] + One(Newest(held) == Some(f))
  {
    if held != [] {
      var newest := |held| - 1;
      assert held == held[..newest] + [held[newest]];
      SnocCount(held[..newest], held[newest], f);
    }
  }

  lemma DisplacedBy(held: seq<Frame>, f: Frame)
    ensures Displaced(held + [f]) == multiset(held)
  {
    assert (held + [f])[..|held|] == held;
  }

  lemma NothingDisplaced()
    ensures Displaced([]) == multiset{}
  {
  }

  lemma DroppedStep(m: Mailbox, e: Option<Event>, f: Frame)
    requires !m.busy ==> m.held == []
    ensures Dropped(Follow(m, e))[f] == Dropped(m)[f] + One(GivesUp(m.busy, e) && Newest(m.held) == Some(f))
  {
    hide Displaced;
    HeldSplits(m.held, f);
    NothingDisplaced();
    if e.Some? && e.value.Submit? {
      DisplacedBy(m.held, e.value.frame);
    }
  }

  // Nothing gets lost.

  /** Every frame submitted was presented, was discarded, or is held. */
  ghost predicate Conserved(w: World, m: Mailbox, f: Frame) {
    multiset(w.frames)[f] == multiset(m.presented)[f] + m.discarded[f] + multiset(m.held)[f]
  }

  lemma {:induction false} MailboxConserves(doubleBuffered: bool, r: Run, f: Frame)
    requires Legal(Initial(doubleBuffered), r)
    ensures Conserved(After(Initial(doubleBuffered), r), MailboxAfter(Initial(doubleBuffered), r), f)
  {
    if r.Then? {
      hide Next, Enabled, Conserved, Follow, EventOf;
      MailboxConserves(doubleBuffered, r.before, f);
      ConservedStep(After(Initial(doubleBuffered), r.before), MailboxAfter(Initial(doubleBuffered), r.before), r.act, f);
    }
  }

  lemma ConservedStep(w: World, m: Mailbox, a: Action, f: Frame)
    requires Conserved(w, m, f) && Enabled(w, a)
    ensures Conserved(Next(w, a), Follow(m, EventOf(w, a)), f)
  {
    hide Next, Deliver, Follow;
    FramesStep(w, a);
    FollowConserves(m, EventOf(w, a), f);
    if a.ASubmit? {
      SnocCount(w.frames, Frame(|w.frames|, a.cancellable), f);
    }
  }

  lemma FollowConserves(m: Mailbox, e: Option<Event>, f: Frame)
    ensures var m' := Follow(m, e);
            multiset(m'.presented)[f] + m'.discarded[f] + multiset(m'.held)[f] ==
            multiset(m.presented)[f] + m.discarded[f] + multiset(m.held)[f] +
            (if e.Some? && e.value.Submit? then One(e.value.frame == f) else 0)
  {
    hide Displaced;
    match e {
      case Some(Submit(g)) =>
        SnocCount(m.held, g, f);
        SnocCount(m.presented, g, f);
      case Some(Flip) => FlipConserves(m, f);
      case _ =>
    }
  }

  lemma FlipConserves(m: Mailbox, f: Frame)
    ensures var m' := Deliver(m, Flip);
            multiset(m'.presented)[f] + m'.discarded[f] + multiset(m'.held)[f] ==
            multiset(m.presented)[f] + m.discarded[f] + multiset(m.held)[f]
  {
    hide Displaced;
    HeldSplits(m.held, f);
    if m.held != [] {
      SnocCount(m.presented, m.held[|m.held| - 1], f);
    }
  }

  lemma FramesStep(w: World, a: Action)
    requires Enabled(w, a)
    ensures Next(w, a).frames == if a.ASubmit? then w.frames + [Frame(|w.frames|, a.cancellable)] else w.frames
  {
    hide Presents;
  }

  /** The present callbacks issued are those of the frames presented. */
  lemma {:induction false} PresentsAreIssued(doubleBuffered: bool, r: Run, f: Frame)
    requires Legal(Initial(doubleBuffered), r)
    ensures var w := After(Initial(doubleBuffered), r); w.issued[Present(f)] == multiset(w.presents)[f]
  {
    if r.Then? {
      hide Next, Enabled, Initial, Inv, Issues, TokenInv, Presents, Count;
      PresentsAreIssued(doubleBuffered, r.before, f);
      Safety(doubleBuffered, r.before);
      TokenOfInv(After(Initial(doubleBuffered), r.before));
      PresentsIssuedStep(After(Initial(doubleBuffered), r.before), r.act, f);
    }
  }

  lemma PresentsIssuedStep(w: World, a: Action, f: Frame)
    requires TokenInv(w) && Enabled(w, a) && w.issued[Present(f)] == multiset(w.presents)[f]
    ensures Next(w, a).issued[Present(f)] == multiset(Next(w, a).presents)[f]
  {
    hide Next, Issues, TokenInv, Presents, Count, Enabled;
    IssuedField(w, a);
    IssuedStep(w, a, Present(f));
    IssuesPresents(w, a);
    var shown := Presents(Issues(w, a));
    if shown != [] {
      assert shown == [shown[0]];
      SnocCount(w.presents, shown[0], f);
    } else {
      assert w.presents + [] == w.presents;
    }
  }

  lemma {:induction false} NumberedOnce(frames: seq<Frame>, f: Frame)
    requires forall i :: 0 <= i < |frames| ==> frames[i].id == i
    ensures multiset(frames)[f] == One(f in frames)
  {
    if frames != [] {
      var front, last := frames[..|frames| - 1], frames[|frames| - 1];
      assert frames == front + [last];
      NumberedOnce(front, f);
      SnocCount(front, last, f);
    }
  }

  /** What becomes of a frame: presented, given up or queued, exactly one of these, with or without a cancel callback. */
  lemma FateOfFrame(doubleBuffered: bool, r: Run, f: Frame)
    requires Legal(Initial(doubleBuffered), r)
    ensures var w, m := After(Initial(doubleBuffered), r), MailboxAfter(Initial(doubleBuffered), r);
            && Made(w, Present(f)) + Dropped(m)[f] + One(w.s.queued == Some(f)) == One(f in w.frames)
            && Made(w, Cancel(f)) == (if f.cancellable then Dropped(m)[f] else 0)
  {
    hide Legal, After, Initial, TokenInv, BatonInv, ListenerInv, OrderInv, DoneInv, Count, CountPool, FateOk,
         MailboxAfter, Displaced, Newest;
    Safety(doubleBuffered, r);
    var w, m := After(Initial(doubleBuffered), r), MailboxAfter(Initial(doubleBuffered), r);
    MailboxRefinement(doubleBuffered, r);
    MailboxConserves(doubleBuffered, r, f);
    PresentsAreIssued(doubleBuffered, r, f);
    NumberedOnce(w.frames, f);
    HeldSplits(m.held, f);
    assert CancelsMatch(w, m, f) && Accounted(w, Present(f)) && Accounted(w, Cancel(f));
  }

  /**
   * Nothing is lost or duplicated at any time. Each frame is queued, or was given up by the
   * mailbox, or its present callback is owed or was made; cancel callbacks are owed or made
   * for exactly the frames given up that have one. Each vsync request is deferred, or its
   * reply is owed or made; each accepted listener waits, or its run is owed or made, or it
   * was withdrawn.
   */
  lemma NothingIsLost(doubleBuffered: bool, r: Run)
    requires Legal(Initial(doubleBuffered), r)
    ensures var w, m := After(Initial(doubleBuffered), r), MailboxAfter(Initial(doubleBuffered), r);
            && (forall f :: Made(w, Present(f)) + Dropped(m)[f] + One(w.s.queued == Some(f)) == One(f in w.frames))
            && (forall f :: Made(w, Cancel(f)) == if f.cancellable then Dropped(m)[f] else 0)
            && (forall b :: b != 0 ==> Made(w, Reply(b)) + One(w.s.baton == b) == w.batons[b])
            && (forall l :: Made(w, RunListener(l)) + multiset(w.s.listeners)[l] + w.withdrawn[l] == w.accepted[l])
  {
    hide Legal, After, Initial, TokenInv, OrderInv, DoneInv, Count, CountPool, MailboxAfter, Dropped, FrameInv;
    Safety(doubleBuffered, r);
    var w, m := After(Initial(doubleBuffered), r), MailboxAfter(Initial(doubleBuffered), r);
    forall f: Frame
      ensures Made(w, Present(f)) + Dropped(m)[f] + One(w.s.queued == Some(f)) == One(f in w.frames)
      ensures Made(w, Cancel(f)) == if f.cancellable then Dropped(m)[f] else 0
    {
      FateOfFrame(doubleBuffered, r, f);
    }
    forall b | b != 0 ensures Made(w, Reply(b)) + One(w.s.baton == b) == w.batons[b] {
      assert BatonOk(w, b) && Accounted(w, Reply(b));
    }
    forall l ensures Made(w, RunListener(l)) + multiset(w.s.listeners)[l] + w.withdrawn[l] == w.accepted[l] {
      assert ListenerOk(w, l) && Accounted(w, RunListener(l));
    }
  }

  /**
   * Exactly once by destruction: when the scheduler is destroyed and its last callback has
   * been made, every frame was presented or discarded exactly once, a discarded one was
   * cancelled if it can be, every accepted listener was run or withdrawn exactly once, and
   * every vsync request was answered exactly once, but for one deferred to a flip that
   * destruction preempted.
   */
  lemma ExactlyOnceByDestruction(doubleBuffered: bool, r: Run)
    requires Legal(Initial(doubleBuffered), r)
    requires After(Initial(doubleBuffered), r).destroyed && Idle(After(Initial(doubleBuffered), r).pool)
    ensures var w, m := After(Initial(doubleBuffered), r), MailboxAfter(Initial(doubleBuffered), r);
            && (forall f :: Count(Is(Present(f)), w.done) + m.discarded[f] == One(f in w.frames))
            && (forall f :: Count(Is(Cancel(f)), w.done) == if f.cancellable then m.discarded[f] else 0)
            && (forall l :: Count(Is(RunListener(l)), w.done) + w.withdrawn[l] == w.accepted[l])
            && (forall b :: b != 0 ==> Count(Is(Reply(b)), w.done) + One(w.s.baton == b) == w.batons[b])
  {
    hide Legal, After, Initial, Count, CountPool, Idle, MailboxAfter, Displaced;
    NothingIsLost(doubleBuffered, r);
    NothingLeft(doubleBuffered, r);
    MailboxRefinement(doubleBuffered, r);
    var w, m := After(Initial(doubleBuffered), r), MailboxAfter(Initial(doubleBuffered), r);
    NothingDisplaced();
    forall c: Call ensures Made(w, c) == Count(Is(c), w.done) { IdleCountsNothing(Is(c), w.pool); }
  }
}
