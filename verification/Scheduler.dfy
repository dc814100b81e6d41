/**
 * The frame scheduler: one commit in flight, one frame queued behind it, one deferred vsync
 * request, and one-shot scanout listeners.
 *
 * Every function of the scheduler does its work in one locked section and calls out only
 * after unlocking. A section is a function from the state to the new state and the
 * callbacks its caller makes next, in that order.
 */
module Scheduler {
  import opened Options

  /** A frame, numbered in the order of submission. The cancel callback may be missing. */
  datatype Frame = Frame(id: nat, cancellable: bool)

  /** A listener is identified by its callback and userdata. */
  datatype Listener = Listener(cb: nat, userdata: nat)

  datatype Call =
    | Present(frame: Frame)
    | Cancel(cancelled: Frame)
    | Reply(baton: int)
    | FireListeners
    | RunListener(listener: Listener)
    | ReportFailure
    | DispatchFlips
    | OnScanout(scanned: Frame)

  const MAX_LISTENERS := 16

  /** `baton` is 0 when no vsync request is deferred. */
  datatype Sched = Sched(
    doubleBuffered: bool,
    waiting: bool,
    queued: Option<Frame>,
    baton: int,
    listeners: seq<Listener>)

  datatype Section = Section(s: Sched, calls: seq<Call>)

  function CancelOf(f: Option<Frame>): seq<Call> {
    if f.Some? && f.value.cancellable then [Cancel(f.value)] else []
  }

  function ReplyOf(baton: int): seq<Call> {
    if baton != 0 then [Reply(baton)] else []
  }

  function RunAll(ls: seq<Listener>): (calls: seq<Call>)
    ensures |calls| == |ls| && forall i :: 0 <= i < |ls| ==> calls[i] == RunListener(ls[i])
  {
    seq(|ls|, i requires 0 <= i < |ls| => RunListener(ls[i]))
  }

  function SubmitSection(s: Sched, f: Frame): Section {
    if s.waiting then Section(s.(queued := Some(f)), CancelOf(s.queued))
    else Section(s.(waiting := true), [Present(f)])
  }

  function VsyncSection(s: Sched, baton: int): Section {
    if s.doubleBuffered && s.waiting then Section(s.(baton := baton), ReplyOf(s.baton))
    else Section(s, ReplyOf(baton))
  }

  function FailedSection(s: Sched): Section {
    Section(s.(waiting := false, queued := None, baton := 0),
            CancelOf(s.queued) + [FireListeners] + ReplyOf(s.baton))
  }

  function ScanoutSection(s: Sched): Section {
    if !s.waiting then Section(s, [FireListeners])
    else if s.queued.Some? then
      Section(s.(queued := None, baton := 0), ReplyOf(s.baton) + [Present(s.queued.value)] + [FireListeners])
    else
      Section(s.(waiting := false, baton := 0), ReplyOf(s.baton) + [FireListeners])
  }

  function TakeSection(s: Sched): Section {
    Section(s.(listeners := []), RunAll(s.listeners))
  }

  function NextScanout(s: Sched, l: Listener): (Sched, bool) {
    if |s.listeners| < MAX_LISTENERS then (s.(listeners := s.listeners + [l]), true) else (s, false)
  }

  /** Index of the first listener equal to `l`, or the number of listeners. */
  function IndexOf(ls: seq<Listener>, l: Listener): (i: nat)
    ensures i <= |ls| && l !in ls[..i] && (i < |ls| ==> ls[i] == l)
  {
    if ls == [] || ls[0] == l then 0 else
      var i := 1 + IndexOf(ls[1..], l);
      assert ls[..i] == [ls[0]] + ls[1..][..i - 1];
      i
  }

  /** Removing a listener moves the last one into its place. */
  function CancelListener(s: Sched, l: Listener): (Sched, bool) {
    var i := IndexOf(s.listeners, l);
    if i == |s.listeners| then (s, false)
    else
      var last := |s.listeners| - 1;
      (s.(listeners := s.listeners[i := s.listeners[last]][..last]), true)
  }

  function DestroySection(s: Sched): Section {
    Section(s.(queued := None, listeners := []), CancelOf(s.queued) + RunAll(s.listeners))
  }

  /** Nothing is queued and no vsync request is deferred unless a commit is in flight. */
  predicate SchedOk(s: Sched) {
    && (!s.waiting ==> s.queued == None && s.baton == 0)
    && |s.listeners| <= MAX_LISTENERS
  }

  // The scheduler as it runs.

  class FrameScheduler {
    const doubleBuffered: bool
    var waitingForScanout: bool
    var hasQueuedFrame: bool
    var queuedFrame: Frame
    var pendingVsyncBaton: int
    const scanoutListeners: array<Listener>
    var nScanoutListeners: nat

    ghost predicate Valid()
      reads this, scanoutListeners
    {
      && scanoutListeners.Length == MAX_LISTENERS
      && nScanoutListeners <= MAX_LISTENERS
      && SchedOk(State())
    }

    ghost function State(): Sched
      reads this, scanoutListeners
      requires nScanoutListeners <= scanoutListeners.Length
    {
      Sched(doubleBuffered, waitingForScanout, if hasQueuedFrame then Some(queuedFrame) else None,
            pendingVsyncBaton, scanoutListeners[..nScanoutListeners])
    }

    constructor (doubleBuffered: bool)
      ensures Valid() && fresh(scanoutListeners)
      ensures State() == Sched(doubleBuffered, false, None, 0, [])
    {
      this.doubleBuffered := doubleBuffered;
      waitingForScanout, hasQueuedFrame, queuedFrame := false, false, Frame(0, false);
      pendingVsyncBaton := 0;
      scanoutListeners := new Listener[MAX_LISTENERS](_ => Listener(0, 0));
      nScanoutListeners := 0;
    }

    method OnVsyncRequest(vsyncBaton: int) returns (calls: seq<Call>)
      requires Valid() && vsyncBaton != 0
      modifies this
      ensures Valid() && Section(State(), calls) == VsyncSection(old(State()), vsyncBaton)
    {
      var displaced, replyNow := 0, false;
      if doubleBuffered && waitingForScanout {
        if pendingVsyncBaton != 0 {
          displaced := pendingVsyncBaton;
        }
        pendingVsyncBaton := vsyncBaton;
      } else {
        replyNow := true;
      }
      calls := ReplyOf(displaced);
      if replyNow {
        calls := calls + [Reply(vsyncBaton)];
      }
    }

    method PresentFrame(frame: Frame) returns (calls: seq<Call>)
      requires Valid()
      modifies this
      ensures Valid() && Section(State(), calls) == SubmitSection(old(State()), frame)
    {
      var displaced: Option<Frame>, presentNow := None, false;
      if waitingForScanout {
        if hasQueuedFrame {
          displaced := Some(queuedFrame);
        }
        hasQueuedFrame := true;
        queuedFrame := frame;
      } else {
        waitingForScanout := true;
        presentNow := true;
      }
      calls := CancelOf(displaced);
      if presentNow {
        calls := calls + [Present(frame)];
      }
    }

    method OnNextScanout(l: Listener) returns (ok: bool)
      requires Valid()
      modifies this, scanoutListeners
      ensures Valid() && (State(), ok) == NextScanout(old(State()), l)
    {
      ok := nScanoutListeners < MAX_LISTENERS;
      if ok {
        scanoutListeners[nScanoutListeners] := l;
        nScanoutListeners := nScanoutListeners + 1;
        assert State().listeners == old(State()).listeners + [l];
      }
    }

    /** The last listener takes the place of listener `i`. */
    method RemoveListener(i: nat)
      requires Valid() && i < nScanoutListeners
      modifies this`nScanoutListeners, scanoutListeners
      ensures var s := old(State());
              Valid() && State() == s.(listeners := s.listeners[i := s.listeners[|s.listeners| - 1]][..|s.listeners| - 1])
    {
      ghost var ls := scanoutListeners[..nScanoutListeners];
      nScanoutListeners := nScanoutListeners - 1;
      scanoutListeners[i] := scanoutListeners[nScanoutListeners];
      assert State().listeners == ls[i := ls[|ls| - 1]][..|ls| - 1];
    }

    method CancelScanoutListener(l: Listener) returns (removed: bool)
      requires Valid()
      modifies this, scanoutListeners
      ensures Valid() && (State(), removed) == CancelListener(old(State()), l)
    {
      removed := false;
      ghost var ls := scanoutListeners[..nScanoutListeners];
      var i := 0;
      while i < nScanoutListeners
        invariant i <= nScanoutListeners && l !in ls[..i]
        invariant nScanoutListeners == old(nScanoutListeners) && scanoutListeners[..] == old(scanoutListeners[..])
      {
        if scanoutListeners[i] == l {
          IndexIs(ls, l, i);
          RemoveListener(i);
          return true;
        }
        i := i + 1;
      }
      IndexIs(ls, l, i);
    }

    method OnPresentFailed() returns (calls: seq<Call>)
      requires Valid() && waitingForScanout
      modifies this
      ensures Valid() && Section(State(), calls) == FailedSection(old(State()))
    {
      var queued: Option<Frame> := None;
      waitingForScanout := false;
      if hasQueuedFrame {
        queued := Some(queuedFrame);
        hasQueuedFrame := false;
      }
      var baton := pendingVsyncBaton;
      pendingVsyncBaton := 0;
      calls := CancelOf(queued) + [FireListeners];
      if baton != 0 {
        calls := calls + [Reply(baton)];
      }
    }

    method OnScanout() returns (calls: seq<Call>)
      requires Valid()
      modifies this
      ensures Valid() && Section(State(), calls) == ScanoutSection(old(State()))
    {
      if !waitingForScanout {
        return [FireListeners];
      }
      var present := [];
      if hasQueuedFrame {
        present := [Present(queuedFrame)];
        hasQueuedFrame := false;
      } else {
        waitingForScanout := false;
      }
      var baton := pendingVsyncBaton;
      pendingVsyncBaton := 0;
      calls := ReplyOf(baton) + present + [FireListeners];
    }

    /** The locked half of firing the listeners: they are taken out, to be called afterwards. */
    method TakeScanoutListeners() returns (calls: seq<Call>)
      requires Valid()
      modifies this
      ensures Valid() && Section(State(), calls) == TakeSection(old(State()))
    {
      var n := nScanoutListeners;
      calls := RunAll(scanoutListeners[..n]);
      nScanoutListeners := 0;
    }
  }

  lemma {:induction false} IndexIs(ls: seq<Listener>, l: Listener, i: nat)
    requires i <= |ls| && l !in ls[..i] && (i < |ls| ==> ls[i] == l)
    ensures IndexOf(ls, l) == i
  {
    if i > 0 {
      assert ls[..i] == [ls[0]] + ls[1..][..i - 1];
      IndexIs(ls[1..], l, i - 1);
    }
  }

  // The frames a section presents.

  function Presents(calls: seq<Call>): seq<Frame> {
    if calls == [] then [] else
      Presents(calls[..|calls| - 1]) +
      (if calls[|calls| - 1].Present? then [calls[|calls| - 1].frame] else [])
  }

  lemma {:induction false} PresentsAppend(a: seq<Call>, b: seq<Call>)
    ensures Presents(a + b) == Presents(a) + Presents(b)
  {
    if b == [] {
      assert a + b == a;
    } else {
      assert (a + b)[..|a + b| - 1] == a + b[..|b| - 1];
      PresentsAppend(a, b[..|b| - 1]);
    }
  }

  lemma PresentsOfSubmit(s: Sched, f: Frame)
    ensures Presents(SubmitSection(s, f).calls) == if s.waiting then [] else [f]
  {
    hide Presents;
    PresentsOfOne(CancelOf(s.queued));
    PresentsOfOne([Present(f)]);
  }

  lemma PresentsOfFlip(s: Sched)
    requires SchedOk(s)
    ensures Presents(ScanoutSection(s).calls) == if s.queued.Some? then [s.queued.value] else []
  {
    hide Presents;
    if !s.waiting {
      PresentsOfOne([FireListeners]);
    } else if s.queued.Some? {
      PresentsOfThree(ReplyOf(s.baton), [Present(s.queued.value)], [FireListeners]);
    } else {
      PresentsOfThree(ReplyOf(s.baton), [], [FireListeners]);
      assert ReplyOf(s.baton) + [] == ReplyOf(s.baton);
    }
  }

  lemma PresentsOfFailure(s: Sched)
    ensures Presents(FailedSection(s).calls) == []
  {
    hide Presents;
    PresentsOfThree(CancelOf(s.queued), [FireListeners], ReplyOf(s.baton));
  }

  function PresentOf(c: seq<Call>): seq<Frame>
    requires |c| <= 1
  {
    if c != [] && c[0].Present? then [c[0].frame] else []
  }

  lemma PresentsOfOne(c: seq<Call>)
    requires |c| <= 1
    ensures Presents(c) == PresentOf(c)
  {
    if c != [] {
      assert c[..0] == [];
    }
  }

  lemma PresentsOfThree(a: seq<Call>, b: seq<Call>, c: seq<Call>)
    requires |a| <= 1 && |b| <= 1 && |c| <= 1 && PresentOf(a) == PresentOf(c) == []
    ensures Presents(a + b + c) == PresentOf(b)
  {
    hide Presents, PresentOf;
    PresentsAppend(a + b, c);
    PresentsAppend(a, b);
    PresentsOfOne(a);
    PresentsOfOne(b);
    PresentsOfOne(c);
    assert [] + PresentOf(b) + [] == PresentOf(b);
  }
}
