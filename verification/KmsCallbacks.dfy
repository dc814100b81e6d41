/**
 * The assertion of a commit that its CRTC has no scanout callback configured yet: when it
 * holds, and what happens when it does not.
 */
module KmsCallbacks {
  import opened Options
  import opened KmsRetire

  /** It holds at a commit that comes after the events of its CRTC were read. */
  lemma NoCallbackConfigured(t: Trace, r: nat, c: nat, cb: Option<nat>)
    requires Legal(Then(t, Commit(r, c, cb, true))) && After(t).lost == multiset{} && !Unread(After(t), c)
    ensures var w := After(t); c < |w.drm.callbacks| && w.drm.callbacks[c] == None
  {
    RunsKeepInv(t);
    hide RefInv, DoneInv, FlipInv;
  }

  predicate Accepts(a: Action) { a.Commit? && a.accepted }

  /** It holds at every commit of the run. */
  ghost predicate AssertionHolds(t: Trace) {
    match t
    case Start(_) => true
    case Then(before, a) =>
      AssertionHolds(before) &&
      (Accepts(a) ==> var w := After(before); a.c < |w.drm.callbacks| && w.drm.callbacks[a.c] == None)
  }

  /** Every commit comes after the events of its CRTC were read. */
  ghost predicate ReadsFirst(t: Trace) {
    match t
    case Start(_) => true
    case Then(before, a) => ReadsFirst(before) && (Accepts(a) ==> !Unread(After(before), a.c))
  }

  /** Every commit has a scanout callback. */
  predicate GivesCallbacks(t: Trace) {
    match t
    case Start(_) => true
    case Then(before, a) => GivesCallbacks(before) && (Accepts(a) ==> a.cb.Some?)
  }

  // What the flips of a CRTC report, compared with its commits.

  /** A request with a scanout callback. */
  datatype Offer = Offer(req: nat, callback: Option<nat>)

  /** The accepted commits of a CRTC, in order. */
  ghost function Committed(t: Trace, c: nat): seq<Offer> {
    match t
    case Start(_) => []
    case Then(before, a) => Committed(before, c) + NewCommit(a, c)
  }

  function NewCommit(a: Action, c: nat): seq<Offer> {
    if Accepts(a) && a.c == c then [Offer(a.r, a.cb)] else []
  }

  /** The flips recorded on a CRTC: the request shown since, and the callback to be called. */
  function Reported(posted: seq<Post>, c: nat): seq<Offer> {
    if posted == [] then [] else
      Reported(posted[..|posted| - 1], c) +
      var p := posted[|posted| - 1]; if p.crtc == c then [Offer(p.req, p.dispatch.callback)] else []
  }

  /** The requests in the unread events of a CRTC, oldest first. */
  function EventsOn(sent: seq<Sent>, c: nat): seq<nat> {
    if sent == [] then [] else (if sent[0].crtc == c then [sent[0].req] else []) + EventsOn(sent[1..], c)
  }

  function InKernel(w: World, c: nat): seq<nat> {
    if c < |w.pending| && w.pending[c].Some? then [w.pending[c].value] else []
  }

  /** The requests that were committed and whose flip was not read yet. */
  function Waiting(w: World, c: nat): seq<nat> { EventsOn(w.sent, c) + InKernel(w, c) }

  function Requests(offers: seq<Offer>): (rs: seq<nat>)
    ensures |rs| == |offers|
  {
    seq(|offers|, i requires 0 <= i < |offers| => offers[i].req)
  }

  lemma {:induction false} EventsOnSnoc(sent: seq<Sent>, e: Sent, c: nat)
    ensures EventsOn(sent + [e], c) == EventsOn(sent, c) + if e.crtc == c then [e.req] else []
  {
    if sent != [] {
      assert (sent + [e])[1..] == sent[1..] + [e];
      EventsOnSnoc(sent[1..], e, c);
    }
  }

  lemma {:induction false} EventsOnIffUnread(sent: seq<Sent>, c: nat)
    ensures EventsOn(sent, c) != [] <==> exists i :: 0 <= i < |sent| && sent[i].crtc == c
  {
    if sent != [] {
      EventsOnIffUnread(sent[1..], c);
      forall i | 0 < i < |sent| ensures sent[i] == sent[1..][i - 1] {}
    }
  }

  /** What an action changes of a CRTC. */
  lemma StepOn(w: World, a: Action, c: nat)
    requires Defined(w, a) && Next(w, a).lost == multiset{} && c < |w.pending|
    ensures var w' := Next(w, a);
            && Shape(w') && |w'.pending| == |w.pending|
            && (if Accepts(a) && a.c == c then
                  && InKernel(w, c) == [] && InKernel(w', c) == [a.r] && w'.drm.callbacks[c] == a.cb
                  && EventsOn(w'.sent, c) == EventsOn(w.sent, c) && Reported(w'.posted, c) == Reported(w.posted, c)
                else if a.Flip? && w.sent[0].crtc == c then
                  && EventsOn(w.sent, c) == [w.sent[0].req] + EventsOn(w'.sent, c) && InKernel(w', c) == InKernel(w, c)
                  && Reported(w'.posted, c) == Reported(w.posted, c) + [Offer(w.sent[0].req, w.drm.callbacks[c])]
                else
                  && Waiting(w', c) == Waiting(w, c) && w'.drm.callbacks[c] == w.drm.callbacks[c]
                  && Reported(w'.posted, c) == Reported(w.posted, c))
  {
    ShapeIsKept(w, a);
    LostGrows(w, a);
    hide Next;
    if a.Scanout? {
      ScanoutFields(w, a.c);
      EventsOnSnoc(w.sent, Sent(a.c, w.pending[a.c].value), c);
    } else if a.Flip? {
      FlipFields(w);
      var p := Next(w, a).posted;
      assert p[..|p| - 1] == w.posted;
    } else if a.Pop? || Accepts(a) {
      CommitFields(w, a);
    } else {
      OtherActions(w, a);
    }
  }

  lemma CommitFields(w: World, a: Action)
    requires Defined(w, a) && (a.Pop? || Accepts(a))
    ensures var w' := Next(w, a);
            && w'.sent == w.sent && w'.posted == w.posted
            && (if a.Pop? then w'.pending == w.pending && w'.drm.callbacks == w.drm.callbacks
                else w'.pending == w.pending[a.c := Some(a.r)] && w'.drm.callbacks == w.drm.callbacks[a.c := a.cb])
  {
  }

  function Crtcs(t: Trace): nat {
    match t
    case Start(crtcs) => crtcs
    case Then(before, _) => Crtcs(before)
  }

  lemma RequestsAppend(a: seq<Offer>, b: seq<Offer>)
    ensures Requests(a + b) == Requests(a) + Requests(b)
  {
  }

  lemma FollowStep(w: World, a: Action, c: nat, committed: seq<Offer>)
    requires Defined(w, a) && Next(w, a).lost == multiset{} && c < |w.pending|
    requires Requests(committed) == Requests(Reported(w.posted, c)) + Waiting(w, c)
    ensures Requests(committed + NewCommit(a, c)) == Requests(Reported(Next(w, a).posted, c)) + Waiting(Next(w, a), c)
  {
    hide Next, EventsOn, InKernel, Reported, Requests;
    StepOn(w, a, c);
    RequestsAppend(committed, NewCommit(a, c));
    if Accepts(a) && a.c == c {
      OneRequest(Offer(a.r, a.cb));
      assert Waiting(Next(w, a), c) == Waiting(w, c) + [a.r];
    } else if a.Flip? && w.sent[0].crtc == c {
      var o := Offer(w.sent[0].req, w.drm.callbacks[c]);
      RequestsAppend(Reported(w.posted, c), [o]);
      OneRequest(o);
      assert Waiting(w, c) == [o.req] + Waiting(Next(w, a), c);
    } else {
      assert committed + NewCommit(a, c) == committed;
    }
  }

  lemma OneRequest(o: Offer)
    ensures Requests([o]) == [o.req]
  {
  }

  /** While no flip is dropped, the flips of a CRTC show the requests committed to it, in their order. */
  lemma {:induction false} FlipsFollowCommits(t: Trace, c: nat)
    requires Legal(t) && After(t).lost == multiset{} && c < Crtcs(t)
    ensures |After(t).pending| == Crtcs(t)
    ensures Requests(Committed(t, c)) == Requests(Reported(After(t).posted, c)) + Waiting(After(t), c)
  {
    SameCrtcs(t);
    if t.Then? {
      hide Next, Inv, Enabled, Waiting, Reported, Requests, NewCommit, Defined;
      LegalStep(t);
      FlipsFollowCommits(t.before, c);
      FollowStep(After(t.before), t.a, c, Committed(t.before, c));
    } else {
      NothingWaits(t.crtcs, c);
    }
  }

  lemma NothingWaits(crtcs: nat, c: nat)
    ensures Waiting(Initial(crtcs), c) == [] && Initial(crtcs).posted == [] && |Initial(crtcs).drm.callbacks| == crtcs
  {
  }

  /** The step a legal run without dropped flips ends with. */
  lemma LegalStep(t: Trace)
    requires Legal(t) && t.Then? && After(t).lost == multiset{}
    ensures Legal(t.before) && Defined(After(t.before), t.a) && After(t) == Next(After(t.before), t.a)
    ensures After(t.before).lost == multiset{} && Inv(After(t.before)) && Enabled(After(t.before), t.a)
  {
    hide Next, Inv, Enabled;
    RunsKeepInv(t.before);
    StepKeepsInv(After(t.before), t.a);
    LostGrows(After(t.before), t.a);
  }

  /** The same with callbacks; a commit that waits for its flip still has its callback configured. */
  ghost predicate OwnCallbacks(w: World, committed: seq<Offer>, c: nat) {
    && c < |w.drm.callbacks|
    && |Waiting(w, c)| <= 1
    && committed == Reported(w.posted, c) + if Waiting(w, c) == [] then [] else [Offer(Waiting(w, c)[0], w.drm.callbacks[c])]
  }

  lemma ReportStep(w: World, a: Action, c: nat, committed: seq<Offer>)
    requires Defined(w, a) && Next(w, a).lost == multiset{} && c < |w.pending|
    requires OwnCallbacks(w, committed, c) && (Accepts(a) && a.c == c ==> EventsOn(w.sent, c) == [])
    ensures OwnCallbacks(Next(w, a), committed + NewCommit(a, c), c)
  {
    hide Next, EventsOn, InKernel, Reported;
    StepOn(w, a, c);
    if a.Flip? && w.sent[0].crtc == c {
      assert Waiting(w, c) == [w.sent[0].req] + Waiting(Next(w, a), c);
    }
  }

  /** If commits come after reading, the flips of a CRTC report to the callbacks of their own commits. */
  lemma {:induction false} FlipsReportTheirCommits(t: Trace, c: nat)
    requires Legal(t) && After(t).lost == multiset{} && ReadsFirst(t) && c < Crtcs(t)
    ensures OwnCallbacks(After(t), Committed(t, c), c) && |After(t).pending| == Crtcs(t)
  {
    SameCrtcs(t);
    if t.Then? {
      hide Next, Inv, Enabled, OwnCallbacks, NewCommit, Unread, Defined;
      LegalStep(t);
      FlipsReportTheirCommits(t.before, c);
      NothingUnread(After(t.before), c);
      ReportStep(After(t.before), t.a, c, Committed(t.before, c));
    } else {
      NothingWaits(t.crtcs, c);
    }
  }

  lemma NothingUnread(w: World, c: nat)
    ensures Unread(w, c) <==> EventsOn(w.sent, c) != []
  {
    EventsOnIffUnread(w.sent, c);
  }

  lemma {:induction false} CommittedCallbacks(t: Trace, c: nat)
    requires GivesCallbacks(t)
    ensures forall i :: 0 <= i < |Committed(t, c)| ==> Committed(t, c)[i].callback.Some?
  {
    if t.Then? {
      CommittedCallbacks(t.before, c);
    }
  }

  /**
   * In a run without dropped flips in which every commit has a callback, the assertion holds
   * throughout if and only if every commit comes after the events of its CRTC were read.
   */
  lemma {:induction false} AssertionHoldsIff(t: Trace)
    requires Legal(t) && After(t).lost == multiset{} && GivesCallbacks(t)
    ensures AssertionHolds(t) <==> ReadsFirst(t)
  {
    if t.Then? {
      hide Next, Inv, Enabled, Unread;
      LegalStep(t);
      AssertionHoldsIff(t.before);
      if Accepts(t.a) && ReadsFirst(t.before) {
        CallbackIffUnread(t);
      }
    }
  }

  lemma CallbackIffUnread(t: Trace)
    requires Legal(t) && t.Then? && Accepts(t.a) && After(t).lost == multiset{}
    requires GivesCallbacks(t) && ReadsFirst(t.before)
    ensures var w, c := After(t.before), t.a.c;
            c < |w.drm.callbacks| && (w.drm.callbacks[c] == None <==> !Unread(w, c))
  {
    var w, c := After(t.before), t.a.c;
    LegalStep(t);
    SameCrtcs(t.before);
    FlipsReportTheirCommits(t.before, c);
    CommittedCallbacks(t.before, c);
    hide After, Legal, Next, Committed, RefInv, DoneInv, FlipInv, EventsOn, Reported;
    NothingUnread(w, c);
    hide Unread;
    if Waiting(w, c) != [] {
      var last := |Committed(t.before, c)| - 1;
      assert Committed(t.before, c)[last] == Offer(Waiting(w, c)[0], w.drm.callbacks[c]);
    }
  }

  lemma {:induction false} SameCrtcs(t: Trace)
    requires Legal(t)
    ensures |After(t).pending| == Crtcs(t)
  {
    if t.Then? {
      hide Next, Inv, Enabled;
      SameCrtcs(t.before);
      RunsKeepInv(t.before);
      StepKeepsInv(After(t.before), t.a);
      ShapeIsKept(After(t.before), t.a);
    }
  }

  lemma StartsLegal(crtcs: nat)
    ensures Legal(Start(crtcs)) && After(Start(crtcs)) == Initial(crtcs)
  {
  }

  lemma Extend(t: Trace, a: Action)
    requires Legal(t) && Enabled(After(t), a)
    ensures Legal(Then(t, a)) && Defined(After(t), a) && After(Then(t, a)) == Next(After(t), a)
  {
    RunsKeepInv(t);
    StepKeepsInv(After(t), a);
    hide Next, Inv, Enabled;
  }

  /** The second of two commits, after the kernel sent the event of the first and before that was read. */
  ghost function EarlyCommit(): Trace {
    Then(Then(Then(Then(Start(1), Create), Commit(0, 0, Some(1), true)), Scanout(0)), Commit(0, 0, Some(2), true))
  }

  /** The assertion can fail: then reading the first event delivers the callback of the second commit. */
  lemma EarlyCommitTakesCallback()
    ensures Legal(Then(EarlyCommit(), Flip)) && !AssertionHolds(EarlyCommit())
    ensures After(Then(EarlyCommit(), Flip)).drm.queue == [Dispatch(Some(2), None)]
    ensures After(Then(EarlyCommit(), Flip)).posted == [Post(0, 0, Dispatch(Some(2), None))]
  {
    hide After, Legal;
    StartsLegal(1);
    Extend(Start(1), Create);
    var a := Then(Start(1), Create);
    Extend(a, Commit(0, 0, Some(1), true));
    var b := Then(a, Commit(0, 0, Some(1), true));
    Extend(b, Scanout(0));
    var c := Then(b, Scanout(0));
    assert After(c).drm == Drm([None], [Some(1)], []);
    Extend(c, Commit(0, 0, Some(2), true));
    var d := EarlyCommit();
    assert After(d).sent == [Sent(0, 0)] && After(d).drm == Drm([None], [Some(2)], []);
    Extend(d, Flip);
  }
}
