/**
 * Page flips and the retirement of requests.
 *
 * A request is reference-counted. The kernel frees the CRTC of a commit when it sends the
 * flip event. The event holds one reference; when it is read, that reference moves to
 * `last`, and the request it displaces is queued to be released outside the lock, together
 * with the scanout callback.
 */
module KmsRetire {
  import opened Counting
  import opened Options

  // The device's bookkeeping, under its lock.

  /** `pending_flip_dispatches` has this many slots. */
  const QUEUE_SIZE := 16

  datatype Dispatch = Dispatch(callback: Option<nat>, retired: Option<nat>)

  /** Per CRTC: the request last flipped to and the scanout callback; and the queue. */
  datatype Drm = Drm(last: seq<Option<nat>>, callbacks: seq<Option<nat>>, queue: seq<Dispatch>)

  function FlipSection(d: Drm, c: nat, r: nat): Drm
    requires c < |d.last| == |d.callbacks|
  {
    if |d.queue| >= QUEUE_SIZE then d
    else Drm(d.last[c := Some(r)], d.callbacks[c := None], d.queue + [Dispatch(d.callbacks[c], d.last[c])])
  }

  function PopSection(d: Drm): Drm
    requires d.queue != []
  {
    d.(queue := d.queue[1..])
  }

  function SetCallback(d: Drm, c: nat, cb: Option<nat>): Drm
    requires c < |d.callbacks|
  {
    d.(callbacks := d.callbacks[c := cb])
  }

  /** The same, as the arrays of the device. */
  class FlipQueue {
    const last: array<Option<nat>>
    const callbacks: array<Option<nat>>
    const slots: array<Dispatch>
    var n: nat

    ghost predicate Valid()
      reads this
    {
      last.Length == callbacks.Length && slots.Length == QUEUE_SIZE && n <= QUEUE_SIZE && last != callbacks
    }

    ghost function State(): Drm
      reads this, last, callbacks, slots
      requires Valid()
    {
      Drm(last[..], callbacks[..], slots[..n])
    }

    constructor (crtcs: nat)
      ensures Valid() && fresh(last) && fresh(callbacks) && fresh(slots)
      ensures State() == Drm(seq(crtcs, _ => None), seq(crtcs, _ => None), [])
    {
      last := new Option<nat>[crtcs](_ => None);
      callbacks := new Option<nat>[crtcs](_ => None);
      slots := new Dispatch[QUEUE_SIZE](_ => Dispatch(None, None));
      n := 0;
    }

    /** `drmdev_on_page_flip_locked`: takes over the reference of the event. */
    method OnPageFlip(c: nat, req: nat)
      requires Valid() && c < last.Length
      modifies this`n, last, callbacks, slots
      ensures Valid() && State() == FlipSection(old(State()), c, req)
    {
      if n >= QUEUE_SIZE {
        return;
      }
      slots[n] := Dispatch(callbacks[c], last[c]);
      n := n + 1;
      callbacks[c] := None;
      last[c] := Some(req);
    }

    /** The locked part of `drmdev_dispatch_page_flips`. */
    method Pop() returns (d: Option<Dispatch>)
      requires Valid()
      modifies this`n, slots
      ensures Valid()
      ensures if old(n) == 0 then d == None && State() == old(State())
              else d == Some(old(State()).queue[0]) && State() == PopSection(old(State()))
    {
      if n == 0 {
        return None;
      }
      d := Some(slots[0]);
      n := n - 1;
      ghost var before := slots[..];
      for i := 0 to n
        invariant n == old(n) - 1 && slots.Length == QUEUE_SIZE
        invariant forall k :: 0 <= k < i ==> slots[k] == before[k + 1]
        invariant forall k :: i <= k < QUEUE_SIZE ==> slots[k] == before[k]
        invariant last[..] == old(last[..]) && callbacks[..] == old(callbacks[..])
      {
        slots[i] := slots[i + 1];
      }
      assert slots[..n] == before[..n + 1][1..];
    }

    method SetScanoutCallback(c: nat, cb: Option<nat>)
      requires Valid() && c < last.Length
      modifies callbacks
      ensures Valid() && State() == SetCallback(old(State()), c, cb)
    {
      callbacks[c] := cb;
    }
  }

  // References and what their loss does.

  /** What happens when a request is destroyed, per layer. */
  datatype Done = LayerReleased(req: nat, layer: nat) | FenceClosed(req: nat, layer: nat)

  /** A page flip that was recorded: the CRTC, the request flipped to, and the dispatch. */
  datatype Post = Post(crtc: nat, req: nat, dispatch: Dispatch)

  /** A flip event: the CRTC and the request it shows now. */
  datatype Sent = Sent(crtc: nat, req: nat)

  /**
   * Requests are numbered as they are created. `refs` counts references, zero once a request
   * is destroyed; `users` are the references of its callers; `layers` says of each layer
   * whether it owns a fence. `pending` is the request in the kernel, per CRTC, and `sent` are
   * the flip events it has sent and the program has not read, oldest first. `inHand` are
   * requests popped but not yet released. `lost` are the references of flips that found the
   * queue full.
   */
  datatype World = World(
    refs: seq<int>, users: seq<int>, layers: seq<seq<bool>>,
    pending: seq<Option<nat>>, sent: seq<Sent>, drm: Drm, inHand: multiset<nat>, lost: multiset<nat>,
    posted: seq<Post>, popped: nat, done: multiset<Done>)

  datatype Action =
    | Create
    | AddLayer(r: nat, fence: bool)
    | Ref(r: nat)
    | Unref(r: nat)
    | Commit(r: nat, c: nat, cb: Option<nat>, accepted: bool)
    | Scanout(c: nat)
    | Flip
    | Pop
    | Release(r: nat)

  ghost predicate Shape(w: World) {
    && |w.drm.last| == |w.drm.callbacks| == |w.pending|
    && |w.refs| == |w.users| == |w.layers|
    && (forall i :: 0 <= i < |w.sent| ==> w.sent[i].crtc < |w.pending|)
  }

  predicate Held(w: World, r: nat) { r < |w.users| && w.users[r] > 0 }

  ghost predicate Enabled(w: World, a: Action) {
    match a
    case Create => true
    case AddLayer(r, _) => Held(w, r)
    case Ref(r) => Held(w, r)
    case Unref(r) => Held(w, r)
    // The kernel refuses a commit while the previous one is not on screen.
    case Commit(r, c, _, accepted) => Held(w, r) && c < |w.pending| && (accepted ==> w.pending[c].None?)
    case Scanout(c) => c < |w.pending| && w.pending[c].Some?
    case Flip => w.sent != []
    case Pop => w.drm.queue != []
    case Release(r) => r in w.inHand
  }

  /** The callbacks of the first `n` layers of a request, and their fences. */
  ghost function Destroyed(r: nat, layers: seq<bool>, n: nat): multiset<Done>
    requires n <= |layers|
  {
    if n == 0 then multiset{}
    else Destroyed(r, layers, n - 1) + multiset{LayerReleased(r, n - 1)}
         + if layers[n - 1] then multiset{FenceClosed(r, n - 1)} else multiset{}
  }

  /** One reference less; the last one destroys the request. */
  ghost function DropRef(w: World, r: nat): World
    requires r < |w.refs| == |w.layers|
  {
    w.(refs := w.refs[r := w.refs[r] - 1],
       done := if w.refs[r] == 1 then w.done + Destroyed(r, w.layers[r], |w.layers[r]|) else w.done)
  }

  /** An action that can happen now, on requests that exist. */
  ghost predicate Defined(w: World, a: Action) {
    && Shape(w) && Enabled(w, a)
    && (a.Release? ==> a.r < |w.refs|) && (a.Flip? ==> w.sent[0].req < |w.refs|)
  }

  ghost function Next(w: World, a: Action): World
    requires Defined(w, a)
  {
    match a
    case Create => w.(refs := w.refs + [1], users := w.users + [1], layers := w.layers + [[]])
    case AddLayer(r, fence) => w.(layers := w.layers[r := w.layers[r] + [fence]])
    case Ref(r) => w.(refs := w.refs[r := w.refs[r] + 1], users := w.users[r := w.users[r] + 1])
    case Unref(r) => DropRef(w.(users := w.users[r := w.users[r] - 1]), r)
    case Commit(r, c, cb, accepted) =>
      if accepted then
        w.(refs := w.refs[r := w.refs[r] + 1], pending := w.pending[c := Some(r)], drm := SetCallback(w.drm, c, cb))
      else DropRef(w.(refs := w.refs[r := w.refs[r] + 1]), r)
    case Scanout(c) => w.(pending := w.pending[c := None], sent := w.sent + [Sent(c, w.pending[c].value)])
    case Flip =>
      var c, r := w.sent[0].crtc, w.sent[0].req;
      var w' := w.(sent := w.sent[1..], drm := FlipSection(w.drm, c, r));
      if |w.drm.queue| >= QUEUE_SIZE then w'.(lost := w.lost + multiset{r})
      else w'.(posted := w.posted + [Post(c, r, Dispatch(w.drm.callbacks[c], w.drm.last[c]))])
    case Pop =>
      var d := w.drm.queue[0];
      w.(drm := PopSection(w.drm), popped := w.popped + 1,
         inHand := if d.retired.Some? then w.inHand + multiset{d.retired.value} else w.inHand)
    case Release(r) => DropRef(w.(inHand := w.inHand - multiset{r}), r)
  }

  // Who holds a reference.

  function RetiredIn(queue: seq<Dispatch>): (r: seq<Option<nat>>)
    ensures |r| == |queue|
  {
    seq(|queue|, i requires 0 <= i < |queue| => queue[i].retired)
  }

  function Shown(sent: seq<Sent>): (r: seq<nat>)
    ensures |r| == |sent|
  {
    seq(|sent|, i requires 0 <= i < |sent| => sent[i].req)
  }

  ghost function Holders(w: World, r: nat): int {
    (if r < |w.users| then w.users[r] else 0)
    + multiset(w.pending)[Some(r)] + multiset(Shown(w.sent))[r] + multiset(w.drm.last)[Some(r)] + multiset(RetiredIn(w.drm.queue))[Some(r)]
    + w.inHand[r] + w.lost[r]
  }

  /** The count is the number of holders, and nobody holds what was never created. */
  ghost predicate RefInv(w: World) {
    && Shape(w)
    && (forall r :: 0 <= r < |w.users| ==> w.users[r] >= 0)
    && (forall r :: 0 <= r < |w.refs| ==> w.refs[r] == Holders(w, r))
    && (forall r: nat :: r >= |w.refs| ==> Holders(w, r) == 0)
  }

  lemma QueueCounts(queue: seq<Dispatch>, d: Dispatch, x: Option<nat>)
    ensures multiset(RetiredIn(queue + [d]))[x] == multiset(RetiredIn(queue))[x] + if d.retired == x then 1 else 0
    ensures queue != [] ==>
              multiset(RetiredIn(queue))[x] == multiset(RetiredIn(queue[1..]))[x] + if queue[0].retired == x then 1 else 0
  {
    assert RetiredIn(queue + [d]) == RetiredIn(queue) + [d.retired];
    if queue != [] {
      assert RetiredIn(queue) == [queue[0].retired] + RetiredIn(queue[1..]);
    }
  }

  /** By how much an action changes the number of references to `x`. */
  ghost function Delta(w: World, a: Action, x: nat): int {
    match a
    case Create => if x == |w.refs| then 1 else 0
    case AddLayer(_, _) => 0
    case Ref(r) => if r == x then 1 else 0
    case Unref(r) => if r == x then -1 else 0
    case Commit(r, _, _, accepted) => if r == x && accepted then 1 else 0
    case Scanout(_) => 0
    case Flip => 0
    case Pop => 0
    case Release(r) => if r == x then -1 else 0
  }

  lemma HeldExists(w: World, r: nat)
    requires RefInv(w) && Holders(w, r) > 0
    ensures r < |w.refs| && w.refs[r] > 0
  {
  }

  /** What an action is about exists. */
  lemma ActionsAreDefined(w: World, a: Action)
    requires Enabled(w, a) && RefInv(w)
    ensures Defined(w, a)
    ensures a.Release? ==> w.refs[a.r] > 0
    ensures a.Flip? ==> w.refs[w.sent[0].req] > 0
  {
    hide RetiredIn;
    if a.Flip? {
      assert Shown(w.sent)[0] in multiset(Shown(w.sent));
      HeldExists(w, w.sent[0].req);
    }
    if a.Release? {
      HeldExists(w, a.r);
    }
  }

  lemma CommitHolders(w: World, a: Action, x: nat)
    requires Defined(w, a) && a.Commit? && a.accepted
    ensures Holders(Next(w, a), x) == Holders(w, x) + Delta(w, a, x)
  {
    hide RetiredIn;
    UpdateCount(w.pending, a.c, Some(a.r), Some(x));
  }

  lemma SentCounts(sent: seq<Sent>, e: Sent, x: nat)
    ensures multiset(Shown(sent + [e]))[x] == multiset(Shown(sent))[x] + if e.req == x then 1 else 0
    ensures sent != [] ==>
              multiset(Shown(sent))[x] == multiset(Shown(sent[1..]))[x] + if sent[0].req == x then 1 else 0
  {
    assert Shown(sent + [e]) == Shown(sent) + [e.req];
    if sent != [] {
      assert Shown(sent) == [sent[0].req] + Shown(sent[1..]);
    }
  }

  /** The reference moves from the commit to its event. */
  lemma ScanoutHolders(w: World, c: nat, x: nat)
    requires Defined(w, Scanout(c))
    ensures Holders(Next(w, Scanout(c)), x) == Holders(w, x)
  {
    hide RetiredIn, Shown;
    UpdateCount(w.pending, c, None, Some(x));
    SentCounts(w.sent, Sent(c, w.pending[c].value), x);
  }

  lemma FlipFields(w: World)
    requires Defined(w, Flip)
    ensures var w', c, r := Next(w, Flip), w.sent[0].crtc, w.sent[0].req;
            && w'.pending == w.pending && w'.sent == w.sent[1..]
            && w'.users == w.users && w'.inHand == w.inHand && w'.popped == w.popped
            && (if |w.drm.queue| >= QUEUE_SIZE
                then w'.drm == w.drm && w'.lost == w.lost + multiset{r} && w'.posted == w.posted
                else
                  var d := Dispatch(w.drm.callbacks[c], w.drm.last[c]);
                  && w'.drm.last == w.drm.last[c := Some(r)] && w'.drm.callbacks == w.drm.callbacks[c := None]
                  && w'.drm.queue == w.drm.queue + [d]
                  && w'.lost == w.lost && w'.posted == w.posted + [Post(c, r, d)])
  {
  }

  /** The reference of the event moves to `last`, and that of `last` to the queue. */
  lemma FlipHolders(w: World, x: nat)
    requires Defined(w, Flip)
    ensures Holders(Next(w, Flip), x) == Holders(w, x)
  {
    hide RetiredIn, Shown, Next;
    FlipFields(w);
    SentCounts(w.sent, w.sent[0], x);
    if |w.drm.queue| < QUEUE_SIZE {
      var c := w.sent[0].crtc;
      UpdateCount(w.drm.last, c, Some(w.sent[0].req), Some(x));
      QueueCounts(w.drm.queue, Dispatch(w.drm.callbacks[c], w.drm.last[c]), Some(x));
    }
  }

  lemma PopHolders(w: World, x: nat)
    requires Defined(w, Pop)
    ensures Holders(Next(w, Pop), x) == Holders(w, x)
  {
    hide RetiredIn;
    QueueCounts(w.drm.queue, w.drm.queue[0], Some(x));
  }

  lemma UserHolders(w: World, a: Action, x: nat)
    requires Defined(w, a) && !a.Scanout? && !a.Flip? && !a.Pop? && (a.Commit? ==> !a.accepted)
    ensures Holders(Next(w, a), x) == Holders(w, x) + Delta(w, a, x)
  {
    hide Destroyed, RetiredIn;
  }

  lemma HoldersChange(w: World, a: Action, x: nat)
    requires Defined(w, a)
    ensures Holders(Next(w, a), x) == Holders(w, x) + Delta(w, a, x)
  {
    hide Holders, Next;
    if a.Commit? && a.accepted {
      CommitHolders(w, a, x);
    } else if a.Flip? {
      FlipHolders(w, x);
    } else if a.Scanout? {
      ScanoutHolders(w, a.c, x);
    } else if a.Pop? {
      PopHolders(w, x);
    } else {
      UserHolders(w, a, x);
    }
  }

  /** The counts change as the numbers of holders do. */
  lemma RefsChange(w: World, a: Action)
    requires Defined(w, a)
    ensures var w' := Next(w, a);
            && Shape(w') && |w'.refs| == |w.refs| + (if a.Create? then 1 else 0)
            && (forall x :: 0 <= x < |w'.refs| ==> w'.refs[x] == (if x < |w.refs| then w.refs[x] else 0) + Delta(w, a, x))
            && ((forall x :: 0 <= x < |w.users| ==> w.users[x] >= 0) ==>
                  forall x :: 0 <= x < |w'.users| ==> w'.users[x] >= 0)
  {
    hide Destroyed, RetiredIn, Shown;
    if a.Flip? || a.Scanout? || a.Pop? {
      hide *;
      DisplayKeepsRefs(w, a);
    }
  }

  lemma DisplayKeepsRefs(w: World, a: Action)
    requires Defined(w, a) && (a.Flip? || a.Scanout? || a.Pop?)
    ensures var w' := Next(w, a);
            && Shape(w') && w'.refs == w.refs && w'.users == w.users && |w'.pending| == |w.pending|
            && forall x :: Delta(w, a, x) == 0
  {
  }

  lemma StepKeepsRefs(w: World, a: Action)
    requires Defined(w, a) && RefInv(w)
    ensures RefInv(Next(w, a))
  {
    RefsChange(w, a);
    hide Next, Holders, Enabled;
    var w' := Next(w, a);
    forall x: nat
      ensures x < |w'.refs| ==> w'.refs[x] == Holders(w', x)
      ensures x >= |w'.refs| ==> Holders(w', x) == 0
    {
      HoldersChange(w, a, x);
    }
  }

  // What has been released.

  predicate Gone(w: World, r: nat) { r < |w.refs| && w.refs[r] == 0 }

  /** Everything of a destroyed request was released once, and nothing of the others. */
  ghost predicate DoneInv(w: World) {
    && |w.layers| == |w.refs|
    && forall r: nat, i: nat ::
         && w.done[LayerReleased(r, i)] == (if Gone(w, r) && i < |w.layers[r]| then 1 else 0)
         && w.done[FenceClosed(r, i)] == (if Gone(w, r) && i < |w.layers[r]| && w.layers[r][i] then 1 else 0)
  }

  lemma DestroyedStep(r: nat, layers: seq<bool>, n: nat, d: Done)
    requires n <= |layers|
    ensures Destroyed(r, layers, n)[d] ==
            if n == 0 then 0 else
              Destroyed(r, layers, n - 1)[d] + (if d == LayerReleased(r, n - 1) then 1 else 0)
                + if d == FenceClosed(r, n - 1) && layers[n - 1] then 1 else 0
  {
  }

  lemma {:induction false} DestroyedCounts(r: nat, layers: seq<bool>, n: nat, x: nat, i: nat)
    requires n <= |layers|
    ensures Destroyed(r, layers, n)[LayerReleased(x, i)] == if x == r && i < n then 1 else 0
    ensures Destroyed(r, layers, n)[FenceClosed(x, i)] == if x == r && i < n && layers[i] then 1 else 0
  {
    hide Destroyed;
    DestroyedStep(r, layers, n, LayerReleased(x, i));
    DestroyedStep(r, layers, n, FenceClosed(x, i));
    if n > 0 {
      DestroyedCounts(r, layers, n - 1, x, i);
    }
  }

  lemma DropKeepsDone(w: World, r: nat)
    requires DoneInv(w) && r < |w.refs| && w.refs[r] > 0
    ensures DoneInv(DropRef(w, r))
  {
    var w' := DropRef(w, r);
    forall x: nat, i: nat
      ensures w'.done[LayerReleased(x, i)] == (if Gone(w', x) && i < |w'.layers[x]| then 1 else 0)
      ensures w'.done[FenceClosed(x, i)] == (if Gone(w', x) && i < |w'.layers[x]| && w'.layers[x][i] then 1 else 0)
    {
      DestroyedCounts(r, w.layers[r], |w.layers[r]|, x, i);
      assert w.done[LayerReleased(x, i)] == (if Gone(w, x) && i < |w.layers[x]| then 1 else 0);
    }
  }

  lemma HeldIsAlive(w: World, r: nat)
    requires RefInv(w) && Held(w, r)
    ensures r < |w.refs| && w.refs[r] > 0
  {
  }

  lemma DropActionKeepsDone(w: World, a: Action)
    requires Defined(w, a) && RefInv(w) && DoneInv(w) && (a.Unref? || a.Release? || (a.Commit? && !a.accepted))
    ensures DoneInv(Next(w, a))
  {
    ActionsAreDefined(w, a);
    if a.Release? {
      hide Destroyed, RefInv;
      DropKeepsDone(w.(inHand := w.inHand - multiset{a.r}), a.r);
    } else {
      HeldIsAlive(w, a.r);
      hide Destroyed, RefInv;
      var refs := if a.Unref? then w.refs else w.refs[a.r := w.refs[a.r] + 1];
      var users := if a.Unref? then w.users[a.r := w.users[a.r] - 1] else w.users;
      DropKeepsDone(w.(refs := refs, users := users), a.r);
    }
  }

  /** No action but the loss of a last reference destroys a request, and destroyed ones stay as they are. */
  lemma OthersKeepGone(w: World, a: Action)
    requires Defined(w, a) && RefInv(w) && !a.Unref? && !a.Release? && (a.Commit? ==> a.accepted)
    ensures var w' := Next(w, a);
            && w'.done == w.done && |w'.layers| == |w'.refs|
            && (forall r: nat :: Gone(w', r) <==> Gone(w, r))
            && (forall r: nat :: Gone(w, r) ==> w'.layers[r] == w.layers[r])
  {
    if a.AddLayer? || a.Ref? || a.Commit? {
      HeldIsAlive(w, a.r);
    }
    hide RefInv, FlipSection, SetCallback;
  }

  lemma StepKeepsDone(w: World, a: Action)
    requires Defined(w, a) && RefInv(w) && DoneInv(w)
    ensures DoneInv(Next(w, a))
  {
    if a.Unref? || a.Release? || (a.Commit? && !a.accepted) {
      DropActionKeepsDone(w, a);
    } else {
      hide Next, RefInv, Defined, Gone;
      OthersKeepGone(w, a);
      SameDone(w, Next(w, a));
    }
  }

  lemma SameDone(w: World, w': World)
    requires DoneInv(w) && w'.done == w.done && |w'.layers| == |w'.refs|
    requires forall r: nat :: Gone(w', r) <==> Gone(w, r)
    requires forall r: nat :: Gone(w, r) ==> r < |w.layers| && r < |w'.layers| && w'.layers[r] == w.layers[r]
    ensures DoneInv(w')
  {
    forall r: nat, i: nat
      ensures w'.done[LayerReleased(r, i)] == (if Gone(w', r) && i < |w'.layers[r]| then 1 else 0)
      ensures w'.done[FenceClosed(r, i)] == (if Gone(w', r) && i < |w'.layers[r]| && w'.layers[r][i] then 1 else 0)
    {
      assert w.done[LayerReleased(r, i)] == (if Gone(w, r) && i < |w.layers[r]| then 1 else 0);
    }
  }

  // The order of flips, dispatches and retirements.

  /** The request that CRTC `c` was last flipped to. */
  function LastFlip(posted: seq<Post>, c: nat): Option<nat> {
    if posted == [] then None
    else if posted[|posted| - 1].crtc == c then Some(posted[|posted| - 1].req)
    else LastFlip(posted[..|posted| - 1], c)
  }

  /** Each flip retires what its CRTC was flipped to before. */
  ghost predicate RetiresPrevious(posted: seq<Post>) {
    forall i :: 0 <= i < |posted| ==> posted[i].dispatch.retired == LastFlip(posted[..i], posted[i].crtc)
  }

  ghost predicate FlipInv(w: World) {
    && Shape(w)
    && w.popped + |w.drm.queue| == |w.posted|
    && (forall i :: 0 <= i < |w.drm.queue| ==> w.drm.queue[i] == w.posted[w.popped + i].dispatch)
    && RetiresPrevious(w.posted)
    && (forall c :: 0 <= c < |w.pending| ==> w.drm.last[c] == LastFlip(w.posted, c))
    && (forall i :: 0 <= i < |w.posted| ==> w.posted[i].crtc < |w.pending|)
  }

  /** Only scanouts, flips, pops and accepted commits touch the bookkeeping of flips. */
  lemma OtherActions(w: World, a: Action)
    requires Defined(w, a) && !a.Scanout? && !a.Flip? && !a.Pop? && (a.Commit? ==> !a.accepted)
    ensures var w' := Next(w, a);
            && w'.pending == w.pending && w'.sent == w.sent && w'.drm == w.drm && w'.lost == w.lost
            && w'.posted == w.posted && w'.popped == w.popped && Shape(w')
  {
    hide Destroyed;
  }

  lemma PostKeepsOrder(posted: seq<Post>, p: Post)
    requires RetiresPrevious(posted) && p.dispatch.retired == LastFlip(posted, p.crtc)
    ensures RetiresPrevious(posted + [p])
  {
    var r := posted + [p];
    forall i | 0 <= i < |r| ensures r[i].dispatch.retired == LastFlip(r[..i], r[i].crtc) {
      assert r[..i] == posted[..i];
      assert posted[..|posted|] == posted;
    }
  }

  lemma FlipKeepsFlips(w: World)
    requires Defined(w, Flip) && FlipInv(w)
    ensures FlipInv(Next(w, Flip))
  {
    hide Next, RetiresPrevious, LastFlip, FlipSection;
    var w' := Next(w, Flip);
    FlipFields(w);
    ShapeIsKept(w, Flip);
    if |w.drm.queue| < QUEUE_SIZE {
      var c := w.sent[0].crtc;
      var p := Post(c, w.sent[0].req, Dispatch(w.drm.callbacks[c], w.drm.last[c]));
      PostKeepsOrder(w.posted, p);
      forall x | 0 <= x < |w'.pending| ensures w'.drm.last[x] == LastFlip(w'.posted, x) {
        LastFlipSnoc(w.posted, p, x);
      }
    }
  }

  lemma LastFlipSnoc(posted: seq<Post>, p: Post, c: nat)
    ensures LastFlip(posted + [p], c) == if p.crtc == c then Some(p.req) else LastFlip(posted, c)
  {
    assert (posted + [p])[..|posted|] == posted;
  }

  lemma ShapeIsKept(w: World, a: Action)
    requires Defined(w, a)
    ensures Shape(Next(w, a)) && |Next(w, a).pending| == |w.pending|
  {
    RefsChange(w, a);
  }

  lemma StepKeepsFlips(w: World, a: Action)
    requires Defined(w, a) && FlipInv(w)
    ensures FlipInv(Next(w, a))
  {
    hide Destroyed, RetiresPrevious;
    var w' := Next(w, a);
    if a.Flip? {
      FlipKeepsFlips(w);
    } else if a.Scanout? {
      assert w'.posted == w.posted && w'.drm == w.drm && |w'.pending| == |w.pending|;
    } else if a.Pop? {
      assert w'.posted == w.posted && w'.pending == w.pending && w'.drm.last == w.drm.last;
    } else if a.Commit? && a.accepted {
      assert w'.posted == w.posted && w'.drm.queue == w.drm.queue && w'.drm.last == w.drm.last;
    } else {
      hide Next;
      OtherActions(w, a);
    }
  }

  /** The program has not read all flip events of CRTC `c`. */
  ghost predicate Unread(w: World, c: nat) {
    exists i :: 0 <= i < |w.sent| && w.sent[i].crtc == c
  }

  /** A scanout callback is configured only while its commit waits for its flip, or the event is unread. */
  ghost predicate CallbackInv(w: World) {
    Shape(w) && (w.lost == multiset{} ==>
                   forall c :: 0 <= c < |w.pending| && w.pending[c].None? && !Unread(w, c) ==> w.drm.callbacks[c].None?)
  }

  /** Which CRTCs have unread events after an action. */
  lemma UnreadAfter(w: World, a: Action, c: nat)
    requires Defined(w, a)
    ensures var w' := Next(w, a);
            && (a.Scanout? ==> (Unread(w', c) <==> c == a.c || Unread(w, c)))
            && (a.Flip? ==> (Unread(w, c) <==> c == w.sent[0].crtc || Unread(w', c)))
            && (!a.Scanout? && !a.Flip? ==> (Unread(w', c) <==> Unread(w, c)))
  {
    if a.Scanout? {
      hide Next;
      ScanoutFields(w, a.c);
      UnreadSnoc(w.sent, Next(w, a).sent, Sent(a.c, w.pending[a.c].value), c);
    } else if a.Flip? {
      hide Next;
      FlipFields(w);
      assert w.sent == [w.sent[0]] + w.sent[1..];
      forall i | 0 <= i < |w.sent| && w.sent[i].crtc == c ensures i == 0 || Unread(Next(w, a), c) {
        if i > 0 {
          assert Next(w, a).sent[i - 1] == w.sent[i];
        }
      }
      forall i | 0 <= i < |Next(w, a).sent| && Next(w, a).sent[i].crtc == c ensures Unread(w, c) {
        assert w.sent[i + 1] == Next(w, a).sent[i];
      }
    } else {
      hide Destroyed;
      assert Next(w, a).sent == w.sent;
    }
  }

  lemma UnreadSnoc(sent: seq<Sent>, sent': seq<Sent>, e: Sent, c: nat)
    requires sent' == sent + [e]
    ensures (exists i :: 0 <= i < |sent'| && sent'[i].crtc == c) <==>
            e.crtc == c || exists i :: 0 <= i < |sent| && sent[i].crtc == c
  {
    assert sent'[|sent|] == e;
    forall i | 0 <= i < |sent| ensures sent'[i] == sent[i] {}
  }

  lemma ScanoutFields(w: World, c: nat)
    requires Defined(w, Scanout(c))
    ensures var w' := Next(w, Scanout(c));
            && w'.pending == w.pending[c := None] && w'.sent == w.sent + [Sent(c, w.pending[c].value)]
            && w'.drm == w.drm && w'.lost == w.lost && w'.posted == w.posted && w'.popped == w.popped
  {
  }

  lemma StepKeepsCallbacks(w: World, a: Action)
    requires Defined(w, a) && CallbackInv(w)
    ensures CallbackInv(Next(w, a))
  {
    var w' := Next(w, a);
    ShapeIsKept(w, a);
    forall c: nat | c < |w.pending| && w'.lost == multiset{} && w'.pending[c].None? && !Unread(w', c)
      ensures w'.drm.callbacks[c].None?
    {
      UnreadAfter(w, a, c);
      LostGrows(w, a);
      if a.Scanout? {
        hide Next;
        ScanoutFields(w, a.c);
      } else if a.Flip? {
        hide Next;
        FlipFields(w);
      } else if a.Pop? || (a.Commit? && a.accepted) {
        hide Destroyed;
      } else {
        hide Next;
        OtherActions(w, a);
      }
    }
  }

  lemma NotEmpty(m: multiset<nat>, r: nat)
    ensures m + multiset{r} != multiset{}
  {
    assert r in m + multiset{r};
  }

  lemma LostGrows(w: World, a: Action)
    requires Defined(w, a) && Next(w, a).lost == multiset{}
    ensures w.lost == multiset{} && (a.Flip? ==> |w.drm.queue| < QUEUE_SIZE)
  {
    hide Destroyed;
    if a.Flip? {
      hide Next;
      FlipFields(w);
      NotEmpty(w.lost, w.sent[0].req);
    }
  }

  // Whole runs.

  datatype Trace = Start(crtcs: nat) | Then(before: Trace, a: Action)

  ghost function Initial(crtcs: nat): World {
    var none: seq<Option<nat>> := seq(crtcs, _ => None);
    World([], [], [], none, [], Drm(none, none, []), multiset{}, multiset{}, [], 0, multiset{})
  }

  ghost predicate Inv(w: World) { RefInv(w) && DoneInv(w) && FlipInv(w) && CallbackInv(w) }

  ghost function After(t: Trace): World {
    match t
    case Start(crtcs) => Initial(crtcs)
    case Then(before, a) => if Defined(After(before), a) then Next(After(before), a) else After(before)
  }

  ghost predicate Legal(t: Trace) {
    match t
    case Start(_) => true
    case Then(before, a) => Legal(before) && Enabled(After(before), a)
  }

  lemma InitialInv(crtcs: nat)
    ensures Inv(Initial(crtcs))
  {
    var w := Initial(crtcs);
    forall r: nat ensures Holders(w, r) == 0 {
      assert Some(r) !in w.pending && Some(r) !in w.drm.last;
      assert Some(r) !in multiset(w.pending) && Some(r) !in multiset(w.drm.last);
      assert RetiredIn(w.drm.queue) == [] && Shown(w.sent) == [];
    }
  }

  lemma StepKeepsInv(w: World, a: Action)
    requires Inv(w) && Enabled(w, a)
    ensures Defined(w, a) && Inv(Next(w, a))
  {
    hide Next, RefInv, DoneInv, FlipInv, CallbackInv, Enabled;
    ActionsAreDefined(w, a);
    StepKeepsRefs(w, a);
    StepKeepsDone(w, a);
    StepKeepsFlips(w, a);
    StepKeepsCallbacks(w, a);
  }

  lemma {:induction false} RunsKeepInv(t: Trace)
    requires Legal(t)
    ensures Inv(After(t))
    decreases t
  {
    if t.Start? {
      InitialInv(t.crtcs);
    } else {
      hide Next, Inv, Enabled;
      RunsKeepInv(t.before);
      StepKeepsInv(After(t.before), t.a);
    }
  }

  /** The kernel will show request `r` on CRTC `c`, has told so, or the program knows that it does. */
  ghost predicate OnScreen(w: World, c: nat, r: nat)
    requires Shape(w) && c < |w.pending|
  {
    w.pending[c] == Some(r) || Sent(c, r) in w.sent || w.drm.last[c] == Some(r)
  }

  lemma OnScreenIsAlive(w: World, c: nat, r: nat)
    requires RefInv(w) && c < |w.pending| && OnScreen(w, c, r)
    ensures r < |w.refs| && w.refs[r] > 0
  {
    hide RetiredIn;
    if w.pending[c] == Some(r) {
      assert Some(r) in multiset(w.pending);
    } else if Sent(c, r) in w.sent {
      var i :| 0 <= i < |w.sent| && w.sent[i] == Sent(c, r);
      assert Shown(w.sent)[i] in multiset(Shown(w.sent));
    } else {
      assert Some(r) in multiset(w.drm.last);
    }
    HeldExists(w, r);
  }

  /** A request in the kernel or on screen is alive, and none of its buffers was given back. */
  lemma OnScreenIsHeld(t: Trace, c: nat, r: nat)
    requires Legal(t) && Shape(After(t)) && c < |After(t).pending| && OnScreen(After(t), c, r)
    ensures var w := After(t);
            && r < |w.refs| && w.refs[r] > 0
            && forall i: nat :: w.done[LayerReleased(r, i)] == 0 && w.done[FenceClosed(r, i)] == 0
  {
    RunsKeepInv(t);
    var w := After(t);
    hide After, Legal, RefInv, FlipInv, CallbackInv, OnScreen;
    OnScreenIsAlive(w, c, r);
  }

  /**
   * Dispatches are popped in the order of the flips, and each flip retires the request its
   * CRTC was flipped to before, or nothing the first time.
   */
  lemma FlipsRetireInOrder(t: Trace)
    requires Legal(t)
    ensures var w := After(t);
            && RetiresPrevious(w.posted)
            && w.popped + |w.drm.queue| == |w.posted|
            && (w.drm.queue != [] ==> w.drm.queue[0] == w.posted[w.popped].dispatch)
            && Shape(w)
            && (forall c :: 0 <= c < |w.pending| ==> w.drm.last[c] == LastFlip(w.posted, c))
  {
    RunsKeepInv(t);
  }

  /**
   * Each layer's release callback and owned fence is released at most once, and it has been
   * released exactly when nobody holds the request any more.
   */
  lemma ReleasedOnceUnheld(t: Trace, r: nat, i: nat)
    requires Legal(t) && |After(t).layers| == |After(t).refs|
    requires r < |After(t).refs| && i < |After(t).layers[r]|
    ensures var w := After(t);
            && w.done[LayerReleased(r, i)] == (if Holders(w, r) == 0 then 1 else 0)
            && w.done[FenceClosed(r, i)] == (if Holders(w, r) == 0 && w.layers[r][i] then 1 else 0)
  {
    RunsKeepInv(t);
    hide After, Legal, Holders, FlipInv, CallbackInv;
  }

  // The queue does not fill up when each CRTC waits for its dispatch before the next commit.

  /** No flip of CRTC `c` waits to be dispatched. */
  ghost predicate Quiet(w: World, c: nat) {
    forall i :: w.popped <= i < |w.posted| ==> w.posted[i].crtc != c
  }

  ghost predicate Disciplined(t: Trace) {
    match t
    case Start(_) => true
    case Then(before, a) =>
      Disciplined(before) && (a.Commit? && a.accepted ==> Quiet(After(before), a.c) && !Unread(After(before), a.c))
  }

  /** Each CRTC has a commit in the kernel, or an unread event, or one undelivered flip, or none of these. */
  ghost predicate OneEach(w: World) {
    && w.lost == multiset{}
    && (forall i, j :: w.popped <= i < j < |w.posted| ==> w.posted[i].crtc != w.posted[j].crtc)
    && (forall i, j :: 0 <= i < j < |w.sent| ==> w.sent[i].crtc != w.sent[j].crtc)
    && (forall c :: 0 <= c < |w.pending| && w.pending[c].Some? ==> Quiet(w, c) && !Unread(w, c))
    && (forall i :: 0 <= i < |w.sent| ==> Quiet(w, w.sent[i].crtc))
  }

  /** The CRTCs of the flips from `lo` to `hi`. */
  ghost function Crtcs(posted: seq<Post>, lo: nat, hi: nat): set<nat>
    requires hi <= |posted|
  {
    set i | lo <= i < hi :: posted[i].crtc
  }

  lemma CrtcsSnoc(posted: seq<Post>, lo: nat, hi: nat)
    requires lo < hi <= |posted|
    requires forall i, j :: lo <= i < j < |posted| ==> posted[i].crtc != posted[j].crtc
    ensures Crtcs(posted, lo, hi) == Crtcs(posted, lo, hi - 1) + {posted[hi - 1].crtc}
    ensures posted[hi - 1].crtc !in Crtcs(posted, lo, hi - 1)
  {
  }

  lemma {:induction false} DistinctCount(posted: seq<Post>, lo: nat, hi: nat)
    requires lo <= hi <= |posted|
    requires forall i, j :: lo <= i < j < |posted| ==> posted[i].crtc != posted[j].crtc
    ensures |Crtcs(posted, lo, hi)| == hi - lo
    decreases hi
  {
    if lo < hi {
      hide Crtcs;
      CrtcsSnoc(posted, lo, hi);
      DistinctCount(posted, lo, hi - 1);
    }
  }

  /** With an unread event there is a free slot for its flip. */
  lemma RoomForFlip(w: World)
    requires FlipInv(w) && OneEach(w) && |w.pending| <= QUEUE_SIZE && w.sent != []
    ensures |w.drm.queue| < QUEUE_SIZE
  {
    var s := Crtcs(w.posted, w.popped, |w.posted|);
    DistinctCount(w.posted, w.popped, |w.posted|);
    var c := w.sent[0].crtc;
    assert c !in s;
    SmallNumbers(s + {c}, |w.pending|);
    assert |s + {c}| == |s| + 1;
  }

  lemma FlipKeepsOneEach(w: World)
    requires Defined(w, Flip) && FlipInv(w) && OneEach(w) && |w.pending| <= QUEUE_SIZE
    ensures OneEach(Next(w, Flip))
  {
    RoomForFlip(w);
    hide Next, FlipInv, Unread;
    FlipFields(w);
    var w', c := Next(w, Flip), w.sent[0].crtc;
    forall i | 0 <= i < |w'.sent| ensures w'.sent[i] == w.sent[i + 1] {}
    forall x: nat ensures Unread(w, x) <==> x == c || Unread(w', x) { UnreadAfter(w, Flip, x); }
    forall x: nat | Quiet(w, x) && x != c ensures Quiet(w', x) {}
  }

  lemma ScanoutKeepsOneEach(w: World, c: nat)
    requires Defined(w, Scanout(c)) && OneEach(w)
    ensures OneEach(Next(w, Scanout(c)))
  {
    hide Next;
    ScanoutFields(w, c);
    var w' := Next(w, Scanout(c));
    forall x: nat ensures Unread(w', x) <==> x == c || Unread(w, x) { UnreadAfter(w, Scanout(c), x); }
  }

  lemma StepKeepsOneEach(w: World, a: Action)
    requires Defined(w, a) && FlipInv(w) && OneEach(w) && |w.pending| <= QUEUE_SIZE
    requires a.Commit? && a.accepted ==> Quiet(w, a.c) && !Unread(w, a.c)
    ensures OneEach(Next(w, a)) && |Next(w, a).pending| == |w.pending|
  {
    ShapeIsKept(w, a);
    if a.Flip? {
      FlipKeepsOneEach(w);
    } else if a.Scanout? {
      ScanoutKeepsOneEach(w, a.c);
    } else {
      forall x: nat ensures Unread(Next(w, a), x) <==> Unread(w, x) { UnreadAfter(w, a, x); }
      if a.Pop? || (a.Commit? && a.accepted) {
        hide FlipInv, Unread, FlipSection;
      } else {
        OtherActions(w, a);
        hide Next, FlipInv, Unread;
      }
    }
  }

  /**
   * If every commit on a CRTC comes after the dispatch of its previous flip, then with at
   * most 16 CRTCs no flip is ever lost and at most one per CRTC is queued.
   */
  lemma {:induction false} QueueNeverFull(t: Trace)
    requires Legal(t) && Disciplined(t) && |After(t).pending| <= QUEUE_SIZE
    ensures OneEach(After(t)) && |After(t).drm.queue| <= |After(t).pending|
    decreases t
  {
    if t.Then? {
      hide Next, RefInv, DoneInv, CallbackInv, Enabled;
      var w := After(t.before);
      RunsKeepInv(t.before);
      ActionsAreDefined(w, t.a);
      ShapeIsKept(w, t.a);
      QueueNeverFull(t.before);
      StepKeepsOneEach(w, t.a);
    }
    RunsKeepInv(t);
    var w := After(t);
    hide After;
    DistinctCount(w.posted, w.popped, |w.posted|);
    SmallNumbers(Crtcs(w.posted, w.popped, |w.posted|), |w.pending|);
  }

  /** `kms_req_builder_destroy`: for each layer its callback, then its fence. */
  method DestroyRequest(r: nat, layers: seq<bool>) returns (calls: seq<Done>)
    ensures multiset(calls) == Destroyed(r, layers, |layers|)
  {
    calls := [];
    for i := 0 to |layers|
      invariant multiset(calls) == Destroyed(r, layers, i)
    {
      calls := calls + [LayerReleased(r, i)];
      if layers[i] {
        calls := calls + [FenceClosed(r, i)];
      }
    }
  }
}
