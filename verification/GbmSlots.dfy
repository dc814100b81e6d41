/**
 * The buffers of a GBM surface: four slots that keep buffers locked while they are in use,
 * and the list of buffers waiting to be given back on the render thread.
 *
 * Destroying a slot takes several steps on the thread that drops the last reference: its
 * count is zero, its buffer is on the list, its flag is cleared. Other threads may act in
 * between.
 */
module GbmSlots {
  import opened Counting
  import opened Options

  const SLOTS := 4
  const BUFFERS := 4
  const LIST_SIZE := 8

  /**
   * `Zero` is a slot without references whose buffer is not on the list yet; `Dying` one
   * whose buffer is, but whose flag is still set. Only `Free` slots have a clear flag.
   */
  datatype Slot = Free | Live(bo: nat, refs: nat) | Zero(bo: nat) | Dying

  datatype State = State(slots: seq<Slot>, front: Option<nat>, pending: seq<nat>)

  // The sections.

  function DropSlot(s: Slot): Slot {
    if s.Live? && s.refs > 1 then s.(refs := s.refs - 1) else if s.Live? then Zero(s.bo) else s
  }

  function UnrefSlot(st: State, i: nat): State
    requires i < |st.slots|
  {
    st.(slots := st.slots[i := DropSlot(st.slots[i])])
  }

  function RefSlot(st: State, i: nat): State
    requires i < |st.slots|
  {
    if st.slots[i].Live? then st.(slots := st.slots[i := st.slots[i].(refs := st.slots[i].refs + 1)]) else st
  }

  /** The buffer goes on the list. */
  function Retire(st: State, i: nat): State
    requires i < |st.slots| && st.slots[i].Zero?
  {
    State(st.slots[i := Dying], st.front, st.pending + [st.slots[i].bo])
  }

  function ClearFlag(st: State, i: nat): State
    requires i < |st.slots|
  {
    st.(slots := st.slots[i := Free])
  }

  /** The first slot with a clear flag. */
  function FirstFree(slots: seq<Slot>, i: nat): (r: Option<nat>)
    requires i <= |slots|
    ensures r.Some? ==> i <= r.value < |slots| && slots[r.value].Free? && forall j :: i <= j < r.value ==> !slots[j].Free?
    ensures r.None? ==> forall j :: i <= j < |slots| ==> !slots[j].Free?
    decreases |slots| - i
  {
    if i == |slots| then None else if slots[i].Free? then Some(i) else FirstFree(slots, i + 1)
  }

  /** Locks a slot for the buffer, if there is one. */
  function TakeSlot(st: State, bo: nat): State {
    var i := FirstFree(st.slots, 0);
    if i.None? then st else State(st.slots[i.value := Live(bo, 1)], i, st.pending)
  }

  const EIO := 5

  class LockedFb {
    var isLocked: bool
    var bo: nat
    var nRefs: nat
    /** Whether the buffer was moved to the list since the count became zero. */
    ghost var listed: bool

    ghost function Value(): Slot
      reads this
    {
      if !isLocked then Free
      else if nRefs > 0 then Live(bo, nRefs)
      else if listed then Dying
      else Zero(bo)
    }

    constructor ()
      ensures Value() == Free
    {
      isLocked, bo, nRefs, listed := false, 0, 0, false;
    }
  }

  class RenderSurface {
    const fbs: seq<LockedFb>
    const list: array<nat>
    var front: Option<nat>
    var nPending: nat

    ghost predicate Valid()
      reads this
    {
      && |fbs| == SLOTS && list.Length == LIST_SIZE && nPending <= LIST_SIZE
      && forall i, j :: 0 <= i < j < |fbs| ==> fbs[i] != fbs[j]
    }

    ghost function Slots(): (r: seq<Slot>)
      reads this, fbs
    {
      seq(|fbs|, (i: int) requires 0 <= i < |fbs| reads fbs => fbs[i].Value())
    }

    ghost function Now(): State
      reads this, fbs, list
      requires Valid()
    {
      State(Slots(), front, list[..nPending])
    }

    constructor ()
      ensures Valid() && fresh(list) && forall i: int :: 0 <= i < |fbs| ==> fresh(fbs[i])
      ensures Now() == State([Free, Free, Free, Free], None, [])
    {
      var a := new LockedFb();
      var b := new LockedFb();
      var c := new LockedFb();
      var d := new LockedFb();
      fbs := [a, b, c, d];
      list := new nat[LIST_SIZE];
      front, nPending := None, 0;
    }

    /** One reference less; the caller of the last one goes on to destroy the slot. */
    method Unref(i: nat) returns (last: bool)
      requires Valid() && i < SLOTS && fbs[i].Value().Live?
      modifies fbs[i]
      ensures Valid() && Now() == UnrefSlot(old(Now()), i)
      ensures last <==> fbs[i].Value().Zero?
    {
      fbs[i].listed := false;
      fbs[i].nRefs := fbs[i].nRefs - 1;
      last := fbs[i].nRefs == 0;
      assert Slots()[i] == fbs[i].Value();
      assert Slots() == old(Slots())[i := DropSlot(old(Slots())[i])];
    }

    method Ref(i: nat)
      requires Valid() && i < SLOTS && fbs[i].Value().Live?
      modifies fbs[i]
      ensures Valid() && Now() == RefSlot(old(Now()), i)
    {
      fbs[i].nRefs := fbs[i].nRefs + 1;
      assert Slots() == old(Slots())[i := fbs[i].Value()];
    }

    /** The part of `locked_fb_destroy` under the list's mutex. */
    method QueueRelease(i: nat)
      requires Valid() && i < SLOTS && fbs[i].Value().Zero? && nPending < LIST_SIZE
      modifies this`nPending, list, fbs[i]
      ensures Valid() && Now() == Retire(old(Now()), i)
    {
      list[nPending] := fbs[i].bo;
      nPending := nPending + 1;
      fbs[i].listed := true;
      assert Slots() == old(Slots())[i := Dying];
      assert list[..nPending] == old(list[..nPending]) + [old(fbs[i].bo)];
    }

    method Unlock(i: nat)
      requires Valid() && i < SLOTS && fbs[i].Value().Dying?
      modifies fbs[i]
      ensures Valid() && Now() == ClearFlag(old(Now()), i)
    {
      fbs[i].isLocked := false;
      assert Slots() == old(Slots())[i := Free];
    }

    /** The buffers given back to GBM, in order. */
    method DrainPendingReleases() returns (released: seq<nat>)
      requires Valid()
      modifies this`nPending
      ensures Valid() && released == old(Now()).pending && Now() == old(Now()).(pending := [])
    {
      released := [];
      for i := 0 to nPending
        invariant released == list[..i] && nPending == old(nPending)
      {
        released := released + [list[i]];
      }
      nPending := 0;
    }

    /** The end of `queue_present`: a slot for the buffer that GBM just locked. */
    method LockSlot(bo: nat) returns (ok: int)
      requires Valid()
      modifies this`front, fbs
      ensures Valid() && Now() == TakeSlot(old(Now()), bo)
      ensures ok == if FirstFree(old(Slots()), 0).Some? then 0 else EIO
    {
      ghost var before := Slots();
      var i := 0;
      while i < SLOTS && fbs[i].isLocked
        invariant 0 <= i <= SLOTS && Slots() == before
        invariant FirstFree(before, 0) == FirstFree(before, i)
      {
        assert before[i] == fbs[i].Value();
        i := i + 1;
      }
      if i == SLOTS {
        return EIO;
      }
      assert before[i] == fbs[i].Value();
      fbs[i].isLocked := true;
      fbs[i].bo := bo;
      fbs[i].nRefs := 1;
      front := Some(i);
      assert Slots() == before[i := Live(bo, 1)];
      return 0;
    }
  }

  // All threads together.

  /**
   * `layers` are the references of KMS requests to slots. `taken` are the buffers locked
   * from GBM and not given back; `acquired` is the one `queue_present` has locked and not yet
   * put into a slot.
   */
  datatype World = World(st: State, layers: multiset<nat>, taken: set<nat>, acquired: Option<nat>)

  datatype Action =
    | UnrefFront
    | Drain
    | LockFront(bo: nat)
    | Take
    | Present
    | ReleaseLayer(i: nat)
    | QueueRelease(i: nat)
    | Unlock(i: nat)

  ghost predicate Enabled(w: World, a: Action) {
    match a
    case UnrefFront => w.st.front.Some? && w.acquired.None?
    case Drain => w.acquired.None?
    // GBM hands out one of its buffers that is not locked.
    case LockFront(bo) => w.st.front.None? && w.acquired.None? && bo < BUFFERS && bo !in w.taken
    case Take => w.acquired.Some?
    case Present => w.st.front.Some?
    case ReleaseLayer(i) => i in w.layers
    case QueueRelease(i) => i < |w.st.slots| && w.st.slots[i].Zero?
    case Unlock(i) => i < |w.st.slots| && w.st.slots[i].Dying?
  }

  ghost predicate InRange(w: World) {
    && |w.st.slots| == SLOTS
    && (w.st.front.Some? ==> w.st.front.value < SLOTS)
    && (forall i | i in w.layers :: i < SLOTS)
  }

  ghost function Next(w: World, a: Action): World
    requires InRange(w) && Enabled(w, a)
  {
    match a
    case UnrefFront => w.(st := UnrefSlot(w.st, w.st.front.value).(front := None))
    case Drain => w.(st := w.st.(pending := []), taken := w.taken - (set b | b in w.st.pending))
    case LockFront(bo) => w.(taken := w.taken + {bo}, acquired := Some(bo))
    case Take =>
      var w' := w.(st := TakeSlot(w.st, w.acquired.value), acquired := None);
      if FirstFree(w.st.slots, 0).Some? then w' else w'.(taken := w.taken - {w.acquired.value})
    case Present => w.(st := RefSlot(w.st, w.st.front.value), layers := w.layers + multiset{w.st.front.value})
    case ReleaseLayer(i) => w.(st := UnrefSlot(w.st, i), layers := w.layers - multiset{i})
    case QueueRelease(i) => w.(st := Retire(w.st, i))
    case Unlock(i) => w.(st := ClearFlag(w.st, i))
  }

  /** The buffer in a slot, if any. */
  function BoOf(s: Slot): Option<nat> {
    if s.Live? || s.Zero? then Some(s.bo) else None
  }

  function Bos(slots: seq<Slot>): (r: seq<Option<nat>>)
    ensures |r| == |slots|
  {
    seq(|slots|, i requires 0 <= i < |slots| => BoOf(slots[i]))
  }

  /** In how many places buffer `b` is. */
  ghost function Places(w: World, b: nat): int {
    multiset(Bos(w.st.slots))[Some(b)] + multiset(w.st.pending)[b] + if w.acquired == Some(b) then 1 else 0
  }

  /** Buffer `b` is where the partition says. */
  ghost predicate Placed(w: World, b: nat) { Places(w, b) == if b in w.taken then 1 else 0 }

  /** Every buffer taken from GBM is in exactly one place: a slot, the list, or just acquired. */
  ghost predicate Partition(w: World) {
    && (forall b | b in w.taken :: b < BUFFERS)
    && (forall b: nat :: Placed(w, b))
  }

  /** The count of slot `i` is the number of its users, and only a live slot has users. */
  ghost predicate Counted(w: World, i: nat)
    requires InRange(w) && i < SLOTS
  {
    var users := w.layers[i] + if w.st.front == Some(i) then 1 else 0;
    if w.st.slots[i].Live? then w.st.slots[i].refs == users > 0 else users == 0
  }

  ghost predicate Counts(w: World) {
    && InRange(w)
    && (forall i: nat :: i < SLOTS ==> Counted(w, i))
    && (w.acquired.Some? ==> w.st.front.None?)
  }

  lemma StepKeepsRange(w: World, a: Action)
    requires InRange(w) && Enabled(w, a)
    ensures InRange(Next(w, a))
  {
    hide FirstFree;
    if a.Take? {
      TakeKeepsRange(w);
    }
  }

  lemma TakeKeepsRange(w: World)
    requires InRange(w) && Enabled(w, Take)
    ensures InRange(Next(w, Take))
  {
  }

  lemma UnrefKeepsCounts(w: World, a: Action)
    requires Counts(w) && Enabled(w, a) && (a.UnrefFront? || a.ReleaseLayer?)
    ensures Counts(Next(w, a))
  {
    hide FirstFree;
    StepKeepsRange(w, a);
    forall i: nat | i < SLOTS ensures Counted(Next(w, a), i) { assert Counted(w, i); }
  }

  lemma PresentKeepsCounts(w: World)
    requires Counts(w) && Enabled(w, Present)
    ensures Counts(Next(w, Present))
  {
    hide FirstFree;
    StepKeepsRange(w, Present);
    forall i: nat | i < SLOTS ensures Counted(Next(w, Present), i) { assert Counted(w, i); }
  }

  lemma TakeKeepsCounts(w: World)
    requires Counts(w) && Enabled(w, Take)
    ensures Counts(Next(w, Take))
  {
    StepKeepsRange(w, Take);
    hide FirstFree;
    forall i: nat | i < SLOTS ensures Counted(Next(w, Take), i) { assert Counted(w, i); }
  }

  lemma DestroyKeepsCounts(w: World, a: Action)
    requires Counts(w) && Enabled(w, a) && (a.QueueRelease? || a.Unlock?)
    ensures Counts(Next(w, a))
  {
    hide FirstFree;
    StepKeepsRange(w, a);
    forall i: nat | i < SLOTS ensures Counted(Next(w, a), i) { assert Counted(w, i); }
  }

  lemma BufferKeepsCounts(w: World, a: Action)
    requires Counts(w) && Enabled(w, a) && (a.Drain? || a.LockFront?)
    ensures Counts(Next(w, a))
  {
    hide FirstFree;
    StepKeepsRange(w, a);
    forall i: nat | i < SLOTS ensures Counted(Next(w, a), i) { assert Counted(w, i); }
  }

  lemma StepKeepsCounts(w: World, a: Action)
    requires Counts(w) && Enabled(w, a)
    ensures Counts(Next(w, a))
  {
    hide Counts, Next, Enabled;
    match a {
      case UnrefFront => UnrefKeepsCounts(w, a);
      case ReleaseLayer(_) => UnrefKeepsCounts(w, a);
      case Present => PresentKeepsCounts(w);
      case Take => TakeKeepsCounts(w);
      case QueueRelease(_) => DestroyKeepsCounts(w, a);
      case Unlock(_) => DestroyKeepsCounts(w, a);
      case Drain => BufferKeepsCounts(w, a);
      case LockFront(_) => BufferKeepsCounts(w, a);
    }
  }

  lemma BosUpdate(slots: seq<Slot>, i: nat, s: Slot, b: nat)
    requires i < |slots|
    ensures multiset(Bos(slots[i := s]))[Some(b)]
               + (if BoOf(slots[i]) == Some(b) then 1 else 0)
            == multiset(Bos(slots))[Some(b)] + if BoOf(s) == Some(b) then 1 else 0
  {
    assert Bos(slots[i := s]) == Bos(slots)[i := BoOf(s)];
    UpdateCount(Bos(slots), i, BoOf(s), Some(b));
  }

  lemma DrainPlaces(w: World, b: nat)
    requires InRange(w) && Placed(w, b) && Enabled(w, Drain)
    ensures Placed(Next(w, Drain), b)
  {
    hide Bos;
    assert b in w.st.pending <==> b in multiset(w.st.pending);
  }

  lemma TakePlaces(w: World, b: nat)
    requires InRange(w) && Placed(w, b) && Enabled(w, Take)
    ensures Placed(Next(w, Take), b)
  {
    hide Bos, FirstFree;
    var i := FirstFree(w.st.slots, 0);
    if i.Some? {
      BosUpdate(w.st.slots, i.value, Live(w.acquired.value, 1), b);
    }
  }

  lemma QueuePlaces(w: World, i: nat, b: nat)
    requires InRange(w) && Placed(w, b) && Enabled(w, QueueRelease(i))
    ensures Placed(Next(w, QueueRelease(i)), b)
  {
    hide Bos;
    BosUpdate(w.st.slots, i, Dying, b);
    SnocCount(w.st.pending, w.st.slots[i].bo, b);
  }

  lemma RefPlaces(w: World, a: Action, b: nat)
    requires Counts(w) && Placed(w, b) && Enabled(w, a) && (a.UnrefFront? || a.Present? || a.ReleaseLayer? || a.Unlock?)
    ensures Placed(Next(w, a), b)
  {
    hide Bos;
    var i := if a.ReleaseLayer? || a.Unlock? then a.i else w.st.front.value;
    BosUpdate(w.st.slots, i, Next(w, a).st.slots[i], b);
  }

  lemma PlacesChange(w: World, a: Action, b: nat)
    requires Counts(w) && Placed(w, b) && Enabled(w, a)
    requires a.LockFront? ==> Placed(w, a.bo)
    ensures Placed(Next(w, a), b)
  {
    if a.LockFront? {
      hide Bos;
    } else {
      hide Next, Placed;
      if a.Drain? {
        DrainPlaces(w, b);
      } else if a.Take? {
        TakePlaces(w, b);
      } else if a.QueueRelease? {
        QueuePlaces(w, a.i, b);
      } else {
        RefPlaces(w, a, b);
      }
    }
  }

  lemma StepKeepsPartition(w: World, a: Action)
    requires Counts(w) && Partition(w) && Enabled(w, a)
    ensures Partition(Next(w, a))
  {
    hide Bos, FirstFree, Placed;
    StepKeepsCounts(w, a);
    forall b: nat ensures Placed(Next(w, a), b) {
      PlacesChange(w, a, b);
    }
  }

  // Whole runs.

  datatype Trace = Start | Then(before: Trace, a: Action)

  const INITIAL := World(State([Free, Free, Free, Free], None, []), multiset{}, {}, None)

  ghost function After(t: Trace): World {
    match t
    case Start => INITIAL
    case Then(before, a) =>
      if InRange(After(before)) && Enabled(After(before), a) then Next(After(before), a) else After(before)
  }

  ghost predicate Legal(t: Trace) {
    match t
    case Start => true
    case Then(before, a) => Legal(before) && Enabled(After(before), a)
  }

  lemma {:induction false} RunsKeepInv(t: Trace)
    requires Legal(t)
    ensures Counts(After(t)) && Partition(After(t))
    decreases t
  {
    if t.Start? {
      assert Bos(INITIAL.st.slots) == [None, None, None, None];
    } else {
      hide Next, Enabled, Partition;
      RunsKeepInv(t.before);
      StepKeepsCounts(After(t.before), t.a);
      StepKeepsPartition(After(t.before), t.a);
    }
  }

  /** The list never needs more than its slots: with four buffers, at most four of them. */
  lemma ListNeverOverflows(t: Trace)
    requires Legal(t)
    ensures |After(t).st.pending| <= BUFFERS < LIST_SIZE
  {
    RunsKeepInv(t);
    var w := After(t);
    hide After, Legal, Counts;
    forall b: nat ensures multiset(w.st.pending)[b] <= if b < BUFFERS then 1 else 0 {
      assert Placed(w, b);
    }
    ShortIfDistinct(w.st.pending, BUFFERS);
  }

  /** The slot that is taken has no user left. */
  lemma TakenSlotIsUnused(t: Trace)
    requires Legal(Then(t, Take)) && FirstFree(After(t).st.slots, 0).Some?
    ensures var w, i := After(t), FirstFree(After(t).st.slots, 0).value;
            && i !in w.layers && w.st.front != Some(i)
            && After(Then(t, Take)).st.front == Some(i)
  {
    RunsKeepInv(t);
    LegalStep(t, Take);
    var w := After(t);
    hide After, Legal, Partition, Counts;
    CountsOf(w, FirstFree(w.st.slots, 0).value);
  }

  lemma LegalStep(t: Trace, a: Action)
    requires Legal(Then(t, a)) && InRange(After(t))
    ensures Enabled(After(t), a) && After(Then(t, a)) == Next(After(t), a)
  {
    hide Next, Enabled, InRange;
  }

  lemma CountsOf(w: World, i: nat)
    requires Counts(w) && i < SLOTS
    ensures InRange(w) && Counted(w, i)
  {
  }

  /** The buffers in the slots. */
  function Values(s: seq<Option<nat>>): (r: seq<nat>) {
    if s == [] then [] else
      Values(s[..|s| - 1]) + if s[|s| - 1].Some? then [s[|s| - 1].value] else []
  }

  lemma {:induction false} ValuesCount(s: seq<Option<nat>>, b: nat)
    ensures multiset(Values(s))[b] == multiset(s)[Some(b)]
    ensures |Values(s)| + multiset(s)[None] == |s|
  {
    if s != [] {
      var front, last := s[..|s| - 1], s[|s| - 1];
      assert s == front + [last];
      ValuesCount(front, b);
      SnocCount(front, last, Some(b));
      SnocCount(front, last, None);
      if last.Some? {
        SnocCount(Values(front), last.value, b);
      }
    }
  }

  /** With a buffer acquired, the buffers taken are those in slots, those on the list and that one. */
  lemma TakenAreSomewhere(w: World)
    requires InRange(w) && Partition(w) && w.acquired.Some?
    ensures |w.taken| == |Values(Bos(w.st.slots))| + |w.st.pending| + 1 && |w.taken| <= BUFFERS
  {
    hide Bos, Values;
    var held, list: seq<nat>, bo: nat := Values(Bos(w.st.slots)), w.st.pending, w.acquired.value;
    var all: seq<nat> := held + list + [bo];
    forall b: nat ensures multiset(all)[b] == if b in w.taken then 1 else 0 {
      assert Placed(w, b);
      ValuesCount(Bos(w.st.slots), b);
      SnocCount(held + list, bo, b);
      AppendCount(held, list, b);
    }
    DistinctSize(all);
    ElementsOf(all, w.taken);
    SmallNumbers(w.taken, BUFFERS);
  }

  lemma ElementsOf(s: seq<nat>, t: set<nat>)
    requires forall x: nat :: multiset(s)[x] == if x in t then 1 else 0
    ensures Elements(s) == t
  {
    forall x: nat ensures x in Elements(s) <==> x in t {
      assert x in s <==> x in multiset(s);
    }
  }

  lemma BosSnoc(slots: seq<Slot>, s: Slot)
    ensures Bos(slots + [s]) == Bos(slots) + [BoOf(s)]
    ensures BoOf(s) == None <==> s == Free || s == Dying
  {
  }

  lemma {:induction false} NoBufferMeansFreeOrDying(slots: seq<Slot>)
    ensures multiset(Bos(slots))[None] == multiset(slots)[Free] + multiset(slots)[Dying]
  {
    if slots != [] {
      hide Bos, BoOf;
      var front, last := slots[..|slots| - 1], slots[|slots| - 1];
      assert slots == front + [last];
      BosSnoc(front, last);
      NoBufferMeansFreeOrDying(front);
      SnocCount(Bos(front), BoOf(last), None);
      SnocCount(front, last, Free);
      SnocCount(front, last, Dying);
    }
  }

  lemma NoSlotMeansNoFree(slots: seq<Slot>)
    ensures FirstFree(slots, 0).None? <==> multiset(slots)[Free] == 0
  {
    assert Free in slots <==> Free in multiset(slots);
  }

  /** How many slots are neither free nor hold a buffer when none is free. */
  ghost function Missing(w: World): int { SLOTS + 1 + |w.st.pending| - |w.taken| }

  /**
   * When a locked buffer finds no slot. At least one slot holds no buffer then: it is
   * between queueing its buffer and clearing its flag. There is no free slot exactly if all
   * the slots without a buffer are in that state, and their number is known.
   */
  lemma NoSlotIff(t: Trace)
    requires Legal(t) && After(t).acquired.Some?
    ensures var w := After(t);
            && (FirstFree(w.st.slots, 0).None? <==> multiset(w.st.slots)[Dying] == Missing(w))
            && (FirstFree(w.st.slots, 0).None? <==>
                Dying in w.st.slots && forall s | s in w.st.slots :: s.Dying? || BoOf(s).Some?)
            && Missing(w) >= 1 && multiset(w.st.slots)[Dying] <= Missing(w)
  {
    RunsKeepInv(t);
    var w := After(t);
    hide After, Legal, Counts, Partition, Bos, Values;
    assert InRange(w) by { CountsOf(w, 0); }
    TakenAreSomewhere(w);
    ValuesCount(Bos(w.st.slots), 0);
    NoBufferMeansFreeOrDying(w.st.slots);
    NoSlotMeansNoFree(w.st.slots);
    assert Dying in w.st.slots <==> Dying in multiset(w.st.slots);
    assert Free in w.st.slots <==> Free in multiset(w.st.slots);
  }

  /** A buffer that is locked, put into a slot and queued for scanout, from an empty front. */
  function Queued(t: Trace, bo: nat): Trace {
    Then(Then(Then(t, LockFront(bo)), Take), Present)
  }

  /** The same, up to the point where the next frame takes it off the front. */
  function Frame(t: Trace, bo: nat): Trace {
    Then(Queued(t, bo), UnrefFront)
  }

  /**
   * The error path is reachable. Four frames were queued, the last one is still the front.
   * The page flip handler has queued the buffer of slot 0 and not yet cleared its flag when
   * the render thread gives that buffer back before it renders; it renders into it, takes
   * the last frame off the front, and looks for a slot.
   */
  lemma FlipHandlerMayHoldTheLastSlot()
    ensures var t := Then(Then(Queued(Frame(Frame(Frame(Start, 0), 1), 2), 3), ReleaseLayer(0)), QueueRelease(0));
            var u := Then(Then(Then(Then(t, Drain), UnrefFront), Drain), LockFront(0));
            Legal(Then(u, Take)) && FirstFree(After(u).st.slots, 0).None?
  {
    hide After, Legal, FirstFree, Queued, Frame, Next, Enabled;
    Begin();
    var s0: seq<Slot> := [Free, Free, Free, Free];
    var s1 := s0[0 := Live(0, 1)];
    var s2 := s1[1 := Live(1, 1)];
    var s3 := s2[2 := Live(2, 1)];
    var a := FrameDone(s0, multiset{}, {}, Start, 0);
    var b := FrameDone(s1, multiset{} + multiset{0}, {} + {0}, a, 1);
    var c := FrameDone(s2, multiset{} + multiset{0} + multiset{1}, {} + {0} + {1}, b, 2);
    var d := FrameQueued(s3, multiset{} + multiset{0} + multiset{1} + multiset{2}, {} + {0} + {1} + {2}, c, 3);
    SlotRefilled(d, s3[3 := Live(3, 2)]);
  }

  /** The flip handler destroys slot 0 up to its flag. */
  lemma SlotDying(t: Trace, slots: seq<Slot>) returns (u: Trace)
    requires Legal(t) && After(t).st == State(slots, Some(3), []) && After(t).acquired == None
    requires |slots| == SLOTS && slots[0] == Live(0, 1)
    requires InRange(After(t)) && 0 in After(t).layers && 0 in After(t).taken
    ensures u == Then(Then(Then(t, ReleaseLayer(0)), QueueRelease(0)), Drain)
    ensures Legal(u) && After(u).st == State(slots[0 := Dying], Some(3), []) && InRange(After(u))
    ensures After(u).acquired == None && 0 !in After(u).taken
  {
    hide After, Legal, FirstFree;
    OneStep(t, ReleaseLayer(0));
    var e := Then(t, ReleaseLayer(0));
    OneStep(e, QueueRelease(0));
    var f := Then(e, QueueRelease(0));
    assert After(f).st == State(slots[0 := Dying], Some(3), [0]);
    OneStep(f, Drain);
    assert 0 in After(f).st.pending;
    u := Then(f, Drain);
  }

  lemma SlotRefilled(t: Trace, slots: seq<Slot>)
    requires Legal(t) && After(t).st == State(slots, Some(3), []) && After(t).acquired == None
    requires |slots| == SLOTS && slots[0] == Live(0, 1) && slots[3] == Live(3, 2) && slots[1].Live? && slots[2].Live?
    requires InRange(After(t)) && 0 in After(t).layers && 0 in After(t).taken
    ensures var u := Then(Then(Then(t, ReleaseLayer(0)), QueueRelease(0)), Drain);
            var v := Then(Then(Then(u, UnrefFront), Drain), LockFront(0));
            Legal(Then(v, Take)) && FirstFree(After(v).st.slots, 0).None?
  {
    hide After, Legal, FirstFree;
    var u := SlotDying(t, slots);
    OneStep(u, UnrefFront);
    var e := Then(u, UnrefFront);
    assert After(e).st == State(slots[0 := Dying][3 := Live(3, 1)], None, []);
    OneStep(e, Drain);
    var f := Then(e, Drain);
    OneStep(f, LockFront(0));
    OneStep(Then(f, LockFront(0)), Take);
  }

  lemma Begin()
    ensures Legal(Start) && After(Start) == INITIAL
  {
  }

  lemma OneStep(t: Trace, a: Action)
    requires Legal(t) && InRange(After(t)) && Enabled(After(t), a)
    ensures Legal(Then(t, a)) && After(Then(t, a)) == Next(After(t), a)
  {
  }

  lemma FrameQueued(slots: seq<Slot>, layers: multiset<nat>, taken: set<nat>, t: Trace, bo: nat) returns (u: Trace)
    requires Legal(t) && After(t) == World(State(slots, None, []), layers, taken, None)
    requires |slots| == SLOTS && bo < SLOTS && bo !in taken
    requires slots[bo].Free? && forall j :: 0 <= j < bo ==> !slots[j].Free?
    requires forall i | i in layers :: i < SLOTS
    ensures u == Queued(t, bo) && Legal(u)
    ensures After(u) == World(State(slots[bo := Live(bo, 2)], Some(bo), []), layers + multiset{bo}, taken + {bo}, None)
  {
    hide After, Legal, FirstFree;
    assert FirstFree(slots, 0) == Some(bo) by { assert slots[bo].Free?; }
    OneStep(t, LockFront(bo));
    var v := Then(t, LockFront(bo));
    OneStep(v, Take);
    var x := Then(v, Take);
    assert After(x) == World(State(slots[bo := Live(bo, 1)], Some(bo), []), layers, taken + {bo}, None);
    OneStep(x, Present);
    u := Then(x, Present);
  }

  lemma FrameDone(slots: seq<Slot>, layers: multiset<nat>, taken: set<nat>, t: Trace, bo: nat) returns (u: Trace)
    requires Legal(t) && After(t) == World(State(slots, None, []), layers, taken, None)
    requires |slots| == SLOTS && bo < SLOTS && bo !in taken
    requires slots[bo].Free? && forall j :: 0 <= j < bo ==> !slots[j].Free?
    requires forall i | i in layers :: i < SLOTS
    ensures u == Frame(t, bo) && Legal(u)
    ensures After(u) == World(State(slots[bo := Live(bo, 1)], None, []), layers + multiset{bo}, taken + {bo}, None)
  {
    hide After, Legal, FirstFree, Queued;
    var x := FrameQueued(slots, layers, taken, t, bo);
    OneStep(x, UnrefFront);
    u := Frame(t, bo);
  }
}
