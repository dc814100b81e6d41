/**
 * Tasks posted to the platform thread by other threads.
 *
 * A poster appends its task and wakes the main loop through an eventfd, all under the
 * queue's mutex. The main loop reads the eventfd, which resets it, and then pulls one task
 * at a time, taking the mutex for each, until it finds the queue empty.
 */
module TaskQueue {
  import opened Options

  /** Tasks are numbered in the order in which they were appended. */
  type Task = nat

  const ENOMEM := 12

  /** Queue and counter after a post. */
  function Posted(queue: seq<Task>, counter: nat, task: Task, ok: bool): (seq<Task>, nat) {
    if ok then (queue + [task], counter + 1) else (queue, counter)
  }

  /** The callbacks run by a wakeup, and queue and counter after it. */
  function Woken(queue: seq<Task>, counter: nat, ok: bool): (seq<Task>, seq<Task>, nat) {
    if ok then (queue, [], 0) else ([], queue, counter)
  }

  /** The queue and the eventfd's counter, used without other threads in between. */
  class Queue {
    var queue: seq<Task>
    var counter: nat

    constructor ()
      ensures queue == [] && counter == 0
    {
      queue, counter := [], 0;
    }

    /** `error` is the errno of the write to the eventfd, zero if it succeeds. */
    method Post(task: Task, hasMemory: bool, error: nat) returns (ok: nat)
      modifies this
      ensures ok == if hasMemory then error else ENOMEM
      ensures (queue, counter) == Posted(old(queue), old(counter), task, ok == 0)
    {
      if !hasMemory {
        return ENOMEM;
      }
      queue := queue + [task];
      if error != 0 {
        queue := queue[..|queue| - 1];
        return error;
      }
      counter := counter + 1;
      return 0;
    }

    /** `error` is the errno of the read; the callbacks that ran, in order. */
    method OnWakeup(error: nat) returns (ok: nat, ran: seq<Task>)
      modifies this
      ensures ok == error && (ran, queue, counter) == Woken(old(queue), old(counter), ok == 0)
    {
      ran := [];
      if error != 0 {
        return error, ran;
      }
      counter := 0;
      while queue != []
        invariant ran + queue == old(queue) && counter == 0
        decreases |queue|
      {
        var task := queue[0];
        queue := queue[1..];
        ran := ran + [task];
      }
      assert ran + [] == ran;
      return 0, ran;
    }
  }

  // All threads together.

  /** What the thread that holds the mutex has done so far. */
  datatype Poster = Nobody | Appended(task: Task) | Wrote | Withdrew

  /**
   * `running` is the task whose callback executes. `posted` are the tasks whose wakeup was
   * written, so that their post returns zero; `failed` those whose write failed; `ran` the
   * tasks whose callbacks have started; all in order.
   */
  datatype World = World(
    queue: seq<Task>, counter: nat, poster: Poster, draining: bool, running: Option<Task>,
    appended: nat, posted: seq<Task>, failed: seq<Task>, ran: seq<Task>)

  datatype Action =
    | Append
    | Write(ok: bool)
    | Unlock
    /** Other parts of the program wake the main loop too. */
    | OtherWakeup(n: nat)
    | Read(ok: bool)
    | Pull
    | Finish

  predicate Enabled(w: World, a: Action) {
    match a
    case Append => w.poster == Nobody
    case Write(_) => w.poster.Appended?
    case Unlock => w.poster == Wrote || w.poster == Withdrew
    case OtherWakeup(n) => n > 0
    // The loop calls its handler when the counter is not zero.
    case Read(_) => !w.draining && w.counter > 0
    case Pull => w.draining && w.running.None? && w.poster == Nobody
    case Finish => w.running.Some?
  }

  function Next(w: World, a: Action): World
    requires Enabled(w, a) && (w.poster.Appended? ==> w.queue != [])
  {
    match a
    case Append => w.(queue := w.queue + [w.appended], poster := Appended(w.appended), appended := w.appended + 1)
    case Write(ok) =>
      if ok then w.(counter := w.counter + 1, poster := Wrote, posted := w.posted + [w.poster.task])
      else w.(queue := w.queue[..|w.queue| - 1], poster := Withdrew, failed := w.failed + [w.poster.task])
    case Unlock => w.(poster := Nobody)
    case OtherWakeup(n) => w.(counter := w.counter + n)
    case Read(ok) => if ok then w.(counter := 0, draining := true) else w
    case Pull =>
      if w.queue == [] then w.(draining := false)
      else w.(queue := w.queue[1..], running := Some(w.queue[0]), ran := w.ran + [w.queue[0]])
    case Finish => w.(running := None)
  }

  /** The tasks in the queue whose wakeup was written. */
  function Committed(w: World): seq<Task>
    requires w.poster.Appended? ==> w.queue != []
  {
    if w.poster.Appended? then w.queue[..|w.queue| - 1] else w.queue
  }

  /** Whoever sees a task that waits also sees that the loop will come for it. */
  predicate Awake(w: World) { w.counter > 0 || w.draining }

  /** The queue holds what was posted and did not run yet, and the loop is awake for it. */
  ghost predicate QueueInv(w: World) {
    && (w.poster.Appended? ==> w.queue != [] && w.queue[|w.queue| - 1] == w.poster.task)
    && (Committed(w) != [] ==> Awake(w))
    && (w.poster == Wrote ==> Awake(w))
    && (w.running.Some? ==> w.draining)
    && w.posted == w.ran + Committed(w)
  }

  /** The number below which every post has been decided. */
  function Decided(w: World): int {
    if w.poster.Appended? then w.poster.task else w.appended
  }

  ghost predicate NumberInv(w: World) {
    && (w.poster.Appended? ==> w.poster.task + 1 == w.appended)
    && (forall k :: 0 <= k < |w.posted| ==> w.posted[k] < Decided(w) && w.posted[k] !in w.failed)
    && (forall k :: 0 <= k < |w.failed| ==> w.failed[k] < Decided(w))
    && (forall j, k :: 0 <= j < k < |w.posted| ==> w.posted[j] < w.posted[k])
  }

  ghost predicate Inv(w: World) { QueueInv(w) && NumberInv(w) }

  const INITIAL := World([], 0, Nobody, false, None, 0, [], [], [])

  lemma StepKeepsQueue(w: World, a: Action)
    requires QueueInv(w) && Enabled(w, a)
    ensures QueueInv(Next(w, a))
  {
    if a.Append? {
      assert Committed(Next(w, a)) == w.queue;
    } else if a.Write? {
      var q, t := w.queue[..|w.queue| - 1], w.poster.task;
      assert w.queue == q + [t];
      assert a.ok ==> w.posted + [t] == w.ran + (q + [t]);
    } else if a.Pull? && w.queue != [] {
      assert w.ran + w.queue == w.ran + [w.queue[0]] + w.queue[1..];
    }
  }

  lemma AppendKeepsNumbers(w: World)
    requires NumberInv(w) && Enabled(w, Append) && !w.poster.Appended?
    ensures NumberInv(Next(w, Append))
  {
    assert Decided(Next(w, Append)) == Decided(w);
  }

  lemma WriteKeepsNumbers(w: World, ok: bool)
    requires NumberInv(w) && Enabled(w, Write(ok)) && w.queue != []
    ensures NumberInv(Next(w, Write(ok)))
  {
    var w', t := Next(w, Write(ok)), w.poster.task;
    assert Decided(w) == t && Decided(w') == t + 1;
    if ok {
      assert w'.posted == w.posted + [t] && w'.failed == w.failed;
    } else {
      assert w'.failed == w.failed + [t] && w'.posted == w.posted;
    }
  }

  lemma StepKeepsNumbers(w: World, a: Action)
    requires QueueInv(w) && NumberInv(w) && Enabled(w, a)
    ensures NumberInv(Next(w, a))
  {
    if a.Append? {
      AppendKeepsNumbers(w);
    } else if a.Write? {
      WriteKeepsNumbers(w, a.ok);
    } else {
      var w' := Next(w, a);
      assert w'.posted == w.posted && w'.failed == w.failed && Decided(w') == Decided(w);
    }
  }

  lemma StepKeepsInv(w: World, a: Action)
    requires Inv(w) && Enabled(w, a)
    ensures Inv(Next(w, a))
  {
    hide NumberInv;
    StepKeepsQueue(w, a);
    StepKeepsNumbers(w, a);
  }

  datatype Trace = Start | Then(before: Trace, a: Action)

  ghost function After(t: Trace): World {
    match t
    case Start => INITIAL
    case Then(before, a) =>
      var w := After(before);
      if Enabled(w, a) && (w.poster.Appended? ==> w.queue != []) then Next(w, a) else w
  }

  ghost predicate Legal(t: Trace) {
    match t
    case Start => true
    case Then(before, a) => Legal(before) && Enabled(After(before), a)
  }

  lemma {:induction false} RunsKeepInv(t: Trace)
    requires Legal(t)
    ensures Inv(After(t))
    decreases t
  {
    if t.Then? {
      hide Next, Enabled;
      RunsKeepInv(t.before);
      StepKeepsInv(After(t.before), t.a);
    }
  }

  /** No lost wakeup: a task in the queue outside a poster's critical section is seen. */
  lemma NoLostWakeup(t: Trace)
    requires Legal(t) && After(t).poster == Nobody && After(t).queue != []
    ensures After(t).counter > 0 || After(t).draining
  {
    RunsKeepInv(t);
  }

  /**
   * Tasks run in the order of their successful posts, each at most once, and a task whose
   * post failed never runs.
   */
  lemma RunsInPostOrder(t: Trace)
    requires Legal(t)
    ensures var w := After(t);
            && w.ran <= w.posted
            && (forall j, k :: 0 <= j < k < |w.ran| ==> w.ran[j] < w.ran[k])
            && (forall k :: 0 <= k < |w.ran| ==> w.ran[k] !in w.failed)
  {
    RunsKeepInv(t);
    var w := After(t);
    hide After, Legal;
    forall k | 0 <= k < |w.ran| ensures w.ran[k] == w.posted[k] {}
  }

  lemma Extend(t: Trace, a: Action)
    requires Legal(t) && Enabled(After(t), a)
    ensures QueueInv(After(t)) && Legal(Then(t, a)) && After(Then(t, a)) == Next(After(t), a)
  {
    RunsKeepInv(t);
    hide NumberInv;
  }

  // What others may do inside a poster's critical section.

  /** The steps that do not need the mutex. */
  predicate Quiet(a: Action) { a.OtherWakeup? || a.Read? || a.Finish? }

  predicate AllQuiet(xs: seq<Action>) { forall k :: 0 <= k < |xs| ==> Quiet(xs[k]) }

  ghost function Go(t: Trace, xs: seq<Action>): Trace {
    if xs == [] then t else Then(Go(t, xs[..|xs| - 1]), xs[|xs| - 1])
  }

  predicate SameLoop(w: World, v: World) {
    w.counter == v.counter && w.draining == v.draining && w.running == v.running
  }

  predicate SameQueue(w: World, v: World) {
    && w.queue == v.queue && w.poster == v.poster && w.appended == v.appended
    && w.posted == v.posted && w.failed == v.failed && w.ran == v.ran
  }

  /** They touch nothing of the queue, and what they do to the loop does not depend on it. */
  lemma {:induction false} QuietSteps(t: Trace, v: Trace, xs: seq<Action>)
    requires AllQuiet(xs) && Legal(Go(t, xs)) && Legal(v) && SameLoop(After(t), After(v))
    ensures Legal(Go(v, xs)) && SameLoop(After(Go(t, xs)), After(Go(v, xs)))
    ensures SameQueue(After(Go(t, xs)), After(t)) && SameQueue(After(Go(v, xs)), After(v))
  {
    hide After, Legal;
    if xs != [] {
      var front, a := xs[..|xs| - 1], xs[|xs| - 1];
      LegalStep(Go(t, front), a);
      QuietSteps(t, v, front);
      Extend(Go(t, front), a);
      Extend(Go(v, front), a);
    }
  }

  lemma LegalStep(t: Trace, a: Action)
    requires Legal(Then(t, a))
    ensures Legal(t) && Enabled(After(t), a)
  {
  }

  lemma {:induction false} LegalPrefix(t: Trace, xs: seq<Action>)
    requires Legal(Go(t, xs))
    ensures Legal(t)
  {
    if xs != [] {
      LegalPrefix(t, xs[..|xs| - 1]);
    }
  }

  /** No step of the poster that holds the mutex. */
  predicate Others(xs: seq<Action>) { forall k :: 0 <= k < |xs| ==> !xs[k].Write? && !xs[k].Unlock? }

  /** While a poster holds the mutex, others can only take steps that do not need it. */
  lemma {:induction false} OthersAreQuiet(t: Trace, xs: seq<Action>)
    requires Legal(t) && Legal(Go(t, xs)) && After(t).poster != Nobody && Others(xs)
    ensures AllQuiet(xs) && After(Go(t, xs)).poster == After(t).poster
  {
    hide After, Legal, Next;
    if xs != [] {
      var front, a := xs[..|xs| - 1], xs[|xs| - 1];
      LegalStep(Go(t, front), a);
      OthersAreQuiet(t, front);
      assert Quiet(a);
      assert AllQuiet(xs) by { assert forall k :: 0 <= k < |front| ==> xs[k] == front[k]; }
      QuietSteps(t, t, xs);
    }
  }

  /** A post of which the write fails or not, with steps of others before and after the write. */
  ghost function Post(t: Trace, xs: seq<Action>, ok: bool, ys: seq<Action>): Trace {
    Then(Go(Then(Go(Then(t, Append), xs), Write(ok)), ys), Unlock)
  }

  /** A failed post leaves no trace: all that happened is what the others did in the meantime. */
  lemma FailedPostLeavesNoTrace(t: Trace, xs: seq<Action>, ys: seq<Action>)
    requires Legal(Post(t, xs, false, ys)) && Others(xs) && Others(ys)
    ensures var w := After(Go(Go(t, xs), ys));
            && Legal(Go(Go(t, xs), ys))
            && After(Post(t, xs, false, ys)) == w.(appended := w.appended + 1, failed := w.failed + [w.appended])
  {
    hide After, Legal, Enabled, Next, Withdrawn, SameLoop, SameQueue, QueueInv, Go;
    var b := Then(Go(Then(t, Append), xs), Write(false));
    LegalStep(Go(b, ys), Unlock);
    LegalPrefix(b, ys);
    FailedWrite(t, xs);
    assert After(b).poster != Nobody by { PosterOf(After(b), After(Go(t, xs))); }
    OthersAreQuiet(b, ys);
    QuietSteps(b, Go(t, xs), ys);
    Extend(Go(b, ys), Unlock);
    UnlockWithdrawn(After(b), After(Go(t, xs)), After(Go(b, ys)), After(Go(Go(t, xs), ys)));
  }

  /** `b` is `v` after a post whose task was taken out again, before unlocking. */
  predicate Withdrawn(b: World, v: World) {
    && SameLoop(b, v) && v.poster == Nobody && b.poster == Withdrew
    && b.queue == v.queue && b.posted == v.posted && b.ran == v.ran
    && b.appended == v.appended + 1 && b.failed == v.failed + [v.appended]
  }

  lemma PosterOf(b: World, v: World)
    requires Withdrawn(b, v)
    ensures b.poster == Withdrew
  {
  }

  lemma FailedWrite(t: Trace, xs: seq<Action>)
    requires Legal(Then(Go(Then(t, Append), xs), Write(false))) && Others(xs)
    ensures var b := Then(Go(Then(t, Append), xs), Write(false));
            Legal(Go(t, xs)) && Withdrawn(After(b), After(Go(t, xs))) && SameLoop(After(b), After(Go(t, xs)))
  {
    hide After, Legal, Withdrawn;
    var a := Then(t, Append);
    LegalStep(Go(a, xs), Write(false));
    LegalPrefix(a, xs);
    LegalStep(t, Append);
    Extend(t, Append);
    OthersAreQuiet(a, xs);
    QuietSteps(a, t, xs);
    Extend(Go(a, xs), Write(false));
    WriteWithdraws(After(t), After(Go(a, xs)), After(Go(t, xs)));
  }

  /** The write takes out what was appended. */
  lemma WriteWithdraws(w: World, a: World, v: World)
    requires Enabled(w, Append) && (w.poster.Appended? ==> w.queue != [])
    requires SameQueue(a, Next(w, Append)) && SameQueue(v, w) && SameLoop(a, v)
    ensures Withdrawn(Next(a, Write(false)), v) && SameLoop(Next(a, Write(false)), v)
  {
    assert (w.queue + [w.appended])[..|w.queue|] == w.queue;
  }

  lemma UnlockWithdrawn(b: World, v: World, b': World, v': World)
    requires Withdrawn(b, v) && SameQueue(b', b) && SameQueue(v', v) && SameLoop(b', v')
    ensures Enabled(b', Unlock) && Next(b', Unlock) == v'.(appended := v'.appended + 1, failed := v'.failed + [v'.appended])
  {
  }

  // The class and the steps.

  /** Without others in between, the steps of a post do what `Queue.Post` does. */
  lemma PostSteps(t: Trace, ok: bool)
    requires Legal(t) && Enabled(After(t), Append)
    ensures var w, u := After(t), Post(t, [], ok, []);
            && Legal(u) && After(u).poster == Nobody
            && (After(u).queue, After(u).counter) == Posted(w.queue, w.counter, w.appended, ok)
  {
    hide After, Legal;
    Extend(t, Append);
    Extend(Then(t, Append), Write(ok));
    Extend(Then(Then(t, Append), Write(ok)), Unlock);
    var w := After(t);
    assert (w.queue + [w.appended])[..|w.queue|] == w.queue;
  }

  /** Pulling and running `n` tasks, and finding the queue empty. */
  ghost function Drain(t: Trace, n: nat): Trace
    decreases n
  {
    if n == 0 then Then(t, Pull) else Drain(Then(Then(t, Pull), Finish), n - 1)
  }

  lemma {:induction false} DrainSteps(t: Trace)
    requires Legal(t) && After(t).draining && After(t).poster == Nobody && After(t).running.None?
    ensures var w, u := After(t), Drain(t, |After(t).queue|);
            Legal(u) && After(u) == w.(queue := [], draining := false, ran := w.ran + w.queue)
    decreases |After(t).queue|
  {
    hide After, Legal;
    Extend(t, Pull);
    var w := After(t);
    if w.queue != [] {
      var u := Then(Then(t, Pull), Finish);
      Extend(Then(t, Pull), Finish);
      DrainSteps(u);
      assert w.ran + [w.queue[0]] + w.queue[1..] == w.ran + w.queue;
    }
  }

  /** Without others in between, the steps of a wakeup do what `Queue.OnWakeup` does. */
  lemma WakeupSteps(t: Trace, ok: bool)
    requires Legal(t) && Enabled(After(t), Read(ok)) && After(t).poster == Nobody && After(t).running.None?
    ensures var w := After(t);
            var u := if ok then Drain(Then(t, Read(ok)), |w.queue|) else Then(t, Read(ok));
            var (ran, queue, counter) := Woken(w.queue, w.counter, ok);
            && Legal(u) && After(u) == w.(queue := queue, counter := counter, ran := w.ran + ran)
  {
    hide After, Legal;
    Extend(t, Read(ok));
    if ok {
      DrainSteps(Then(t, Read(ok)));
    } else {
      assert After(t).ran + [] == After(t).ran;
    }
  }

  /** When the loop sleeps and no poster is at work, every task that was posted has run. */
  lemma AsleepMeansDone(t: Trace)
    requires Legal(t) && After(t).poster == Nobody && After(t).counter == 0 && !After(t).draining
    ensures After(t).queue == [] && After(t).ran == After(t).posted && After(t).running == None
  {
    RunsKeepInv(t);
  }

  /** Steps of the main loop only: it finishes the callback it runs, or wakes up, and drains the queue. */
  ghost function LoopAlone(t: Trace): Trace {
    var w := After(t);
    Drain(if w.running.Some? then Then(t, Finish) else if w.draining then t else Then(t, Read(true)), |w.queue|)
  }

  /** From every state with a waiting task, outside of posts, these steps of the loop run all posted tasks in order. */
  lemma WaitingTaskWillRun(t: Trace)
    requires Legal(t) && After(t).poster == Nobody && After(t).queue != []
    ensures var w, u := After(t), LoopAlone(t);
            && Legal(u) && After(u).posted == w.posted && After(u).queue == []
            && After(u).ran == w.ran + w.queue == w.posted && !After(u).draining
  {
    hide After, Legal;
    NoLostWakeup(t);
    DoneAfter(t);
    if After(t).running.Some? {
      Extend(t, Finish);
      DrainSteps(Then(t, Finish));
    } else if After(t).draining {
      DrainSteps(t);
    } else {
      WakeupSteps(t, true);
    }
  }

  lemma DoneAfter(t: Trace)
    requires Legal(t) && After(t).poster == Nobody
    ensures After(t).posted == After(t).ran + After(t).queue
  {
    RunsKeepInv(t);
  }
}
