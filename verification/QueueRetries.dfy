/**
 Retries of the notification queue: how often a handler runs, how long a retry waits, how much
 work a run can contain, and the order in which items reach the workers.
 */
module QueueRetries {
  import opened Common
  import opened QueueModel
  import opened QueueProofs

  // ---------------------------------------------------------------- bounded retries

  /** How often the handler of an item pushed with this attempt number may run. */
  function Allowance(c: Config, init: int): nat {
    if c.maxAttempts - init > 1 then c.maxAttempts - init else 1
  }

  /** An item that no handler is working on. */
  predicate Idle(c: Config, x: Item) {
    x.runs == x.attempt - x.init && (x.runs > 0 ==> x.attempt < c.maxAttempts)
  }

  /** An item whose handler has been started for the current attempt. */
  predicate Tried(c: Config, x: Item) {
    x.runs > 0 && x.runs == x.attempt - x.init + 1 && (x.runs > 1 ==> x.attempt < c.maxAttempts)
  }

  ghost predicate RetryInv(c: Config, s: State) {
    && (forall x :: x in s.queue ==> Idle(c, x))
    && (forall j :: j in s.w.handed ==> Idle(c, j.item))
    && (forall t :: t in s.timers ==> Idle(c, t.item) && t.item.runs > 0 && t.delayMs == Delay(c, t.item.attempt - 1))
    && (forall j :: j in s.w.running ==> Tried(c, j.item))
    && (forall x :: x in s.w.done ==> Tried(c, x))
    && (forall x :: x in s.w.drops ==> Tried(c, x) && x.attempt + 1 >= c.maxAttempts)
    && (!s.stopped ==> s.w.discarded == [])
  }

  lemma {:induction false} FlushKeepsRetry(c: Config, s: State)
    requires RetryInv(c, s)
    ensures RetryInv(c, Flush(s))
    decreases |s.queue|
  {
    if s.queue != [] && s.waiting != [] {
      var t := s.(waiting := s.waiting[1..]);
      var u := if s.waiting[0].aborted
               then t.(queue := t.queue[1..], w := t.w.(lost := t.w.lost + [t.queue[0]]))
               else Hand(t, s.waiting[0].group);
      assert s.queue[0] in s.queue;
      FlushKeepsRetry(c, u);
    }
  }

  lemma StepKeepsRetry(c: Config, s: State, e: Event)
    requires Enabled(s, e) && RetryInv(c, s)
    ensures RetryInv(c, Step(c, s, e))
  {
    match e
    case Enqueue(p) => PushKeepsRetry(c, s, p.attempt);
    case ResumeProducer(i) =>
      PushKeepsRetry(c, Unwoken(s, i), s.w.woken[i].attempt);
    case LoopTop(g) => LoopKeepsRetry(c, s, g);
    case Begin(i) => BeginKeepsRetry(c, s, i);
    case Succeed(i) => SucceedKeepsRetry(c, s, i);
    case Fail(i, b) =>
      SettleKeepsRetry(c, s, i);
      FailureKeepsRetry(c, Settle(s, i), s.w.running[i].item, b);
    case TimerFires(i) => TimerKeepsRetry(c, s, i);
    case _ => OuterKeepsRetry(c, s, e);
  }

  lemma BeginKeepsRetry(c: Config, s: State, i: nat)
    requires i < |s.w.handed| && RetryInv(c, s)
    ensures RetryInv(c, StepBegin(s, i))
  {
    assert s.w.handed[i] in s.w.handed;
  }

  lemma SucceedKeepsRetry(c: Config, s: State, i: nat)
    requires i < |s.w.running| && RetryInv(c, s)
    ensures RetryInv(c, StepSucceed(c, s, i))
  {
    SettleKeepsRetry(c, s, i);
    assert RetryInv(c, Finished(Settle(s, i), s.w.running[i].item));
  }

  lemma OuterKeepsRetry(c: Config, s: State, e: Event)
    requires Enabled(s, e) && RetryInv(c, s) && (Outer(e) || e.OnFailedDone?)
    ensures RetryInv(c, Step(c, s, e))
  {
  }

  lemma PushKeepsRetry(c: Config, s: State, attempt: int)
    requires RetryInv(c, s)
    ensures RetryInv(c, Push(s, attempt))
  {
    FlushKeepsRetry(c, Appended(s, attempt));
  }

  lemma LoopKeepsRetry(c: Config, s: State, g: nat)
    requires g in s.w.looping && RetryInv(c, s)
    ensures RetryInv(c, Step(c, s, LoopTop(g)))
  {
    if s.queue != [] { assert s.queue[0] in s.queue; }
  }

  lemma SettleKeepsRetry(c: Config, s: State, i: nat)
    requires i < |s.w.running| && RetryInv(c, s)
    ensures RetryInv(c, Settle(s, i)) && Tried(c, s.w.running[i].item)
  {
    assert s.w.running[i] in s.w.running;
  }

  lemma FailureKeepsRetry(c: Config, s: State, item: Item, b: bool)
    requires RetryInv(c, s) && Tried(c, item)
    ensures RetryInv(c, HandleFailure(c, s, item, b))
  {
    if item.attempt + 1 >= c.maxAttempts {
      assert RetryInv(c, Dropped(s, item));
    } else {
      assert RetryInv(c, Delayed(c, s, item));
    }
  }

  lemma TimerKeepsRetry(c: Config, s: State, i: nat)
    requires i < |s.timers| && RetryInv(c, s)
    ensures RetryInv(c, StepTimer(s, i))
  {
    assert s.timers[i] in s.timers;
    if !s.stopped {
      FlushKeepsRetry(c, Requeued(Fired(s, i), s.timers[i].item));
    }
  }

  lemma {:induction false} RunKeepsRetry(c: Config, s: State, es: seq<Event>)
    requires ValidRun(c, s, es) && RetryInv(c, s)
    ensures RetryInv(c, Exec(c, s, es))
    decreases |es|
  {
    if es != [] {
      StepKeepsRetry(c, s, es[0]);
      RunKeepsRetry(c, Step(c, s, es[0]), es[1..]);
    }
  }

  /** Over every run: no handler runs more often than the allowance, an item is dropped after
      exactly that many failures, an item still in the queue has runs left, and until the queue
      is stopped nothing is thrown away. */
  lemma BoundedRetries(c: Config, es: seq<Event>)
    requires ValidRun(c, INIT, es)
    ensures var s := Exec(c, INIT, es);
      && (forall x :: x in s.w.done ==> 1 <= x.runs <= Allowance(c, x.init))
      && (forall x :: x in s.w.drops ==> x.runs == Allowance(c, x.init))
      && (forall x :: x in s.queue ==> x.runs < Allowance(c, x.init))
      && (forall j :: j in s.w.running ==> 1 <= j.item.runs <= Allowance(c, j.item.init))
      && (forall t :: t in s.timers ==> 0 < t.item.runs < Allowance(c, t.item.init)
                                        && t.delayMs == Delay(c, t.item.attempt - 1))
      && (!s.stopped ==> s.w.discarded == [])
  {
    RunKeepsRetry(c, INIT, es);
  }

  /** No push is forgotten: when all is quiet and a worker is parked, nobody is blocked and every
      item ever pushed was either processed or dropped after its last permitted failure, once. */
  lemma QuietMeansSettled(c: Config, es: seq<Event>)
    requires ValidRun(c, INIT, es) && Quiet(Exec(c, INIT, es)) && Exec(c, INIT, es).waiting != []
    ensures var s := Exec(c, INIT, es);
      && s.blocked == []
      && s.m.enqueued == s.m.processed + s.m.dropped
      && (forall n: nat :: n < s.m.enqueued ==> Occ(s.w.done, n) + Occ(s.w.drops, n) == 1)
      && (forall x :: x in s.w.drops ==> x.runs == Allowance(c, x.init))
  {
    var s := Exec(c, INIT, es);
    RunKeepsWakeup(c, INIT, es);
    RunExactlyOnce(c, INIT, es);
    BoundedRetries(c, es);
    assert Items([]) == [] && TimerItems([]) == [];
    forall n: nat | n < s.m.enqueued ensures Occ(s.w.done, n) + Occ(s.w.drops, n) == 1 {
      assert Copies(s, n) == 1;
    }
  }

  lemma {:induction false} Pow2Grows(a: int, b: int)
    requires a <= b
    ensures Pow2(a) <= Pow2(b)
    decreases b - a
  {
    if a < b { Pow2Grows(a + 1, b); }
  }

  lemma ScaleIsMonotone(d: real, p: real, q: real)
    requires d >= 0.0 && p <= q
    ensures Scale(d, p) <= Scale(d, q)
  {
  }

  /** A later retry waits at least as long as an earlier one and never longer than the cap. */
  lemma BackoffIsMonotoneAndCapped(c: Config, a: int, b: int)
    requires a <= b && c.baseDelayMs >= 0.0
    ensures Delay(c, a) <= Delay(c, b) <= c.maxDelayMs
  {
    Pow2Grows(a, b);
    ScaleIsMonotone(c.baseDelayMs, Pow2(a), Pow2(b));
  }

  /** The first retry waits the base delay and each further one twice its predecessor, until the
      cap is met. */
  lemma BackoffDoubles(c: Config, a: int)
    requires c.maxDelayMs >= 0.0 && c.baseDelayMs >= 0.0
    ensures Delay(c, 0) == if c.baseDelayMs <= c.maxDelayMs then c.baseDelayMs else c.maxDelayMs
    ensures Delay(c, a + 1) == if 2.0 * Delay(c, a) <= c.maxDelayMs then 2.0 * Delay(c, a) else c.maxDelayMs
  {
  }

  function TwoToThe(n: nat): (r: nat)
    ensures r >= 1
  {
    if n == 0 then 1 else TwoToThe(n - 1) + TwoToThe(n - 1)
  }

  /** The delay is the smaller of base delay times two to the attempt and the cap. */
  lemma {:induction false} BackoffIs(c: Config, n: nat)
    ensures Pow2(n) == TwoToThe(n) as real
    ensures Delay(c, n) == if c.baseDelayMs * TwoToThe(n) as real <= c.maxDelayMs
                           then c.baseDelayMs * TwoToThe(n) as real else c.maxDelayMs
  {
    if n > 0 { BackoffIs(c, n - 1); }
  }

  // ---------------------------------------------------------------- bounded work

  function Rem(c: Config, x: Item): nat
    ensures Rem(c, x) >= 1
  {
    if c.maxAttempts - x.attempt > 1 then c.maxAttempts - x.attempt else 1
  }

  /** Four moves per remaining attempt, shifted by the phase the item is in. */
  function Load(c: Config, s: seq<Item>, phase: int): int {
    if s == [] then 0 else 4 * Rem(c, s[0]) + phase + Load(c, s[1..], phase)
  }

  /** The work that is left if nothing more is pushed. */
  function Work(c: Config, s: State): int {
    Load(c, s.queue, 0) + Load(c, Items(s.w.handed), -1) + Load(c, Items(s.w.running), -2)
    + Load(c, TimerItems(s.timers), 1) + |s.w.failing|
  }

  lemma {:induction false} LoadConcat(c: Config, a: seq<Item>, b: seq<Item>, phase: int)
    ensures Load(c, a + b, phase) == Load(c, a, phase) + Load(c, b, phase)
  {
    if a == [] {
      assert a + b == b;
    } else {
      assert (a + b)[1..] == a[1..] + b;
      LoadConcat(c, a[1..], b, phase);
    }
  }

  lemma {:induction false} LoadNonNegative(c: Config, s: seq<Item>, phase: int)
    requires phase >= -4
    ensures Load(c, s, phase) >= 0
  {
    if s != [] { LoadNonNegative(c, s[1..], phase); }
  }

  lemma LoadRemove(c: Config, s: seq<Item>, i: nat, phase: int)
    requires i < |s|
    ensures Load(c, s, phase) == Load(c, RemoveAt(s, i), phase) + 4 * Rem(c, s[i]) + phase
  {
    assert s == s[..i] + [s[i]] + s[i + 1..];
    LoadConcat(c, s[..i] + [s[i]], s[i + 1..], phase);
    LoadConcat(c, s[..i], [s[i]], phase);
    LoadConcat(c, s[..i], s[i + 1..], phase);
  }

  lemma LoadJob(c: Config, js: seq<Job>, j: Job, phase: int)
    ensures Load(c, Items(js + [j]), phase) == Load(c, Items(js), phase) + 4 * Rem(c, j.item) + phase
  {
    assert Items(js + [j]) == Items(js) + [j.item];
    LoadConcat(c, Items(js), [j.item], phase);
  }

  lemma LoadJobRemove(c: Config, js: seq<Job>, i: nat, phase: int)
    requires i < |js|
    ensures Load(c, Items(js), phase) == Load(c, Items(RemoveAt(js, i)), phase) + 4 * Rem(c, js[i].item) + phase
  {
    assert Items(RemoveAt(js, i)) == RemoveAt(Items(js), i);
    LoadRemove(c, Items(js), i, phase);
  }

  lemma HandWork(c: Config, s: State, g: nat)
    requires s.queue != []
    ensures Work(c, Hand(s, g)) == Work(c, s) - 1
  {
    LoadJob(c, s.w.handed, Job(g, s.queue[0]), -1);
  }

  lemma {:induction false} FlushWork(c: Config, s: State)
    ensures Work(c, Flush(s)) <= Work(c, s)
    decreases |s.queue|
  {
    if s.queue != [] && s.waiting != [] {
      var t := s.(waiting := s.waiting[1..]);
      if s.waiting[0].aborted {
        FlushWork(c, t.(queue := t.queue[1..], w := t.w.(lost := t.w.lost + [t.queue[0]])));
      } else {
        HandWork(c, t, s.waiting[0].group);
        FlushWork(c, Hand(t, s.waiting[0].group));
      }
    }
  }

  /** A step that moves an item on: a worker takes or starts one, a handler settles, an onFailed
      call returns, a retry comes back. */
  predicate Moves(s: State, e: Event) {
    e.Begin? || e.Succeed? || e.Fail? || e.OnFailedDone? || e.TimerFires?
    || (e.LoopTop? && e.group !in s.w.aborted && s.queue != [])
  }

  /** The work a step brings in: four moves per permitted run of a newly pushed item. */
  function Budget(c: Config, s: State, e: Event): nat
    requires Enabled(s, e)
  {
    if !Pushes(c, s, e) then 0
    else 4 * Allowance(c, if e.Enqueue? then e.p.attempt else s.w.woken[e.i].attempt)
  }

  lemma PushWork(c: Config, s: State, attempt: int)
    ensures Work(c, Push(s, attempt)) <= Work(c, s) + 4 * Allowance(c, attempt)
  {
    var item := Item(s.m.enqueued, attempt, attempt, 0);
    LoadConcat(c, s.queue, [item], 0);
    assert Work(c, Appended(s, attempt)) == Work(c, s) + 4 * Rem(c, item);
    FlushWork(c, Appended(s, attempt));
  }

  lemma SettleWork(c: Config, s: State, i: nat)
    requires i < |s.w.running|
    ensures Work(c, Settle(s, i)) == Work(c, s) - 4 * Rem(c, s.w.running[i].item) + 2
  {
    LoadJobRemove(c, s.w.running, i, -2);
  }

  lemma SucceedWork(c: Config, s: State, i: nat)
    requires i < |s.w.running|
    ensures Work(c, StepSucceed(c, s, i)) <= Work(c, s) - 1
  {
    var t, item := Settle(s, i), s.w.running[i].item;
    SettleWork(c, s, i);
    SpaceWork(c, Finished(t, item));
    assert Work(c, Finished(t, item)) == Work(c, t);
  }

  lemma SpaceWork(c: Config, s: State)
    ensures Work(c, ResolveSpace(c, s)) == Work(c, s)
  {
  }

  lemma BeginWork(c: Config, s: State, i: nat)
    requires i < |s.w.handed|
    ensures Work(c, StepBegin(s, i)) == Work(c, s) - 1
  {
    var job := s.w.handed[i];
    LoadJobRemove(c, s.w.handed, i, -1);
    LoadJob(c, s.w.running, job.(item := job.item.(runs := job.item.runs + 1)), -2);
  }

  lemma FailWork(c: Config, s: State, i: nat, b: bool)
    requires i < |s.w.running|
    ensures Work(c, Step(c, s, Fail(i, b))) <= Work(c, s) - 1
  {
    SettleWork(c, s, i);
    var t, item := Settle(s, i), s.w.running[i].item;
    if item.attempt + 1 < c.maxAttempts {
      var timer := Timer(item.(attempt := item.attempt + 1), Delay(c, item.attempt));
      assert TimerItems(t.timers + [timer]) == TimerItems(t.timers) + [timer.item];
      LoadConcat(c, TimerItems(t.timers), [timer.item], 1);
    } else {
      DropWork(c, t, item, b);
    }
  }

  lemma DropWork(c: Config, t: State, item: Item, b: bool)
    requires item.attempt + 1 >= c.maxAttempts
    ensures Work(c, HandleFailure(c, t, item, b)) <= Work(c, t) + 1
  {
  }

  lemma InnerWork(c: Config, s: State, e: Event)
    requires Enabled(s, e) && !Outer(e) && !e.Enqueue? && !e.ResumeProducer?
    ensures Work(c, Step(c, s, e)) + (if Moves(s, e) then 1 else 0) <= Work(c, s)
  {
    match e
    case LoopTop(g) => if s.queue != [] { HandWork(c, Tested(s, g), g); }
    case Begin(i) => BeginWork(c, s, i);
    case Succeed(i) => SucceedWork(c, s, i);
    case Fail(i, b) => FailWork(c, s, i, b);
    case TimerFires(i) => TimerWork(c, s, i);
    case OnFailedDone(i) =>
  }

  lemma TimerWork(c: Config, s: State, i: nat)
    requires i < |s.timers|
    ensures Work(c, StepTimer(s, i)) <= Work(c, s) - 1
  {
    var t := Fired(s, i);
    assert TimerItems(t.timers) == RemoveAt(TimerItems(s.timers), i);
    LoadRemove(c, TimerItems(s.timers), i, 1);
    FlushWork(c, Requeued(t, s.timers[i].item));
  }

  lemma StepWork(c: Config, s: State, e: Event)
    requires Enabled(s, e)
    ensures Work(c, Step(c, s, e)) + (if Moves(s, e) then 1 else 0) <= Work(c, s) + Budget(c, s, e)
  {
    if e.Enqueue? {
      if Pushes(c, s, e) { PushWork(c, s, e.p.attempt); }
    } else if e.ResumeProducer? {
      PushWork(c, Unwoken(s, e.i), s.w.woken[e.i].attempt);
    } else if Outer(e) {
      if e.StopQueue? {
        LoadNonNegative(c, s.queue, 0);
        LoadNonNegative(c, TimerItems(s.timers), 1);
        assert TimerItems([]) == [];
      }
    } else {
      InnerWork(c, s, e);
    }
  }

  function MoveCount(c: Config, s: State, es: seq<Event>): nat
    requires ValidRun(c, s, es)
    decreases |es|
  {
    if es == [] then 0
    else (if Moves(s, es[0]) then 1 else 0) + MoveCount(c, Step(c, s, es[0]), es[1..])
  }

  function BudgetOf(c: Config, s: State, es: seq<Event>): nat
    requires ValidRun(c, s, es)
    decreases |es|
  {
    if es == [] then 0 else Budget(c, s, es[0]) + BudgetOf(c, Step(c, s, es[0]), es[1..])
  }

  lemma {:induction false} RunWork(c: Config, s: State, es: seq<Event>)
    requires ValidRun(c, s, es)
    ensures MoveCount(c, s, es) + Work(c, Exec(c, s, es)) <= Work(c, s) + BudgetOf(c, s, es)
    decreases |es|
  {
    if es != [] {
      StepWork(c, s, es[0]);
      RunWork(c, Step(c, s, es[0]), es[1..]);
    }
  }

  /** Termination of retrying: from any state on, the items move at most as often as the work at
      hand plus four times the allowance of each item pushed meanwhile; without pushes the number
      of moves is bounded once and for all, whatever fails. */
  lemma BoundedWork(c: Config, s: State, es: seq<Event>)
    requires ValidRun(c, s, es)
    ensures MoveCount(c, s, es) <= Work(c, s) + BudgetOf(c, s, es)
  {
    RunWork(c, s, es);
    var t := Exec(c, s, es);
    LoadNonNegative(c, t.queue, 0);
    LoadNonNegative(c, Items(t.w.handed), -1);
    LoadNonNegative(c, Items(t.w.running), -2);
    LoadNonNegative(c, TimerItems(t.timers), 1);
  }

  // ---------------------------------------------------------------- order

  /** The serials of the first-attempt items of a queue, in queue order. */
  function Firsts(q: seq<Item>): seq<nat> {
    if q == [] then [] else (if q[0].runs == 0 then [q[0].serial] else []) + Firsts(q[1..])
  }

  predicate RetriesFirst(q: seq<Item>) {
    forall i, j :: 0 <= i < j < |q| && q[j].runs > 0 ==> q[i].runs > 0
  }

  predicate Increasing(xs: seq<nat>, bound: nat) {
    && (forall i, j :: 0 <= i < j < |xs| ==> xs[i] < xs[j])
    && (forall i :: 0 <= i < |xs| ==> xs[i] < bound)
  }

  predicate OrderInv(s: State) {
    && RetriesFirst(s.queue)
    && Increasing(s.w.firsts + Firsts(s.queue), s.m.enqueued)
    && (!s.stopped ==> |s.w.firsts + Firsts(s.queue)| == s.m.enqueued)
    && (forall t :: t in s.timers ==> t.item.runs > 0)
    && (forall j :: j in s.w.running ==> j.item.runs > 0)
  }

  lemma {:induction false} FirstsAppend(q: seq<Item>, x: Item)
    requires x.runs == 0
    ensures Firsts(q + [x]) == Firsts(q) + [x.serial]
  {
    if q == [] {
      assert q + [x] == [x] && Firsts([x]) == [x.serial] + Firsts([]);
    } else {
      assert (q + [x])[1..] == q[1..] + [x];
      FirstsAppend(q[1..], x);
      var h := if q[0].runs == 0 then [q[0].serial] else [];
      assert Firsts(q + [x]) == h + Firsts(q[1..] + [x]);
      assert h + (Firsts(q[1..]) + [x.serial]) == Firsts(q) + [x.serial];
    }
  }

  lemma HandKeepsOrder(s: State, g: nat)
    requires s.queue != [] && OrderInv(s)
    ensures OrderInv(Hand(s, g))
  {
    var t, head := Hand(s, g), if s.queue[0].runs == 0 then [s.queue[0].serial] else [];
    assert Firsts(s.queue) == head + Firsts(t.queue);
    assert t.w.firsts == s.w.firsts + head;
    Regroup(s.w.firsts, head, Firsts(t.queue));
  }

  /** What concerns neither the queue nor the first attempts handed out leaves the order alone. */
  lemma SameOrder(s: State, t: State)
    requires OrderInv(s) && t.queue == s.queue && t.stopped == s.stopped
    requires t.w.firsts == s.w.firsts && t.m.enqueued == s.m.enqueued
    requires forall x :: x in t.timers ==> x.item.runs > 0
    requires forall j :: j in t.w.running ==> j.item.runs > 0
    ensures OrderInv(t)
  {
  }

  lemma {:induction false} FlushKeepsOrder(s: State)
    requires OrderInv(s) && forall i :: 0 <= i < |s.waiting| ==> !s.waiting[i].aborted
    ensures OrderInv(Flush(s))
    decreases |s.queue|
  {
    if s.queue != [] && s.waiting != [] {
      var t := s.(waiting := s.waiting[1..]);
      HandKeepsOrder(t, s.waiting[0].group);
      FlushKeepsOrder(Hand(t, s.waiting[0].group));
    }
  }

  lemma PushKeepsOrder(s: State, attempt: int)
    requires OrderInv(s) && forall i :: 0 <= i < |s.waiting| ==> !s.waiting[i].aborted
    ensures OrderInv(Push(s, attempt))
  {
    var item := Item(s.m.enqueued, attempt, attempt, 0);
    var t := Appended(s, attempt);
    FirstsAppend(s.queue, item);
    assert t.w.firsts + Firsts(t.queue) == (s.w.firsts + Firsts(s.queue)) + [s.m.enqueued];
    FlushKeepsOrder(t);
  }

  lemma TimerKeepsOrder(s: State, i: nat)
    requires i < |s.timers| && OrderInv(s) && forall k :: 0 <= k < |s.waiting| ==> !s.waiting[k].aborted
    ensures OrderInv(StepTimer(s, i))
  {
    assert s.timers[i] in s.timers;
    var t := Requeued(Fired(s, i), s.timers[i].item);
    assert t.queue[1..] == s.queue;
    assert Firsts(t.queue) == Firsts(s.queue);
    if !s.stopped { FlushKeepsOrder(t); }
  }

  lemma StepKeepsOrder(c: Config, s: State, e: Event)
    requires Enabled(s, e) && OrderInv(s) && WakeupInv(c, s)
    ensures OrderInv(Step(c, s, e))
  {
    match e
    case Enqueue(p) => PushKeepsOrder(s, p.attempt);
    case ResumeProducer(i) =>
      PushKeepsOrder(Unwoken(s, i), s.w.woken[i].attempt);
    case LoopTop(g) => LoopKeepsOrder(c, s, g);
    case Begin(i) => SameOrder(s, StepBegin(s, i));
    case Succeed(i) => SucceedKeepsOrder(c, s, i);
    case Fail(i, b) =>
      SettleKeepsOrder(c, s, i);
      FailureKeepsOrder(c, Settle(s, i), s.w.running[i].item, b);
    case TimerFires(i) => TimerKeepsOrder(s, i);
    case StopQueue => StopKeepsOrder(s);
    case _ => SameOrder(s, Step(c, s, e));
  }

  lemma LoopKeepsOrder(c: Config, s: State, g: nat)
    requires g in s.w.looping && OrderInv(s)
    ensures OrderInv(Step(c, s, LoopTop(g)))
  {
    SameOrder(s, Tested(s, g));
    if s.queue != [] {
      HandKeepsOrder(Tested(s, g), g);
    } else {
      SameOrder(s, StepLoop(s, g));
    }
  }

  lemma StopKeepsOrder(s: State)
    requires OrderInv(s)
    ensures OrderInv(Stop(s))
  {
    if !s.stopped {
      var t := Stop(s);
      assert t.w.firsts + Firsts(t.queue) == s.w.firsts;
      assert forall i :: 0 <= i < |s.w.firsts| ==> s.w.firsts[i] == (s.w.firsts + Firsts(s.queue))[i];
    }
  }

  lemma FailureKeepsOrder(c: Config, s: State, item: Item, b: bool)
    requires OrderInv(s) && item.runs > 0
    ensures OrderInv(HandleFailure(c, s, item, b))
  {
  }

  lemma SettleKeepsOrder(c: Config, s: State, i: nat)
    requires i < |s.w.running| && OrderInv(s)
    ensures OrderInv(Settle(s, i)) && s.w.running[i].item.runs > 0
  {
    assert s.w.running[i] in s.w.running;
  }

  lemma SucceedKeepsOrder(c: Config, s: State, i: nat)
    requires i < |s.w.running| && OrderInv(s)
    ensures OrderInv(StepSucceed(c, s, i))
  {
    SettleKeepsOrder(c, s, i);
  }

  lemma {:induction false} RunKeepsOrder(c: Config, s: State, es: seq<Event>)
    requires ValidRun(c, s, es) && OrderInv(s) && WakeupInv(c, s)
    ensures OrderInv(Exec(c, s, es))
    decreases |es|
  {
    if es != [] {
      StepKeepsOrder(c, s, es[0]);
      StepKeepsWakeup(c, s, es[0]);
      RunKeepsOrder(c, Step(c, s, es[0]), es[1..]);
    }
  }

  lemma {:induction false} IncreasingIsIota(xs: seq<nat>, n: nat)
    requires Increasing(xs, n) && |xs| == n
    ensures forall i :: 0 <= i < n ==> xs[i] == i
  {
    if n > 0 {
      var ys := xs[..n - 1];
      assert forall i :: 0 <= i < n - 1 ==> xs[i] < xs[n - 1];
      IncreasingIsIota(ys, n - 1);
      if n > 1 { assert xs[n - 2] < xs[n - 1] && ys[n - 2] == n - 2; }
    }
  }

  lemma PrefixIsIota(xs: seq<nat>, ys: seq<nat>, n: nat)
    requires Increasing(xs + ys, n) && |xs + ys| == n
    ensures forall i :: 0 <= i < |xs| ==> xs[i] == i
  {
    IncreasingIsIota(xs + ys, n);
    assert forall i :: 0 <= i < |xs| ==> xs[i] == (xs + ys)[i];
  }

  /** Order over every run: the queue is a block of retries followed by first attempts in push
      order, and the first attempts handed to workers are in push order, none skipped until the
      queue is stopped. */
  lemma FirstAttemptsInPushOrder(c: Config, es: seq<Event>)
    requires ValidRun(c, INIT, es)
    ensures var s := Exec(c, INIT, es);
      && RetriesFirst(s.queue)
      && Increasing(s.w.firsts + Firsts(s.queue), s.m.enqueued)
      && (!s.stopped ==> forall i :: 0 <= i < |s.w.firsts| ==> s.w.firsts[i] == i)
  {
    RunKeepsOrder(c, INIT, es);
    var s := Exec(c, INIT, es);
    if !s.stopped { PrefixIsIota(s.w.firsts, Firsts(s.queue), s.m.enqueued); }
  }
}
