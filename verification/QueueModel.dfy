/**
 The bounded notification queue as a state machine.

 A step is one stretch of the program between two awaits, so every interleaving of
 producers, workers, retry timers, aborts and stops is a sequence of steps.
 */
module QueueModel {

  /** A pushed item. `serial` numbers the pushes, `init` is the attempt number it was pushed
      with, `attempt` the current one and `runs` how often its handler has been started. */
  datatype Item = Item(serial: nat, init: int, attempt: int, runs: nat)

  /** A call of enqueue that may have to wait; `cancelled` says its signal is already aborted. */
  datatype Producer = Producer(id: nat, attempt: int, cancelled: bool)

  /** A consumer parked in _dequeue, with the signal group of its worker. */
  datatype Waiter = Waiter(group: nat, aborted: bool)

  /** An item in the hands of a worker of a group. */
  datatype Job = Job(group: nat, item: Item)

  /** A pending retry. */
  datatype Timer = Timer(item: Item, delayMs: real)

  datatype Config = Config(maxSize: int, maxAttempts: int, baseDelayMs: real, maxDelayMs: real)

  datatype Metrics = Metrics(enqueued: nat, processed: nat, retried: nat, dropped: nat, inFlight: int)

  /** What lives outside the queue object: workers between two awaits, producers that were woken,
      running onFailed calls, aborted signals; and the history the claims speak about. */
  datatype World = World(
    looping: multiset<nat>, handed: seq<Job>, running: seq<Job>, woken: seq<Producer>,
    failing: seq<Item>, aborted: set<nat>,
    started: nat, done: seq<Item>, drops: seq<Item>, discarded: seq<Item>, lost: seq<Item>,
    firsts: seq<nat>)

  datatype State = State(
    queue: seq<Item>, waiting: seq<Waiter>, blocked: seq<Producer>, timers: seq<Timer>,
    stopped: bool, m: Metrics, w: World)

  const NO_METRICS := Metrics(0, 0, 0, 0, 0)
  const EMPTY_WORLD := World(multiset{}, [], [], [], [], {}, 0, [], [], [], [], [])
  const INIT := State([], [], [], [], false, NO_METRICS, EMPTY_WORLD)

  datatype Event =
    | Enqueue(p: Producer)
    | ResumeProducer(i: nat)
    | AbortProducer(i: nat)
    | StartWorkers(group: nat, n: int)
    | LoopTop(group: nat)
    | Begin(i: nat)
    | Succeed(i: nat)
    | Fail(i: nat, hasOnFailed: bool)
    | OnFailedDone(i: nat)
    | TimerFires(i: nat)
    | AbortSignal(group: nat)
    | StopGroup(group: nat)
    | StopQueue

  function RemoveAt<T>(s: seq<T>, i: nat): seq<T>
    requires i < |s|
  {
    s[..i] + s[i + 1..]
  }

  // ---------------------------------------------------------------- the operations

  /** Shift the head of the queue and give it to a worker of the group. */
  function Hand(s: State, group: nat): State
    requires s.queue != []
  {
    var item := s.queue[0];
    s.(queue := s.queue[1..],
       w := s.w.(handed := s.w.handed + [Job(group, item)],
                 firsts := if item.runs == 0 then s.w.firsts + [item.serial] else s.w.firsts))
  }

  /** _flushWaiting: give queued items to parked consumers; an item shifted for an aborted one is lost. */
  function Flush(s: State): State
    decreases |s.queue|
  {
    if s.queue == [] || s.waiting == [] then s
    else
      var waiter := s.waiting[0];
      var t := s.(waiting := s.waiting[1..]);
      Flush(if waiter.aborted
            then t.(queue := t.queue[1..], w := t.w.(lost := t.w.lost + [t.queue[0]]))
            else Hand(t, waiter.group))
  }

  predicate Full(c: Config, s: State) {
    c.maxSize > 0 && |s.queue| >= c.maxSize
  }

  /** A new item at the end of the queue, counted. */
  function Appended(s: State, attempt: int): State {
    s.(queue := s.queue + [Item(s.m.enqueued, attempt, attempt, 0)], m := s.m.(enqueued := s.m.enqueued + 1))
  }

  function Push(s: State, attempt: int): State {
    Flush(Appended(s, attempt))
  }

  /** _resolveSpace: wake one blocked producer if there is room. */
  function ResolveSpace(c: Config, s: State): State {
    if s.blocked == [] || Full(c, s) then s
    else s.(blocked := s.blocked[1..], w := s.w.(woken := s.w.woken + [s.blocked[0]]))
  }

  /** _rejectWaiters: every parked consumer gets null and leaves, every blocked producer fails. */
  function RejectWaiters(s: State): State {
    s.(waiting := [], blocked := [])
  }

  function NotOfGroup(ws: seq<Waiter>, group: nat): seq<Waiter> {
    if ws == [] then []
    else (if ws[0].group == group then [] else [ws[0]]) + NotOfGroup(ws[1..], group)
  }

  function Abort(s: State, group: nat): State {
    s.(waiting := NotOfGroup(s.waiting, group), w := s.w.(aborted := s.w.aborted + {group}))
  }

  function Pow2(k: int): (r: real)
    ensures r > 0.0
    decreases if k < 0 then -k else k
  {
    if k == 0 then 1.0 else if k > 0 then 2.0 * Pow2(k - 1) else Pow2(k + 1) / 2.0
  }

  function Scale(d: real, p: real): real {
    d * p
  }

  function Cap(d: real, max: real): real {
    if d <= max then d else max
  }

  function Delay(c: Config, attempt: int): real {
    Cap(Scale(c.baseDelayMs, Pow2(attempt)), c.maxDelayMs)
  }

  function Dropped(s: State, item: Item): State {
    s.(m := s.m.(dropped := s.m.dropped + 1), w := s.w.(drops := s.w.drops + [item]))
  }

  /** A retry timer with the next attempt of the item. */
  function Delayed(c: Config, s: State, item: Item): State {
    s.(m := s.m.(retried := s.m.retried + 1),
       timers := s.timers + [Timer(item.(attempt := item.attempt + 1), Delay(c, item.attempt))])
  }

  function Failing(s: State, item: Item): State {
    s.(w := s.w.(failing := s.w.failing + [item]))
  }

  /** _handleFailure up to its first await; the item has already left the running jobs. */
  function HandleFailure(c: Config, s: State, item: Item, hasOnFailed: bool): State {
    if item.attempt + 1 >= c.maxAttempts then
      if hasOnFailed then Failing(Dropped(s, item), item) else ResolveSpace(c, Dropped(s, item))
    else Delayed(c, s, item)
  }

  function TimerItems(ts: seq<Timer>): seq<Item> {
    seq(|ts|, i requires 0 <= i < |ts| => ts[i].item)
  }

  /** stop: reject everybody, clear the timers and the queue. */
  function Stop(s: State): State {
    if s.stopped then s
    else
      var t := RejectWaiters(s.(stopped := true));
      t.(timers := [], queue := [],
         w := t.w.(discarded := t.w.discarded + TimerItems(t.timers) + t.queue))
  }

  /** _dequeue up to its await. */
  function Dequeue(s: State, group: nat): State {
    if s.queue != [] then Hand(s, group)
    else if s.stopped then s
    else s.(waiting := s.waiting + [Waiter(group, false)])
  }

  predicate Enabled(s: State, e: Event) {
    match e
    case Enqueue(_) => true
    case ResumeProducer(i) => i < |s.w.woken|
    case AbortProducer(i) => i < |s.blocked|
    case StartWorkers(_, _) => !s.stopped
    case LoopTop(g) => g in s.w.looping
    case Begin(i) => i < |s.w.handed|
    case Succeed(i) => i < |s.w.running|
    case Fail(i, _) => i < |s.w.running|
    case OnFailedDone(i) => i < |s.w.failing|
    case TimerFires(i) => i < |s.timers|
    case AbortSignal(_) => true
    case StopGroup(_) => true
    case StopQueue => true
  }

  /** An enqueue that finds the queue stopped throws, one that finds it full waits. */
  function StepEnqueue(c: Config, s: State, p: Producer): State {
    if s.stopped then s
    else if !Full(c, s) then Push(s, p.attempt)
    else if p.cancelled then s
    else s.(blocked := s.blocked + [p])
  }

  function StepBegin(s: State, i: nat): State
    requires i < |s.w.handed|
  {
    var job := s.w.handed[i];
    s.(m := s.m.(inFlight := s.m.inFlight + 1),
       w := s.w.(handed := RemoveAt(s.w.handed, i), started := s.w.started + 1,
                 running := s.w.running + [job.(item := job.item.(runs := job.item.runs + 1))]))
  }

  /** A running job leaves its worker, which goes back to the loop test. */
  function Settle(s: State, i: nat): State
    requires i < |s.w.running|
  {
    s.(m := s.m.(inFlight := s.m.inFlight - 1),
       w := s.w.(running := RemoveAt(s.w.running, i),
                 looping := s.w.looping + multiset{s.w.running[i].group}))
  }

  function Finished(s: State, item: Item): State {
    s.(m := s.m.(processed := s.m.processed + 1), w := s.w.(done := s.w.done + [item]))
  }

  function StepSucceed(c: Config, s: State, i: nat): State
    requires i < |s.w.running|
  {
    ResolveSpace(c, Finished(Settle(s, i), s.w.running[i].item))
  }

  function StepFail(c: Config, s: State, i: nat, hasOnFailed: bool): State
    requires i < |s.w.running|
  {
    HandleFailure(c, Settle(s, i), s.w.running[i].item, hasOnFailed)
  }

  function Discarded(s: State, item: Item): State {
    s.(w := s.w.(discarded := s.w.discarded + [item]))
  }

  function Requeued(s: State, item: Item): State {
    s.(queue := [item] + s.queue)
  }

  function Fired(s: State, i: nat): State
    requires i < |s.timers|
  {
    s.(timers := RemoveAt(s.timers, i))
  }

  function StepTimer(s: State, i: nat): State
    requires i < |s.timers|
  {
    if s.stopped then Discarded(Fired(s, i), s.timers[i].item) else Flush(Requeued(Fired(s, i), s.timers[i].item))
  }

  function Unwoken(s: State, i: nat): State
    requires i < |s.w.woken|
  {
    s.(w := s.w.(woken := RemoveAt(s.w.woken, i)))
  }

  function Returned(s: State, i: nat): State
    requires i < |s.w.failing|
  {
    s.(w := s.w.(failing := RemoveAt(s.w.failing, i)))
  }

  /** One worker of the group leaves the loop test. */
  function Tested(s: State, g: nat): State {
    s.(w := s.w.(looping := s.w.looping - multiset{g}))
  }

  function StepLoop(s: State, g: nat): State {
    if g in s.w.aborted then Tested(s, g) else Dequeue(Tested(s, g), g)
  }

  function Step(c: Config, s: State, e: Event): State
    requires Enabled(s, e)
  {
    match e
    case Enqueue(p) => StepEnqueue(c, s, p)
    case ResumeProducer(i) => Push(Unwoken(s, i), s.w.woken[i].attempt)
    case AbortProducer(i) => s.(blocked := RemoveAt(s.blocked, i))
    case StartWorkers(g, n) =>
      s.(w := s.w.(looping := s.w.looping[g := s.w.looping[g] + if n > 1 then n else 1]))
    case LoopTop(g) => StepLoop(s, g)
    case Begin(i) => StepBegin(s, i)
    case Succeed(i) => StepSucceed(c, s, i)
    case Fail(i, hasOnFailed) => StepFail(c, s, i, hasOnFailed)
    case OnFailedDone(i) => ResolveSpace(c, Returned(s, i))
    case TimerFires(i) => StepTimer(s, i)
    case AbortSignal(g) => Abort(s, g)
    case StopGroup(g) => RejectWaiters(Abort(s, g))
    case StopQueue => Stop(s)
  }

  // ---------------------------------------------------------------- runs

  predicate ValidRun(c: Config, s: State, es: seq<Event>)
    decreases |es|
  {
    es == [] || (Enabled(s, es[0]) && ValidRun(c, Step(c, s, es[0]), es[1..]))
  }

  function Exec(c: Config, s: State, es: seq<Event>): State
    requires ValidRun(c, s, es)
    decreases |es|
  {
    if es == [] then s else Exec(c, Step(c, s, es[0]), es[1..])
  }
}
