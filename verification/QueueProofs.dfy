/**
 What every interleaving of the notification queue keeps: no lost wakeup, conservation of
 items, bounded retries, bounded work and hand-out order.
 */
module QueueProofs {
  import opened Common
  import opened QueueModel

  // ---------------------------------------------------------------- no lost wakeup

  /** Something is going on that will make room, hand an item over, or push one. */
  predicate Pending(s: State) {
    || s.queue != [] || s.w.handed != [] || s.w.running != [] || s.w.failing != []
    || s.timers != [] || s.w.woken != []
  }

  ghost predicate WakeupCore(c: Config, s: State) {
    && (s.queue == [] || s.waiting == [])
    && (s.blocked != [] ==> c.maxSize > 0)
    && (s.stopped ==> s.waiting == [] && s.blocked == [])
    && (forall i :: 0 <= i < |s.waiting| ==> !s.waiting[i].aborted && s.waiting[i].group !in s.w.aborted)
    && s.w.lost == []
  }

  ghost predicate WakeupInv(c: Config, s: State) {
    WakeupCore(c, s) && (s.blocked != [] ==> Pending(s))
  }

  lemma {:induction false} FlushFacts(s: State)
    requires forall i :: 0 <= i < |s.waiting| ==> !s.waiting[i].aborted
    ensures var t := Flush(s);
      && (t.queue == [] || t.waiting == [])
      && (exists k :: 0 <= k <= |s.waiting| && t.waiting == s.waiting[k..])
      && t.blocked == s.blocked && t.timers == s.timers && t.stopped == s.stopped && t.m == s.m
      && t.w == s.w.(handed := t.w.handed, firsts := t.w.firsts)
      && (s.queue != [] ==> t.queue != [] || t.w.handed != [])
      && (s.w.handed != [] ==> t.w.handed != [])
    decreases |s.queue|
  {
    if s.queue == [] || s.waiting == [] {
      assert s.waiting == s.waiting[0..];
    } else {
      var u := Hand(s.(waiting := s.waiting[1..]), s.waiting[0].group);
      FlushFacts(u);
      var k :| 0 <= k <= |u.waiting| && Flush(u).waiting == u.waiting[k..];
      assert u.waiting[k..] == s.waiting[k + 1..];
    }
  }

  lemma {:induction false} NotOfGroupFacts(ws: seq<Waiter>, g: nat)
    ensures forall w :: w in NotOfGroup(ws, g) <==> w in ws && w.group != g
  {
    if ws != [] {
      NotOfGroupFacts(ws[1..], g);
      assert forall w :: w in ws <==> w == ws[0] || w in ws[1..];
    }
  }

  /** Flushing a queue behind which consumers are parked restores the invariant. */
  lemma FlushKeepsWakeup(c: Config, s: State)
    requires s.queue != [] && (s.blocked != [] ==> c.maxSize > 0)
    requires s.stopped ==> s.waiting == [] && s.blocked == []
    requires forall i :: 0 <= i < |s.waiting| ==> !s.waiting[i].aborted && s.waiting[i].group !in s.w.aborted
    requires s.w.lost == []
    ensures WakeupInv(c, Flush(s))
  {
    FlushFacts(s);
    var t := Flush(s);
    forall i | 0 <= i < |t.waiting| ensures !t.waiting[i].aborted && t.waiting[i].group !in t.w.aborted {
      var k :| 0 <= k <= |s.waiting| && t.waiting == s.waiting[k..];
      assert t.waiting[i] == s.waiting[k + i];
    }
  }

  lemma PushKeepsWakeup(c: Config, s: State, attempt: int)
    requires WakeupCore(c, s)
    ensures WakeupInv(c, Push(s, attempt))
  {
    FlushKeepsWakeup(c, Appended(s, attempt));
  }

  lemma FailureKeepsWakeup(c: Config, t: State, item: Item, b: bool)
    requires WakeupCore(c, t)
    ensures WakeupInv(c, HandleFailure(c, t, item, b))
  {
  }

  /** The events that move no item except by throwing it away. */
  predicate Outer(e: Event) {
    e.AbortProducer? || e.StartWorkers? || e.AbortSignal? || e.StopGroup? || e.StopQueue?
  }

  lemma OuterKeepsWakeup(c: Config, s: State, e: Event)
    requires Enabled(s, e) && WakeupInv(c, s) && Outer(e)
    ensures WakeupInv(c, Step(c, s, e))
  {
    if e.AbortSignal? || e.StopGroup? { AbortKeepsWakeup(c, s, e.group); }
  }

  lemma StepKeepsWakeup(c: Config, s: State, e: Event)
    requires Enabled(s, e) && WakeupInv(c, s)
    ensures WakeupInv(c, Step(c, s, e))
  {
    match e
    case Enqueue(p) => if !s.stopped && !Full(c, s) { PushKeepsWakeup(c, s, p.attempt); }
    case ResumeProducer(i) =>
      PushKeepsWakeup(c, Unwoken(s, i), s.w.woken[i].attempt);
    case TimerFires(i) => if !s.stopped { FlushKeepsWakeup(c, Requeued(Fired(s, i), s.timers[i].item)); }
    case _ => if Outer(e) { OuterKeepsWakeup(c, s, e); } else { WorkerKeepsWakeup(c, s, e); }
  }

  lemma WorkerKeepsWakeup(c: Config, s: State, e: Event)
    requires Enabled(s, e) && WakeupInv(c, s)
    requires e.LoopTop? || e.Begin? || e.Succeed? || e.Fail? || e.OnFailedDone?
    ensures WakeupInv(c, Step(c, s, e))
  {
    match e
    case LoopTop(g) =>
    case Begin(i) =>
    case Succeed(i) => assert WakeupCore(c, Finished(Settle(s, i), s.w.running[i].item));
    case Fail(i, b) => FailureKeepsWakeup(c, Settle(s, i), s.w.running[i].item, b);
    case OnFailedDone(i) => assert WakeupCore(c, Returned(s, i));
  }

  lemma AbortKeepsWakeup(c: Config, s: State, g: nat)
    requires WakeupInv(c, s)
    ensures WakeupInv(c, Abort(s, g))
  {
    var t := Abort(s, g);
    NotOfGroupFacts(s.waiting, g);
    forall i | 0 <= i < |t.waiting| ensures !t.waiting[i].aborted && t.waiting[i].group !in t.w.aborted {
      assert t.waiting[i] in s.waiting;
    }
    if s.waiting == [] { assert t.waiting == []; }
  }

  lemma {:induction false} RunKeepsWakeup(c: Config, s: State, es: seq<Event>)
    requires WakeupInv(c, s) && ValidRun(c, s, es)
    ensures WakeupInv(c, Exec(c, s, es))
    decreases |es|
  {
    if es != [] {
      StepKeepsWakeup(c, s, es[0]);
      RunKeepsWakeup(c, Step(c, s, es[0]), es[1..]);
    }
  }

  /** In every reachable state: queued items and parked consumers never coexist, a blocked
      producer has something pending, and no item was given to an aborted consumer. */
  lemma NoLostWakeup(c: Config, es: seq<Event>)
    requires ValidRun(c, INIT, es)
    ensures var s := Exec(c, INIT, es);
      && (s.queue == [] || s.waiting == [])
      && (s.blocked != [] ==> Pending(s))
      && s.w.lost == []
      && (forall i :: 0 <= i < |s.waiting| ==> s.waiting[i].group !in s.w.aborted)
  {
    RunKeepsWakeup(c, INIT, es);
  }

  /** Nothing is left to happen by itself: every live worker is parked. */
  predicate Quiet(s: State) {
    && s.w.looping == multiset{} && s.w.handed == [] && s.w.running == [] && s.w.failing == []
    && s.timers == [] && s.w.woken == []
  }

  /** Freedom from deadlock: when all is quiet and a worker is alive, everything pushed has been
      dealt with and nobody is blocked; producers stay blocked only if no worker is left. */
  lemma QuietMeansDrained(c: Config, es: seq<Event>)
    requires ValidRun(c, INIT, es) && Quiet(Exec(c, INIT, es))
    ensures var s := Exec(c, INIT, es);
      && (s.waiting != [] ==> s.queue == [] && s.blocked == [])
      && (s.blocked != [] ==> s.queue != [] && s.waiting == [])
  {
    RunKeepsWakeup(c, INIT, es);
  }

  // ---------------------------------------------------------------- started workers

  function Tops(group: nat, k: nat): seq<Event> {
    seq(k, _ => LoopTop(group))
  }

  function Heads(q: seq<Item>, group: nat, n: nat): seq<Job>
    requires n <= |q|
  {
    seq(n, i requires 0 <= i < n => Job(group, q[i]))
  }

  function Parked(group: nat, n: nat): seq<Waiter> {
    seq(n, _ => Waiter(group, false))
  }

  /** A state after k workers of the group have passed their loop test: n items handed out, the others
      parked. */
  predicate ServedBy(s: State, t: State, g: nat, k: nat, n: nat)
    requires n <= |s.queue| && n <= k <= s.w.looping[g]
  {
    t == s.(queue := s.queue[n..], waiting := s.waiting + Parked(g, k - n),
            w := s.w.(handed := s.w.handed + Heads(s.queue, g, n), firsts := t.w.firsts,
                      looping := s.w.looping[g := s.w.looping[g] - k]))
  }

  lemma OneTakes(s: State, u: State, t: State, g: nat, k: nat)
    requires s.queue != [] && u == Hand(Tested(s, g), g) && k < |s.queue| && k < s.w.looping[g]
    requires ServedBy(u, t, g, k, k)
    ensures ServedBy(s, t, g, k + 1, k + 1)
  {
    var heads := Heads(s.queue, g, k + 1);
    assert heads == [Job(g, s.queue[0])] + Heads(u.queue, g, k);
    assert u.queue[k..] == s.queue[k + 1..];
    assert s.w.handed + heads == (s.w.handed + [Job(g, s.queue[0])]) + Heads(u.queue, g, k);
    assert (s.w.looping - multiset{g})[g := s.w.looping[g] - 1 - k] == s.w.looping[g := s.w.looping[g] - (k + 1)];
  }

  lemma {:induction false} WorkersTake(c: Config, s: State, g: nat, k: nat)
    requires s.w.looping[g] >= k && g !in s.w.aborted && k <= |s.queue|
    ensures ValidRun(c, s, Tops(g, k)) && ServedBy(s, Exec(c, s, Tops(g, k)), g, k, k)
    decreases k
  {
    if k == 0 {
      assert s.queue[0..] == s.queue && s.waiting + Parked(g, 0) == s.waiting;
      assert s.w.handed + Heads(s.queue, g, 0) == s.w.handed;
    } else {
      var u := Step(c, s, LoopTop(g));
      assert Tops(g, k)[1..] == Tops(g, k - 1);
      WorkersTake(c, u, g, k - 1);
      OneTakes(s, u, Exec(c, u, Tops(g, k - 1)), g, k - 1);
    }
  }

  lemma OneParks(s: State, u: State, t: State, g: nat, k: nat)
    requires s.queue == [] && k < s.w.looping[g]
    requires u == Tested(s, g).(waiting := s.waiting + [Waiter(g, false)]) && ServedBy(u, t, g, k, 0)
    ensures ServedBy(s, t, g, k + 1, 0)
  {
    assert Parked(g, k + 1) == [Waiter(g, false)] + Parked(g, k);
    Regroup(s.waiting, [Waiter(g, false)], Parked(g, k));
    assert (s.w.looping - multiset{g})[g := s.w.looping[g] - 1 - k] == s.w.looping[g := s.w.looping[g] - (k + 1)];
  }

  lemma {:induction false} WorkersPark(c: Config, s: State, g: nat, k: nat)
    requires s.w.looping[g] >= k && g !in s.w.aborted && !s.stopped && s.queue == []
    ensures ValidRun(c, s, Tops(g, k)) && ServedBy(s, Exec(c, s, Tops(g, k)), g, k, 0)
    decreases k
  {
    if k == 0 {
      assert s.waiting + Parked(g, 0) == s.waiting && s.w.handed + Heads(s.queue, g, 0) == s.w.handed;
    } else {
      var u := Step(c, s, LoopTop(g));
      assert Tops(g, k)[1..] == Tops(g, k - 1);
      WorkersPark(c, u, g, k - 1);
      OneParks(s, u, Exec(c, u, Tops(g, k - 1)), g, k - 1);
    }
  }

  lemma {:induction false} RunConcat(c: Config, s: State, a: seq<Event>, b: seq<Event>)
    requires ValidRun(c, s, a) && ValidRun(c, Exec(c, s, a), b)
    ensures ValidRun(c, s, a + b) && Exec(c, s, a + b) == Exec(c, Exec(c, s, a), b)
    decreases |a|
  {
    if a == [] {
      assert a + b == b;
    } else {
      assert (a + b)[1..] == a[1..] + b;
      RunConcat(c, Step(c, s, a[0]), a[1..], b);
    }
  }

  /** More workers than items. */
  lemma WorkersServeAll(c: Config, s: State, g: nat, k: nat)
    requires s.w.looping[g] >= k && g !in s.w.aborted && !s.stopped && k > |s.queue|
    ensures ValidRun(c, s, Tops(g, k)) && ServedBy(s, Exec(c, s, Tops(g, k)), g, k, |s.queue|)
  {
    var n := |s.queue|;
    WorkersTake(c, s, g, n);
    var u := Exec(c, s, Tops(g, n));
    QueueTaken(s, u, g);
    WorkersPark(c, u, g, k - n);
    RunConcat(c, s, Tops(g, n), Tops(g, k - n));
    assert Tops(g, n) + Tops(g, k - n) == Tops(g, k);
    TakenThenParked(s, u, Exec(c, u, Tops(g, k - n)), g, n, k);
  }

  lemma QueueTaken(s: State, u: State, g: nat)
    requires |s.queue| <= s.w.looping[g] && ServedBy(s, u, g, |s.queue|, |s.queue|)
    ensures u.queue == [] && u.stopped == s.stopped && u.w.aborted == s.w.aborted
    ensures u.w.looping[g] == s.w.looping[g] - |s.queue|
  {
  }

  lemma TakenThenParked(s: State, u: State, t: State, g: nat, n: nat, k: nat)
    requires n == |s.queue| < k <= s.w.looping[g] && ServedBy(s, u, g, n, n)
    requires u.queue == [] && ServedBy(u, t, g, k - n, 0)
    ensures ServedBy(s, t, g, k, n)
  {
    assert s.waiting + Parked(g, 0) == s.waiting;
    assert u.w.handed + Heads(u.queue, g, 0) == u.w.handed;
  }

  /** What process starts: at least one worker, and as many as asked for; once each has passed its loop
      test, the first items of the queue are in the hands of the group's workers, one each and in
      order, and the workers for whom there was none are parked. */
  lemma ProcessServesQueue(c: Config, s: State, g: nat, concurrency: int)
    requires !s.stopped && g !in s.w.aborted && s.w.looping[g] == 0
    ensures var k := if concurrency > 1 then concurrency else 1;
      var u := Step(c, s, StartWorkers(g, concurrency));
      var n := if k <= |s.queue| then k else |s.queue|;
      && ValidRun(c, u, Tops(g, k))
      && var t := Exec(c, u, Tops(g, k));
         && t.w.handed == s.w.handed + Heads(s.queue, g, n) && t.queue == s.queue[n..]
         && t.waiting == s.waiting + Parked(g, k - n) && t.w.looping[g] == 0
  {
    var k, u := if concurrency > 1 then concurrency else 1, Step(c, s, StartWorkers(g, concurrency));
    if k <= |s.queue| { WorkersTake(c, u, g, k); } else { WorkersServeAll(c, u, g, k); }
  }

  // ---------------------------------------------------------------- conservation

  function Occ(s: seq<Item>, n: nat): nat {
    if s == [] then 0 else (if s[0].serial == n then 1 else 0) + Occ(s[1..], n)
  }

  function Items(js: seq<Job>): (r: seq<Item>)
    ensures |r| == |js|
  {
    seq(|js|, i requires 0 <= i < |js| => js[i].item)
  }

  /** In how many places is the item of push n? Every place an item can be is counted. */
  function Copies(s: State, n: nat): nat {
    Occ(s.queue, n) + Occ(Items(s.w.handed), n) + Occ(Items(s.w.running), n) + Occ(TimerItems(s.timers), n)
    + Occ(s.w.done, n) + Occ(s.w.drops, n) + Occ(s.w.discarded, n) + Occ(s.w.lost, n)
  }

  function Held(s: State): nat {
    |s.queue| + |s.w.handed| + |s.w.running| + |s.timers| + |s.w.done| + |s.w.drops|
    + |s.w.discarded| + |s.w.lost|
  }

  lemma {:induction false} OccConcat(a: seq<Item>, b: seq<Item>, n: nat)
    ensures Occ(a + b, n) == Occ(a, n) + Occ(b, n)
  {
    if a == [] {
      assert a + b == b;
    } else {
      assert (a + b)[1..] == a[1..] + b;
      OccConcat(a[1..], b, n);
    }
  }

  lemma OccAppend(s: seq<Item>, x: Item, n: nat)
    ensures Occ(s + [x], n) == Occ(s, n) + if x.serial == n then 1 else 0
  {
    OccConcat(s, [x], n);
  }

  lemma OccRemove(s: seq<Item>, i: nat, n: nat)
    requires i < |s|
    ensures Occ(s, n) == Occ(RemoveAt(s, i), n) + if s[i].serial == n then 1 else 0
  {
    assert s == s[..i] + [s[i]] + s[i + 1..];
    OccConcat(s[..i] + [s[i]], s[i + 1..], n);
    OccAppend(s[..i], s[i], n);
    OccConcat(s[..i], s[i + 1..], n);
  }

  lemma OccJobs(js: seq<Job>, j: Job, n: nat)
    ensures Occ(Items(js + [j]), n) == Occ(Items(js), n) + if j.item.serial == n then 1 else 0
  {
    assert Items(js + [j]) == Items(js) + [j.item];
    OccAppend(Items(js), j.item, n);
  }

  lemma OccJobsRemove(js: seq<Job>, i: nat, n: nat)
    requires i < |js|
    ensures Occ(Items(js), n) == Occ(Items(RemoveAt(js, i)), n) + if js[i].item.serial == n then 1 else 0
  {
    assert Items(RemoveAt(js, i)) == RemoveAt(Items(js), i);
    OccRemove(Items(js), i, n);
  }

  lemma HandCopies(s: State, g: nat, n: nat)
    requires s.queue != []
    ensures Copies(Hand(s, g), n) == Copies(s, n) && Held(Hand(s, g)) == Held(s)
  {
    OccJobs(s.w.handed, Job(g, s.queue[0]), n);
  }

  lemma {:induction false} FlushCopies(s: State, n: nat)
    ensures Copies(Flush(s), n) == Copies(s, n) && Held(Flush(s)) == Held(s)
    ensures Flush(s).m == s.m && Flush(s).w.started == s.w.started && Flush(s).w.running == s.w.running
    ensures Flush(s).w.done == s.w.done && Flush(s).w.drops == s.w.drops
    decreases |s.queue|
  {
    if s.queue != [] && s.waiting != [] {
      var t := s.(waiting := s.waiting[1..]);
      if s.waiting[0].aborted {
        var u := t.(queue := t.queue[1..], w := t.w.(lost := t.w.lost + [t.queue[0]]));
        OccAppend(s.w.lost, s.queue[0], n);
        FlushCopies(u, n);
      } else {
        HandCopies(t, s.waiting[0].group, n);
        FlushCopies(Hand(t, s.waiting[0].group), n);
      }
    }
  }

  /** The counters an operations dashboard sees agree with what the history records. */
  predicate Counted(s: State) {
    && s.m.processed == |s.w.done|
    && s.m.dropped == |s.w.drops|
    && s.m.inFlight == |s.w.running|
    && s.w.started == s.m.processed + s.m.dropped + s.m.retried + |s.w.running|
    && s.m.enqueued == Held(s)
  }

  /** Does this step put a new item into the queue? */
  predicate Pushes(c: Config, s: State, e: Event) {
    e.ResumeProducer? || (e.Enqueue? && !s.stopped && !Full(c, s))
  }

  lemma PushCopies(s: State, attempt: int, n: nat)
    ensures Copies(Push(s, attempt), n) == Copies(s, n) + if n == s.m.enqueued then 1 else 0
    ensures Push(s, attempt).m == s.m.(enqueued := s.m.enqueued + 1)
    ensures Counted(s) ==> Counted(Push(s, attempt))
  {
    var item := Item(s.m.enqueued, attempt, attempt, 0);
    OccAppend(s.queue, item, n);
    FlushCopies(Appended(s, attempt), n);
  }

  lemma SettleCopies(s: State, i: nat, n: nat)
    requires i < |s.w.running|
    ensures Copies(s, n) == Copies(Settle(s, i), n) + if s.w.running[i].item.serial == n then 1 else 0
  {
    OccJobsRemove(s.w.running, i, n);
  }

  lemma RetryCopies(c: Config, s: State, item: Item, b: bool, n: nat)
    requires item.attempt + 1 < c.maxAttempts
    ensures Copies(HandleFailure(c, s, item, b), n) == Copies(s, n) + if item.serial == n then 1 else 0
  {
    var timer := Timer(item.(attempt := item.attempt + 1), Delay(c, item.attempt));
    assert TimerItems(s.timers + [timer]) == TimerItems(s.timers) + [timer.item];
    OccAppend(TimerItems(s.timers), timer.item, n);
  }

  lemma FailureCopies(c: Config, s: State, item: Item, b: bool, n: nat)
    ensures Copies(HandleFailure(c, s, item, b), n) == Copies(s, n) + if item.serial == n then 1 else 0
  {
    if item.attempt + 1 >= c.maxAttempts {
      var t := Dropped(s, item);
      OccAppend(s.w.drops, item, n);
      assert Copies(t, n) == Copies(s, n) + if item.serial == n then 1 else 0;
    } else { RetryCopies(c, s, item, b, n); }
  }

  lemma StopCopies(s: State, n: nat)
    ensures Copies(Stop(s), n) == Copies(s, n)
  {
    OccConcat(s.w.discarded + TimerItems(s.timers), s.queue, n);
    OccConcat(s.w.discarded, TimerItems(s.timers), n);
    assert TimerItems([]) == [];
  }

  lemma BeginCopies(s: State, i: nat, n: nat)
    requires i < |s.w.handed|
    ensures Copies(StepBegin(s, i), n) == Copies(s, n)
  {
    var job := s.w.handed[i];
    OccJobsRemove(s.w.handed, i, n);
    OccJobs(s.w.running, job.(item := job.item.(runs := job.item.runs + 1)), n);
  }

  lemma DoneCopies(s: State, item: Item, n: nat)
    ensures Copies(Finished(s, item), n)
         == Copies(s, n) + if item.serial == n then 1 else 0
  {
    OccAppend(s.w.done, item, n);
  }

  lemma SucceedCopies(c: Config, s: State, i: nat, n: nat)
    requires i < |s.w.running|
    ensures Copies(StepSucceed(c, s, i), n) == Copies(s, n)
  {
    var t, item := Settle(s, i), s.w.running[i].item;
    SettleCopies(s, i, n);
    DoneCopies(t, item, n);
  }

  lemma WorkerCopies(c: Config, s: State, e: Event, n: nat)
    requires Enabled(s, e) && (e.LoopTop? || e.Begin? || e.Succeed? || e.Fail?)
    ensures Copies(Step(c, s, e), n) == Copies(s, n)
  {
    match e
    case LoopTop(g) =>
      if s.queue != [] { HandCopies(Tested(s, g), g, n); }
    case Begin(i) => BeginCopies(s, i, n);
    case Succeed(i) => SucceedCopies(c, s, i, n);
    case Fail(i, b) =>
      SettleCopies(s, i, n);
      FailureCopies(c, Settle(s, i), s.w.running[i].item, b, n);
  }

  lemma BeginCounts(s: State, i: nat)
    requires i < |s.w.handed| && Counted(s)
    ensures Counted(StepBegin(s, i)) && StepBegin(s, i).m.enqueued == s.m.enqueued
  {
  }

  lemma SucceedCounts(c: Config, s: State, i: nat)
    requires i < |s.w.running| && Counted(s)
    ensures Counted(StepSucceed(c, s, i)) && StepSucceed(c, s, i).m.enqueued == s.m.enqueued
  {
    var t := Settle(s, i);
  }

  lemma FailCounts(c: Config, s: State, i: nat, b: bool)
    requires i < |s.w.running| && Counted(s)
    ensures var t := HandleFailure(c, Settle(s, i), s.w.running[i].item, b);
      Counted(t) && t.m.enqueued == s.m.enqueued
  {
    var t, item := Settle(s, i), s.w.running[i].item;
  }

  lemma LoopCounts(c: Config, s: State, g: nat)
    requires g in s.w.looping && Counted(s)
    ensures Counted(Step(c, s, LoopTop(g))) && Step(c, s, LoopTop(g)).m.enqueued == s.m.enqueued
  {
  }

  lemma TimerCopies(c: Config, s: State, i: nat, n: nat)
    requires i < |s.timers| && Counted(s)
    ensures Copies(StepTimer(s, i), n) == Copies(s, n)
    ensures Counted(StepTimer(s, i)) && StepTimer(s, i).m == s.m
  {
    var item := s.timers[i].item;
    assert TimerItems(RemoveAt(s.timers, i)) == RemoveAt(TimerItems(s.timers), i);
    OccRemove(TimerItems(s.timers), i, n);
    OccAppend(s.w.discarded, item, n);
    if !s.stopped { FlushCopies(Requeued(Fired(s, i), item), n); }
  }

  lemma OuterCopies(c: Config, s: State, e: Event, n: nat)
    requires Enabled(s, e) && Counted(s) && Outer(e)
    ensures Copies(Step(c, s, e), n) == Copies(s, n)
    ensures Counted(Step(c, s, e)) && Step(c, s, e).m == s.m
  {
    if e.StopQueue? { StopCopies(s, n); }
  }

  lemma StepCounts(c: Config, s: State, e: Event)
    requires Enabled(s, e) && Counted(s)
    ensures Counted(Step(c, s, e))
    ensures Step(c, s, e).m.enqueued == s.m.enqueued + if Pushes(c, s, e) then 1 else 0
  {
    match e
    case Enqueue(p) => PushCopies(s, p.attempt, 0);
    case ResumeProducer(i) =>
      PushCopies(Unwoken(s, i), s.w.woken[i].attempt, 0);
    case LoopTop(g) => LoopCounts(c, s, g);
    case Begin(i) => BeginCounts(s, i);
    case Succeed(i) => SucceedCounts(c, s, i);
    case Fail(i, b) => FailCounts(c, s, i, b);
    case OnFailedDone(i) =>
    case TimerFires(i) => TimerCopies(c, s, i, 0);
    case _ => OuterCopies(c, s, e, 0);
  }

  lemma StepCopies(c: Config, s: State, e: Event, n: nat)
    requires Enabled(s, e) && Counted(s)
    ensures Copies(Step(c, s, e), n) == Copies(s, n) + if Pushes(c, s, e) && n == s.m.enqueued then 1 else 0
  {
    match e
    case Enqueue(p) => PushCopies(s, p.attempt, n);
    case ResumeProducer(i) =>
      PushCopies(Unwoken(s, i), s.w.woken[i].attempt, n);
    case OnFailedDone(i) =>
    case TimerFires(i) => TimerCopies(c, s, i, n);
    case LoopTop(_) => WorkerCopies(c, s, e, n);
    case Begin(_) => WorkerCopies(c, s, e, n);
    case Succeed(_) => WorkerCopies(c, s, e, n);
    case Fail(_, _) => WorkerCopies(c, s, e, n);
    case _ => OuterCopies(c, s, e, n);
  }

  ghost predicate ExactlyOnce(s: State) {
    forall n: nat :: Copies(s, n) == if n < s.m.enqueued then 1 else 0
  }

  lemma StepExactlyOnce(c: Config, s: State, e: Event)
    requires Enabled(s, e) && Counted(s) && ExactlyOnce(s)
    ensures Counted(Step(c, s, e)) && ExactlyOnce(Step(c, s, e))
  {
    StepCounts(c, s, e);
    forall n: nat ensures Copies(Step(c, s, e), n) == if n < Step(c, s, e).m.enqueued then 1 else 0 {
      StepCopies(c, s, e, n);
    }
  }

  lemma {:induction false} RunExactlyOnce(c: Config, s: State, es: seq<Event>)
    requires ValidRun(c, s, es) && Counted(s) && ExactlyOnce(s)
    ensures Counted(Exec(c, s, es)) && ExactlyOnce(Exec(c, s, es))
    decreases |es|
  {
    if es != [] {
      StepExactlyOnce(c, s, es[0]);
      RunExactlyOnce(c, Step(c, s, es[0]), es[1..]);
    }
  }

  /** Conservation over every run: the item of each push is in exactly one place, the published
      counters add up to the pushes, and every handler start is accounted for. */
  lemma Conservation(c: Config, es: seq<Event>)
    requires ValidRun(c, INIT, es)
    ensures var s := Exec(c, INIT, es);
      && (forall n: nat :: Copies(s, n) == if n < s.m.enqueued then 1 else 0)
      && s.m.enqueued == s.m.processed + s.m.dropped + |s.queue| + |s.w.handed| + s.m.inFlight
                         + |s.timers| + |s.w.discarded|
      && s.w.started == s.m.processed + s.m.dropped + s.m.retried + s.m.inFlight
  {
    RunExactlyOnce(c, INIT, es);
    NoLostWakeup(c, es);
  }
}
