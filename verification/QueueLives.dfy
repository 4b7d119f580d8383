/**
 The lives of workers and of waiting producers, counted from the events of a run alone: no worker
 and no producer is ever forgotten, and what that means when the queue has come to rest.
 */
module QueueLives {
  import opened Common
  import opened QueueModel
  import opened QueueProofs
  import opened QueueRetries

  // ---------------------------------------------------------------- workers

  function JobsOf(js: seq<Job>, g: nat): nat {
    if js == [] then 0 else (if js[0].group == g then 1 else 0) + JobsOf(js[1..], g)
  }

  function ParkedOf(ws: seq<Waiter>, g: nat): nat {
    if ws == [] then 0 else (if ws[0].group == g then 1 else 0) + ParkedOf(ws[1..], g)
  }

  /** The workers of a group, wherever they are: before the loop test, with an item in their hands,
      with a running handler, or parked. */
  function Workers(s: State, g: nat): nat {
    s.w.looping[g] + JobsOf(s.w.handed, g) + JobsOf(s.w.running, g) + ParkedOf(s.waiting, g)
  }

  /** The workers of the group that a call of process starts. */
  function Starts(e: Event, g: nat): nat {
    if !e.StartWorkers? || e.group != g then 0 else if e.n >= 1 then e.n else 1
  }

  /** The workers of the group that a step lets go: at the loop test when the group is aborted, or
      when the queue is stopped and empty; and all parked ones when the group is aborted, when any
      process call is stopped, and when the queue is. */
  function Leaves(s: State, e: Event, g: nat): nat {
    match e
    case LoopTop(h) => if h == g && (g in s.w.aborted || (s.stopped && s.queue == [])) then 1 else 0
    case AbortSignal(h) => if h == g then ParkedOf(s.waiting, g) else 0
    case StopGroup(_) => ParkedOf(s.waiting, g)
    case StopQueue => ParkedOf(s.waiting, g)
    case _ => 0
  }

  lemma {:induction false} JobsConcat(a: seq<Job>, b: seq<Job>, g: nat)
    ensures JobsOf(a + b, g) == JobsOf(a, g) + JobsOf(b, g)
  {
    if a == [] {
      assert a + b == b;
    } else {
      assert (a + b)[1..] == a[1..] + b;
      JobsConcat(a[1..], b, g);
    }
  }

  lemma JobsAppend(js: seq<Job>, j: Job, g: nat)
    ensures JobsOf(js + [j], g) == JobsOf(js, g) + if j.group == g then 1 else 0
  {
    JobsConcat(js, [j], g);
  }

  lemma JobsRemove(js: seq<Job>, i: nat, g: nat)
    requires i < |js|
    ensures JobsOf(js, g) == JobsOf(RemoveAt(js, i), g) + if js[i].group == g then 1 else 0
  {
    assert js == (js[..i] + [js[i]]) + js[i + 1..];
    JobsConcat(js[..i] + [js[i]], js[i + 1..], g);
    JobsAppend(js[..i], js[i], g);
    JobsConcat(js[..i], js[i + 1..], g);
  }

  lemma {:induction false} ParkedAppend(ws: seq<Waiter>, x: Waiter, g: nat)
    ensures ParkedOf(ws + [x], g) == ParkedOf(ws, g) + if x.group == g then 1 else 0
  {
    if ws == [] {
      assert ws + [x] == [x];
    } else {
      assert (ws + [x])[1..] == ws[1..] + [x];
      ParkedAppend(ws[1..], x, g);
    }
  }

  lemma {:induction false} ParkedFiltered(ws: seq<Waiter>, h: nat, g: nat)
    ensures ParkedOf(NotOfGroup(ws, h), g) == if g == h then 0 else ParkedOf(ws, g)
  {
    if ws != [] {
      ParkedFiltered(ws[1..], h, g);
      var rest := NotOfGroup(ws[1..], h);
      if ws[0].group != h { assert ([ws[0]] + rest)[1..] == rest; } else { assert [] + rest == rest; }
    }
  }

  lemma {:induction false} FlushWorkers(s: State, g: nat)
    requires forall i :: 0 <= i < |s.waiting| ==> !s.waiting[i].aborted
    ensures Workers(Flush(s), g) == Workers(s, g)
    decreases |s.queue|
  {
    if s.queue != [] && s.waiting != [] {
      var h := s.waiting[0].group;
      var t := s.(waiting := s.waiting[1..]);
      JobsAppend(s.w.handed, Job(h, s.queue[0]), g);
      FlushWorkers(Hand(t, h), g);
    }
  }

  lemma SettleWorkers(s: State, i: nat, g: nat)
    requires i < |s.w.running|
    ensures Workers(Settle(s, i), g) == Workers(s, g)
  {
    JobsRemove(s.w.running, i, g);
  }

  lemma BeginWorkers(s: State, i: nat, g: nat)
    requires i < |s.w.handed|
    ensures Workers(StepBegin(s, i), g) == Workers(s, g)
  {
    var job := s.w.handed[i];
    JobsRemove(s.w.handed, i, g);
    JobsAppend(s.w.running, job.(item := job.item.(runs := job.item.runs + 1)), g);
  }

  lemma LoopWorkers(c: Config, s: State, h: nat, g: nat)
    requires h in s.w.looping
    ensures Workers(Step(c, s, LoopTop(h)), g) + Leaves(s, LoopTop(h), g) == Workers(s, g)
  {
    var t := Tested(s, h);
    if h !in s.w.aborted && s.queue != [] {
      JobsAppend(s.w.handed, Job(h, s.queue[0]), g);
    } else if h !in s.w.aborted && !s.stopped {
      ParkedAppend(s.waiting, Waiter(h, false), g);
    }
  }

  lemma HandlerWorkers(c: Config, s: State, e: Event, g: nat)
    requires Enabled(s, e) && (e.Succeed? || e.Fail?)
    ensures Workers(Step(c, s, e), g) == Workers(s, g)
  {
    SettleWorkers(s, e.i, g);
    var t, item := Settle(s, e.i), s.w.running[e.i].item;
    if e.Succeed? {
      assert Workers(Finished(t, item), g) == Workers(t, g);
    } else {
      assert Workers(HandleFailure(c, t, item, e.hasOnFailed), g) == Workers(t, g);
    }
  }

  lemma ArrivalWorkers(c: Config, s: State, e: Event, g: nat)
    requires Enabled(s, e) && (e.Enqueue? || e.ResumeProducer? || e.TimerFires?)
    requires forall i :: 0 <= i < |s.waiting| ==> !s.waiting[i].aborted
    ensures Workers(Step(c, s, e), g) == Workers(s, g)
  {
    match e
    case Enqueue(p) => FlushWorkers(Appended(s, p.attempt), g);
    case ResumeProducer(i) => FlushWorkers(Appended(Unwoken(s, i), s.w.woken[i].attempt), g);
    case TimerFires(i) => FlushWorkers(Requeued(Fired(s, i), s.timers[i].item), g);
  }

  lemma OuterWorkers(c: Config, s: State, e: Event, g: nat)
    requires Enabled(s, e) && (s.stopped ==> s.waiting == [])
    requires Outer(e) || e.OnFailedDone?
    ensures Workers(Step(c, s, e), g) + Leaves(s, e, g) == Workers(s, g) + Starts(e, g)
  {
    if e.AbortSignal? || e.StopGroup? { ParkedFiltered(s.waiting, e.group, g); }
  }

  /** One step neither makes nor loses a worker, except as `Starts` and `Leaves` say. */
  lemma StepWorkers(c: Config, s: State, e: Event, g: nat)
    requires Enabled(s, e) && WakeupInv(c, s)
    ensures Workers(Step(c, s, e), g) + Leaves(s, e, g) == Workers(s, g) + Starts(e, g)
  {
    if e.Enqueue? || e.ResumeProducer? || e.TimerFires? {
      ArrivalWorkers(c, s, e, g);
    } else if e.LoopTop? {
      LoopWorkers(c, s, e.group, g);
    } else if e.Begin? {
      BeginWorkers(s, e.i, g);
    } else if e.Succeed? || e.Fail? {
      HandlerWorkers(c, s, e, g);
    } else {
      OuterWorkers(c, s, e, g);
    }
  }

  function Started(es: seq<Event>, g: nat): nat {
    if es == [] then 0 else Starts(es[0], g) + Started(es[1..], g)
  }

  function Left(c: Config, s: State, es: seq<Event>, g: nat): nat
    requires ValidRun(c, s, es)
    decreases |es|
  {
    if es == [] then 0 else Leaves(s, es[0], g) + Left(c, Step(c, s, es[0]), es[1..], g)
  }

  lemma {:induction false} RunWorkers(c: Config, s: State, es: seq<Event>, g: nat)
    requires ValidRun(c, s, es) && WakeupInv(c, s)
    ensures Workers(Exec(c, s, es), g) + Left(c, s, es, g) == Workers(s, g) + Started(es, g)
    decreases |es|
  {
    if es != [] {
      var t := Step(c, s, es[0]);
      StepWorkers(c, s, es[0], g);
      StepKeepsWakeup(c, s, es[0]);
      RunWorkers(c, t, es[1..], g);
    }
  }

  /** Conservation of workers over every run: those started for a group are before the loop test, at
      an item, in a handler, parked, or have left in one of the ways `Leaves` lists. */
  lemma WorkerConservation(c: Config, es: seq<Event>, g: nat)
    requires ValidRun(c, INIT, es)
    ensures var s := Exec(c, INIT, es);
      s.w.looping[g] + JobsOf(s.w.handed, g) + JobsOf(s.w.running, g) + ParkedOf(s.waiting, g)
      == Started(es, g) - Left(c, INIT, es, g)
  {
    RunWorkers(c, INIT, es, g);
  }

  /** Nothing in the run can make a worker of the group leave. */
  predicate Undisturbed(es: seq<Event>, g: nat) {
    forall i :: 0 <= i < |es| ==> es[i] != AbortSignal(g) && !es[i].StopGroup? && !es[i].StopQueue?
  }

  lemma {:induction false} NobodyLeaves(c: Config, s: State, es: seq<Event>, g: nat)
    requires ValidRun(c, s, es) && Undisturbed(es, g) && g !in s.w.aborted && !s.stopped
    ensures Left(c, s, es, g) == 0
    decreases |es|
  {
    if es != [] {
      var t := Step(c, s, es[0]);
      assert es[0] != AbortSignal(g) && !es[0].StopGroup? && !es[0].StopQueue?;
      StaysUp(c, s, es[0], g);
      NobodyLeaves(c, t, es[1..], g);
    }
  }

  lemma StaysUp(c: Config, s: State, e: Event, g: nat)
    requires Enabled(s, e) && g !in s.w.aborted && !s.stopped
    requires e != AbortSignal(g) && !e.StopGroup? && !e.StopQueue?
    ensures g !in Step(c, s, e).w.aborted && !Step(c, s, e).stopped
  {
    match e
    case Enqueue(p) => FlushSignals(Appended(s, p.attempt));
    case ResumeProducer(i) => FlushSignals(Appended(Unwoken(s, i), s.w.woken[i].attempt));
    case TimerFires(i) => FlushSignals(Requeued(Fired(s, i), s.timers[i].item));
    case _ =>
  }

  lemma {:induction false} FlushSignals(s: State)
    ensures Flush(s).w.aborted == s.w.aborted && Flush(s).stopped == s.stopped
    decreases |s.queue|
  {
    if s.queue != [] && s.waiting != [] {
      var t := s.(waiting := s.waiting[1..]);
      FlushSignals(if s.waiting[0].aborted
                   then t.(queue := t.queue[1..], w := t.w.(lost := t.w.lost + [t.queue[0]]))
                   else Hand(t, s.waiting[0].group));
    }
  }

  /** A worker leaves only if its group is aborted, some process call is stopped, or the queue is. */
  lemma WorkersStay(c: Config, es: seq<Event>, g: nat)
    requires ValidRun(c, INIT, es) && Undisturbed(es, g)
    ensures Workers(Exec(c, INIT, es), g) == Started(es, g)
  {
    RunWorkers(c, INIT, es, g);
    NobodyLeaves(c, INIT, es, g);
  }

  // ---------------------------------------------------------------- aborted groups

  /** The groups whose signal a run aborts. */
  function AbortedBy(es: seq<Event>): set<nat> {
    if es == [] then {} else (if es[0].AbortSignal? || es[0].StopGroup? then {es[0].group} else {}) + AbortedBy(es[1..])
  }

  lemma StepAborts(c: Config, s: State, e: Event)
    requires Enabled(s, e)
    ensures Step(c, s, e).w.aborted == s.w.aborted + AbortedBy([e])
  {
    assert AbortedBy([e]) == if e.AbortSignal? || e.StopGroup? then {e.group} else {};
    match e
    case Enqueue(p) => FlushSignals(Appended(s, p.attempt));
    case ResumeProducer(i) => FlushSignals(Appended(Unwoken(s, i), s.w.woken[i].attempt));
    case TimerFires(i) => FlushSignals(Requeued(Fired(s, i), s.timers[i].item));
    case _ =>
  }

  lemma {:induction false} RunAborts(c: Config, s: State, es: seq<Event>)
    requires ValidRun(c, s, es)
    ensures Exec(c, s, es).w.aborted == s.w.aborted + AbortedBy(es)
    decreases |es|
  {
    if es != [] {
      StepAborts(c, s, es[0]);
      RunAborts(c, Step(c, s, es[0]), es[1..]);
    }
  }

  /** The items in the hands of a group's workers do not grow once it is aborted. */
  lemma AbortedTakesNothing(c: Config, s: State, e: Event, g: nat)
    requires Enabled(s, e) && WakeupInv(c, s) && g in s.w.aborted
    ensures JobsOf(Step(c, s, e).w.handed, g) <= JobsOf(s.w.handed, g)
  {
    if e.LoopTop? {
      if s.queue != [] { JobsAppend(s.w.handed, Job(e.group, s.queue[0]), g); }
    } else if e.Begin? {
      JobsRemove(s.w.handed, e.i, g);
    } else if e.Enqueue? || e.ResumeProducer? || e.TimerFires? {
      ArrivalSpares(c, s, e, g);
    } else {
      OthersHandNothing(c, s, e);
    }
  }

  lemma ArrivalSpares(c: Config, s: State, e: Event, g: nat)
    requires Enabled(s, e) && (e.Enqueue? || e.ResumeProducer? || e.TimerFires?)
    requires forall i :: 0 <= i < |s.waiting| ==> s.waiting[i].group != g
    ensures JobsOf(Step(c, s, e).w.handed, g) == JobsOf(s.w.handed, g)
  {
    match e
    case Enqueue(p) => FlushSpares(Appended(s, p.attempt), g);
    case ResumeProducer(i) => FlushSpares(Appended(Unwoken(s, i), s.w.woken[i].attempt), g);
    case TimerFires(i) => FlushSpares(Requeued(Fired(s, i), s.timers[i].item), g);
  }

  lemma OthersHandNothing(c: Config, s: State, e: Event)
    requires Enabled(s, e) && (Outer(e) || e.Succeed? || e.Fail? || e.OnFailedDone?)
    ensures Step(c, s, e).w.handed == s.w.handed
  {
  }

  lemma {:induction false} FlushSpares(s: State, g: nat)
    requires forall i :: 0 <= i < |s.waiting| ==> s.waiting[i].group != g
    ensures JobsOf(Flush(s).w.handed, g) == JobsOf(s.w.handed, g)
    decreases |s.queue|
  {
    if s.queue != [] && s.waiting != [] {
      var h := s.waiting[0].group;
      var t := s.(waiting := s.waiting[1..]);
      JobsAppend(s.w.handed, Job(h, s.queue[0]), g);
      FlushSpares(if s.waiting[0].aborted
                  then t.(queue := t.queue[1..], w := t.w.(lost := t.w.lost + [t.queue[0]]))
                  else Hand(t, h), g);
    }
  }

  lemma {:induction false} RunTakesNothing(c: Config, s: State, es: seq<Event>, g: nat)
    requires ValidRun(c, s, es) && WakeupInv(c, s) && g in s.w.aborted
    ensures JobsOf(Exec(c, s, es).w.handed, g) <= JobsOf(s.w.handed, g)
    decreases |es|
  {
    if es != [] {
      AbortedTakesNothing(c, s, es[0], g);
      StepAborts(c, s, es[0]);
      StepKeepsWakeup(c, s, es[0]);
      RunTakesNothing(c, Step(c, s, es[0]), es[1..], g);
    }
  }

  /** Once a run has aborted a group, its workers take no more items: in whatever follows, those in
      their hands only get fewer, and none of them is parked. */
  lemma AbortedGroupsRetire(c: Config, es: seq<Event>, more: seq<Event>, g: nat)
    requires ValidRun(c, INIT, es) && ValidRun(c, Exec(c, INIT, es), more) && g in AbortedBy(es)
    ensures var s, t := Exec(c, INIT, es), Exec(c, Exec(c, INIT, es), more);
      JobsOf(t.w.handed, g) <= JobsOf(s.w.handed, g) && ParkedOf(t.waiting, g) == 0
  {
    RunKeepsWakeup(c, INIT, es);
    RunAborts(c, INIT, es);
    var s := Exec(c, INIT, es);
    RunTakesNothing(c, s, more, g);
    RunKeepsWakeup(c, s, more);
    RunAborts(c, s, more);
    NoneParked(Exec(c, s, more).waiting, g);
  }

  lemma {:induction false} NoneParked(ws: seq<Waiter>, g: nat)
    requires forall i :: 0 <= i < |ws| ==> ws[i].group != g
    ensures ParkedOf(ws, g) == 0
  {
    if ws != [] { NoneParked(ws[1..], g); }
  }

  // ---------------------------------------------------------------- rest

  lemma {:induction false} SomeParked(ws: seq<Waiter>, g: nat)
    requires ParkedOf(ws, g) > 0
    ensures ws != []
  {
  }

  /** No stall: if of some group more workers were started than have left, then a queue at rest is
      empty, blocks nobody, and every item ever pushed was, exactly once, processed or dropped
      after its last permitted failure. */
  lemma RestMeansSettled(c: Config, es: seq<Event>, g: nat)
    requires ValidRun(c, INIT, es) && Quiet(Exec(c, INIT, es)) && Started(es, g) > Left(c, INIT, es, g)
    ensures var s := Exec(c, INIT, es);
      && s.queue == [] && s.blocked == [] && !s.stopped
      && s.m.enqueued == s.m.processed + s.m.dropped
      && (forall n: nat :: n < s.m.enqueued ==> Occ(s.w.done, n) + Occ(s.w.drops, n) == 1)
      && (forall x :: x in s.w.drops ==> x.runs == Allowance(c, x.init))
  {
    var s := Exec(c, INIT, es);
    WorkerConservation(c, es, g);
    SomeParked(s.waiting, g);
    RunKeepsWakeup(c, INIT, es);
    QuietMeansSettled(c, es);
  }

  /** In particular a group that was started and neither aborted nor released nor stopped. */
  lemma UndisturbedGroupSettles(c: Config, es: seq<Event>, g: nat, i: nat)
    requires ValidRun(c, INIT, es) && Quiet(Exec(c, INIT, es))
    requires Undisturbed(es, g) && i < |es| && es[i].StartWorkers? && es[i].group == g
    ensures var s := Exec(c, INIT, es);
      && s.queue == [] && s.blocked == []
      && s.m.enqueued == s.m.processed + s.m.dropped
      && (forall n: nat :: n < s.m.enqueued ==> Occ(s.w.done, n) + Occ(s.w.drops, n) == 1)
  {
    NobodyLeaves(c, INIT, es, g);
    StartedSome(es, g, i);
    RestMeansSettled(c, es, g);
  }

  lemma {:induction false} StartedSome(es: seq<Event>, g: nat, i: nat)
    requires i < |es| && es[i].StartWorkers? && es[i].group == g
    ensures Started(es, g) > 0
  {
    if i > 0 { StartedSome(es[1..], g, i - 1); }
  }

  // ---------------------------------------------------------------- producers

  /** How often a call p of enqueue begins to wait with a step: the queue runs, is full by its limit,
      and the caller's signal is not aborted yet. */
  function Waits(c: Config, s: State, e: Event, p: Producer): nat {
    if e == Enqueue(p) && !s.stopped && 0 < c.maxSize <= |s.queue| && !p.cancelled then 1 else 0
  }

  /** How often it is pushed behind its wait, aborted while waiting, or rejected by a stop. */
  function Resumes(s: State, e: Event, p: Producer): nat
    requires Enabled(s, e)
  {
    if e.ResumeProducer? && s.w.woken[e.i] == p then 1 else 0
  }

  function Aborts(s: State, e: Event, p: Producer): nat
    requires Enabled(s, e)
  {
    if e.AbortProducer? && s.blocked[e.i] == p then 1 else 0
  }

  function Rejects(s: State, e: Event, p: Producer): nat {
    if e.StopGroup? || e.StopQueue? then multiset(s.blocked)[p] else 0
  }

  function InLine(s: State, p: Producer): nat {
    multiset(s.blocked)[p] + multiset(s.w.woken)[p]
  }

  lemma RemoveOne<T>(s: seq<T>, i: nat, x: T)
    requires i < |s|
    ensures multiset(s)[x] == multiset(RemoveAt(s, i))[x] + if s[i] == x then 1 else 0
  {
    assert s == s[..i] + [s[i]] + s[i + 1..];
  }

  lemma {:induction false} FlushProducers(s: State)
    ensures Flush(s).blocked == s.blocked && Flush(s).w.woken == s.w.woken
    decreases |s.queue|
  {
    if s.queue != [] && s.waiting != [] {
      var t := s.(waiting := s.waiting[1..]);
      FlushProducers(if s.waiting[0].aborted
                     then t.(queue := t.queue[1..], w := t.w.(lost := t.w.lost + [t.queue[0]]))
                     else Hand(t, s.waiting[0].group));
    }
  }

  lemma WakingKeepsLine(c: Config, s: State, p: Producer)
    ensures InLine(ResolveSpace(c, s), p) == InLine(s, p)
  {
    if s.blocked != [] { assert s.blocked == [s.blocked[0]] + s.blocked[1..]; }
  }

  /** The steps after which a blocked producer may be woken. */
  predicate MakesRoom(e: Event) {
    e.Succeed? || e.Fail? || e.OnFailedDone?
  }

  lemma FailureKeepsLine(c: Config, s: State, item: Item, b: bool, p: Producer)
    ensures InLine(HandleFailure(c, s, item, b), p) == InLine(s, p)
  {
    WakingKeepsLine(c, Dropped(s, item), p);
  }

  lemma RoomKeepsLine(c: Config, s: State, e: Event, p: Producer)
    requires Enabled(s, e) && MakesRoom(e)
    ensures InLine(Step(c, s, e), p) == InLine(s, p)
  {
    match e
    case Succeed(i) => WakingKeepsLine(c, Finished(Settle(s, i), s.w.running[i].item), p);
    case Fail(i, b) => FailureKeepsLine(c, Settle(s, i), s.w.running[i].item, b, p);
    case OnFailedDone(i) => WakingKeepsLine(c, Returned(s, i), p);
  }

  /** What does not touch the line of producers, or empties it. */
  lemma OthersKeepLine(c: Config, s: State, e: Event, p: Producer)
    requires Enabled(s, e) && !MakesRoom(e) && !e.Enqueue? && !e.ResumeProducer? && !e.AbortProducer?
    requires s.stopped ==> s.blocked == []
    ensures InLine(Step(c, s, e), p) + Rejects(s, e, p) == InLine(s, p)
  {
    if e.TimerFires? {
      FlushProducers(Requeued(Fired(s, e.i), s.timers[e.i].item));
    } else if !e.StopGroup? && !e.StopQueue? {
      assert Step(c, s, e).blocked == s.blocked && Step(c, s, e).w.woken == s.w.woken;
    }
  }

  lemma CallersKeepLine(c: Config, s: State, e: Event, p: Producer)
    requires Enabled(s, e) && (e.Enqueue? || e.ResumeProducer? || e.AbortProducer?)
    ensures InLine(Step(c, s, e), p) + Resumes(s, e, p) + Aborts(s, e, p) == InLine(s, p) + Waits(c, s, e, p)
  {
    match e
    case Enqueue(q) =>
      FlushProducers(Appended(s, q.attempt));
      if Waits(c, s, e, q) > 0 { assert multiset(s.blocked + [q])[p] == multiset(s.blocked)[p] + if p == q then 1 else 0; }
    case ResumeProducer(i) => ResumedKeepsLine(s, i, p);
    case AbortProducer(i) => RemoveOne(s.blocked, i, p);
  }

  lemma ResumedKeepsLine(s: State, i: nat, p: Producer)
    requires i < |s.w.woken|
    ensures InLine(Push(Unwoken(s, i), s.w.woken[i].attempt), p) + (if s.w.woken[i] == p then 1 else 0) == InLine(s, p)
  {
    RemoveOne(s.w.woken, i, p);
    FlushProducers(Appended(Unwoken(s, i), s.w.woken[i].attempt));
  }

  /** One step neither forgets nor invents a waiting call, except as these functions say. */
  lemma StepProducers(c: Config, s: State, e: Event, p: Producer)
    requires Enabled(s, e) && (s.stopped ==> s.blocked == [])
    ensures InLine(Step(c, s, e), p) + Resumes(s, e, p) + Aborts(s, e, p) + Rejects(s, e, p)
         == InLine(s, p) + Waits(c, s, e, p)
  {
    if MakesRoom(e) {
      RoomKeepsLine(c, s, e, p);
    } else if e.Enqueue? || e.ResumeProducer? || e.AbortProducer? {
      CallersKeepLine(c, s, e, p);
    } else {
      OthersKeepLine(c, s, e, p);
    }
  }

  /** What a run does with the waiting calls p of enqueue. */
  datatype Fates = Fates(waited: nat, resumed: nat, aborted: nat, rejected: nat)

  function FatesOf(c: Config, s: State, es: seq<Event>, p: Producer): Fates
    requires ValidRun(c, s, es)
    decreases |es|
  {
    if es == [] then Fates(0, 0, 0, 0)
    else
      var e := es[0];
      var f := FatesOf(c, Step(c, s, e), es[1..], p);
      Fates(Waits(c, s, e, p) + f.waited, Resumes(s, e, p) + f.resumed, Aborts(s, e, p) + f.aborted, Rejects(s, e, p) + f.rejected)
  }

  lemma {:induction false} RunProducers(c: Config, s: State, es: seq<Event>, p: Producer)
    requires ValidRun(c, s, es) && WakeupInv(c, s)
    ensures var f := FatesOf(c, s, es, p);
      InLine(Exec(c, s, es), p) + f.resumed + f.aborted + f.rejected == InLine(s, p) + f.waited
    decreases |es|
  {
    if es != [] {
      StepProducers(c, s, es[0], p);
      StepKeepsWakeup(c, s, es[0]);
      RunProducers(c, Step(c, s, es[0]), es[1..], p);
    }
  }

  /** No waiting call is forgotten: over every run, each call that began to wait is still in line or
      woken, or was pushed, aborted or rejected, exactly once. */
  lemma ProducerConservation(c: Config, es: seq<Event>, p: Producer)
    requires ValidRun(c, INIT, es)
    ensures var s, f := Exec(c, INIT, es), FatesOf(c, INIT, es, p);
      f.waited == multiset(s.blocked)[p] + multiset(s.w.woken)[p] + f.resumed + f.aborted + f.rejected
  {
    RunProducers(c, INIT, es, p);
  }

  // ---------------------------------------------------------------- offers of space

  /** After a job ends for good, room is offered: if there is some and somebody is blocked, the first of
      them is woken. With an onFailed handler a dropped item offers it only when that handler is over;
      an item that will be retried offers nothing. */
  predicate Offered(c: Config, s: State, t: State) {
    if s.blocked != [] && (c.maxSize <= 0 || |s.queue| < c.maxSize)
    then t.blocked == s.blocked[1..] && t.w.woken == s.w.woken + [s.blocked[0]]
    else t.blocked == s.blocked && t.w.woken == s.w.woken
  }

  lemma RoomIsOffered(c: Config, s: State, e: Event)
    requires Enabled(s, e)
    ensures e.Succeed? || e.OnFailedDone? ==> Offered(c, s, Step(c, s, e))
    ensures e.Fail? ==>
      var t, item := Step(c, s, e), s.w.running[e.i].item;
      if item.attempt + 1 < c.maxAttempts then
        t.blocked == s.blocked && t.w.woken == s.w.woken && t.w.failing == s.w.failing
      else if e.hasOnFailed then
        t.blocked == s.blocked && t.w.woken == s.w.woken && t.w.failing == s.w.failing + [item]
      else Offered(c, s, t) && t.w.failing == s.w.failing
    ensures e.OnFailedDone? ==> Step(c, s, e).w.failing == RemoveAt(s.w.failing, e.i)
  {
  }

  // ---------------------------------------------------------------- first come, first served

  /** Calls of enqueue are numbered in the order they are made. */
  predicate Numbered(es: seq<Event>, from: nat)
    decreases |es|
  {
    es == [] || (if es[0].Enqueue? then es[0].p.id >= from && Numbered(es[1..], es[0].p.id + 1) else Numbered(es[1..], from))
  }

  predicate ByNumber(ps: seq<Producer>, bound: nat) {
    && (forall i, j :: 0 <= i < j < |ps| ==> ps[i].id < ps[j].id)
    && (forall i :: 0 <= i < |ps| ==> ps[i].id < bound)
  }

  lemma WakingKeepsOrder(c: Config, s: State, bound: nat)
    requires ByNumber(s.w.woken + s.blocked, bound)
    ensures ByNumber(ResolveSpace(c, s).w.woken + ResolveSpace(c, s).blocked, bound)
  {
    var t := ResolveSpace(c, s);
    if s.blocked != [] { assert (s.w.woken + [s.blocked[0]]) + s.blocked[1..] == s.w.woken + s.blocked; }
  }

  lemma RemovedKeepsOrder(ps: seq<Producer>, i: nat, bound: nat)
    requires ByNumber(ps, bound) && i < |ps|
    ensures ByNumber(RemoveAt(ps, i), bound)
  {
    var rest := RemoveAt(ps, i);
    forall j, k | 0 <= j < k < |rest| ensures rest[j].id < rest[k].id {
      assert rest[j] == ps[if j < i then j else j + 1] && rest[k] == ps[if k < i then k else k + 1];
    }
  }

  function NextNumber(e: Event, from: nat): nat {
    if e.Enqueue? && e.p.id >= from then e.p.id + 1 else from
  }

  lemma RoomKeepsOrder(c: Config, s: State, e: Event, from: nat)
    requires Enabled(s, e) && MakesRoom(e) && ByNumber(s.w.woken + s.blocked, from)
    ensures ByNumber(Step(c, s, e).w.woken + Step(c, s, e).blocked, from)
  {
    match e
    case Succeed(i) => WakingKeepsOrder(c, Finished(Settle(s, i), s.w.running[i].item), from);
    case Fail(i, b) => WakingKeepsOrder(c, Dropped(Settle(s, i), s.w.running[i].item), from);
    case OnFailedDone(i) => WakingKeepsOrder(c, Returned(s, i), from);
  }

  lemma PrefixKeepsOrder(a: seq<Producer>, b: seq<Producer>, bound: nat)
    requires ByNumber(a + b, bound)
    ensures ByNumber(a + [], bound)
  {
    assert forall k :: 0 <= k < |a| ==> a[k] == (a + b)[k];
  }

  lemma LeavingKeepsOrder(a: seq<Producer>, b: seq<Producer>, i: nat, bound: nat)
    requires ByNumber(a + b, bound)
    ensures i < |a| ==> ByNumber(RemoveAt(a, i) + b, bound)
    ensures i < |b| ==> ByNumber(a + RemoveAt(b, i), bound)
  {
    if i < |a| {
      RemovedKeepsOrder(a + b, i, bound);
      assert RemoveAt(a, i) + b == RemoveAt(a + b, i);
    }
    if i < |b| {
      RemovedKeepsOrder(a + b, |a| + i, bound);
      assert a + RemoveAt(b, i) == RemoveAt(a + b, |a| + i);
    }
  }

  lemma JoiningKeepsOrder(a: seq<Producer>, b: seq<Producer>, p: Producer, from: nat)
    requires ByNumber(a + b, from) && p.id >= from
    ensures ByNumber(a + b, p.id + 1) && ByNumber(a + (b + [p]), p.id + 1)
  {
    assert a + (b + [p]) == (a + b) + [p];
  }

  lemma StepKeepsLine(c: Config, s: State, e: Event, from: nat)
    requires Enabled(s, e) && ByNumber(s.w.woken + s.blocked, from) && (e.Enqueue? ==> e.p.id >= from)
    ensures ByNumber(Step(c, s, e).w.woken + Step(c, s, e).blocked, NextNumber(e, from))
  {
    if MakesRoom(e) {
      RoomKeepsOrder(c, s, e, from);
    } else if e.Enqueue? {
      FlushProducers(Appended(s, e.p.attempt));
      JoiningKeepsOrder(s.w.woken, s.blocked, e.p, from);
    } else if e.ResumeProducer? {
      FlushProducers(Appended(Unwoken(s, e.i), s.w.woken[e.i].attempt));
      LeavingKeepsOrder(s.w.woken, s.blocked, e.i, from);
    } else if e.AbortProducer? {
      LeavingKeepsOrder(s.w.woken, s.blocked, e.i, from);
    } else if e.TimerFires? {
      FlushProducers(Requeued(Fired(s, e.i), s.timers[e.i].item));
    } else {
      PrefixKeepsOrder(s.w.woken, s.blocked, from);
    }
  }

  lemma {:induction false} RunKeepsLine(c: Config, s: State, es: seq<Event>, from: nat) returns (to: nat)
    requires ValidRun(c, s, es) && Numbered(es, from) && ByNumber(s.w.woken + s.blocked, from)
    ensures ByNumber(Exec(c, s, es).w.woken + Exec(c, s, es).blocked, to)
    decreases |es|
  {
    to := from;
    if es != [] {
      StepKeepsLine(c, s, es[0], from);
      to := RunKeepsLine(c, Step(c, s, es[0]), es[1..], NextNumber(es[0], from));
    }
  }

  /** Producers are woken in the order in which they called: whoever is woken called before whoever is
      still blocked. */
  lemma WokenInCallOrder(c: Config, es: seq<Event>)
    requires ValidRun(c, INIT, es) && Numbered(es, 0)
    ensures var s := Exec(c, INIT, es);
      && (forall i, j :: 0 <= i < j < |s.w.woken| ==> s.w.woken[i].id < s.w.woken[j].id)
      && (forall i, j :: 0 <= i < j < |s.blocked| ==> s.blocked[i].id < s.blocked[j].id)
      && (forall i, j :: 0 <= i < |s.w.woken| && 0 <= j < |s.blocked| ==> s.w.woken[i].id < s.blocked[j].id)
  {
    var to := RunKeepsLine(c, INIT, es, 0);
    LineIsOrdered(Exec(c, INIT, es).w.woken, Exec(c, INIT, es).blocked, to);
  }

  lemma LineIsOrdered(a: seq<Producer>, b: seq<Producer>, bound: nat)
    requires ByNumber(a + b, bound)
    ensures forall i, j :: 0 <= i < j < |a| ==> a[i].id < a[j].id
    ensures forall i, j :: 0 <= i < j < |b| ==> b[i].id < b[j].id
    ensures forall i, j :: 0 <= i < |a| && 0 <= j < |b| ==> a[i].id < b[j].id
  {
    var line := a + b;
    forall i, j | 0 <= i < j < |a| ensures a[i].id < a[j].id { assert line[i].id < line[j].id; }
    forall i, j | 0 <= i < j < |b| ensures b[i].id < b[j].id { assert line[|a| + i].id < line[|a| + j].id; }
    forall i, j | 0 <= i < |a| && 0 <= j < |b| ensures a[i].id < b[j].id { assert line[i].id < line[|a| + j].id; }
  }

  // ---------------------------------------------------------------- what is pushed

  /** The attempt numbers of the pushes of a run, in push order. */
  function PushedAttempts(c: Config, s: State, es: seq<Event>): seq<int>
    requires ValidRun(c, s, es)
    decreases |es|
  {
    if es == [] then []
    else
      (match es[0]
       case Enqueue(p) => if !s.stopped && !(0 < c.maxSize <= |s.queue|) then [p.attempt] else []
       case ResumeProducer(i) => [s.w.woken[i].attempt]
       case _ => [])
      + PushedAttempts(c, Step(c, s, es[0]), es[1..])
  }

  predicate Known(pushed: seq<int>, x: Item) {
    x.serial < |pushed| && x.init == pushed[x.serial]
  }

  ghost predicate AllKnown(pushed: seq<int>, s: State) {
    && |pushed| == s.m.enqueued
    && (forall x :: x in s.queue || x in s.w.done || x in s.w.drops || x in s.w.discarded || x in s.w.lost ==> Known(pushed, x))
    && (forall j :: j in s.w.handed || j in s.w.running ==> Known(pushed, j.item))
    && (forall t :: t in s.timers ==> Known(pushed, t.item))
  }

  lemma {:induction false} FlushKnown(pushed: seq<int>, s: State)
    requires AllKnown(pushed, s)
    ensures AllKnown(pushed, Flush(s))
    decreases |s.queue|
  {
    if s.queue != [] && s.waiting != [] {
      var t := s.(waiting := s.waiting[1..]);
      assert s.queue[0] in s.queue;
      FlushKnown(pushed, if s.waiting[0].aborted
                         then t.(queue := t.queue[1..], w := t.w.(lost := t.w.lost + [t.queue[0]]))
                         else Hand(t, s.waiting[0].group));
    }
  }

  lemma PushKnown(pushed: seq<int>, s: State, attempt: int)
    requires AllKnown(pushed, s)
    ensures AllKnown(pushed + [attempt], Push(s, attempt))
  {
    var t := Appended(s, attempt);
    assert forall x :: Known(pushed, x) ==> Known(pushed + [attempt], x);
    FlushKnown(pushed + [attempt], t);
  }

  lemma TimerKnown(s: State, i: nat, pushed: seq<int>)
    requires i < |s.timers| && AllKnown(pushed, s)
    ensures AllKnown(pushed, StepTimer(s, i))
  {
    assert s.timers[i] in s.timers;
    if !s.stopped { FlushKnown(pushed, Requeued(Fired(s, i), s.timers[i].item)); }
  }

  lemma SettledKnown(s: State, i: nat, pushed: seq<int>)
    requires i < |s.w.running| && AllKnown(pushed, s)
    ensures AllKnown(pushed, Settle(s, i)) && Known(pushed, s.w.running[i].item)
  {
    assert s.w.running[i] in s.w.running;
  }

  lemma HandlerKnown(c: Config, s: State, e: Event, pushed: seq<int>)
    requires Enabled(s, e) && AllKnown(pushed, s) && (e.Succeed? || e.Fail?)
    ensures AllKnown(pushed, Step(c, s, e))
  {
    SettledKnown(s, e.i, pushed);
    var t, item := Settle(s, e.i), s.w.running[e.i].item;
    if e.Succeed? {
      assert AllKnown(pushed, Finished(t, item));
    } else if item.attempt + 1 >= c.maxAttempts {
      assert AllKnown(pushed, Dropped(t, item));
    } else {
      assert AllKnown(pushed, Delayed(c, t, item));
    }
  }

  lemma BeginKnown(s: State, i: nat, pushed: seq<int>)
    requires i < |s.w.handed| && AllKnown(pushed, s)
    ensures AllKnown(pushed, StepBegin(s, i))
  {
    assert s.w.handed[i] in s.w.handed;
  }

  lemma StepKnown(c: Config, s: State, e: Event, pushed: seq<int>)
    requires Enabled(s, e) && AllKnown(pushed, s) && !Pushes(c, s, e)
    ensures AllKnown(pushed, Step(c, s, e))
  {
    if e.TimerFires? {
      TimerKnown(s, e.i, pushed);
    } else if e.Begin? {
      BeginKnown(s, e.i, pushed);
    } else if e.Succeed? || e.Fail? {
      HandlerKnown(c, s, e, pushed);
    } else {
      RestKnown(c, s, e, pushed);
    }
  }

  lemma RestKnown(c: Config, s: State, e: Event, pushed: seq<int>)
    requires Enabled(s, e) && AllKnown(pushed, s) && !Pushes(c, s, e)
    requires !e.TimerFires? && !e.Begin? && !e.Succeed? && !e.Fail?
    ensures AllKnown(pushed, Step(c, s, e))
  {
    if e.LoopTop? {
      LoopKnown(s, e.group, pushed);
    } else if e.StopQueue? {
      StopKnown(s, pushed);
    }
  }

  lemma LoopKnown(s: State, g: nat, pushed: seq<int>)
    requires AllKnown(pushed, s)
    ensures AllKnown(pushed, StepLoop(s, g))
  {
    if s.queue != [] { assert s.queue[0] in s.queue; }
  }

  lemma StopKnown(s: State, pushed: seq<int>)
    requires AllKnown(pushed, s)
    ensures AllKnown(pushed, Stop(s))
  {
  }

  lemma {:induction false} RunKnown(c: Config, s: State, es: seq<Event>, pushed: seq<int>)
    requires ValidRun(c, s, es) && AllKnown(pushed, s)
    ensures AllKnown(pushed + PushedAttempts(c, s, es), Exec(c, s, es))
    decreases |es|
  {
    if es == [] {
      assert pushed + [] == pushed;
    } else {
      var t, rest := Step(c, s, es[0]), PushedAttempts(c, Step(c, s, es[0]), es[1..]);
      if Pushes(c, s, es[0]) {
        var a := if es[0].Enqueue? then es[0].p.attempt else s.w.woken[es[0].i].attempt;
        PushKnown(pushed, if es[0].Enqueue? then s else Unwoken(s, es[0].i), a);
        RunKnown(c, t, es[1..], pushed + [a]);
        Regroup(pushed, [a], rest);
      } else {
        StepKnown(c, s, es[0], pushed);
        RunKnown(c, t, es[1..], pushed);
        assert PushedAttempts(c, s, es) == rest;
      }
    }
  }

  /** An enqueue is accepted at once exactly if the queue runs and is shorter than its limit or has
      none; a woken one is pushed without another look. Every item, wherever it is, carries the
      attempt number it was pushed with, and there is one push number for each. */
  lemma ItemsKeepTheirPush(c: Config, es: seq<Event>)
    requires ValidRun(c, INIT, es)
    ensures var s, pushed := Exec(c, INIT, es), PushedAttempts(c, INIT, es);
      && s.m.enqueued == |pushed|
      && (forall x :: x in s.queue || x in s.w.done || x in s.w.drops || x in s.w.discarded ==> Known(pushed, x))
      && (forall j :: j in s.w.handed || j in s.w.running ==> Known(pushed, j.item))
      && (forall t :: t in s.timers ==> Known(pushed, t.item))
  {
    RunKnown(c, INIT, es, []);
    assert [] + PushedAttempts(c, INIT, es) == PushedAttempts(c, INIT, es);
  }
}
