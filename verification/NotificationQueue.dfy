/**
 The queue object itself: its fields, and one method per stretch of code between two awaits.
 Each method is proved to do exactly the step of the state machine it stands for, so whatever
 holds of all runs of the machine holds of all interleavings of these methods.
 */
module NotificationQueueObject {
  import opened QueueModel

  /** How a call of enqueue leaves its first stretch. */
  datatype EnqueueOutcome = Accepted(serial: nat) | Waits | Stopped | Cancelled

  class NotificationQueue {
    const config: Config
    var queue: seq<Item>
    var waiting: seq<Waiter>
    var spaceWaiters: seq<Producer>
    var timers: seq<Timer>
    var stopped: bool
    var metrics: Metrics
    ghost var world: World

    ghost function St(): State
      reads this
    {
      State(queue, waiting, spaceWaiters, timers, stopped, metrics, world)
    }

    constructor (config: Config)
      ensures this.config == config && St() == INIT
    {
      this.config := config;
      queue, waiting, spaceWaiters, timers, stopped := [], [], [], [], false;
      metrics, world := NO_METRICS, EMPTY_WORLD;
    }

    /** Give queued items to parked consumers until one of the two runs out. */
    method FlushWaiting()
      modifies this
      ensures St() == Flush(old(St()))
    {
      while |queue| > 0 && |waiting| > 0
        invariant Flush(St()) == Flush(old(St()))
        decreases |queue|
      {
        var item, waiter := queue[0], waiting[0];
        queue, waiting := queue[1..], waiting[1..];
        if !waiter.aborted {
          world := world.(handed := world.handed + [Job(waiter.group, item)],
                          firsts := if item.runs == 0 then world.firsts + [item.serial] else world.firsts);
        } else {
          world := world.(lost := world.lost + [item]);
        }
      }
    }

    method MakeSpace()
      modifies this
      ensures St() == ResolveSpace(config, old(St()))
    {
      if |spaceWaiters| == 0 { return; }
      if config.maxSize > 0 && |queue| >= config.maxSize { return; }
      var waiter := spaceWaiters[0];
      spaceWaiters := spaceWaiters[1..];
      world := world.(woken := world.woken + [waiter]);
    }

    /** Empty both waiting lists; the consumers returned get null, the producers an error. */
    method RejectAll() returns (released: seq<Waiter>, rejected: seq<Producer>)
      modifies this
      ensures released == old(waiting) && rejected == old(spaceWaiters)
      ensures St() == RejectWaiters(old(St()))
    {
      released, rejected := waiting, spaceWaiters;
      waiting, spaceWaiters := [], [];
    }

    method PushItem(attempt: int) returns (serial: nat)
      modifies this
      ensures serial == old(metrics.enqueued)
      ensures St() == Push(old(St()), attempt)
    {
      serial := metrics.enqueued;
      queue := queue + [Item(serial, attempt, attempt, 0)];
      metrics := metrics.(enqueued := metrics.enqueued + 1);
      FlushWaiting();
    }

    method Enqueue(p: Producer) returns (r: EnqueueOutcome)
      modifies this
      ensures St() == Step(config, old(St()), Event.Enqueue(p))
      ensures r.Stopped? <==> old(stopped)
      ensures r.Accepted? <==> !old(stopped) && (config.maxSize <= 0 || old(|queue|) < config.maxSize)
      ensures r.Accepted? ==> r.serial == old(metrics.enqueued)
      ensures r.Waits? <==> !old(stopped) && 0 < config.maxSize <= old(|queue|) && !p.cancelled
    {
      if stopped { return Stopped; }
      if config.maxSize > 0 && |queue| >= config.maxSize {
        if p.cancelled { return Cancelled; }
        spaceWaiters := spaceWaiters + [p];
        return Waits;
      }
      var serial := PushItem(p.attempt);
      return Accepted(serial);
    }

    /** A woken producer goes on behind its await. */
    method ResumeEnqueue(ghost i: nat, ghost p: Producer, attempt: int) returns (serial: nat)
      requires i < |world.woken| && world.woken[i] == p && p.attempt == attempt
      modifies this
      ensures St() == Step(config, old(St()), ResumeProducer(i))
      ensures serial == old(metrics.enqueued)
    {
      world := world.(woken := RemoveAt(world.woken, i));
      serial := PushItem(attempt);
    }

    /** The signal of a blocked producer aborts: it leaves the list and its call fails. */
    method AbortBlocked(i: nat)
      requires i < |spaceWaiters|
      modifies this
      ensures St() == Step(config, old(St()), AbortProducer(i))
    {
      spaceWaiters := spaceWaiters[..i] + spaceWaiters[i + 1..];
    }

    method Process(group: nat, concurrency: int)
      requires !stopped
      modifies this
      ensures St() == Step(config, old(St()), StartWorkers(group, concurrency))
    {
      world := world.(looping := world.looping[group := world.looping[group] + if concurrency > 1 then concurrency else 1]);
    }

    /** The loop test of a worker and, unless its signal is aborted, its _dequeue up to the await. */
    method WorkerTop(group: nat, signalAborted: bool)
      requires group in world.looping && (signalAborted <==> group in world.aborted)
      modifies this
      ensures St() == Step(config, old(St()), LoopTop(group))
    {
      world := world.(looping := world.looping - multiset{group});
      if signalAborted { return; }
      if |queue| > 0 {
        var item := queue[0];
        queue := queue[1..];
        world := world.(handed := world.handed + [Job(group, item)],
                        firsts := if item.runs == 0 then world.firsts + [item.serial] else world.firsts);
        return;
      }
      if stopped { return; }
      waiting := waiting + [Waiter(group, false)];
    }

    /** The worker holding a job goes on and starts the handler. */
    method BeginJob(ghost i: nat)
      requires i < |world.handed|
      modifies this
      ensures St() == Step(config, old(St()), Begin(i))
    {
      metrics := metrics.(inFlight := metrics.inFlight + 1);
      ghost var job := world.handed[i];
      world := world.(handed := RemoveAt(world.handed, i), started := world.started + 1,
                      running := world.running + [job.(item := job.item.(runs := job.item.runs + 1))]);
    }

    method HandlerDone(ghost i: nat)
      requires i < |world.running|
      modifies this
      ensures St() == Step(config, old(St()), Succeed(i))
    {
      metrics := metrics.(processed := metrics.processed + 1);
      metrics := metrics.(inFlight := metrics.inFlight - 1);
      ghost var job := world.running[i];
      world := world.(running := RemoveAt(world.running, i), looping := world.looping + multiset{job.group},
                      done := world.done + [job.item]);
      MakeSpace();
    }

    method HandlerFailed(ghost i: nat, item: Item, hasOnFailed: bool)
      requires i < |world.running| && world.running[i].item == item
      modifies this
      ensures St() == Step(config, old(St()), Fail(i, hasOnFailed))
    {
      metrics := metrics.(inFlight := metrics.inFlight - 1);
      world := world.(running := RemoveAt(world.running, i),
                      looping := world.looping + multiset{world.running[i].group});
      if item.attempt + 1 >= config.maxAttempts {
        metrics := metrics.(dropped := metrics.dropped + 1);
        world := world.(drops := world.drops + [item]);
        if hasOnFailed {
          world := world.(failing := world.failing + [item]);
        } else {
          MakeSpace();
        }
        return;
      }
      metrics := metrics.(retried := metrics.retried + 1);
      var nextAttempt := item.attempt + 1;
      var delayMs := Delay(config, item.attempt);
      timers := timers + [Timer(item.(attempt := nextAttempt), delayMs)];
    }

    /** An onFailed call has returned or thrown. */
    method OnFailedReturned(ghost i: nat)
      requires i < |world.failing|
      modifies this
      ensures St() == Step(config, old(St()), OnFailedDone(i))
    {
      world := world.(failing := RemoveAt(world.failing, i));
      MakeSpace();
    }

    method TimerFired(i: nat)
      requires i < |timers|
      modifies this
      ensures St() == Step(config, old(St()), TimerFires(i))
    {
      var item := timers[i].item;
      timers := timers[..i] + timers[i + 1..];
      if stopped {
        world := world.(discarded := world.discarded + [item]);
        return;
      }
      queue := [item] + queue;
      FlushWaiting();
    }

    /** The abort listeners of a group take its parked consumers out of the list. */
    method SignalAborted(group: nat)
      modifies this
      ensures St() == Step(config, old(St()), AbortSignal(group))
    {
      world := world.(aborted := world.aborted + {group});
      var kept := Filtered(waiting, group);
      waiting := kept;
    }

    /** The entries of a waiting list that belong to other groups. */
    static method Filtered(entries: seq<Waiter>, group: nat) returns (kept: seq<Waiter>)
      ensures kept == NotOfGroup(entries, group)
    {
      kept := [];
      var i := 0;
      while i < |entries|
        invariant i <= |entries|
        invariant kept + NotOfGroup(entries[i..], group) == NotOfGroup(entries, group)
      {
        FilterNext(kept, entries, i, group);
        if entries[i].group != group { kept := kept + [entries[i]]; }
        i := i + 1;
      }
    }

    static lemma FilterNext(kept: seq<Waiter>, entries: seq<Waiter>, i: nat, group: nat)
      requires i < |entries|
      ensures kept + NotOfGroup(entries[i..], group) ==
        (if entries[i].group == group then kept else kept + [entries[i]]) + NotOfGroup(entries[i + 1..], group)
    {
      assert entries[i..][1..] == entries[i + 1..];
    }

    /** The stop function returned by process. */
    method StopProcessing(group: nat) returns (released: seq<Waiter>, rejected: seq<Producer>)
      modifies this
      ensures St() == Step(config, old(St()), Event.StopGroup(group))
      ensures rejected == old(spaceWaiters) && released == NotOfGroup(old(waiting), group)
    {
      SignalAborted(group);
      released, rejected := RejectAll();
    }

    method Stop()
      modifies this
      ensures St() == Step(config, old(St()), StopQueue)
    {
      if stopped { return; }
      stopped := true;
      var _, _ := RejectAll();
      world := world.(discarded := world.discarded + TimerItems(timers) + queue);
      timers := [];
      queue := [];
    }
  }
}
