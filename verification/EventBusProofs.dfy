/**
 Publishing on the event bus: which subscriptions an event reaches, how often they are called, and
 what holds of every emitter that subscriptions, publications and removals can produce.
 */
module EventBusProofs {
  import opened Common
  import opened EventBusModel
  import opened Joining

  /** The names an event goes to. */
  function EventNames(entity: string, action: string): seq<string> {
    (if entity != "" && action != "" then [Join(entity, ':', action)] else [])
    + (if entity != "" then [Join(entity, ':', "*")] else [])
    + ["*"]
  }

  /** Emitting a list of names one after the other, on the index. */
  function EmitAll(m: Index, names: seq<string>): (Index, seq<Handler>)
    decreases |names|
  {
    if names == [] then (m, [])
    else
      var (m1, first) := Emit(m, names[0]);
      var (m2, rest) := EmitAll(m1, names[1..]);
      (m2, first + rest)
  }

  function Invoked(m: Index, names: seq<string>): nat {
    if names == [] then 0 else |OnOf(m, names[0])| + Invoked(m, names[1..])
  }

  /** The same on the flat log: who is called, in order. */
  function PublishFlat(log: seq<Sub>, names: seq<string>): (seq<Sub>, seq<Sub>)
    decreases |names|
  {
    if names == [] then (log, [])
    else
      var (l, rest) := PublishFlat(AfterEvent(log, names[0]), names[1..]);
      (l, Named(log, names[0]) + rest)
  }

  /** Publishing on the index does what publishing on the log says. */
  lemma {:induction false} PublishRefines(m: Index, log: seq<Sub>, names: seq<string>)
    requires Refines(m, log)
    ensures var (m', called) := EmitAll(m, names);
      var (log', subs) := PublishFlat(log, names);
      Refines(m', log') && called == Handlers(subs)
    decreases |names|
  {
    if names != [] {
      EmitRefines(m, log, names[0]);
      PublishRefines(Emit(m, names[0]).0, AfterEvent(log, names[0]), names[1..]);
      var rest := PublishFlat(AfterEvent(log, names[0]), names[1..]).1;
      assert Handlers(Named(log, names[0]) + rest) == Handlers(Named(log, names[0])) + Handlers(rest);
    }
  }

  // ---------------------------------------------------------------- names

  /** Does a subscription ask for this event? An action of "*" is the entity wildcard. */
  predicate Matches(f: Filter, entity: string, action: string) {
    match f
    case All => true
    case Entity(e) => e == entity
    case Exact(e, a) => e == entity && (a == action || a == "*")
  }

  /** Subscriptions as the bus makes them. */
  predicate WellMade(s: Sub) {
    s.name == Name(s.filter) && ValidFilter(s.filter)
  }

  /** No colon that could end another entity: none inside the entity, none before the last character
      of the action. */
  predicate Unambiguous(entity: string, action: string) {
    && (forall i :: 0 < i < |entity| ==> entity[i] != ':')
    && (forall i :: 0 <= i < |action| - 1 ==> action[i] != ':')
  }

  lemma OneReading(e1: string, a1: string, entity: string, action: string)
    requires Unambiguous(entity, action) && e1 != "" && a1 != "" && entity != ""
    ensures Join(e1, ':', a1) == Join(entity, ':', action) <==> e1 == entity && a1 == action
    ensures Join(e1, ':', a1) != "*"
  {
    assert Join(e1, ':', a1)[|e1|] == ':';
    if Join(e1, ':', a1) == Join(entity, ':', action) {
      if |e1| == |entity| {
        SameHead(e1, a1, entity, action, ':');
      } else if |e1| < |entity| {
        var _ := LongerHead(e1, a1, entity, action, ':');
      } else {
        var _ := LongerHead(entity, action, e1, a1, ':');
      }
    }
  }

  /** The names of an unambiguous event reach exactly the matching subscriptions; the first two
      coincide exactly when the action is "*". */
  lemma NamesMatch(s: Sub, entity: string, action: string)
    requires WellMade(s) && Unambiguous(entity, action) && entity != "" && action != ""
    ensures s.name in EventNames(entity, action) <==> Matches(s.filter, entity, action)
    ensures Join(entity, ':', action) != "*" && Join(entity, ':', "*") != "*"
    ensures Join(entity, ':', action) == Join(entity, ':', "*") <==> action == "*"
  {
    OneReading(entity, "*", entity, action);
    OneReading(entity, action, entity, "*");
    match s.filter
    case All =>
    case Entity(e) =>
      OneReading(e, "*", entity, action);
      OneReading(e, "*", entity, "*");
    case Exact(e, a) =>
      OneReading(e, a, entity, action);
      OneReading(e, a, entity, "*");
  }

  /** What a call of subscribe asks for, in its own arguments: exactly the events of that entity, all of
      them if it names no action or "*", else those of that action. */
  lemma SubscribedTo(entity: string, action: string, e: string, a: string)
    requires entity != "" && e != "" && a != "" && Unambiguous(e, a)
    ensures Name(FilterOf(entity, action)) in EventNames(e, a) <==> e == entity && (action == "" || action == "*" || a == action)
    ensures Matches(FilterOf(entity, action), e, a) <==> e == entity && (action == "" || action == "*" || a == action)
    ensures ValidFilter(FilterOf(entity, action))
    ensures Name(FilterOf(entity, action)) == entity + ":" + if action == "" then "*" else action
  {
    NamesMatch(SubTo(FilterOf(entity, action)), e, a);
  }

  /** A subscription that is reached although it does not ask for the event. */
  ghost predicate Strays(s: Sub, entity: string, action: string) {
    WellMade(s) && s.name in EventNames(entity, action) && !Matches(s.filter, entity, action)
  }

  function SubTo(f: Filter): Sub {
    Sub(0, f, Name(f), 0, false)
  }

  /** A colon inside the entity: the part before it is another entity. */
  lemma ColonInEntity(entity: string, action: string, i: nat)
    requires 0 < i < |entity| && entity[i] == ':' && action != ""
    ensures Strays(SubTo(Exact(entity[..i], Join(entity[i + 1..], ':', action))), entity, action)
  {
    var head, mid := entity[..i], entity[i + 1..];
    assert entity == Join(head, ':', mid);
    JoinRegroup(head, mid, action, ':');
  }

  /** A colon in the action: the entity and the part before it are another entity. */
  lemma ColonInAction(entity: string, action: string, i: nat)
    requires entity != "" && 0 <= i < |action| - 1 && action[i] == ':'
    ensures Strays(SubTo(Exact(Join(entity, ':', action[..i]), action[i + 1..])), entity, action)
  {
    var mid, tail := action[..i], action[i + 1..];
    assert action == Join(mid, ':', tail);
    JoinRegroup(entity, mid, tail, ':');
  }

  /** The exact condition: an event reaches only subscriptions that ask for it if and only if it is
      unambiguous. */
  lemma OnlyMatchingReachedIff(entity: string, action: string)
    requires entity != "" && action != ""
    ensures (forall s :: !Strays(s, entity, action)) <==> Unambiguous(entity, action)
  {
    if Unambiguous(entity, action) {
      forall s ensures !Strays(s, entity, action) {
        if WellMade(s) { NamesMatch(s, entity, action); }
      }
    } else if i :| 0 < i < |entity| && entity[i] == ':' {
      ColonInEntity(entity, action, i);
    } else {
      var i :| 0 <= i < |action| - 1 && action[i] == ':';
      ColonInAction(entity, action, i);
    }
  }

  /** With a colon in an entity two different filters share a name, and an event for the one calls
      the subscription of the other. */
  lemma ColonEntitiesCollide(entity: string, part: string, action: string)
    requires entity != "" && action != ""
    ensures var s := SubTo(Exact(entity, Join(part, ':', action)));
      var event := Join(entity, ':', part);
      && s.name == Name(Exact(event, action)) && !Matches(s.filter, event, action)
      && s in PublishFlat([s], EventNames(event, action)).1
  {
    var s, event := SubTo(Exact(entity, Join(part, ':', action))), Join(entity, ':', part);
    JoinRegroup(entity, part, action, ':');
    var n1, n2, n3 := Join(event, ':', action), Join(event, ':', "*"), "*";
    assert EventNames(event, action) == [n1, n2, n3];
    PublishThree([s], n1, n2, n3);
    assert Named([s], n1) == [s] + Named([s][1..], n1);
    assert (Named([s], n1) + Named(AfterEvent([s], n1), n2))[0] == s;
  }

  // ---------------------------------------------------------------- how often

  lemma HeadCounts(log: seq<Sub>, s: Sub)
    requires log != []
    ensures multiset(log)[s] == multiset(log[1..])[s] + if log[0] == s then 1 else 0
  {
    assert log == [log[0]] + log[1..];
  }

  lemma {:induction false} NamedCount(log: seq<Sub>, n: string, s: Sub)
    ensures multiset(Named(log, n))[s] == if s.name == n then multiset(log)[s] else 0
  {
    if log != [] {
      NamedCount(log[1..], n, s);
      HeadCounts(log, s);
    }
  }

  lemma {:induction false} RemainingCount(log: seq<Sub>, n: string, s: Sub)
    ensures multiset(AfterEvent(log, n))[s] == if s.name == n && s.once then 0 else multiset(log)[s]
  {
    if log != [] {
      RemainingCount(log[1..], n, s);
      HeadCounts(log, s);
    }
  }

  lemma NamedCounts(log: seq<Sub>, n: string, s: Sub)
    ensures multiset(Named(log, n))[s] == if s.name == n then multiset(log)[s] else 0
    ensures multiset(AfterEvent(log, n))[s] == if s.name == n && s.once then 0 else multiset(log)[s]
  {
    NamedCount(log, n, s);
    RemainingCount(log, n, s);
  }

  lemma PublishStep(log: seq<Sub>, n: string, names: seq<string>)
    ensures PublishFlat(log, [n] + names).0 == PublishFlat(AfterEvent(log, n), names).0
    ensures PublishFlat(log, [n] + names).1 == Named(log, n) + PublishFlat(AfterEvent(log, n), names).1
  {
    assert ([n] + names)[1..] == names;
  }

  lemma PublishThree(log: seq<Sub>, n1: string, n2: string, n3: string)
    ensures var l1 := AfterEvent(log, n1);
      var l2 := AfterEvent(l1, n2);
      && PublishFlat(log, [n1, n2, n3]).0 == AfterEvent(l2, n3)
      && PublishFlat(log, [n1, n2, n3]).1 == Named(log, n1) + Named(l1, n2) + Named(l2, n3)
  {
    var l1 := AfterEvent(log, n1);
    assert [n1, n2, n3] == [n1] + [n2, n3];
    PublishStep(log, n1, [n2, n3]);
    PublishTwo(l1, n2, n3);
    Regroup(Named(log, n1), Named(l1, n2), Named(AfterEvent(l1, n2), n3));
  }

  lemma PublishTwo(log: seq<Sub>, n1: string, n2: string)
    ensures PublishFlat(log, [n1, n2]).0 == AfterEvent(AfterEvent(log, n1), n2)
    ensures PublishFlat(log, [n1, n2]).1 == Named(log, n1) + Named(AfterEvent(log, n1), n2)
  {
    var l1 := AfterEvent(log, n1);
    assert [n1, n2] == [n1] + [n2] && [n2] == [n2] + [];
    PublishStep(log, n1, [n2]);
    PublishStep(l1, n2, []);
    assert Named(l1, n2) + [] == Named(l1, n2);
  }

  /** How often an event calls a subscription: a lasting one of the entity wildcard twice if the
      action is "*", any other one once if it asks for the event. */
  function Times(s: Sub, entity: string, action: string): nat {
    if !Matches(s.filter, entity, action) then 0
    else if action == "*" && s.name == Join(entity, ':', "*") && !s.once then 2
    else 1
  }

  predicate Publishable(entity: string, action: string) {
    entity != "" && action != "" && Unambiguous(entity, action)
  }

  /** The names of an event meet a subscription as often as the event calls it. */
  lemma TimesIs(s: Sub, entity: string, action: string, m: nat)
    requires WellMade(s) && Publishable(entity, action)
    ensures var n1, n2 := Join(entity, ':', action), Join(entity, ':', "*");
      && n1 != "*" && n2 != "*"
      && (Matches(s.filter, entity, action) <==> s.name == n1 || s.name == n2 || s.name == "*")
      && Times(s, entity, action) * m
         == (if s.name == n1 then m else 0) + (if s.name == n2 && (n1 != n2 || !s.once) then m else 0)
            + (if s.name == "*" then m else 0)
  {
    NamesMatch(s, entity, action);
    Multiples(m);
  }

  /** What publishing on the log does to a subscription. */
  lemma PublishCounts(log: seq<Sub>, entity: string, action: string, s: Sub)
    requires WellMade(s) && Publishable(entity, action)
    ensures var (log', subs) := PublishFlat(log, EventNames(entity, action));
      && multiset(subs)[s] == Times(s, entity, action) * multiset(log)[s]
      && multiset(log')[s] == if Matches(s.filter, entity, action) && s.once then 0 else multiset(log)[s]
  {
    var n1, n2, n3 := Join(entity, ':', action), Join(entity, ':', "*"), "*";
    assert EventNames(entity, action) == [n1, n2, n3];
    TimesIs(s, entity, action, multiset(log)[s]);
    NamesCount(log, n1, n2, n3, s);
  }

  lemma NamesCount(log: seq<Sub>, n1: string, n2: string, n3: string, s: Sub)
    requires n1 != n3 && n2 != n3
    ensures var (log', subs) := PublishFlat(log, [n1, n2, n3]);
      var m := multiset(log)[s];
      && multiset(subs)[s]
         == (if s.name == n1 then m else 0) + (if s.name == n2 && (n1 != n2 || !s.once) then m else 0)
            + (if s.name == n3 then m else 0)
      && multiset(log')[s] == if (s.name == n1 || s.name == n2 || s.name == n3) && s.once then 0 else m
  {
    PublishThree(log, n1, n2, n3);
    ThreeCounts(log, n1, n2, n3, s);
  }

  lemma Multiples(n: nat)
    ensures 0 * n == 0 && 1 * n == n && 2 * n == n + n
  {
  }

  lemma ThreeCounts(log: seq<Sub>, n1: string, n2: string, n3: string, s: Sub)
    requires n1 != n3 && n2 != n3
    ensures var l1 := AfterEvent(log, n1);
      var l2 := AfterEvent(l1, n2);
      var m := multiset(log)[s];
      && multiset(Named(log, n1) + Named(l1, n2) + Named(l2, n3))[s]
         == (if s.name == n1 then m else 0) + (if s.name == n2 && (n1 != n2 || !s.once) then m else 0)
            + (if s.name == n3 then m else 0)
      && multiset(AfterEvent(l2, n3))[s] == if (s.name == n1 || s.name == n2 || s.name == n3) && s.once then 0 else m
  {
    var l1 := AfterEvent(log, n1);
    var l2 := AfterEvent(l1, n2);
    var m := multiset(log)[s];
    NamedCounts(log, n1, s);
    NamedCounts(l1, n2, s);
    NamedCounts(l2, n3, s);
    assert multiset(l1)[s] == if s.name == n1 && s.once then 0 else m;
    assert multiset(l2)[s] == if (s.name == n1 || s.name == n2) && s.once then 0 else m;
  }

  lemma {:induction false} LastingLength(subs: seq<Sub>)
    ensures |Lasting(subs)| <= |subs|
    ensures |Lasting(subs)| == |subs| <==> forall s :: s in subs ==> !s.once
  {
    if subs != [] {
      LastingLength(subs[1..]);
      assert forall s :: s in subs <==> s == subs[0] || s in subs[1..];
    }
  }

  lemma InvokedThree(m: Index, n1: string, n2: string, n3: string)
    ensures Invoked(m, [n1, n2, n3]) == |OnOf(m, n1)| + |OnOf(m, n2)| + |OnOf(m, n3)|
  {
    assert [n1, n2, n3][1..] == [n2, n3] && [n2, n3][1..] == [n3] && [n3][1..] == [];
    assert Invoked(m, [n3]) == |OnOf(m, n3)| + Invoked(m, []);
    assert Invoked(m, [n2, n3]) == |OnOf(m, n2)| + Invoked(m, [n3]);
  }

  /** handlersInvoked, computed before the event, is never less than the number of calls and equal to
      it unless the action is "*" and a subscription of the entity wildcard fires once. */
  lemma InvokedIsCallsIff(m: Index, log: seq<Sub>, entity: string, action: string)
    requires Refines(m, log) && Publishable(entity, action)
    ensures var names := EventNames(entity, action);
      && Invoked(m, names) >= |PublishFlat(log, names).1|
      && (Invoked(m, names) == |PublishFlat(log, names).1|
          <==> action != "*" || forall s :: s in log && s.name == Join(entity, ':', "*") ==> !s.once)
  {
    var n1, n2, n3 := Join(entity, ':', action), Join(entity, ':', "*"), "*";
    assert EventNames(entity, action) == [n1, n2, n3];
    NamesMatch(SubTo(All), entity, action);
    InvokedOfNames(m, log, n1, n2, n3);
  }

  lemma InvokedOfNames(m: Index, log: seq<Sub>, n1: string, n2: string, n3: string)
    requires Refines(m, log) && n1 != n3 && n2 != n3
    ensures var invoked, calls := Invoked(m, [n1, n2, n3]), |PublishFlat(log, [n1, n2, n3]).1|;
      invoked >= calls && (invoked == calls <==> n1 != n2 || forall s :: s in log && s.name == n2 ==> !s.once)
  {
    PublishThree(log, n1, n2, n3);
    InvokedThree(m, n1, n2, n3);
    NamedAfterEvent(log, n1, n2);
    NamedAfterEvent(log, n1, n3);
    NamedAfterEvent(AfterEvent(log, n1), n2, n3);
    LastingLength(Named(log, n2));
    NamedMembers(log, n2);
    assert |OnOf(m, n1)| == |Named(log, n1)| && |OnOf(m, n2)| == |Named(log, n2)| && |OnOf(m, n3)| == |Named(log, n3)|;
  }

  /** For an unambiguous event whose action is not "*": the handlers are those of the exact name, then
      of the entity, then of everything, each group in subscription order; each subscription is called
      once per time it is in the log if its filter matches and not at all otherwise; and the
      handlersInvoked computed beforehand is that number. */
  lemma PublishCallsMatchingOnce(m: Index, log: seq<Sub>, entity: string, action: string)
    requires Refines(m, log) && (forall s :: s in log ==> WellMade(s))
    requires Publishable(entity, action) && action != "*"
    ensures var names := EventNames(entity, action);
      var (log', subs) := PublishFlat(log, names);
      && subs == Named(log, Join(entity, ':', action)) + Named(log, Join(entity, ':', "*")) + Named(log, "*")
      && EmitAll(m, names).1 == Handlers(subs)
      && Invoked(m, names) == |EmitAll(m, names).1|
      && (forall s :: s in log ==> multiset(subs)[s] == if Matches(s.filter, entity, action) then multiset(log)[s] else 0)
      && (forall s :: s in log ==>
            multiset(log')[s] == if Matches(s.filter, entity, action) && s.once then 0 else multiset(log)[s])
  {
    var n1, n2, n3 := Join(entity, ':', action), Join(entity, ':', "*"), "*";
    var names := EventNames(entity, action);
    assert names == [n1, n2, n3];
    NamesMatch(SubTo(All), entity, action);
    PublishRefines(m, log, names);
    PublishThree(log, n1, n2, n3);
    NamedAfterEvent(log, n1, n2);
    NamedAfterEvent(log, n1, n3);
    NamedAfterEvent(AfterEvent(log, n1), n2, n3);
    InvokedIsCallsIff(m, log, entity, action);
    forall s | s in log
      ensures multiset(PublishFlat(log, names).1)[s] == if Matches(s.filter, entity, action) then multiset(log)[s] else 0
      ensures multiset(PublishFlat(log, names).0)[s] == if Matches(s.filter, entity, action) && s.once then 0 else multiset(log)[s]
    {
      PublishCounts(log, entity, action, s);
      Multiples(multiset(log)[s]);
    }
  }

  /** An event with action "*" goes to the entity wildcard twice: its lasting subscriptions there
      are called twice, those that fire once are called once. */
  lemma StarActionCallsTwice(log: seq<Sub>, entity: string, s: Sub)
    requires Publishable(entity, "*") && WellMade(s) && s.name == Join(entity, ':', "*")
    ensures multiset(PublishFlat(log, EventNames(entity, "*")).1)[s] == (if s.once then 1 else 2) * multiset(log)[s]
  {
    NamesMatch(s, entity, "*");
    PublishCounts(log, entity, "*", s);
  }

  /** The exact condition: an unambiguous event calls each subscription that asks for it exactly once
      if and only if its action is not "*" or nothing lasts under the entity wildcard. */
  lemma EachOnceIff(log: seq<Sub>, entity: string, action: string)
    requires Publishable(entity, action) && forall s :: s in log ==> WellMade(s)
    ensures var subs := PublishFlat(log, EventNames(entity, action)).1;
      (forall s :: s in log && Matches(s.filter, entity, action) ==> multiset(subs)[s] == multiset(log)[s])
      <==> action != "*" || forall s :: s in log && s.name == Join(entity, ':', "*") ==> s.once
  {
    var subs := PublishFlat(log, EventNames(entity, action)).1;
    forall s | s in log
      ensures multiset(subs)[s] == Times(s, entity, action) * multiset(log)[s] && multiset(log)[s] >= 1
      ensures s.name in EventNames(entity, action) <==> Matches(s.filter, entity, action)
    {
      PublishCounts(log, entity, action, s);
      NamesMatch(s, entity, action);
      assert s in multiset(log);
    }
    if s :| s in log && s.name == Join(entity, ':', "*") && !s.once && action == "*" {
      assert Times(s, entity, action) == 2;
      Multiples(multiset(log)[s]);
    } else {
      forall s | s in log && Matches(s.filter, entity, action) ensures multiset(subs)[s] == multiset(log)[s] {
        assert Times(s, entity, action) == 1;
        Multiples(multiset(log)[s]);
      }
    }
  }

  // ---------------------------------------------------------------- whole runs, on the log

  datatype Event =
    | Subscribe(filter: Filter, handler: Handler, once: bool)
    | Unsubscribe(filter: Filter, handler: Handler)
    | Publish(entity: string, action: string)
    | ClearAll
    | ClearName(filter: Filter)

  /** The log with the next free token and everything called so far. */
  datatype Bus = Bus(log: seq<Sub>, next: nat, history: seq<Sub>)

  const NEW_BUS := Bus([], 0, [])

  function StepSubscribe(b: Bus, f: Filter, h: Handler, once: bool): Bus {
    if !ValidFilter(f) || exists s :: s in b.log && s.name == Name(f) && s.handler == h then b
    else b.(log := b.log + [Sub(b.next, f, Name(f), h, once)], next := b.next + 1)
  }

  function Step(b: Bus, e: Event): Bus {
    match e
    case Subscribe(f, h, once) => StepSubscribe(b, f, h, once)
    case Unsubscribe(f, h) => b.(log := Cancel(b.log, Name(f), h))
    case Publish(entity, action) =>
      if entity == "" || action == "" then b
      else
        var (log, called) := PublishFlat(b.log, EventNames(entity, action));
        b.(log := log, history := b.history + called)
    case ClearAll => b.(log := [])
    case ClearName(f) => b.(log := Cleared(b.log, Name(f)))
  }

  function Exec(b: Bus, es: seq<Event>): Bus
    decreases |es|
  {
    if es == [] then b else Exec(Step(b, es[0]), es[1..])
  }

  lemma {:induction false} CancelExact(log: seq<Sub>, n: string, h: Handler, s: Sub)
    ensures multiset(Cancel(log, n, h))[s] == if s.name == n && s.handler == h then 0 else multiset(log)[s]
  {
    if log != [] {
      CancelExact(log[1..], n, h, s);
      HeadCounts(log, s);
    }
  }

  lemma {:induction false} ClearedExact(log: seq<Sub>, n: string, s: Sub)
    ensures multiset(Cleared(log, n))[s] == if s.name == n then 0 else multiset(log)[s]
  {
    if log != [] {
      ClearedExact(log[1..], n, s);
      HeadCounts(log, s);
    }
  }

  /** What subscribing and unsubscribing do to the log: a valid new subscription stands last; removing
      takes exactly those of that handler under that name, clearing a name all under it, and clearing
      everything all. Nobody is called. */
  lemma LogStepIs(b: Bus, e: Event, s: Sub)
    requires !e.Publish?
    ensures var c := Step(b, e);
      && c.history == b.history
      && (e.Subscribe? ==>
            var dup := exists t :: t in b.log && t.name == Name(e.filter) && t.handler == e.handler;
            c.log == b.log + if ValidFilter(e.filter) && !dup then [Sub(b.next, e.filter, Name(e.filter), e.handler, e.once)] else [])
      && (e.Unsubscribe? ==>
            multiset(c.log)[s] == if s.name == Name(e.filter) && s.handler == e.handler then 0 else multiset(b.log)[s])
      && (e.ClearName? ==> multiset(c.log)[s] == if s.name == Name(e.filter) then 0 else multiset(b.log)[s])
      && (e.ClearAll? ==> c.log == [])
  {
    match e
    case Unsubscribe(f, h) => CancelExact(b.log, Name(f), h, s);
    case ClearName(f) => ClearedExact(b.log, Name(f), s);
    case _ =>
  }

  ghost predicate OnceInv(b: Bus) {
    && (forall s :: s in b.log || s in b.history ==> s.token < b.next)
    && (forall s: Sub :: s.once ==> multiset(b.log)[s] + multiset(b.history)[s] <= 1)
  }

  function EmitOn(b: Bus, name: string): Bus {
    b.(log := AfterEvent(b.log, name), history := b.history + Named(b.log, name))
  }

  lemma EmitKeepsOnce(b: Bus, name: string)
    requires OnceInv(b)
    ensures OnceInv(EmitOn(b, name))
  {
    var c := EmitOn(b, name);
    AfterEventMembers(b.log, name);
    NamedMembers(b.log, name);
    forall s: Sub | s.once ensures multiset(c.log)[s] + multiset(c.history)[s] <= 1 {
      NamedCounts(b.log, name, s);
      assert multiset(c.history)[s] == multiset(b.history)[s] + multiset(Named(b.log, name))[s];
    }
  }

  lemma {:induction false} PublishKeepsOnce(b: Bus, names: seq<string>)
    requires OnceInv(b)
    ensures var (log, called) := PublishFlat(b.log, names);
      OnceInv(b.(log := log, history := b.history + called))
    decreases |names|
  {
    if names == [] {
      assert b.history + [] == b.history;
    } else {
      var c := EmitOn(b, names[0]);
      EmitKeepsOnce(b, names[0]);
      PublishKeepsOnce(c, names[1..]);
      assert names == [names[0]] + names[1..];
      PublishStep(b.log, names[0], names[1..]);
      Regroup(b.history, Named(b.log, names[0]), PublishFlat(c.log, names[1..]).1);
    }
  }

  lemma StepKeepsOnce(b: Bus, e: Event)
    requires OnceInv(b)
    ensures OnceInv(Step(b, e))
  {
    match e
    case Subscribe(f, h, once) =>
    case Unsubscribe(f, h) => RemovalKeeps(b, Cancel(b.log, Name(f), h), Name(f), h);
    case Publish(entity, action) => PublishKeepsOnce(b, EventNames(entity, action));
    case ClearAll =>
    case ClearName(f) => RemovalKeeps(b, Cleared(b.log, Name(f)), Name(f), 0);
  }

  lemma RemovalKeeps(b: Bus, log: seq<Sub>, n: string, h: Handler)
    requires OnceInv(b) && (log == Cancel(b.log, n, h) || log == Cleared(b.log, n))
    ensures OnceInv(b.(log := log))
  {
    forall s: Sub ensures multiset(log)[s] <= multiset(b.log)[s] {
      CancelExact(b.log, n, h, s);
      ClearedExact(b.log, n, s);
    }
    forall s | s in log ensures s in b.log { assert multiset(log)[s] > 0; assert s in multiset(b.log); }
  }

  /** A once subscription is called at most once, over every sequence of subscriptions, publications
      (with any action) and removals; after its call it is gone. */
  lemma {:induction false} OnceFiresOnce(b: Bus, es: seq<Event>)
    requires OnceInv(b)
    ensures forall s: Sub :: s.once ==> multiset(Exec(b, es).history)[s] <= 1
    ensures forall s: Sub :: s.once && s in Exec(b, es).history ==> s !in Exec(b, es).log
    decreases |es|
  {
    if es == [] {
      forall s: Sub | s.once && s in b.history ensures s !in b.log {
        assert multiset(b.history)[s] >= 1;
        assert multiset(b.log)[s] == 0;
      }
    } else {
      StepKeepsOnce(b, es[0]);
      OnceFiresOnce(Step(b, es[0]), es[1..]);
    }
  }

  /** The log of a run: every subscription well made and there once. */
  ghost predicate GoodLog(b: Bus) {
    && (forall s :: s in b.log ==> WellMade(s) && s.token < b.next)
    && (forall s: Sub :: multiset(b.log)[s] <= 1)
  }

  lemma {:induction false} PublishShrinks(log: seq<Sub>, names: seq<string>, s: Sub)
    ensures multiset(PublishFlat(log, names).0)[s] <= multiset(log)[s]
    decreases |names|
  {
    if names != [] {
      NamedCounts(log, names[0], s);
      PublishShrinks(AfterEvent(log, names[0]), names[1..], s);
    }
  }

  lemma StepKeepsGood(b: Bus, e: Event)
    requires GoodLog(b)
    ensures GoodLog(Step(b, e))
  {
    var c := Step(b, e);
    if e.Subscribe? {
      SubscribeKeepsGood(b, e.filter, e.handler, e.once);
    } else {
      forall s: Sub ensures multiset(c.log)[s] <= multiset(b.log)[s] {
        match e
        case Unsubscribe(f, h) => CancelExact(b.log, Name(f), h, s);
        case Publish(entity, action) => PublishShrinks(b.log, EventNames(entity, action), s);
        case ClearName(f) => ClearedExact(b.log, Name(f), s);
        case _ =>
      }
      forall s | s in c.log ensures s in b.log {
        assert multiset(c.log)[s] > 0;
        assert s in multiset(b.log);
      }
    }
  }

  lemma SubscribeKeepsGood(b: Bus, f: Filter, h: Handler, once: bool)
    requires GoodLog(b)
    ensures GoodLog(StepSubscribe(b, f, h, once))
  {
    var c := StepSubscribe(b, f, h, once);
    if c != b {
      var new_ := Sub(b.next, f, Name(f), h, once);
      assert new_ !in b.log;
      forall s: Sub ensures multiset(c.log)[s] <= 1 {
        if s == new_ { assert multiset(b.log)[s] == 0; }
      }
    }
  }

  // ---------------------------------------------------------------- whole runs, on the index

  /** The emitter's index and the handlers called so far. */
  datatype Indexed = Indexed(index: Index, calls: seq<Handler>)

  const NEW_INDEX := Indexed(map[], [])

  function StepIndex(b: Indexed, limit: int, e: Event): Indexed {
    match e
    case Subscribe(f, h, once) =>
      if !ValidFilter(f) then b else b.(index := AddListener(b.index, Name(f), h, once, limit).0)
    case Unsubscribe(f, h) => b.(index := Off(b.index, Name(f), h))
    case Publish(entity, action) =>
      if entity == "" || action == "" then b
      else
        var (index, called) := EmitAll(b.index, EventNames(entity, action));
        Indexed(index, b.calls + called)
    case ClearAll => b.(index := map[])
    case ClearName(f) => b.(index := b.index - {Name(f)})
  }

  function ExecIndex(b: Indexed, limit: int, es: seq<Event>): Indexed
    decreases |es|
  {
    if es == [] then b else ExecIndex(StepIndex(b, limit, es[0]), limit, es[1..])
  }

  ghost predicate Same(i: Indexed, b: Bus) {
    Refines(i.index, b.log) && i.calls == Handlers(b.history)
  }

  lemma EmptySame(i: Indexed, b: Bus)
    requires i.calls == Handlers(b.history)
    ensures Same(i.(index := map[]), b.(log := []))
  {
    forall name
      ensures OnOf(map[], name) == Handlers(Named([], name)) && OnceOf(map[], name) == OnceHandlers(Named([], name))
    {
      assert OnceHandlers([]) == {};
    }
  }

  lemma StepSame(i: Indexed, b: Bus, limit: int, e: Event)
    requires Same(i, b)
    ensures Same(StepIndex(i, limit, e), Step(b, e))
  {
    match e
    case Subscribe(f, h, once) =>
      if ValidFilter(f) {
        DuplicateIff(i.index, b.log, Name(f), h);
        AddRefines(i.index, b.log, Sub(b.next, f, Name(f), h, once), limit);
      }
    case Unsubscribe(f, h) => OffRefines(i.index, b.log, Name(f), h);
    case Publish(entity, action) =>
      var names := EventNames(entity, action);
      PublishRefines(i.index, b.log, names);
      var called := PublishFlat(b.log, names).1;
      assert Handlers(b.history + called) == Handlers(b.history) + Handlers(called);
    case ClearAll => EmptySame(i, b);
    case ClearName(f) => ClearRefines(i.index, b.log, Name(f));
  }

  lemma {:induction false} RunSame(i: Indexed, b: Bus, limit: int, es: seq<Event>)
    requires Same(i, b) && GoodLog(b)
    ensures Same(ExecIndex(i, limit, es), Exec(b, es)) && GoodLog(Exec(b, es))
    decreases |es|
  {
    if es != [] {
      StepSame(i, b, limit, es[0]);
      StepKeepsGood(b, es[0]);
      RunSame(StepIndex(i, limit, es[0]), Step(b, es[0]), limit, es[1..]);
    }
  }

  /** The refinement over every run: from an empty emitter, whatever is subscribed, published,
      unsubscribed and cleared, with any listener limit, the index says what the flat log says and has
      called exactly the handlers the log has called, in the same order. */
  lemma EmitterRefinesLog(limit: int, es: seq<Event>)
    ensures var i, b := ExecIndex(NEW_INDEX, limit, es), Exec(NEW_BUS, es);
      && Refines(i.index, b.log) && i.calls == Handlers(b.history)
      && (forall s :: s in b.log ==> WellMade(s)) && (forall s: Sub :: multiset(b.log)[s] <= 1)
  {
    EmptySame(NEW_INDEX, NEW_BUS);
    RunSame(NEW_INDEX, NEW_BUS, limit, es);
  }

  /** Publishing on any emitter a run can produce: an unambiguous event whose action is not "*" calls
      each live subscription that asks for it exactly once and no other one, and reports that number. */
  lemma ReachablePublish(limit: int, es: seq<Event>, entity: string, action: string)
    requires Publishable(entity, action) && action != "*"
    ensures var i, b := ExecIndex(NEW_INDEX, limit, es), Exec(NEW_BUS, es);
      var names := EventNames(entity, action);
      var subs := PublishFlat(b.log, names).1;
      && EmitAll(i.index, names).1 == Handlers(subs)
      && Invoked(i.index, names) == |subs|
      && (forall s :: s in b.log ==> multiset(subs)[s] == if Matches(s.filter, entity, action) then 1 else 0)
  {
    EmitterRefinesLog(limit, es);
    var i, b := ExecIndex(NEW_INDEX, limit, es), Exec(NEW_BUS, es);
    PublishCallsMatchingOnce(i.index, b.log, entity, action);
    forall s | s in b.log ensures multiset(b.log)[s] == 1 { assert s in multiset(b.log); }
  }

  /** Over every run of the emitter: its calls are those of a history of subscriptions in which no
      once subscription occurs twice, nor is still subscribed when it has occurred. */
  lemma OnceFiresOnceInEmitter(limit: int, es: seq<Event>)
    ensures var i, b := ExecIndex(NEW_INDEX, limit, es), Exec(NEW_BUS, es);
      && i.calls == Handlers(b.history)
      && (forall s: Sub :: s.once ==> multiset(b.history)[s] <= 1)
      && (forall s: Sub :: s.once && s in b.history ==> s !in b.log)
  {
    EmitterRefinesLog(limit, es);
    OnceFiresOnce(NEW_BUS, es);
  }
}
