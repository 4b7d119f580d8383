/**
 The emitter and the event bus as objects. Each method takes the step of the index machine whose
 runs refine the flat log.
 */
module EventBusObject {
  import opened Common
  import opened EventBusModel
  import opened EventBusProofs

  class Emitter {
    const maxListeners: int
    var index: Index

    constructor (maxListeners: int)
      ensures this.maxListeners == maxListeners && index == map[]
    {
      this.maxListeners := maxListeners;
      index := map[];
    }

    /** Call all listeners of a name in order and keep those that are not once. */
    method EmitName(name: string) returns (called: seq<Handler>, unhandledError: bool)
      modifies this
      ensures (index, called) == Emit(old(index), name)
      ensures unhandledError <==> name == "error" && name !in old(index)
      ensures name in index <==>
        name in old(index) && (old(index)[name].once == {} || exists h :: h in old(index)[name].on && h !in old(index)[name].once)
    {
      if name !in index { return [], name == "error"; }
      var event := index[name];
      called, unhandledError := event.on, false;
      if |event.once| > 0 {
        var on: seq<Handler> := [];
        var i := 0;
        while i < |event.on|
          invariant i <= |event.on| && index == old(index)
          invariant on + Without(event.on[i..], event.once) == Without(event.on, event.once)
        {
          assert event.on[i..][1..] == event.on[i + 1..];
          if event.on[i] !in event.once { on := on + [event.on[i]]; }
          i := i + 1;
        }
        assert on + [] == on && on == Without(event.on, event.once);
        WithoutIs(event.on, event.once);
        if |on| > 0 { assert on[0] in on; }
        if |on| == 0 {
          index := index - {name};
        } else {
          index := index[name := Listeners(on, {})];
        }
      }
    }

    method Add(name: string, h: Handler, once: bool) returns (r: Added)
      modifies this
      ensures (index, r) == AddListener(old(index), name, h, once, maxListeners)
      ensures r == Duplicate <==> h in OnOf(old(index), name)
      ensures r == OverLimit <==> h !in OnOf(old(index), name) && |OnOf(old(index), name)| >= maxListeners
      ensures OnOf(index, name) == OnOf(old(index), name) + if r == Duplicate then [] else [h]
    {
      if name !in index {
        index := index[name := Listeners([h], if once then {h} else {})];
        assert [] + [h] == [h] && {} + (if once then {h} else {}) == if once then {h} else {};
      } else {
        var event := index[name];
        if h in event.on { return Duplicate; }
        assert event.once + {} == event.once;
        index := index[name := Listeners(event.on + [h], if once then event.once + {h} else event.once)];
      }
      return if |index[name].on| > maxListeners then OverLimit else Fine;
    }

    /** Take one listener out at its position. */
    method Remove(name: string, h: Handler)
      modifies this
      ensures index == Off(old(index), name, h)
    {
      if name !in index { return; }
      var event := index[name];
      var at := 0;
      while at < |event.on| && event.on[at] != h
        invariant at <= |event.on| && forall i :: 0 <= i < at ==> event.on[i] != h
      {
        at := at + 1;
      }
      CutFirstIs(event.on, h, at);
      var on := if at < |event.on| then event.on[..at] + event.on[at + 1..] else event.on;
      index := index[name := Listeners(on, event.once - {h})];
    }

    method ClearListeners(name: string)
      modifies this
      ensures index == old(index) - {name}
    {
      index := map n | n in index && n != name :: index[n];
    }

    method Count(name: string) returns (n: nat)
      ensures n == |OnOf(index, name)|
    {
      return if name in index then |index[name].on| else 0;
    }
  }

  lemma {:induction false} WithoutIs(on: seq<Handler>, once: set<Handler>)
    ensures forall h :: h in Without(on, once) <==> h in on && h !in once
  {
    if on != [] { WithoutIs(on[1..], once); }
  }

  lemma {:induction false} CutFirstIs(on: seq<Handler>, h: Handler, at: nat)
    requires at <= |on| && (at < |on| ==> on[at] == h) && forall i :: 0 <= i < at ==> on[i] != h
    ensures CutFirst(on, h) == if at < |on| then on[..at] + on[at + 1..] else on
  {
    if at == 0 {
      if on != [] { assert on[..0] + on[1..] == on[1..]; }
    } else {
      CutFirstIs(on[1..], h, at - 1);
      if at < |on| { CutOneOn(on, at); } else { assert [on[0]] + on[1..] == on; }
    }
  }

  lemma CutOneOn(on: seq<Handler>, at: nat)
    requires 0 < at < |on|
    ensures [on[0]] + (on[1..][..at - 1] + on[1..][at - 1 + 1..]) == on[..at] + on[at + 1..]
  {
  }

  /** How a subscription ends: no entity given, or what the emitter says. */
  datatype Subscribed = NoEntity | Listening(added: Added)

  class EventBus {
    const emitter: Emitter
    var published: nat
    ghost var calls: seq<Handler>

    ghost function St(): Indexed
      reads this, emitter
    {
      Indexed(emitter.index, calls)
    }

    /** Without a limit of its own, no more than 1000 listeners per name go unreported. */
    constructor (maxListeners: int)
      ensures fresh(emitter) && St() == NEW_INDEX && published == 0
      ensures emitter.maxListeners == if maxListeners == 0 then 1000 else maxListeners
    {
      emitter := new Emitter(if maxListeners == 0 then 1000 else maxListeners);
      published, calls := 0, [];
    }

    /** subscribe and once: an empty action asks for all of the entity. */
    method SubscribeTo(entity: string, action: string, h: Handler, once: bool) returns (r: Subscribed)
      modifies emitter
      ensures St() == StepIndex(old(St()), emitter.maxListeners, Subscribe(FilterOf(entity, action), h, once))
      ensures r.NoEntity? <==> entity == ""
      ensures r.Listening? ==> (r.added == Duplicate <==> h in OnOf(old(emitter.index), Name(FilterOf(entity, action))))
    {
      if entity == "" { return NoEntity; }
      var added := emitter.Add(entity + ":" + (if action == "" then "*" else action), h, once);
      return Listening(added);
    }

    method SubscribeAll(h: Handler) returns (added: Added)
      modifies emitter
      ensures St() == StepIndex(old(St()), emitter.maxListeners, Subscribe(All, h, false))
    {
      added := emitter.Add("*", h, false);
    }

    /** The function a subscription returns. */
    method Cancelled(f: Filter, h: Handler)
      modifies emitter
      ensures St() == StepIndex(old(St()), emitter.maxListeners, Unsubscribe(f, h))
    {
      emitter.Remove(Name(f), h);
    }

    /** Forget all subscriptions, or those of one name; the statistics go only in the first case. */
    method ClearEvent(entity: string, action: string)
      modifies this, emitter
      ensures St() == StepIndex(old(St()), emitter.maxListeners,
                                if entity == "" then ClearAll else ClearName(FilterOf(entity, action)))
      ensures published == if entity == "" then 0 else old(published)
    {
      if entity == "" {
        emitter.index := map[];
        published := 0;
        return;
      }
      emitter.ClearListeners(entity + ":" + (if action == "" then "*" else action));
    }

    /** The names of an event, collected one by one. */
    method GetEventNames(entity: string, action: string) returns (names: seq<string>)
      ensures names == EventNames(entity, action)
      ensures names == if entity == "" then ["*"] else if action == "" then [entity + ":" + "*", "*"]
                       else [entity + ":" + action, entity + ":" + "*", "*"]
    {
      names := [];
      if entity != "" && action != "" { names := names + [entity + ":" + action]; }
      if entity != "" { names := names + [entity + ":" + "*"]; }
      names := names + ["*"];
    }

    method CountListeners(names: seq<string>) returns (handlersInvoked: nat)
      ensures handlersInvoked == Invoked(emitter.index, names)
    {
      handlersInvoked := 0;
      var i := 0;
      assert names[0..] == names;
      while i < |names|
        invariant i <= |names|
        invariant handlersInvoked + Invoked(emitter.index, names[i..]) == Invoked(emitter.index, names)
      {
        assert names[i..][1..] == names[i + 1..];
        var n := emitter.Count(names[i]);
        handlersInvoked, i := handlersInvoked + n, i + 1;
      }
    }

    method EmitEach(names: seq<string>) returns (called: seq<Handler>)
      modifies emitter
      ensures emitter.index == EmitAll(old(emitter.index), names).0
      ensures called == EmitAll(old(emitter.index), names).1
    {
      called := [];
      ghost var goal := EmitAll(emitter.index, names);
      var i := 0;
      assert names[0..] == names;
      while i < |names|
        invariant i <= |names|
        invariant goal.0 == EmitAll(emitter.index, names[i..]).0
        invariant goal.1 == called + EmitAll(emitter.index, names[i..]).1
      {
        ghost var rest := names[i..];
        assert rest[0] == names[i] && rest[1..] == names[i + 1..];
        var some, _ := emitter.EmitName(names[i]);
        called, i := called + some, i + 1;
      }
      assert names[i..] == [] && called + [] == called;
    }

    /** Publish a valid event: count the listeners of its names, then emit to them in turn. */
    method PublishEvent(entity: string, action: string, hasId: bool, payloadOk: bool)
      returns (ok: bool, handlersInvoked: nat, called: seq<Handler>)
      modifies this, emitter
      ensures ok <==> entity != "" && action != "" && hasId && payloadOk
      ensures !ok ==> published == old(published) && emitter.index == old(emitter.index) && called == []
      ensures ok ==> published == old(published) + 1
      ensures ok ==> (emitter.index, called) == EmitAll(old(emitter.index), EventNames(entity, action))
      ensures St() == if ok then StepIndex(old(St()), emitter.maxListeners, Publish(entity, action)) else old(St())
      ensures ok ==> handlersInvoked == Invoked(old(emitter.index), EventNames(entity, action))
    {
      if entity == "" || action == "" || !hasId || !payloadOk { return false, 0, []; }
      published := published + 1;
      var names := GetEventNames(entity, action);
      handlersInvoked := CountListeners(names);
      called := EmitEach(names);
      calls := calls + called;
      ok := true;
    }
  }
}
