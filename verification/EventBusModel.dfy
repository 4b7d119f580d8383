/**
 The emitter's index of listeners by event name, refined to a flat log of subscriptions, and the
 event bus that publishes to an exact name, an entity wildcard and a global wildcard.
 */
module EventBusModel {
  import opened Joining

  type Handler = nat

  /** The listeners of one name in order, and those of them that fire once. */
  datatype Listeners = Listeners(on: seq<Handler>, once: set<Handler>)

  type Index = map<string, Listeners>

  datatype Added = Fine | Duplicate | OverLimit

  // ---------------------------------------------------------------- the emitter

  function OnOf(m: Index, name: string): seq<Handler> {
    if name in m then m[name].on else []
  }

  function OnceOf(m: Index, name: string): set<Handler> {
    if name in m then m[name].once else {}
  }

  /** Adding a listener; over the limit it is added all the same and then an error is thrown. */
  function AddListener(m: Index, name: string, h: Handler, once: bool, limit: int): (Index, Added) {
    if h in OnOf(m, name) then (m, Duplicate)
    else
      var l := Listeners(OnOf(m, name) + [h], OnceOf(m, name) + if once then {h} else {});
      (m[name := l], if |l.on| > limit then OverLimit else Fine)
  }

  function Without(on: seq<Handler>, once: set<Handler>): seq<Handler> {
    if on == [] then [] else (if on[0] in once then [] else [on[0]]) + Without(on[1..], once)
  }

  /** Emitting calls all listeners in order and forgets those that fire once; a name that has had
      no listener is left alone (for 'error' that is an exception instead). */
  function Emit(m: Index, name: string): (Index, seq<Handler>) {
    if name !in m then (m, [])
    else if m[name].once == {} then (m, m[name].on)
    else
      var rest := Without(m[name].on, m[name].once);
      (if rest == [] then m - {name} else m[name := Listeners(rest, {})], m[name].on)
  }

  function CutFirst(on: seq<Handler>, h: Handler): seq<Handler> {
    if on == [] then [] else if on[0] == h then on[1..] else [on[0]] + CutFirst(on[1..], h)
  }

  /** Removing a listener where it stands first; a name left without listeners stays in the index. */
  function Off(m: Index, name: string, h: Handler): Index {
    if name !in m then m
    else m[name := Listeners(CutFirst(m[name].on, h), m[name].once - {h})]
  }

  // ---------------------------------------------------------------- the flat log

  /** What a subscription asks for: everything, an entity, or one action of an entity. */
  datatype Filter = All | Entity(entity: string) | Exact(entity: string, action: string)

  /** A subscription: a token of its own, what it asks for and under which name, its handler. */
  datatype Sub = Sub(token: nat, filter: Filter, name: string, handler: Handler, once: bool)

  function Name(f: Filter): string {
    match f
    case All => "*"
    case Entity(e) => Join(e, ':', "*")
    case Exact(e, a) => Join(e, ':', a)
  }

  /** What the bus accepts: an entity is never empty, and an empty action is no action. */
  predicate ValidFilter(f: Filter) {
    (f.Entity? ==> f.entity != "") && (f.Exact? ==> f.entity != "" && f.action != "")
  }

  function FilterOf(entity: string, action: string): Filter {
    if action == "" then Entity(entity) else Exact(entity, action)
  }

  function Named(log: seq<Sub>, name: string): seq<Sub> {
    if log == [] then []
    else (if log[0].name == name then [log[0]] else []) + Named(log[1..], name)
  }

  function Handlers(subs: seq<Sub>): (r: seq<Handler>)
    ensures |r| == |subs|
  {
    seq(|subs|, i requires 0 <= i < |subs| => subs[i].handler)
  }

  /** The log after an event of this name: its once subscriptions are gone. */
  function AfterEvent(log: seq<Sub>, name: string): seq<Sub> {
    if log == [] then []
    else (if log[0].name == name && log[0].once then [] else [log[0]]) + AfterEvent(log[1..], name)
  }

  function Cancel(log: seq<Sub>, name: string, h: Handler): seq<Sub> {
    if log == [] then []
    else (if log[0].name == name && log[0].handler == h then [] else [log[0]]) + Cancel(log[1..], name, h)
  }

  function Cleared(log: seq<Sub>, name: string): seq<Sub> {
    if log == [] then [] else (if log[0].name == name then [] else [log[0]]) + Cleared(log[1..], name)
  }

  /** No handler is subscribed twice under one name. */
  predicate NoDuplicates(log: seq<Sub>) {
    forall i, j :: 0 <= i < j < |log| && log[i].name == log[j].name ==> log[i].handler != log[j].handler
  }

  function OnceHandlers(subs: seq<Sub>): set<Handler> {
    set i | 0 <= i < |subs| && subs[i].once :: subs[i].handler
  }

  /** The index says the same as the log. */
  ghost predicate Refines(m: Index, log: seq<Sub>) {
    NoDuplicates(log)
    && forall name :: OnOf(m, name) == Handlers(Named(log, name)) && OnceOf(m, name) == OnceHandlers(Named(log, name))
  }

  // ---------------------------------------------------------------- the simulation

  lemma {:induction false} NamedConcat(a: seq<Sub>, b: seq<Sub>, name: string)
    ensures Named(a + b, name) == Named(a, name) + Named(b, name)
  {
    if a == [] {
      assert a + b == b;
    } else {
      assert (a + b)[1..] == a[1..] + b;
      NamedConcat(a[1..], b, name);
      var h := if a[0].name == name then [a[0]] else [];
      assert Named(a + b, name) == h + (Named(a[1..], name) + Named(b, name));
      assert Named(a, name) == h + Named(a[1..], name);
    }
  }

  lemma {:induction false} NamedMembers(log: seq<Sub>, name: string)
    ensures forall s :: s in Named(log, name) <==> s in log && s.name == name
  {
    if log != [] {
      NamedMembers(log[1..], name);
      assert forall s :: s in log <==> s == log[0] || s in log[1..];
    }
  }

  lemma DuplicateIff(m: Index, log: seq<Sub>, name: string, h: Handler)
    requires Refines(m, log)
    ensures h in OnOf(m, name) <==> exists t :: t in log && t.name == name && t.handler == h
  {
    var subs := Named(log, name);
    NamedMembers(log, name);
    if h in OnOf(m, name) {
      var i :| 0 <= i < |subs| && Handlers(subs)[i] == h;
      assert subs[i] in subs && subs[i] in log && subs[i].name == name && subs[i].handler == h;
    }
    if exists t :: t in log && t.name == name && t.handler == h {
      var t :| t in log && t.name == name && t.handler == h;
      var i :| 0 <= i < |subs| && subs[i] == t;
      assert Handlers(subs)[i] == h;
    }
  }

  lemma AddedEntry(m: Index, log: seq<Sub>, s: Sub, limit: int, name: string)
    requires Refines(m, log) && s.handler !in OnOf(m, s.name)
    ensures var m' := AddListener(m, s.name, s.handler, s.once, limit).0;
      && OnOf(m', name) == Handlers(Named(log + [s], name))
      && OnceOf(m', name) == OnceHandlers(Named(log + [s], name))
  {
    NamedConcat(log, [s], name);
    if name == s.name {
      assert Named([s], name) == [s];
      OnceAppend(Named(log, name), s);
    } else {
      assert Named([s], name) == [];
      assert Named(log, name) + [] == Named(log, name);
    }
  }

  /** Subscribing appends to the log, unless the handler already stands under the name. */
  lemma AddRefines(m: Index, log: seq<Sub>, s: Sub, limit: int)
    requires Refines(m, log)
    ensures var (m', r) := AddListener(m, s.name, s.handler, s.once, limit);
      && (r == Duplicate <==> exists t :: t in log && t.name == s.name && t.handler == s.handler)
      && (r == Duplicate ==> m' == m)
      && (r != Duplicate ==> Refines(m', log + [s]))
  {
    DuplicateIff(m, log, s.name, s.handler);
    if s.handler !in OnOf(m, s.name) {
      var all := log + [s];
      var m' := AddListener(m, s.name, s.handler, s.once, limit).0;
      forall name ensures OnOf(m', name) == Handlers(Named(all, name)) && OnceOf(m', name) == OnceHandlers(Named(all, name)) {
        AddedEntry(m, log, s, limit, name);
      }
      forall i, j | 0 <= i < j < |all| && all[i].name == all[j].name ensures all[i].handler != all[j].handler {
        if j == |log| { assert all[i] == log[i] && log[i] in log; }
      }
    }
  }

  lemma OnceAppend(subs: seq<Sub>, s: Sub)
    ensures OnceHandlers(subs + [s]) == OnceHandlers(subs) + if s.once then {s.handler} else {}
    ensures Handlers(subs + [s]) == Handlers(subs) + [s.handler]
  {
    var all := subs + [s];
    forall h | h in OnceHandlers(subs) + (if s.once then {s.handler} else {}) ensures h in OnceHandlers(all) {
      if h in OnceHandlers(subs) {
        var i :| 0 <= i < |subs| && subs[i].once && subs[i].handler == h;
        assert all[i].once && all[i].handler == h;
      } else {
        assert all[|subs|].once && all[|subs|].handler == h;
      }
    }
  }

  /** The subscriptions of a list that do not fire once. */
  function Lasting(subs: seq<Sub>): seq<Sub> {
    if subs == [] then [] else (if subs[0].once then [] else [subs[0]]) + Lasting(subs[1..])
  }

  lemma NamedHead(s: Sub, rest: seq<Sub>, name: string)
    ensures Named([s] + rest, name) == if s.name == name then [s] + Named(rest, name) else Named(rest, name)
  {
    assert ([s] + rest)[1..] == rest;
  }

  lemma {:induction false} NamedAfterEvent(log: seq<Sub>, n: string, name: string)
    ensures Named(AfterEvent(log, n), name) == if name == n then Lasting(Named(log, name)) else Named(log, name)
  {
    if log != [] {
      var s, rest := log[0], log[1..];
      NamedAfterEvent(rest, n, name);
      assert log == [s] + rest;
      NamedHead(s, rest, name);
      NamedHead(s, AfterEvent(rest, n), name);
      assert AfterEvent(log, n) == if s.name == n && s.once then AfterEvent(rest, n) else [s] + AfterEvent(rest, n);
      LastingHead(s, Named(rest, name));
    }
  }

  lemma LastingHead(s: Sub, rest: seq<Sub>)
    ensures Lasting([s] + rest) == if s.once then Lasting(rest) else [s] + Lasting(rest)
  {
    assert ([s] + rest)[1..] == rest;
  }

  predicate DistinctHandlers(subs: seq<Sub>) {
    forall i, j :: 0 <= i < j < |subs| ==> subs[i].handler != subs[j].handler
  }

  lemma {:induction false} NamedDistinct(log: seq<Sub>, name: string)
    requires NoDuplicates(log)
    ensures DistinctHandlers(Named(log, name))
  {
    if log != [] {
      NamedDistinct(log[1..], name);
      NamedMembers(log[1..], name);
      var rest := Named(log[1..], name);
      if log[0].name == name {
        forall j | 0 <= j < |rest| ensures rest[j].handler != log[0].handler {
          assert rest[j] in log[1..];
          var k :| 0 <= k < |log[1..]| && log[1..][k] == rest[j];
          assert log[k + 1] == rest[j];
        }
      }
    }
  }

  /** Leaving out the once handlers of a list leaves the lasting subscriptions. */
  lemma {:induction false} WithoutOnce(subs: seq<Sub>, once: set<Handler>)
    requires DistinctHandlers(subs)
    requires forall s :: s in subs ==> (s.once <==> s.handler in once)
    ensures Without(Handlers(subs), once) == Handlers(Lasting(subs))
    ensures forall s :: s in Lasting(subs) ==> !s.once
  {
    if subs != [] {
      assert Handlers(subs)[1..] == Handlers(subs[1..]);
      assert subs[0] in subs;
      WithoutOnce(subs[1..], once);
    }
  }

  /** Subscriptions without duplicates keep none when some of those behind the first are left out. */
  lemma FewerDistinct(log: seq<Sub>, r: seq<Sub>)
    requires log != [] && NoDuplicates(log) && (NoDuplicates(log[1..]) ==> NoDuplicates(r))
    requires forall x :: x in r ==> x in log[1..]
    ensures NoDuplicates(r) && NoDuplicates([log[0]] + r)
  {
    assert NoDuplicates(log[1..]);
    forall j | 0 <= j < |r| && r[j].name == log[0].name ensures r[j].handler != log[0].handler {
      assert r[j] in log[1..];
      var k :| 0 <= k < |log[1..]| && log[1..][k] == r[j];
      assert log[k + 1] == r[j];
    }
  }

  lemma {:induction false} AfterEventMembers(log: seq<Sub>, n: string)
    ensures forall s :: s in AfterEvent(log, n) <==> s in log && !(s.name == n && s.once)
    ensures NoDuplicates(log) ==> NoDuplicates(AfterEvent(log, n))
  {
    if log != [] {
      AfterEventMembers(log[1..], n);
      assert forall s :: s in log <==> s == log[0] || s in log[1..];
      if NoDuplicates(log) { FewerDistinct(log, AfterEvent(log[1..], n)); }
    }
  }

  lemma OnceExact(subs: seq<Sub>)
    requires DistinctHandlers(subs)
    ensures forall s :: s in subs ==> (s.once <==> s.handler in OnceHandlers(subs))
  {
    forall s | s in subs && s.handler in OnceHandlers(subs) ensures s.once {
      var i :| 0 <= i < |subs| && subs[i].once && subs[i].handler == s.handler;
      var j :| 0 <= j < |subs| && subs[j] == s;
      assert i == j;
    }
  }

  /** Emitting a name calls the handlers of its subscriptions in order and drops the once ones. */
  lemma EmitRefines(m: Index, log: seq<Sub>, n: string)
    requires Refines(m, log)
    ensures Emit(m, n).1 == Handlers(Named(log, n))
    ensures Refines(Emit(m, n).0, AfterEvent(log, n))
  {
    var m' := Emit(m, n).0;
    var subs := Named(log, n);
    assert OnOf(m, n) == Handlers(subs) && OnceOf(m, n) == OnceHandlers(subs);
    NamedDistinct(log, n);
    OnceExact(subs);
    WithoutOnce(subs, OnceHandlers(subs));
    AfterEventMembers(log, n);
    assert OnceHandlers(Lasting(subs)) == {} by {
      forall i | 0 <= i < |Lasting(subs)| ensures !Lasting(subs)[i].once { assert Lasting(subs)[i] in Lasting(subs); }
    }
    if OnceHandlers(subs) == {} { LastingAll(subs); }
    forall name
      ensures OnOf(m', name) == Handlers(Named(AfterEvent(log, n), name))
      ensures OnceOf(m', name) == OnceHandlers(Named(AfterEvent(log, n), name))
    {
      NamedAfterEvent(log, n, name);
      assert OnOf(m, name) == Handlers(Named(log, name)) && OnceOf(m, name) == OnceHandlers(Named(log, name));
    }
  }

  lemma {:induction false} LastingAll(subs: seq<Sub>)
    requires forall i :: 0 <= i < |subs| ==> !subs[i].once
    ensures Lasting(subs) == subs
  {
    if subs != [] { LastingAll(subs[1..]); }
  }

  /** The subscriptions of a list whose handler is another. */
  function Others(subs: seq<Sub>, h: Handler): seq<Sub> {
    if subs == [] then [] else (if subs[0].handler == h then [] else [subs[0]]) + Others(subs[1..], h)
  }

  lemma {:induction false} NamedCancel(log: seq<Sub>, n: string, h: Handler, name: string)
    ensures Named(Cancel(log, n, h), name) == if name == n then Others(Named(log, name), h) else Named(log, name)
  {
    if log != [] {
      NamedCancel(log[1..], n, h, name);
      var x := if log[0].name == n && log[0].handler == h then [] else [log[0]];
      NamedConcat(x, Cancel(log[1..], n, h), name);
      assert Named([log[0]], name) == if log[0].name == name then [log[0]] else [];
      if log[0].name == name {
        assert Named(log, name)[1..] == Named(log[1..], name);
      } else {
        assert Named(log, name) == Named(log[1..], name);
      }
    }
  }

  lemma {:induction false} WithoutHandler(subs: seq<Sub>, h: Handler)
    requires DistinctHandlers(subs)
    ensures CutFirst(Handlers(subs), h) == Handlers(Others(subs, h))
  {
    if subs != [] {
      assert Handlers(subs)[1..] == Handlers(subs[1..]);
      WithoutHandler(subs[1..], h);
      if subs[0].handler == h {
        assert forall i :: 0 <= i < |subs[1..]| ==> subs[1..][i] == subs[i + 1];
        OthersAll(subs[1..], h);
      }
    }
  }

  lemma {:induction false} OthersAll(subs: seq<Sub>, h: Handler)
    requires forall i :: 0 <= i < |subs| ==> subs[i].handler != h
    ensures Others(subs, h) == subs
  {
    if subs != [] { OthersAll(subs[1..], h); }
  }

  lemma {:induction false} OnceOfOthers(subs: seq<Sub>, h: Handler)
    ensures OnceHandlers(Others(subs, h)) == OnceHandlers(subs) - {h}
  {
    if subs != [] {
      OnceOfOthers(subs[1..], h);
      OncePrepend(subs[0], subs[1..]);
      OncePrepend(subs[0], Others(subs[1..], h));
      assert subs == [subs[0]] + subs[1..];
      assert Others(subs, h) == if subs[0].handler == h then Others(subs[1..], h) else [subs[0]] + Others(subs[1..], h);
    }
  }

  lemma OncePrepend(s: Sub, subs: seq<Sub>)
    ensures OnceHandlers([s] + subs) == OnceHandlers(subs) + if s.once then {s.handler} else {}
  {
    var all := [s] + subs;
    forall h | h in OnceHandlers(subs) + (if s.once then {s.handler} else {}) ensures h in OnceHandlers(all) {
      if h in OnceHandlers(subs) {
        var i :| 0 <= i < |subs| && subs[i].once && subs[i].handler == h;
        assert all[i + 1].once && all[i + 1].handler == h;
      } else {
        assert all[0].once && all[0].handler == h;
      }
    }
  }

  lemma {:induction false} CancelMembers(log: seq<Sub>, n: string, h: Handler)
    ensures forall s :: s in Cancel(log, n, h) <==> s in log && !(s.name == n && s.handler == h)
    ensures NoDuplicates(log) ==> NoDuplicates(Cancel(log, n, h))
  {
    if log != [] {
      CancelMembers(log[1..], n, h);
      assert forall s :: s in log <==> s == log[0] || s in log[1..];
      if NoDuplicates(log) { FewerDistinct(log, Cancel(log[1..], n, h)); }
    }
  }

  /** Unsubscribing removes exactly that handler under that name. */
  lemma OffRefines(m: Index, log: seq<Sub>, n: string, h: Handler)
    requires Refines(m, log)
    ensures Refines(Off(m, n, h), Cancel(log, n, h))
  {
    var m' := Off(m, n, h);
    CancelMembers(log, n, h);
    forall name
      ensures OnOf(m', name) == Handlers(Named(Cancel(log, n, h), name))
      ensures OnceOf(m', name) == OnceHandlers(Named(Cancel(log, n, h), name))
    {
      NamedCancel(log, n, h, name);
      if name == n { NamedDistinct(log, n); WithoutHandler(Named(log, n), h); OnceOfOthers(Named(log, n), h); }
    }
  }

  lemma {:induction false} NamedCleared(log: seq<Sub>, n: string, name: string)
    ensures Named(Cleared(log, n), name) == if name == n then [] else Named(log, name)
  {
    if log != [] {
      var s, rest := log[0], log[1..];
      NamedCleared(rest, n, name);
      assert log == [s] + rest;
      NamedHead(s, rest, name);
      NamedHead(s, Cleared(rest, n), name);
      if s.name != n {
        assert Cleared(log, n) == [s] + Cleared(rest, n);
      } else {
        assert Cleared(log, n) == Cleared(rest, n);
      }
    }
  }

  lemma {:induction false} ClearedMembers(log: seq<Sub>, n: string)
    ensures forall s :: s in Cleared(log, n) <==> s in log && s.name != n
    ensures NoDuplicates(log) ==> NoDuplicates(Cleared(log, n))
  {
    if log != [] {
      ClearedMembers(log[1..], n);
      assert forall s :: s in log <==> s == log[0] || s in log[1..];
      if NoDuplicates(log) { FewerDistinct(log, Cleared(log[1..], n)); }
    }
  }

  /** Clearing a name is forgetting its subscriptions. */
  lemma ClearRefines(m: Index, log: seq<Sub>, n: string)
    requires Refines(m, log)
    ensures Refines(m - {n}, Cleared(log, n))
  {
    ClearedMembers(log, n);
    forall name
      ensures OnOf(m - {n}, name) == Handlers(Named(Cleared(log, n), name))
      ensures OnceOf(m - {n}, name) == OnceHandlers(Named(Cleared(log, n), name))
    {
      NamedCleared(log, n, name);
      assert OnOf(m, name) == Handlers(Named(log, name)) && OnceOf(m, name) == OnceHandlers(Named(log, name));
    }
  }
}
