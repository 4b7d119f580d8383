/**
 The counter of active sessions against the keys that are really there.
 */
module SessionCounter {
  import opened Common
  import opened SessionModel

  /** The counter is the number of live keys plus the number lost to expiry. */
  predicate Balanced(w: World) {
    w.db.counter == |w.db.keys.Keys| + |w.lost|
  }

  /** The counter is short of that by r. */
  predicate ShortBy(w: World, r: nat) {
    && w.db.counter + r == |w.db.keys.Keys| + |w.lost|
    && w.db.keys.Keys !! w.lost && w.db.keys.Keys + w.lost <= w.used
  }

  /** The operations that write a session without looking whether its key is still there. */
  predicate BlindWrite(e: Event) {
    e.PatchLegacy? || e.RewriteAgent? || e.RaiseRisk?
  }

  /** The guard in front of a blind write, as its program computes it before the call. */
  predicate PassesGuard(c: Config, e: Event)
    requires BlindWrite(e)
  {
    match e
    case PatchLegacy(_, s, at) => ComputeTtl(c, EnsureTimestamps(s, true, at), at).Some?
    case RewriteAgent(_, s, agent, at) => ComputeTtl(c, s.(agent := agent), at).Some?
    case RaiseRisk(_, s, level, at) =>
      level > s.risk && s.meta.expiresAt.Some? && Min(RiskIdle(c, level), (s.meta.expiresAt.value - at) / 1000) > 0
  }

  /** A blind write that brings back a destroyed session. */
  predicate Revives(c: Config, w: World, e: Event) {
    BlindWrite(e) && PassesGuard(c, e) && e.id !in w.db.keys && e.id !in w.lost
  }

  function Revivals(c: Config, w: World, es: seq<Event>): nat
    decreases |es|
  {
    if es == [] then 0 else (if Revives(c, w, es[0]) then 1 else 0) + Revivals(c, Step(c, w, es[0]), es[1..])
  }

  lemma AdvanceKeeps(w: World, t: int, r: nat)
    requires ShortBy(w, r)
    ensures ShortBy(w.(db := Tick(w.db, t), lost := w.lost + Overdue(w.db, t)), r)
  {
    assert Tick(w.db, t).keys.Keys == w.db.keys.Keys - Overdue(w.db, t);
    PartitionSize(w.db.keys.Keys, Overdue(w.db, t), w.lost);
  }

  lemma PartitionSize(a: set<Id>, b: set<Id>, l: set<Id>)
    requires b <= a && a !! l
    ensures |a| + |l| == |a - b| + |l + b|
  {
    assert a == (a - b) + b;
  }

  lemma CreateKeeps(c: Config, w: World, id: Id, s: Session, at: int, r: nat)
    requires ShortBy(w, r) && id !in w.used
    ensures ShortBy(StepCreate(c, w, id, s, at), r)
  {
    var t := EnsureTimestamps(s, false, at);
    if ComputeTtl(c, t, at).Some? {
      var d := CreateMulti(w.db, id, ComputeTtl(c, t, at).value, t);
      assert d.keys.Keys == w.db.keys.Keys + {id};
    }
  }

  lemma DestroyKeeps(w: World, id: Id, user: Option<User>, r: nat)
    requires ShortBy(w, r)
    ensures ShortBy(w.(db := LuaDestroy(w.db, id, user)), r)
  {
    if id in w.db.keys {
      var d := LuaDestroy(w.db, id, user);
      assert d.keys.Keys == w.db.keys.Keys - {id};
      assert w.db.keys.Keys == d.keys.Keys + {id};
    }
  }

  lemma WriteShape(c: Config, w: World, e: Event)
    requires BlindWrite(e) && w.db.keys.Keys !! w.lost
    ensures var v, written := Step(c, w, e), if PassesGuard(c, e) then {e.id} else {};
      && v.db.counter == w.db.counter && v.used == w.used
      && v.db.keys.Keys == w.db.keys.Keys + written && v.lost == w.lost - written
  {
  }

  /** Putting one key into the store, the key no longer counted as lost. */
  lemma PutKey(keys: set<Id>, lost: set<Id>, id: Id)
    requires keys !! lost
    ensures |keys + {id}| + |lost - {id}| == |keys| + |lost| + if id in keys || id in lost then 0 else 1
  {
    if id in keys {
      assert keys + {id} == keys && lost - {id} == lost;
    } else {
      assert |keys + {id}| == |keys| + 1;
      if id in lost { assert lost == (lost - {id}) + {id}; } else { assert lost - {id} == lost; }
    }
  }

  lemma WriteKeeps(w: World, v: World, id: Id, writes: bool, r: nat)
    requires ShortBy(w, r) && id in w.used && v.used == w.used && v.db.counter == w.db.counter
    requires v.db.keys.Keys == w.db.keys.Keys + if writes then {id} else {}
    requires v.lost == w.lost - if writes then {id} else {}
    ensures ShortBy(v, r + if writes && id !in w.db.keys && id !in w.lost then 1 else 0)
  {
    if writes { PutKey(w.db.keys.Keys, w.lost, id); }
  }

  lemma BlindWriteKeeps(c: Config, w: World, e: Event, delay: nat, r: nat)
    requires Enabled(w, e, delay) && ShortBy(w, r) && BlindWrite(e)
    ensures ShortBy(Step(c, w, e), r + if Revives(c, w, e) then 1 else 0)
  {
    WriteShape(c, w, e);
    WriteKeeps(w, Step(c, w, e), e.id, PassesGuard(c, e), r);
  }

  lemma StepKeepsCounter(c: Config, w: World, e: Event, delay: nat, r: nat)
    requires Enabled(w, e, delay) && ShortBy(w, r)
    ensures ShortBy(Step(c, w, e), r + if Revives(c, w, e) then 1 else 0)
  {
    match e
    case Advance(t) => AdvanceKeeps(w, t, r);
    case Login(id, login, user, ip, agent, csrf, at) =>
      CreateKeeps(c, w.(logins := w.logins[login := at + c.absoluteTtl * 1000]), id,
                  LoginSession(c, login, user, ip, agent, csrf, at), at, r);
    case KeepAlive(id, s, csrf, at) => CreateKeeps(c, w, id, KeepAliveSession(s, csrf, at), at, r);
    case RotateIp(id, s, ip, at) => CreateKeeps(c, w, id, IpSession(s, ip, at), at, r);
    case Destroy(id, user) => DestroyKeeps(w, id, user, r);
    case _ => if BlindWrite(e) { BlindWriteKeeps(c, w, e, delay, r); } else { OthersKeep(c, w, e, delay, r); }
  }

  lemma ExtendKeepsKeys(c: Config, db: Db, id: Id, user: Option<User>, at: int)
    ensures var d := LuaExtend(c, db, id, user, at);
      d.keys.Keys == db.keys.Keys && |d.keys.Keys| == |db.keys.Keys| && d.counter == db.counter
  {
    if id in db.keys { assert db.keys.Keys + {id} == db.keys.Keys; }
  }

  lemma OthersKeep(c: Config, w: World, e: Event, delay: nat, r: nat)
    requires Enabled(w, e, delay) && ShortBy(w, r) && (e.Extend? || e.Read? || e.ExpireUserSet? || e.DropSet?)
    ensures ShortBy(Step(c, w, e), r)
  {
    if e.Extend? { ExtendKeepsKeys(c, w.db, e.id, e.user, e.at); }
  }

  lemma {:induction false} RunKeepsCounter(c: Config, w: World, es: seq<Event>, delay: nat, r: nat)
    requires ValidRun(c, w, es, delay) && ShortBy(w, r)
    ensures ShortBy(Exec(c, w, es), r + Revivals(c, w, es))
    decreases |es|
  {
    if es != [] {
      StepKeepsCounter(c, w, es[0], delay, r);
      RunKeepsCounter(c, Step(c, w, es[0]), es[1..], delay, r + if Revives(c, w, es[0]) then 1 else 0);
    }
  }

  /** The counter over every interleaving, blind writes included: the live keys plus the keys lost to
      expiry, less one for every destroyed session that a blind write brought back. So it is right at
      the end of a run if and only if no blind write did. */
  lemma CounterIsExact(c: Config, start: int, es: seq<Event>, delay: nat)
    requires ValidRun(c, Empty(start), es, delay)
    ensures var w := Exec(c, Empty(start), es);
      && w.db.counter == |w.db.keys.Keys| + |w.lost| - Revivals(c, Empty(start), es)
      && w.db.keys.Keys !! w.lost
      && (Balanced(w) <==> Revivals(c, Empty(start), es) == 0)
  {
    RunKeepsCounter(c, Empty(start), es, delay, 0);
  }

  lemma {:induction false} NothingRevives(c: Config, w: World, es: seq<Event>)
    requires forall i :: 0 <= i < |es| ==> !BlindWrite(es[i])
    ensures Revivals(c, w, es) == 0
    decreases |es|
  {
    if es != [] { NothingRevives(c, Step(c, w, es[0]), es[1..]); }
  }

  /** Under every interleaving of logins, rotations, extensions, destructions and expiry the
      counter equals the live keys plus the keys lost to expiry, so it is never negative and
      never below the number of live sessions. */
  lemma CounterIsLivePlusLost(c: Config, start: int, es: seq<Event>, delay: nat)
    requires ValidRun(c, Empty(start), es, delay)
    requires forall i :: 0 <= i < |es| ==> !BlindWrite(es[i])
    ensures var w := Exec(c, Empty(start), es);
      && w.db.counter == |w.db.keys.Keys| + |w.lost|
      && w.db.keys.Keys !! w.lost
      && 0 <= |w.db.keys.Keys| <= w.db.counter
  {
    NothingRevives(c, Empty(start), es);
    RunKeepsCounter(c, Empty(start), es, delay, 0);
  }

  /** A blind write keeps the balance if and only if its guard refuses it, or its key is live, or its
      key was lost to expiry; writing back a destroyed session leaves the counter one short. */
  lemma BlindWriteBalancedIff(c: Config, w: World, e: Event, delay: nat)
    requires Enabled(w, e, delay) && ShortBy(w, 0) && BlindWrite(e)
    ensures Balanced(Step(c, w, e)) <==> !PassesGuard(c, e) || e.id in w.db.keys || e.id in w.lost
    ensures !Balanced(Step(c, w, e)) ==> Step(c, w, e).db.counter == |Step(c, w, e).db.keys| + |Step(c, w, e).lost| - 1
  {
    var v := Step(c, w, e);
    BlindWriteKeeps(c, w, e, delay, 0);
    assert |v.db.keys| == |v.db.keys.Keys|;
  }

  // ---------------------------------------------------------------- a run that breaks the balance

  const SOME_CONFIG := Config(3600, 86400, 300, 5000)

  /** The session such a login stores. */
  const STORED := EnsureTimestamps(LoginSession(SOME_CONFIG, 0, None, 0, 0, 0, 0), false, 0)

  /** A client logs in, one of its requests reads the session, another one destroys it, and the first
      one then stores a changed user agent: one live session, and a counter of zero. */
  lemma DestroyedSessionComesBack()
    ensures var es := [Login(7, 0, None, 0, 0, 0, 0), Read(7), Destroy(7, None), RewriteAgent(7, STORED, 1, 0)];
      && ValidRun(SOME_CONFIG, Empty(0), es, 0)
      && var w := Exec(SOME_CONFIG, Empty(0), es);
         w.db.counter == 0 && w.db.keys.Keys == {7} && w.lost == {}
  {
    var c, w := SOME_CONFIG, Empty(0);
    var e1, e2, e3, e4 := Login(7, 0, None, 0, 0, 0, 0), Read(7), Destroy(7, None), RewriteAgent(7, STORED, 1, 0);
    var w1, w3 := LoginThenDestroy();
    var v1, v2, v3, v4 := RunOfFour(c, w, e1, e2, e3, e4, 0);
  }

  lemma LoginThenDestroy() returns (w1: World, w3: World)
    ensures w1 == Step(SOME_CONFIG, Empty(0), Login(7, 0, None, 0, 0, 0, 0))
    ensures w3 == Step(SOME_CONFIG, Step(SOME_CONFIG, w1, Read(7)), Destroy(7, None))
    ensures Enabled(w3, RewriteAgent(7, STORED, 1, 0), 0)
    ensures var v := Step(SOME_CONFIG, w3, RewriteAgent(7, STORED, 1, 0));
      v.db.counter == 0 && v.db.keys.Keys == {7} && v.lost == {}
  {
    var c := SOME_CONFIG;
    w1 := Step(c, Empty(0), Login(7, 0, None, 0, 0, 0, 0));
    assert ComputeTtl(c, STORED, 0) == Some(3600);
    assert w1.db.keys == map[7 := Entry(STORED, 3600000)] && w1.db.counter == 1;
    w3 := Step(c, Step(c, w1, Read(7)), Destroy(7, None));
    assert w3.db.keys == map[] && w3.db.counter == 0 && w3.lost == {};
    assert ComputeTtl(c, STORED.(agent := 1), 0) == Some(3600);
  }
}
