/**
 The session manager object over the store. Each method runs at one reading of the clock and is
 proved against the functions the interleaving and survival results speak about; the sweeping
 methods, which loop over many keys, are proved against what they leave behind.
 */
module SessionManagerObject {
  import opened Common
  import opened SessionModel
  import opened SessionSurvival

  /** What destroying each of these ids in turn leaves. */
  function DestroyEach(db: Db, ids: seq<Id>, user: User): Db
    decreases |ids|
  {
    if ids == [] then db else DestroyEach(LuaDestroy(db, ids[0], Some(user)), ids[1..], user)
  }

  /** One id of a cleanup: destroy it if its session is no longer valid, or if its text is garbled;
      then the user is unknown. */
  function SweepOne(c: Config, db: Db, garbled: set<Id>, id: Id): Db {
    if id !in db.keys then db
    else if id in garbled then LuaDestroy(db, id, None)
    else if IsValid(c, db.keys[id].session, db.now) then db
    else LuaDestroy(db, id, db.keys[id].session.user)
  }

  function Sweep(c: Config, db: Db, garbled: set<Id>, ids: seq<Id>): Db
    decreases |ids|
  {
    if ids == [] then db else Sweep(c, SweepOne(c, db, garbled, ids[0]), garbled, ids[1..])
  }

  function Flatten(batches: seq<seq<Id>>): seq<Id> {
    if batches == [] then [] else batches[0] + Flatten(batches[1..])
  }

  /** Does the scan return this key, in whatever batch? */
  predicate Scanned(batches: seq<seq<Id>>, id: Id) {
    exists i :: 0 <= i < |batches| && id in batches[i]
  }

  lemma {:induction false} FlattenHas(batches: seq<seq<Id>>, id: Id)
    ensures id in Flatten(batches) <==> Scanned(batches, id)
  {
    if batches != [] {
      FlattenHas(batches[1..], id);
      assert forall i :: 0 < i < |batches| ==> batches[i] == batches[1..][i - 1];
      if Scanned(batches, id) && id !in batches[0] {
        var i :| 0 <= i < |batches| && id in batches[i];
        assert id in batches[1..][i - 1];
      }
    }
  }

  predicate Doomed(c: Config, db: Db, garbled: set<Id>, id: Id) {
    id in db.keys && (id in garbled || !IsValid(c, db.keys[id].session, db.now))
  }

  lemma {:induction false} SweepConcat(c: Config, db: Db, garbled: set<Id>, a: seq<Id>, b: seq<Id>)
    ensures Sweep(c, db, garbled, a + b) == Sweep(c, Sweep(c, db, garbled, a), garbled, b)
    decreases |a|
  {
    if a == [] {
      assert a + b == b;
    } else {
      assert (a + b)[1..] == a[1..] + b;
      SweepConcat(c, SweepOne(c, db, garbled, a[0]), garbled, a[1..], b);
    }
  }

  lemma {:induction false} DestroyEachConcat(db: Db, a: seq<Id>, b: seq<Id>, user: User)
    ensures DestroyEach(db, a + b, user) == DestroyEach(DestroyEach(db, a, user), b, user)
    decreases |a|
  {
    if a == [] {
      assert a + b == b;
    } else {
      assert (a + b)[1..] == a[1..] + b;
      DestroyEachConcat(LuaDestroy(db, a[0], Some(user)), a[1..], b, user);
    }
  }

  lemma DestroyRemovesOne(db: Db, id: Id, user: Option<User>)
    ensures var d := LuaDestroy(db, id, user);
      && d.now == db.now && d.keys == db.keys - {id}
      && d.counter == db.counter - (|db.keys.Keys| - |d.keys.Keys|)
      && (id in db.keys ==> |d.keys.Keys| == |db.keys.Keys| - 1)
  {
    var d := LuaDestroy(db, id, user);
    assert d.keys.Keys == db.keys.Keys - {id};
    if id in db.keys { assert db.keys.Keys == d.keys.Keys + {id}; } else { assert db.keys - {id} == db.keys; }
  }

  /** It touches the set of no other user, nor anything if the key is gone. */
  lemma DestroyElsewhere(db: Db, id: Id, user: Option<User>, u: User)
    requires Some(u) != user || id !in db.keys
    ensures var d := LuaDestroy(db, id, user);
      (u in d.sets <==> u in db.sets) && (u in d.sets ==> d.sets[u] == db.sets[u])
  {
  }

  /** A cleanup removes exactly the invalid and the garbled sessions among the scanned keys, keeps all others as
      they are, and takes exactly as many off the counter as it removed, repeated keys or not. */
  lemma {:induction false} SweepRemovesExactlyInvalid(c: Config, db: Db, garbled: set<Id>, ids: seq<Id>)
    ensures var d := Sweep(c, db, garbled, ids);
      && d.now == db.now
      && (forall id :: id in d.keys <==> id in db.keys && !(id in ids && Doomed(c, db, garbled, id)))
      && (forall id :: id in d.keys ==> d.keys[id] == db.keys[id])
      && |d.keys.Keys| <= |db.keys.Keys|
      && d.counter == db.counter - (|db.keys.Keys| - |d.keys.Keys|)
    decreases |ids|
  {
    if ids != [] {
      var e := SweepOne(c, db, garbled, ids[0]);
      if Doomed(c, db, garbled, ids[0]) {
        DestroyRemovesOne(db, ids[0], if ids[0] in garbled then None else db.keys[ids[0]].session.user);
      }
      SweepRemovesExactlyInvalid(c, e, garbled, ids[1..]);
      assert forall id :: id in ids <==> id == ids[0] || id in ids[1..];
    }
  }

  /** Destroying a user's ids removes exactly those of them that are live, and takes exactly as
      many off the counter. */
  lemma {:induction false} DestroyEachRemovesExactly(db: Db, ids: seq<Id>, user: User)
    ensures var d := DestroyEach(db, ids, user);
      && d.now == db.now
      && (forall id :: id in d.keys <==> id in db.keys && id !in ids)
      && (forall id :: id in d.keys ==> d.keys[id] == db.keys[id])
      && (forall u :: u != user ==> (u in d.sets <==> u in db.sets) && (u in d.sets ==> d.sets[u] == db.sets[u]))
      && |d.keys.Keys| <= |db.keys.Keys|
      && d.counter == db.counter - (|db.keys.Keys| - |d.keys.Keys|)
    decreases |ids|
  {
    if ids != [] {
      DestroyRemovesOne(db, ids[0], Some(user));
      DestroyEachRemovesExactly(LuaDestroy(db, ids[0], Some(user)), ids[1..], user);
      assert forall id :: id in ids <==> id == ids[0] || id in ids[1..];
    }
  }

  // ---------------------------------------------------------------- the set of a user's sessions

  /** Creating a session of a known user adds one key, one count and one member of the user's set,
      and from then on the set lives exactly as long as that key. */
  lemma CreationIsListed(c: Config, db: Db, id: Id, s: Session, at: int)
    requires Create(c, db, id, s, at).Some? && s.user.Some?
    ensures var d := Create(c, db, id, s, at).value;
      var u := s.user.value;
      && id in d.keys && d.keys == db.keys[id := d.keys[id]] && d.counter == db.counter + 1
      && u in d.sets && d.sets[u].ids == (if u in db.sets then db.sets[u].ids else {}) + {id}
      && d.sets[u].deadline == Some(d.keys[id].deadline)
      && d.sets - {u} == db.sets - {u}
  {
    var t := EnsureTimestamps(s, false, at);
    var ttl := ComputeTtl(c, t, at).value;
    assert Create(c, db, id, s, at).value == CreateMulti(db, id, ttl, t);
  }

  /** Destroying a live session of a user takes exactly its id out of the user's set; the set goes
      with its last member. */
  lemma DestroyUnlists(db: Db, id: Id, u: User)
    requires id in db.keys && u in db.sets
    ensures var d := LuaDestroy(db, id, Some(u));
      && (u in d.sets <==> !(db.sets[u].ids <= {id}))
      && (u in d.sets ==> d.sets[u].ids == db.sets[u].ids - {id} && d.sets[u].deadline == db.sets[u].deadline)
      && d.sets - {u} == db.sets - {u}
  {
    assert db.sets[u].ids - {id} == {} <==> db.sets[u].ids <= {id};
  }

  /** The ids destroyAllUserSessions finds. */
  function Listed(db: Db, u: User): set<Id> {
    if u in db.sets then db.sets[u].ids else {}
  }

  /** A cleanup takes from the set of each user exactly the swept sessions of that user whose text says
      so; the ids of garbled sessions stay listed. */
  lemma {:induction false} SweepUnlists(c: Config, db: Db, garbled: set<Id>, ids: seq<Id>, u: User)
    ensures Listed(Sweep(c, db, garbled, ids), u) ==
      set id | id in Listed(db, u)
               && !(id in ids && id !in garbled && Doomed(c, db, garbled, id) && db.keys[id].session.user == Some(u))
    decreases |ids|
  {
    if ids != [] {
      var e := SweepOne(c, db, garbled, ids[0]);
      SweepUnlists(c, e, garbled, ids[1..], u);
      assert forall id :: id in ids <==> id == ids[0] || id in ids[1..];
      assert forall id :: id != ids[0] ==> (id in e.keys <==> id in db.keys) && (id in db.keys ==> e.keys[id] == db.keys[id]);
    }
  }

  /** Extending one session gives the user's set the deadline of that session's key. If nothing
      touches the store until t, a later destruction of all the user's sessions overlooks another
      listed one exactly while that one lives on and the extended one does not. */
  lemma DestroyAllMissesIff(c: Config, db: Db, id: Id, other: Id, u: User, at: int, t: int)
    requires ExtendCode(c, db, id, at) == Updated && other != id && other in db.keys
    requires u in db.sets && other in db.sets[u].ids && at <= db.now <= t
    ensures var d := LuaExtend(c, db, id, Some(u), at);
      var later := Tick(d, t);
      && d.keys[other] == db.keys[other]
      && d.sets[u] == UserSet(db.sets[u].ids, Some(d.keys[id].deadline))
      && (other in later.keys && other !in Listed(later, u)
          <==> d.keys[id].deadline < t <= db.keys[other].deadline)
  {
    var s := db.keys[id].session;
    var ttl := Max(1, Min(c.idleTtl, s.meta.expSec.value - Floor(at)));
    var w := s.(meta := s.meta.(lastSeen := Some(at), seenSec := Some(Floor(at))));
    assert LuaExtend(c, db, id, Some(u), at) == ExpireSet(SetEx(db, id, ttl, w), Some(u), ttl);
  }

  /** Such a run: two logins of one user, an extension of the first session late in its life, and time
      until that one has expired. The second session is live, and nothing lists it any more. */
  lemma LiveSessionUnlisted()
    ensures var c := Config(3600, 5400, 300, 5000);
      var es := [Login(1, 0, Some(9), 0, 0, 0, 0), Advance(3000000), Login(2, 1, Some(9), 0, 0, 0, 3000000),
                 Extend(1, Some(9), 3000000), Advance(6000000)];
      && ValidRun(c, Empty(0), es, 0)
      && var db := Exec(c, Empty(0), es).db;
         db.keys.Keys == {2} && db.keys[2].session.user == Some(9) && Listed(db, 9) == {} && db.counter == 2
  {
    var c, w := Config(3600, 5400, 300, 5000), Empty(0);
    var e1, e2, e3 := Login(1, 0, Some(9), 0, 0, 0, 0), Advance(3000000), Login(2, 1, Some(9), 0, 0, 0, 3000000);
    var e4, e5 := Extend(1, Some(9), 3000000), Advance(6000000);
    var w1, w2, w3, w4 := UnlistedStates(c);
    RunOfFive(c, w, e1, e2, e3, e4, e5);
  }

  lemma RunOfFive(c: Config, w: World, e1: Event, e2: Event, e3: Event, e4: Event, e5: Event)
    requires Enabled(w, e1, 0) && Enabled(Step(c, w, e1), e2, 0)
    requires Enabled(Step(c, Step(c, w, e1), e2), e3, 0)
    requires Enabled(Step(c, Step(c, Step(c, w, e1), e2), e3), e4, 0)
    requires Enabled(Step(c, Step(c, Step(c, Step(c, w, e1), e2), e3), e4), e5, 0)
    ensures ValidRun(c, w, [e1, e2, e3, e4, e5], 0)
    ensures Exec(c, w, [e1, e2, e3, e4, e5]) == Step(c, Step(c, Step(c, Step(c, Step(c, w, e1), e2), e3), e4), e5)
  {
    var v1, v2, v3, v4 := RunOfFour(c, Step(c, w, e1), e2, e3, e4, e5, 0);
    RunPrepend(c, w, e1, [e2, e3, e4, e5], 0);
    assert [e1] + [e2, e3, e4, e5] == [e1, e2, e3, e4, e5];
  }

  lemma UnlistedStates(c: Config) returns (w1: World, w2: World, w3: World, w4: World)
    requires c == Config(3600, 5400, 300, 5000)
    ensures w1 == Step(c, Empty(0), Login(1, 0, Some(9), 0, 0, 0, 0)) && w2 == Step(c, w1, Advance(3000000))
    ensures w3 == Step(c, w2, Login(2, 1, Some(9), 0, 0, 0, 3000000)) && w4 == Step(c, w3, Extend(1, Some(9), 3000000))
    ensures w1.db.now == 0 && Enabled(w2, Login(2, 1, Some(9), 0, 0, 0, 3000000), 0)
    ensures w3.db.now == w4.db.now == 3000000
    ensures var db := Step(c, w4, Advance(6000000)).db;
      db.keys.Keys == {2} && db.keys[2].session.user == Some(9) && Listed(db, 9) == {} && db.counter == 2
  {
    w1 := FirstLogin(c);
    w2 := Step(c, w1, Advance(3000000));
    assert w2.db.keys == w1.db.keys && w2.db.sets == w1.db.sets;
    w3 := SecondLogin(c, w2);
    w4 := LateExtension(c, w3);
    assert Overdue(w4.db, 6000000) == {1};
  }

  lemma LateExtension(c: Config, v: World) returns (w: World)
    requires c == Config(3600, 5400, 300, 5000) && v.db.now == 3000000 && v.db.keys.Keys == {1, 2}
    requires v.db.keys[1].session.meta.expSec == Some(5400) && v.db.keys[1].session.meta.seenSec == None
    requires v.db.sets == map[9 := UserSet({1, 2}, Some(6600000))]
    ensures w == Step(c, v, Extend(1, Some(9), 3000000))
    ensures w.db.keys.Keys == {1, 2} && w.db.keys[1].deadline == 5400000 && w.db.keys[2] == v.db.keys[2]
    ensures w.db.sets == map[9 := UserSet({1, 2}, Some(5400000))] && w.db.now == v.db.now && w.db.counter == v.db.counter
  {
    w := Step(c, v, Extend(1, Some(9), 3000000));
    assert ExtendCode(c, v.db, 1, 3000000) == Updated;
    assert {1, 2} + {1} == {1, 2};
  }

  lemma FirstLogin(c: Config) returns (w: World)
    requires c == Config(3600, 5400, 300, 5000)
    ensures w == Step(c, Empty(0), Login(1, 0, Some(9), 0, 0, 0, 0))
    ensures w.db.keys.Keys == {1} && w.db.keys[1].deadline == 3600000 && w.db.counter == 1 && w.db.now == 0
    ensures w.db.keys[1].session.meta.expSec == Some(5400) && w.db.keys[1].session.meta.seenSec == None
    ensures w.db.sets == map[9 := UserSet({1}, Some(3600000))] && w.used == {1} && w.logins.Keys == {0}
  {
    w := Step(c, Empty(0), Login(1, 0, Some(9), 0, 0, 0, 0));
    var s := EnsureTimestamps(LoginSession(c, 0, Some(9), 0, 0, 0, 0), false, 0);
    assert ComputeTtl(c, s, 0) == Some(3600);
    assert w.db == CreateMulti(Empty(0).db, 1, 3600, s);
    var none: set<Id> := {};
    assert none + {1} == {1};
    assert w.db.sets == map[9 := UserSet({1}, Some(3600000))];
  }

  lemma SecondLogin(c: Config, v: World) returns (w: World)
    requires c == Config(3600, 5400, 300, 5000) && v.db.now == 3000000 && v.db.keys.Keys == {1}
    requires v.db.sets == map[9 := UserSet({1}, Some(3600000))] && v.used == {1} && v.logins.Keys == {0}
    ensures w == Step(c, v, Login(2, 1, Some(9), 0, 0, 0, 3000000))
    ensures w.db.keys.Keys == {1, 2} && w.db.keys[1] == v.db.keys[1] && w.db.keys[2].deadline == 6600000
    ensures w.db.keys[2].session.user == Some(9) && w.db.now == v.db.now && w.db.counter == v.db.counter + 1
    ensures w.db.sets == map[9 := UserSet({1, 2}, Some(6600000))]
  {
    w := Step(c, v, Login(2, 1, Some(9), 0, 0, 0, 3000000));
    var s := EnsureTimestamps(LoginSession(c, 1, Some(9), 0, 0, 0, 3000000), false, 3000000);
    assert ComputeTtl(c, s, 3000000) == Some(3600);
    assert {1} + {2} == {1, 2};
    assert w.db == CreateMulti(v.db, 2, 3600, s);
  }

  /** The session a rotation creates, if any. */
  function Successor(c: Config, db: Db, oldId: Id, given: Option<Session>, reason: Reason, csrf: nat): Option<Session> {
    if given.Some? then given
    else if oldId in db.keys then Some(DefaultRotation(c, db.keys[oldId].session, csrf, reason, db.now))
    else None
  }

  /** What a cleanup finds under a key. */
  datatype Fetched = Missing | Garbled | Parsed(session: Session)

  function FetchedAt(db: Db, garbled: set<Id>, id: Id): Fetched {
    if id !in db.keys then Missing else if id in garbled then Garbled else Parsed(db.keys[id].session)
  }

  class SessionManager {
    const config: Config
    var db: Db

    constructor (config: Config, now: int)
      ensures this.config == config && db == Empty(now).db
    {
      this.config := config;
      db := Db(now, map[], 0, map[]);
    }

    method GetSession(id: Id) returns (r: Option<Session>)
      ensures r == if id in db.keys then Some(db.keys[id].session) else None
    {
      if id in db.keys { return Some(db.keys[id].session); }
      return None;
    }

    method CreateSession(id: Id, s: Session) returns (ok: bool)
      modifies this
      ensures ok <==> s.meta.expiresAt.Some? && s.meta.expiresAt.value - old(db).now >= 1000
      ensures ok ==> Create(config, old(db), id, s, old(db).now) == Some(db)
      ensures !ok ==> db == old(db)
    {
      var t := EnsureTimestamps(s, false, db.now);
      var ttl := ComputeTtl(config, t, db.now);
      if ttl.None? { return false; }
      db := CreateMulti(db, id, ttl.value, t);
      return true;
    }

    method DestroyAtomic(id: Id, user: Option<User>) returns (existed: bool)
      modifies this
      ensures db == LuaDestroy(old(db), id, user) && (existed <==> id in old(db).keys)
    {
      existed := id in db.keys;
      db := LuaDestroy(db, id, user);
    }

    method DestroySession(id: Id) returns (ok: bool)
      modifies this
      ensures ok <==> id in old(db).keys
      ensures db == if ok then LuaDestroy(old(db), id, old(db).keys[id].session.user) else old(db)
    {
      var s := GetSession(id);
      if s.None? { return false; }
      ok := DestroyAtomic(id, s.value.user);
    }

    method UpdateLastSeen(id: Id) returns (ok: bool)
      modifies this
      ensures (db, ok) == DoTouch(config, old(db), id)
    {
      var s := GetSession(id);
      if s.None? { return false; }
      var user := s.value.user;
      var code := ExtendCode(config, db, id, db.now);
      db := LuaExtend(config, db, id, user, db.now);
      match code
      case Updated => return true;
      case Throttled => return true;
      case Expired => return false;
      case NotFound => return false;
      case Legacy =>
        var patched := EnsureTimestamps(s.value, true, db.now);
        var ttl := ComputeTtl(config, patched, db.now);
        if ttl.None? { return false; }
        db := SetEx(db, id, ttl.value, patched);
        db := ExpireSet(db, user, ttl.value);
        return true;
    }

    /** Replace a session by the one keepAlive builds, unless the absolute or idle limit has passed. */
    method KeepAlive(id: Id, newId: Id, csrf: nat) returns (refusal: Option<Refusal>)
      modifies this
      ensures (db, refusal) == DoKeepAlive(config, old(db), id, newId, csrf)
    {
      var s := GetSession(id);
      if s.None? { return Some(NotPresent); }
      var m := s.value.meta;
      if m.expiresAt.Some? && m.expiresAt.value < db.now {
        var _ := DestroySession(id);
        return Some(AbsoluteReached);
      }
      if m.lastSeen.Some? && db.now - m.lastSeen.value > config.idleTtl * 1000 {
        var _ := DestroySession(id);
        return Some(IdleExpired);
      }
      var created := CreateSession(newId, KeepAliveSession(s.value, csrf, db.now));
      if !created { return Some(CannotCreate); }
      var _ := DestroySession(id);
      return None;
    }

    /** Rotation to a successor given by the caller, or to one made from the old session. */
    method Rotate(oldId: Id, newId: Id, given: Option<Session>, reason: Reason, csrf: nat) returns (ok: bool)
      modifies this
      ensures var next := Successor(config, old(db), oldId, given, reason, csrf);
        && (next.None? ==> ok && db == old(db))
        && (next.Some? ==>
            var created := Create(config, old(db), newId, next.value, old(db).now);
            && (ok <==> created.Some?)
            && (!ok ==> db == old(db))
            && (ok && oldId !in old(db).keys ==> db == created.value)
            && (ok && oldId in old(db).keys ==>
                db == LuaDestroy(created.value, oldId, created.value.keys[oldId].session.user)))
      ensures given.None? && oldId !in old(db).keys ==> ok && db == old(db)
      ensures ok && oldId != newId && (given.Some? || oldId in old(db).keys) ==>
        && newId in db.keys && oldId !in db.keys
        && (given.Some? ==> db.keys[newId].session == EnsureTimestamps(given.value, false, old(db).now))
        && (given.None? ==> db.keys[newId].session == DefaultRotation(config, old(db).keys[oldId].session, csrf, reason, old(db).now))
    {
      var s := GetSession(oldId);
      if s.None? {
        if given.None? { return true; }
        ok := CreateSession(newId, given.value);
        return;
      }
      var next := if given.Some? then given.value else s.value;
      if given.None? { next := Renewed(s.value, reason, csrf); }
      ok := CreateSession(newId, next);
      if ok { var _ := DestroySession(oldId); }
    }

    /** The old session with new times, a new CSRF token and the risk the reason asks for. */
    method Renewed(s: Session, reason: Reason, csrf: nat) returns (next: Session)
      ensures next == DefaultRotation(config, s, csrf, reason, db.now)
    {
      next := s;
      next := next.(meta := next.meta.(createdAt := Some(db.now)));
      next := next.(meta := next.meta.(lastSeen := Some(db.now)));
      next := next.(meta := next.meta.(expiresAt := Some(db.now + config.absoluteTtl * 1000)));
      next := next.(csrf := csrf);
      if reason == IpMismatch {
        if next.risk < 1 { next := next.(risk := 1); }
      } else if reason == AfterLogin {
        next := next.(risk := 0);
      }
      next := EnsureTimestamps(next, true, db.now);
    }

    /** Destroy everything the user's set lists, then the set itself. */
    method DestroyAllUserSessions(user: User) returns (destroyed: nat)
      modifies this
      ensures var ids := Listed(old(db), user);
        && (forall id :: id in db.keys <==> id in old(db).keys && id !in ids)
        && (forall id :: id in db.keys ==> db.keys[id] == old(db).keys[id])
        && destroyed == |old(db).keys.Keys| - |db.keys.Keys|
        && db.counter == old(db).counter - destroyed
        && (ids != {} ==> user !in db.sets)
        && (forall u :: u != user ==> (u in db.sets <==> u in old(db).sets) && (u in db.sets ==> db.sets[u] == old(db).sets[u]))
        && db.now == old(db).now
    {
      var rest := Listed(db, user);
      destroyed := 0;
      if rest == {} { return; }
      ghost var all := rest;
      ghost var gone: seq<Id> := [];
      while rest != {}
        invariant db == DestroyEach(old(db), gone, user)
        invariant forall id :: id in all <==> id in rest || id in gone
        invariant destroyed == |old(db).keys.Keys| - |db.keys.Keys|
        decreases rest
      {
        var id :| id in rest;
        ghost var before := db;
        var existed := DestroyAtomic(id, Some(user));
        DestroyRemovesOne(before, id, Some(user));
        DestroyEachConcat(old(db), gone, [id], user);
        assert DestroyEach(before, [id], user) == DestroyEach(db, [], user);
        if !existed { assert before.keys - {id} == before.keys; }
        if existed { destroyed := destroyed + 1; }
        rest, gone := rest - {id}, gone + [id];
      }
      DestroyEachRemovesExactly(old(db), gone, user);
      db := db.(sets := db.sets - {user});
    }

    /** One fetched key of a batch: destroy it if its text is garbled or its session invalid. */
    method CleanupOne(id: Id, found: Fetched, ghost garbled: set<Id>) returns (destroyed: nat)
      requires id in db.keys ==> found == FetchedAt(db, garbled, id)
      modifies this
      ensures db == SweepOne(config, old(db), garbled, id)
      ensures destroyed == |old(db).keys.Keys| - |db.keys.Keys|
    {
      destroyed := 0;
      match found {
        case Missing =>
        case Garbled =>
          DestroyRemovesOne(db, id, None);
          var existed := DestroyAtomic(id, None);
          if existed { destroyed := 1; }
        case Parsed(session) =>
          if !IsValid(config, session, db.now) {
            DestroyRemovesOne(db, id, session.user);
            var existed := DestroyAtomic(id, session.user);
            if existed { destroyed := 1; }
          }
      }
    }

    /** One batch of the scan: fetch all its sessions at once, then go through them. */
    method CleanupBatch(batch: seq<Id>, garbled: set<Id>) returns (destroyed: nat)
      modifies this
      ensures db == Sweep(config, old(db), garbled, batch)
      ensures destroyed == |old(db).keys.Keys| - |db.keys.Keys|
    {
      var start := db;
      var fetched := seq(|batch|, i requires 0 <= i < |batch| => FetchedAt(start, garbled, batch[i]));
      destroyed := 0;
      var i := 0;
      while i < |batch|
        invariant i <= |batch| && db == Sweep(config, old(db), garbled, batch[..i])
        invariant destroyed == |old(db).keys.Keys| - |db.keys.Keys|
      {
        SweepRemovesExactlyInvalid(config, old(db), garbled, batch[..i]);
        SweepConcat(config, old(db), garbled, batch[..i], [batch[i]]);
        assert batch[..i + 1] == batch[..i] + [batch[i]];
        var n := CleanupOne(batch[i], fetched[i], garbled);
        destroyed := destroyed + n;
        i := i + 1;
      }
      assert batch[..i] == batch;
    }

    /** The periodic cleanup over the batches a scan returns, which may repeat keys. */
    method CleanupExpiredSessions(batches: seq<seq<Id>>, garbled: set<Id>) returns (checked: nat, destroyed: nat)
      modifies this
      ensures db == Sweep(config, old(db), garbled, Flatten(batches))
      ensures checked == |Flatten(batches)| && destroyed == |old(db).keys.Keys| - |db.keys.Keys|
      ensures forall id :: id in db.keys <==>
        id in old(db).keys && !(Scanned(batches, id) && Doomed(config, old(db), garbled, id))
      ensures forall id :: id in db.keys ==> db.keys[id] == old(db).keys[id]
    {
      SweepRemovesExactlyInvalid(config, db, garbled, Flatten(batches));
      forall id ensures id in Flatten(batches) <==> Scanned(batches, id) { FlattenHas(batches, id); }
      checked, destroyed := 0, 0;
      var i := 0;
      while i < |batches|
        invariant i <= |batches|
        invariant Sweep(config, db, garbled, Flatten(batches[i..])) == Sweep(config, old(db), garbled, Flatten(batches))
        invariant checked + |Flatten(batches[i..])| == |Flatten(batches)|
        invariant destroyed == |old(db).keys.Keys| - |db.keys.Keys|
      {
        assert batches[i..][1..] == batches[i + 1..];
        SweepConcat(config, db, garbled, batches[i], Flatten(batches[i + 1..]));
        var n := CleanupBatch(batches[i], garbled);
        checked, destroyed := checked + |batches[i]|, destroyed + n;
        i := i + 1;
      }
    }
  }
}
