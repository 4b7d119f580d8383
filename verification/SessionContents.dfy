/**
 What is written under a session's key: which fields each operation changes and which it keeps, and
 that over every run a session belongs to the user its login was given.
 */
module SessionContents {
  import opened Common
  import opened SessionModel
  import opened SessionSurvival

  // ---------------------------------------------------------------- one operation

  /** Equal but for the two times of the last use. */
  predicate SameButLastUse(s: Session, t: Session) {
    && t.user == s.user && t.risk == s.risk && t.ip == s.ip && t.agent == s.agent && t.csrf == s.csrf
    && t.meta.login == s.meta.login && t.meta.createdAt == s.meta.createdAt
    && t.meta.expiresAt == s.meta.expiresAt && t.meta.expSec == s.meta.expSec
  }

  /** The extend script writes the times of the last use of one session and nothing else; without an
      answer of Updated it writes nothing at all. */
  lemma ExtendWrites(c: Config, db: Db, id: Id, user: Option<User>, at: int)
    ensures var d := LuaExtend(c, db, id, user, at);
      && d.now == db.now && d.counter == db.counter && d.keys.Keys == db.keys.Keys
      && (forall k :: k in db.keys && k != id ==> d.keys[k] == db.keys[k])
      && (ExtendCode(c, db, id, at) != Updated ==> d == db)
      && (ExtendCode(c, db, id, at) == Updated ==>
          var s, t := db.keys[id].session, d.keys[id].session;
          && SameButLastUse(s, t)
          && t.meta.lastSeen == Some(at) && t.meta.seenSec == Some(at / 1000)
          && d.keys[id].deadline <= db.now + (if c.idleTtl >= 1 then c.idleTtl else 1) * 1000)
      && (forall u :: u in db.sets ==> u in d.sets && d.sets[u].ids == db.sets[u].ids && (Some(u) != user ==> d.sets[u] == db.sets[u]))
      && d.sets.Keys == db.sets.Keys
  {
    if ExtendCode(c, db, id, at) == Updated { assert db.keys.Keys + {id} == db.keys.Keys; }
  }

  /** The second of the expiry, kept where it is there and computed where it is missing. */
  function ExpirySecond(m: Meta): Option<int> {
    if m.expSec.Some? || m.expiresAt.None? then m.expSec else Some(m.expiresAt.value / 1000)
  }

  /** What the successors of a session keep of it and what they change. */
  lemma SuccessorsAre(c: Config, s: Session, csrf: nat, ip: nat, reason: Reason, now: int)
    ensures var m, sec := s.meta, ExpirySecond(s.meta);
      && KeepAliveSession(s, csrf, now)
         == Session(Meta(m.login, m.createdAt, Some(now), m.expiresAt, sec, Some(now / 1000)), s.user, s.risk, s.ip, s.agent, csrf)
      && IpSession(s, ip, now)
         == Session(Meta(m.login, Some(now), Some(now), m.expiresAt, sec, m.seenSec), s.user,
                    if s.risk == 0 then 1 else s.risk, ip, s.agent, s.csrf)
      && DefaultRotation(c, s, csrf, reason, now)
         == Session(Meta(m.login, Some(now), Some(now), Some(now + c.absoluteTtl * 1000),
                         if m.expSec.Some? then m.expSec else Some((now + c.absoluteTtl * 1000) / 1000), Some(now / 1000)), s.user,
                    if reason == AfterLogin then 0 else if reason == IpMismatch && s.risk == 0 then 1 else s.risk,
                    s.ip, s.agent, csrf)
  {
  }

  /** A plain rewrite stores the very session it is given, exactly if a second or more is left of its
      life, and for no longer than that and the idle time. */
  lemma RewriteWrites(c: Config, db: Db, id: Id, s: Session, now: int)
    ensures var d := Rewrite(c, db, id, s, now);
      && d.now == db.now && d.counter == db.counter && d.sets == db.sets
      && d.keys - {id} == db.keys - {id}
      && (if s.meta.expiresAt.Some? && s.meta.expiresAt.value - now >= 1000
          then id in d.keys && d.keys[id].session == s
               && now + d.keys[id].deadline - db.now <= s.meta.expiresAt.value
               && (c.idleTtl >= 1 ==> d.keys[id].deadline <= db.now + c.idleTtl * 1000)
          else d == db)
  {
  }

  /** With the EXPIRE behind it the user's set, if there is one, gets the deadline of the key. */
  lemma RewriteAndExpireWrites(c: Config, db: Db, id: Id, s: Session, now: int)
    ensures var d, plain := RewriteAndExpire(c, db, id, s, now), Rewrite(c, db, id, s, now);
      && d.keys == plain.keys && d.counter == plain.counter && d.now == plain.now
      && d.sets == (if s.meta.expiresAt.Some? && s.meta.expiresAt.value - now >= 1000 && s.user.Some? && s.user.value in db.sets
                    then db.sets[s.user.value := UserSet(db.sets[s.user.value].ids, Some(d.keys[id].deadline))]
                    else db.sets)
  {
  }

  // ---------------------------------------------------------------- calls

  /** A stored session that updateLastSeen can extend. */
  predicate Extendable(m: Meta, now: int) {
    if m.expSec.Some? then now < (m.expSec.value + 1) * 1000 else m.expiresAt.Some? && m.expiresAt.value - now >= 1000
  }

  /** A stored session that keepAlive can replace. */
  predicate WithinLimits(c: Config, m: Meta, now: int) {
    && m.expiresAt.Some? && m.expiresAt.value - now >= 1000
    && (m.lastSeen.Some? ==> now - m.lastSeen.value <= c.idleTtl * 1000)
  }

  /** updateLastSeen answers true exactly for a stored session that, having expires_at_sec, is not past
      that second, or, lacking it, has a second or more to live and is rewritten with both times. */
  lemma TouchSucceedsIff(c: Config, db: Db, id: Id)
    ensures var (d, ok) := DoTouch(c, db, id);
      && (ok <==> id in db.keys && Extendable(db.keys[id].session.meta, db.now))
      && d.keys.Keys == db.keys.Keys && d.counter == db.counter
      && (forall k :: k in db.keys && k != id ==> d.keys[k] == db.keys[k])
      && (id in db.keys ==> SameOwner(db.keys[id].session, d.keys[id].session))
      && (ok && db.keys[id].session.meta.expSec.None? ==>
          d.keys[id].session.meta.lastSeen == Some(db.now) && d.keys[id].session.meta.seenSec == Some(db.now / 1000)
          && d.keys[id].session.meta.expSec == Some(db.keys[id].session.meta.expiresAt.value / 1000))
  {
    if id in db.keys {
      var s := db.keys[id].session;
      ExtendWrites(c, db, id, s.user, db.now);
      var t := EnsureTimestamps(s, true, db.now);
      RewriteWrites(c, db, id, t, db.now);
      RewriteAndExpireWrites(c, db, id, t, db.now);
    }
  }

  /** Equal in everything but times. */
  predicate SameOwner(s: Session, t: Session) {
    && t.user == s.user && t.risk == s.risk && t.ip == s.ip && t.agent == s.agent && t.csrf == s.csrf
    && t.meta.login == s.meta.login && t.meta.createdAt == s.meta.createdAt && t.meta.expiresAt == s.meta.expiresAt
  }

  /** keepAlive succeeds exactly for a stored session that is within its idle time (without tolerance)
      and has a second or more to live; then the successor is stored under the new id, the old key is
      gone and the counter is what it was. Past either limit the session is destroyed. */
  lemma KeepAliveSucceedsIff(c: Config, db: Db, id: Id, newId: Id, csrf: nat)
    requires newId != id
    ensures var (d, why) := DoKeepAlive(c, db, id, newId, csrf);
      && (why == None <==> id in db.keys && WithinLimits(c, db.keys[id].session.meta, db.now))
      && (why == None ==> newId in d.keys && d.keys.Keys == db.keys.Keys + {newId} - {id} && d.counter == db.counter)
      && (why == None ==> d.keys[newId].session == KeepAliveSession(db.keys[id].session, csrf, db.now))
      && (why == Some(NotPresent) <==> id !in db.keys)
      && (why == Some(AbsoluteReached) <==>
            id in db.keys && db.keys[id].session.meta.expiresAt.Some? && db.keys[id].session.meta.expiresAt.value < db.now)
      && (why == Some(AbsoluteReached) || why == Some(IdleExpired) ==> d.keys == db.keys - {id} && d.counter == db.counter - 1)
      && (why == Some(NotPresent) || why == Some(CannotCreate) ==> d == db)
  {
    if id in db.keys {
      var s := KeepAliveSession(db.keys[id].session, csrf, db.now);
      assert EnsureTimestamps(s, false, db.now) == s;
      if ComputeTtl(c, s, db.now).Some? && KeepAliveRefusal(c, db, id).None? {
        var made := CreateMulti(db, newId, ComputeTtl(c, s, db.now).value, s);
        assert made.keys.Keys == db.keys.Keys + {newId};
        assert LuaDestroy(made, id, made.keys[id].session.user).keys.Keys == made.keys.Keys - {id};
      }
    }
  }

  // ---------------------------------------------------------------- every interleaving

  /** The user each login of a run was given. */
  function Owners(es: seq<Event>): map<nat, Option<User>>
    decreases |es|
  {
    if es == [] then map[]
    else
      var init, e := es[..|es| - 1], es[|es| - 1];
      if e.Login? then Owners(init)[e.login := e.user] else Owners(init)
  }

  predicate Belongs(owners: map<nat, Option<User>>, s: Session) {
    s.meta.login in owners && s.user == owners[s.meta.login]
  }

  ghost predicate OwnedBy(owners: map<nat, Option<User>>, w: World) {
    && owners.Keys == w.logins.Keys
    && (forall s :: s in w.seen ==> Belongs(owners, s))
    && (forall id :: id in w.db.keys ==> Belongs(owners, w.db.keys[id].session))
  }

  lemma CreateOwned(c: Config, owners: map<nat, Option<User>>, w: World, id: Id, s: Session, at: int)
    requires OwnedBy(owners, w) && Belongs(owners, s)
    ensures OwnedBy(owners, StepCreate(c, w, id, s, at))
  {
    var t := EnsureTimestamps(s, false, at);
    if ComputeTtl(c, t, at).Some? {
      var ttl := ComputeTtl(c, t, at).value;
      assert StepCreate(c, w, id, s, at).db.keys == w.db.keys[id := Entry(t, w.db.now + ttl * 1000)];
    }
  }

  lemma RewriteOwned(c: Config, owners: map<nat, Option<User>>, w: World, id: Id, s: Session, at: int)
    requires OwnedBy(owners, w) && Belongs(owners, s)
    ensures OwnedBy(owners, StepRewrite(w, id, Rewrite(c, w.db, id, s, at)))
  {
    if ComputeTtl(c, s, at).Some? {
      assert Rewrite(c, w.db, id, s, at).keys == w.db.keys[id := Entry(s, w.db.now + ComputeTtl(c, s, at).value * 1000)];
    }
  }

  lemma RiskOwned(c: Config, owners: map<nat, Option<User>>, w: World, id: Id, s: Session, level: nat, at: int)
    requires OwnedBy(owners, w) && Belongs(owners, s)
    ensures OwnedBy(owners, StepRewrite(w, id, RiskRewrite(c, w.db, id, s, level, at)))
  {
  }

  lemma ExtendOwned(c: Config, owners: map<nat, Option<User>>, w: World, id: Id, user: Option<User>, at: int)
    requires OwnedBy(owners, w)
    ensures OwnedBy(owners, w.(db := LuaExtend(c, w.db, id, user, at)))
  {
    ExtendWrites(c, w.db, id, user, at);
    var d := LuaExtend(c, w.db, id, user, at);
    forall k | k in d.keys ensures Belongs(owners, d.keys[k].session) {
      assert Belongs(owners, w.db.keys[k].session);
    }
  }

  lemma LoginOwned(c: Config, owners: map<nat, Option<User>>, w: World, e: Event, delay: nat)
    requires Enabled(w, e, delay) && OwnedBy(owners, w) && e.Login?
    ensures OwnedBy(owners[e.login := e.user], Step(c, w, e))
  {
    var v, more := w.(logins := w.logins[e.login := e.at + c.absoluteTtl * 1000]), owners[e.login := e.user];
    assert forall s :: Belongs(owners, s) ==> Belongs(more, s);
    CreateOwned(c, more, v, e.id, LoginSession(c, e.login, e.user, e.ip, e.agent, e.csrf, e.at), e.at);
  }

  lemma PassiveOwned(c: Config, owners: map<nat, Option<User>>, w: World, e: Event)
    requires OwnedBy(owners, w) && (e.Advance? || e.Read? || e.ExpireUserSet? || e.Destroy? || e.DropSet?)
    ensures OwnedBy(owners, Step(c, w, e))
  {
  }

  lemma StepOwned(c: Config, owners: map<nat, Option<User>>, w: World, e: Event, delay: nat)
    requires Enabled(w, e, delay) && OwnedBy(owners, w)
    ensures OwnedBy(if e.Login? then owners[e.login := e.user] else owners, Step(c, w, e))
  {
    match e
    case Login(_, _, _, _, _, _, _) => LoginOwned(c, owners, w, e, delay);
    case KeepAlive(id, s, csrf, at) => CreateOwned(c, owners, w, id, KeepAliveSession(s, csrf, at), at);
    case RotateIp(id, s, ip, at) => CreateOwned(c, owners, w, id, IpSession(s, ip, at), at);
    case Extend(id, user, at) => ExtendOwned(c, owners, w, id, user, at);
    case PatchLegacy(id, s, at) => RewriteOwned(c, owners, w, id, EnsureTimestamps(s, true, at), at);
    case RewriteAgent(id, s, agent, at) => RewriteOwned(c, owners, w, id, s.(agent := agent), at);
    case RaiseRisk(id, s, level, at) => RiskOwned(c, owners, w, id, s, level, at);
    case _ => PassiveOwned(c, owners, w, e);
  }

  lemma {:induction false} RunSplit(c: Config, w: World, es: seq<Event>, delay: nat)
    requires ValidRun(c, w, es, delay) && es != []
    ensures var init, e := es[..|es| - 1], es[|es| - 1];
      ValidRun(c, w, init, delay) && Enabled(Exec(c, w, init), e, delay) && Exec(c, w, es) == Step(c, Exec(c, w, init), e)
    decreases |es|
  {
    if |es| > 1 {
      RunSplit(c, Step(c, w, es[0]), es[1..], delay);
      var init := es[..|es| - 1];
      assert es[1..][..|es| - 2] == init[1..] && init[0] == es[0];
    }
  }

  lemma {:induction false} RunOwned(c: Config, start: int, es: seq<Event>, delay: nat)
    requires ValidRun(c, Empty(start), es, delay)
    ensures OwnedBy(Owners(es), Exec(c, Empty(start), es))
    decreases |es|
  {
    if es != [] {
      var init, e := es[..|es| - 1], es[|es| - 1];
      RunSplit(c, Empty(start), es, delay);
      RunOwned(c, start, init, delay);
      StepOwned(c, Owners(init), Exec(c, Empty(start), init), e, delay);
    }
  }

  /** A session is nobody else's: over every interleaving, each stored session belongs to the user
      the login it descends from was given, through extensions, rewrites with stale values and
      rotations. */
  lemma SessionsKeepTheirUser(c: Config, start: int, es: seq<Event>, delay: nat)
    requires ValidRun(c, Empty(start), es, delay)
    ensures var db := Exec(c, Empty(start), es).db;
      forall id :: id in db.keys ==>
        var s := db.keys[id].session; s.meta.login in Owners(es) && s.user == Owners(es)[s.meta.login]
  {
    RunOwned(c, start, es, delay);
  }
}
