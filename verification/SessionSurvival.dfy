/**
 Throttled sliding expiry: a client that stays active is not logged out before its absolute
 expiry, although most of its calls write nothing.
 */
module SessionSurvival {
  import opened Common
  import opened SessionModel

  /** What a client does with its session: an ordinary call, a keep-alive, a call from a new address. */
  datatype Act = Touch | KeepAlive(newId: Id, csrf: nat) | Move(newId: Id, ip: nat)

  /** updateLastSeen for a session that carries expires_at_sec. */
  function DoTouch(c: Config, db: Db, id: Id): (Db, bool) {
    if id !in db.keys then (db, false)
    else
      var user := db.keys[id].session.user;
      match ExtendCode(c, db, id, db.now)
      case Updated => (LuaExtend(c, db, id, user, db.now), true)
      case Throttled => (db, true)
      case Expired => (db, false)
      case NotFound => (db, false)
      case Legacy =>
        var s := EnsureTimestamps(db.keys[id].session, true, db.now);
        (RewriteAndExpire(c, db, id, s, db.now), ComputeTtl(c, s, db.now).Some?)
  }

  /** Replace a session by a successor: create the new one, then destroy the old one. */
  function Replace(c: Config, db: Db, id: Id, newId: Id, s: Session): Option<Db> {
    match Create(c, db, newId, s, db.now)
    case None => None
    case Some(d) => Some(if id in d.keys then LuaDestroy(d, id, d.keys[id].session.user) else d)
  }

  datatype Refusal = NotPresent | AbsoluteReached | IdleExpired | CannotCreate

  /** Why keepAlive refuses, if it does. */
  function KeepAliveRefusal(c: Config, db: Db, id: Id): Option<Refusal> {
    if id !in db.keys then Some(NotPresent)
    else
      var m := db.keys[id].session.meta;
      if m.expiresAt.Some? && m.expiresAt.value < db.now then Some(AbsoluteReached)
      else if m.lastSeen.Some? && db.now - m.lastSeen.value > c.idleTtl * 1000 then Some(IdleExpired)
      else None
  }

  function DoKeepAlive(c: Config, db: Db, id: Id, newId: Id, csrf: nat): (Db, Option<Refusal>) {
    match KeepAliveRefusal(c, db, id)
    case Some(NotPresent) => (db, Some(NotPresent))
    case Some(why) => (LuaDestroy(db, id, db.keys[id].session.user), Some(why))
    case None =>
      match Replace(c, db, id, newId, KeepAliveSession(db.keys[id].session, csrf, db.now))
      case None => (db, Some(CannotCreate))
      case Some(d) => (d, None)
  }

  /** One act at time t: the store, the session id the client holds afterwards, and success. */
  function DoAct(c: Config, db0: Db, id: Id, t: int, a: Act): (Db, Id, bool) {
    var db := Tick(db0, t);
    match a
    case Touch =>
      var (d, ok) := DoTouch(c, db, id);
      (d, id, ok)
    case KeepAlive(newId, csrf) =>
      var (d, why) := DoKeepAlive(c, db, id, newId, csrf);
      (d, if why.None? then newId else id, why.None?)
    case Move(newId, ip) =>
      if id !in db.keys then (db, id, false)
      else
        match Replace(c, db, id, newId, IpSession(db.keys[id].session, ip, db.now))
        case None => (db, id, false)
        case Some(d) => (d, newId, true)
  }

  /** The longest pause, in milliseconds, that a throttled session is sure to survive. */
  function Pause(c: Config): int {
    (c.idleTtl - c.extendThreshold) * 1000
  }

  /** The entry of a client whose last act was at `last` lives through one more pause or up to a
      second before its absolute expiry. */
  predicate Alive(c: Config, e: Entry, last: int, exp: int) {
    var m := e.session.meta;
    && m.expiresAt == Some(exp) && m.expSec == Some(Floor(exp))
    && m.lastSeen.Some? && m.lastSeen.value <= last <= m.lastSeen.value + c.extendThreshold * 1000
    && (m.seenSec.Some? ==> m.seenSec.value <= Floor(last))
    && (e.deadline >= last + Pause(c) || e.deadline > exp - 1000)
    && (m.seenSec.Some? ==> e.deadline >= (m.seenSec.value + c.idleTtl) * 1000 || e.deadline > exp - 1000)
    && (m.seenSec.Some? ==> m.seenSec.value * 1000 <= m.lastSeen.value)
  }

  predicate Sane(c: Config) {
    c.idleTtl >= 1 && 0 <= c.extendThreshold && c.skewMs >= 0
  }

  /** An act in time: within a pause of the last one and at least a second before the expiry. */
  predicate InTime(c: Config, last: int, t: int, exp: int) {
    last <= t < last + Pause(c) && t <= exp - 1000
  }

  /** An ordinary call in time succeeds, throttled or not. */
  lemma TouchInTime(c: Config, db: Db, id: Id, last: int, exp: int)
    requires Sane(c) && InTime(c, last, db.now, exp) && id in db.keys && Alive(c, db.keys[id], last, exp)
    ensures var (d, ok) := DoTouch(c, db, id);
      ok && id in d.keys && Alive(c, d.keys[id], db.now, exp)
  {
    var t := db.now;
    assert Floor(t) * 1000 <= t < (Floor(t) + 1) * 1000;
    assert Floor(exp) * 1000 > exp - 1000;
    assert Floor(t) <= Floor(exp);
  }

  lemma CreatedInTime(c: Config, db: Db, id: Id, newId: Id, s: Session, exp: int)
    requires Sane(c) && db.now <= exp - 1000 && newId != id
    requires s.meta.expiresAt == Some(exp) && s.meta.expSec == Some(Floor(exp)) && s.meta.lastSeen == Some(db.now)
    requires s.meta.seenSec.Some? ==> s.meta.seenSec.value <= Floor(db.now)
    ensures var d := Replace(c, db, id, newId, s);
      d.Some? && newId in d.value.keys && Alive(c, d.value.keys[newId], db.now, exp)
  {
    assert EnsureTimestamps(s, false, db.now) == s;
    FreshIsAlive(c, s, db.now, exp);
    ReplaceStores(c, db, id, newId, s, ComputeTtl(c, s, db.now).value);
  }

  lemma FreshIsAlive(c: Config, s: Session, now: int, exp: int)
    requires Sane(c) && now <= exp - 1000
    requires s.meta.expiresAt == Some(exp) && s.meta.expSec == Some(Floor(exp)) && s.meta.lastSeen == Some(now)
    requires s.meta.seenSec.Some? ==> s.meta.seenSec.value <= Floor(now)
    ensures ComputeTtl(c, s, now).Some?
    ensures Alive(c, Entry(s, now + ComputeTtl(c, s, now).value * 1000), now, exp)
  {
    assert Floor(now) * 1000 <= now;
  }

  lemma ReplaceStores(c: Config, db: Db, id: Id, newId: Id, s: Session, ttl: int)
    requires newId != id && EnsureTimestamps(s, false, db.now) == s && ComputeTtl(c, s, db.now) == Some(ttl)
    ensures var d := Replace(c, db, id, newId, s);
      d.Some? && newId in d.value.keys && d.value.keys[newId] == Entry(s, db.now + ttl * 1000)
  {
    assert CreateMulti(db, newId, ttl, s).keys[newId] == Entry(s, db.now + ttl * 1000);
  }

  predicate FreshFor(db: Db, id: Id, a: Act) {
    a.Touch? || (a.newId != id && a.newId !in db.keys)
  }

  lemma ActInTime(c: Config, db0: Db, id: Id, last: int, t: int, a: Act, exp: int)
    requires Sane(c) && InTime(c, last, t, exp) && id in db0.keys && Alive(c, db0.keys[id], last, exp)
    requires FreshFor(db0, id, a)
    ensures var (d, id', ok) := DoAct(c, db0, id, t, a);
      ok && id' in d.keys && Alive(c, d.keys[id'], t, exp)
      && (!a.Touch? ==> id' == a.newId && id !in d.keys)
  {
    var db := Tick(db0, t);
    match a
    case Touch => TouchInTime(c, db, id, last, exp);
    case KeepAlive(newId, csrf) =>
      assert KeepAliveRefusal(c, db, id).None?;
      CreatedInTime(c, db, id, newId, KeepAliveSession(db.keys[id].session, csrf, t), exp);
    case Move(newId, ip) =>
      CreatedInTime(c, db, id, newId, IpSession(db.keys[id].session, ip, t), exp);
  }

  /** A client's history: times and acts, each in time and with fresh successor ids. */
  predicate Active(c: Config, db: Db, id: Id, last: int, exp: int, ts: seq<int>, acts: seq<Act>)
    requires |ts| == |acts|
    decreases |ts|
  {
    ts == [] ||
    (InTime(c, last, ts[0], exp) && FreshFor(db, id, acts[0])
     && var (d, id', _) := DoAct(c, db, id, ts[0], acts[0]);
        Active(c, d, id', ts[0], exp, ts[1..], acts[1..]))
  }

  /** Do all acts succeed, and what does the client hold at the end? */
  function Play(c: Config, db: Db, id: Id, ts: seq<int>, acts: seq<Act>): (Db, Id, bool)
    requires |ts| == |acts|
    decreases |ts|
  {
    if ts == [] then (db, id, true)
    else
      var (d, id', ok) := DoAct(c, db, id, ts[0], acts[0]);
      var (d', id'', rest) := Play(c, d, id', ts[1..], acts[1..]);
      (d', id'', ok && rest)
  }

  lemma {:induction false} PlaySurvives(c: Config, db: Db, id: Id, last: int, exp: int, ts: seq<int>, acts: seq<Act>)
    requires Sane(c) && |ts| == |acts| && id in db.keys && Alive(c, db.keys[id], last, exp)
    requires Active(c, db, id, last, exp, ts, acts)
    ensures var (d, id', ok) := Play(c, db, id, ts, acts);
      var end := if ts == [] then last else ts[|ts| - 1];
      ok && id' in d.keys && Alive(c, d.keys[id'], end, exp)
    decreases |ts|
  {
    if ts != [] {
      var (d, id', ok) := DoAct(c, db, id, ts[0], acts[0]);
      ActInTime(c, db, id, last, ts[0], acts[0], exp);
      PlaySurvives(c, d, id', ts[0], exp, ts[1..], acts[1..]);
      if |ts| > 1 { assert ts[1..][|ts| - 2] == ts[|ts| - 1]; }
    }
  }

  function LastOf(start: int, ts: seq<int>): int {
    if ts == [] then start else ts[|ts| - 1]
  }

  lemma LoginIsAlive(c: Config, db: Db, id: Id, s: Session)
    requires Sane(c) && s == LoginSession(c, s.meta.login, s.user, s.ip, s.agent, s.csrf, db.now)
    requires Create(c, db, id, s, db.now).Some?
    ensures var d := Create(c, db, id, s, db.now).value;
      id in d.keys && Alive(c, d.keys[id], db.now, db.now + c.absoluteTtl * 1000)
  {
  }

  lemma GoodForAPause(c: Config, db: Db, id: Id, last: int, t: int, exp: int)
    requires Sane(c) && id in db.keys && Alive(c, db.keys[id], last, exp) && InTime(c, last, t, exp)
    ensures id in Tick(db, t).keys && IsValid(c, Tick(db, t).keys[id].session, t)
  {
  }

  /** Nobody who stays active is logged out: from a login on, if every pause is shorter than
      idleTtl - extendThreshold, every call, keep-alive and address change up to a second before
      the absolute expiry succeeds, and the session is still there, and valid, after one more pause. */
  lemma ActiveClientKeepsSession(c: Config, db: Db, id: Id, s: Session, ts: seq<int>, acts: seq<Act>, t: int)
    requires Sane(c) && |ts| == |acts| && s == LoginSession(c, s.meta.login, s.user, s.ip, s.agent, s.csrf, db.now)
    requires Create(c, db, id, s, db.now).Some?
    requires Active(c, Create(c, db, id, s, db.now).value, id, db.now, db.now + c.absoluteTtl * 1000, ts, acts)
    requires InTime(c, LastOf(db.now, ts), t, db.now + c.absoluteTtl * 1000)
    ensures var (d, id', ok) := Play(c, Create(c, db, id, s, db.now).value, id, ts, acts);
      ok && id' in Tick(d, t).keys && IsValid(c, Tick(d, t).keys[id'].session, t)
  {
    var exp := db.now + c.absoluteTtl * 1000;
    var d := Create(c, db, id, s, db.now).value;
    LoginIsAlive(c, db, id, s);
    PlaySurvives(c, d, id, db.now, exp, ts, acts);
    var (e, id', ok) := Play(c, d, id, ts, acts);
    GoodForAPause(c, e, id', LastOf(db.now, ts), t, exp);
  }

  // ---------------------------------------------------------------- the throttle

  /** Extend calls on one session, each with the clock reading it passes; the log holds the
      seconds of those that wrote. */
  function Writes(c: Config, db: Db, id: Id, ats: seq<int>): seq<int>
    decreases |ats|
  {
    if ats == [] then []
    else
      (if ExtendCode(c, db, id, ats[0]) == Updated then [Floor(ats[0])] else [])
      + Writes(c, LuaExtend(c, db, id, None, ats[0]), id, ats[1..])
  }

  predicate Spaced(xs: seq<int>, gap: int) {
    forall i :: 0 <= i < |xs| - 1 ==> xs[i + 1] - xs[i] >= gap
  }

  lemma {:induction false} WritesSpaced(c: Config, db: Db, id: Id, ats: seq<int>)
    requires c.extendThreshold > 0
    ensures Spaced(Writes(c, db, id, ats), c.extendThreshold)
    ensures Writes(c, db, id, ats) != [] && id in db.keys && db.keys[id].session.meta.seenSec.Some?
      ==> Writes(c, db, id, ats)[0] - db.keys[id].session.meta.seenSec.value >= c.extendThreshold
    decreases |ats|
  {
    if ats != [] {
      var d := LuaExtend(c, db, id, None, ats[0]);
      WritesSpaced(c, d, id, ats[1..]);
      if ExtendCode(c, db, id, ats[0]) == Updated {
        assert id in d.keys && d.keys[id].session.meta.seenSec == Some(Floor(ats[0]));
      }
    }
  }

  /** With a throttle, however calls arrive (even with clock readings out of order), any two
      consecutive writes to a session are at least extendThreshold seconds apart, and so is the
      first one from a stored last_seen_at_sec. */
  lemma WritesAreThrottled(c: Config, db: Db, id: Id, ats: seq<int>)
    requires c.extendThreshold > 0
    ensures var ws := Writes(c, db, id, ats);
      && (forall i :: 0 <= i < |ws| - 1 ==> ws[i + 1] - ws[i] >= c.extendThreshold)
      && (ws != [] && id in db.keys && db.keys[id].session.meta.seenSec.Some?
          ==> ws[0] - db.keys[id].session.meta.seenSec.value >= c.extendThreshold)
  {
    WritesSpaced(c, db, id, ats);
  }

  /** After a call that wrote, a second call on the same session writes if and only if its second is
      at least extendThreshold seconds later and not beyond the second of the absolute expiry. */
  lemma SecondWriteIff(c: Config, db: Db, id: Id, user: Option<User>, at: int, at2: int)
    requires c.extendThreshold > 0 && ExtendCode(c, db, id, at) == Updated
    ensures var d := LuaExtend(c, db, id, user, at);
      ExtendCode(c, d, id, at2) == Updated
      <==> Floor(at2) - Floor(at) >= c.extendThreshold && Floor(at2) <= db.keys[id].session.meta.expSec.value
  {
    var s := db.keys[id].session;
    assert LuaExtend(c, db, id, user, at).keys[id].session
        == s.(meta := s.meta.(lastSeen := Some(at), seenSec := Some(Floor(at))));
  }
}
