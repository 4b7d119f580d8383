/**
 What a client connection does with sessions: start one at login, react to a changed address or
 user agent, and raise the risk level.
 */
module SessionClientObject {
  import opened Common
  import opened SessionModel
  import opened SessionManagerObject

  /** A successor belongs to the login of its session and expires with it. */
  predicate SameLifetime(s: Session, successor: Session) {
    && successor.meta.login == s.meta.login && successor.meta.expiresAt == s.meta.expiresAt
    && successor.user == s.user && successor.risk >= s.risk
    && (s.meta.expSec.Some? ==> successor.meta.expSec == s.meta.expSec)
  }

  /** What is stored for a login: created and last seen now, the expiry in milliseconds and in seconds,
      no last_seen_at_sec yet, and the lowest risk. */
  function StartedSession(c: Config, login: nat, user: Option<User>, ip: nat, agent: nat, csrf: nat, now: int): Session {
    var exp := now + c.absoluteTtl * 1000;
    Session(Meta(login, Some(now), Some(now), Some(exp), Some(Floor(exp)), None), user, 0, ip, agent, csrf)
  }

  /** The deadline of a session of this risk: whole seconds from now, within the expiry and within three
      quarters of the idle time at medium risk, half of it at high risk, and with a second more it would
      not be. */
  predicate RiskyDeadline(c: Config, level: nat, exp: int, now: int, deadline: int) {
    var share := if level == 1 then 3 else if level == 2 then 2 else 4;
    && (deadline - now) % 1000 == 0
    && deadline <= exp && 4 * (deadline - now) <= share * c.idleTtl * 1000
    && (deadline + 1000 > exp || 4 * (deadline + 1000 - now) > share * c.idleTtl * 1000)
  }

  class Client {
    const sessions: SessionManager

    constructor (sessions: SessionManager)
      ensures this.sessions == sessions
    {
      this.sessions := sessions;
    }

    /** Log in: create the session, or let it replace the one the client came with. */
    method StartSession(oldId: Option<Id>, newId: Id, login: nat, user: Option<User>, ip: nat, agent: nat, csrf: nat)
      returns (ok: bool)
      requires oldId != Some(newId)
      modifies sessions
      ensures ok <==> sessions.config.absoluteTtl >= 1
      ensures !ok ==> sessions.db == old(sessions.db)
      ensures ok ==>
        && newId in sessions.db.keys
        && (sessions.db.keys[newId].session
            == StartedSession(sessions.config, login, user, ip, agent, csrf, old(sessions.db).now))
        && (oldId.Some? ==> oldId.value !in sessions.db.keys)
        && (sessions.db.counter - old(sessions.db).counter
            == if oldId.Some? && oldId.value in old(sessions.db).keys then 0 else 1)
    {
      var session := LoginSession(sessions.config, login, user, ip, agent, csrf, sessions.db.now);
      if oldId.Some? {
        ok := sessions.Rotate(oldId.value, newId, Some(session), AfterLogin, csrf);
      } else {
        ok := sessions.CreateSession(newId, session);
      }
    }

    /** The end of validateSession for a valid session: which session the client goes on with. A changed
        agent is stored, a changed address rotates the session over HTTP and is tolerated on a socket. */
    method ApplyBinding(id: Id, s: Session, http: bool, ip: nat, agent: nat, newId: Id)
      returns (r: Option<(Id, Session)>)
      requires newId != id && newId !in sessions.db.keys
      modifies sessions
      ensures s.agent == agent && (s.ip == ip || !http) ==> sessions.db == old(sessions.db) && r == Some((id, s))
      ensures s.agent != agent ==>
        sessions.db == RewriteAndExpire(sessions.config, old(sessions.db), id, s.(agent := agent), old(sessions.db).now)
        && r == Some((id, s.(agent := agent)))
      ensures s.agent == agent && s.ip != ip && http ==>
        (r.Some? <==> s.meta.expiresAt.Some? && s.meta.expiresAt.value - old(sessions.db).now >= 1000)
        && (r.None? ==> sessions.db == old(sessions.db))
        && (r.Some? ==> r.value.0 == newId && newId in sessions.db.keys && id !in sessions.db.keys && r.value.1.ip == ip)
      ensures r.Some? ==> SameLifetime(s, r.value.1)
    {
      if s.agent != agent {
        var updated := s.(agent := agent);
        var ttl := ComputeTtl(sessions.config, updated, sessions.db.now);
        if ttl.Some? && ttl.value >= 1 {
          sessions.db := SetEx(sessions.db, id, ttl.value, updated);
          sessions.db := ExpireSet(sessions.db, updated.user, ttl.value);
        }
        return Some((id, updated));
      }
      if s.ip == ip || !http { return Some((id, s)); }
      r := RotateForAddress(id, s, ip, newId);
    }

    /** Replace the session by one for the new address. */
    method RotateForAddress(id: Id, s: Session, ip: nat, newId: Id) returns (r: Option<(Id, Session)>)
      requires newId != id && newId !in sessions.db.keys
      modifies sessions
      ensures r.Some? <==> s.meta.expiresAt.Some? && s.meta.expiresAt.value - old(sessions.db).now >= 1000
      ensures r.None? ==> sessions.db == old(sessions.db)
      ensures r.Some? ==> r.value.0 == newId && newId in sessions.db.keys && id !in sessions.db.keys
      ensures r.Some? ==> sessions.db.keys[newId].session == r.value.1 && SameLifetime(s, r.value.1)
      ensures r.Some? ==> r.value.1.ip == ip && r.value.1.agent == s.agent && r.value.1.risk >= 1
    {
      var successor := IpSession(s, ip, sessions.db.now);
      var ok := sessions.Rotate(id, newId, Some(successor), IpMismatch, s.csrf);
      if !ok { return None; }
      var now_ := sessions.GetSession(newId);
      if now_.None? { return None; }
      return Some((newId, now_.value));
    }

    /** Raise the risk level of a stored session, never lower it; a risky session idles less. */
    method RaiseRiskLevel(id: Id, level: nat) returns (raised: bool)
      modifies sessions
      ensures raised <==>
        && id in old(sessions.db).keys
        && var s := old(sessions.db).keys[id].session;
           && level > s.risk && s.meta.expiresAt.Some? && s.meta.expiresAt.value - old(sessions.db).now >= 1000
           && sessions.config.idleTtl >= if level == 1 || level == 2 then 2 else 1
      ensures !raised ==> sessions.db == old(sessions.db)
      ensures id in old(sessions.db).keys ==>
        sessions.db == RiskRewrite(sessions.config, old(sessions.db), id, old(sessions.db).keys[id].session, level, old(sessions.db).now)
      ensures raised ==>
        && id in sessions.db.keys
        && sessions.db.keys[id].session == old(sessions.db).keys[id].session.(risk := level)
        && level > old(sessions.db).keys[id].session.risk
        && sessions.db == old(sessions.db).(keys := old(sessions.db).keys[id := sessions.db.keys[id]])
        && RiskyDeadline(sessions.config, level, old(sessions.db).keys[id].session.meta.expiresAt.value,
                         old(sessions.db).now, sessions.db.keys[id].deadline)
    {
      var found := sessions.GetSession(id);
      if found.None? { return false; }
      var s := found.value;
      if level <= s.risk { return false; }
      if s.meta.expiresAt.None? { return false; }
      var absolute := (s.meta.expiresAt.value - sessions.db.now) / 1000;
      var idle := RiskIdle(sessions.config, level);
      var ttl := if idle <= absolute then idle else absolute;
      if ttl <= 0 { return false; }
      sessions.db := SetEx(sessions.db, id, ttl, s.(risk := level));
      return true;
    }
  }
}
