/**
 Sliding expiry among other programs: a session in use survives every interleaving of logins,
 rotations, extensions, rewrites and destructions of other sessions, with any delay between a
 program's reading of the clock and its operation on the store, and with its own user agent being
 rewritten or its missing fields patched from values read earlier.
 */
module SessionInterleaving {
  import opened Common
  import opened SessionModel
  import opened SessionSurvival

  /** The entry of a session whose last use read the clock at `last`: it lives through one more pause
      or up to a second before its absolute expiry. `slack` bounds how stale a rewritten last_seen_at
      may be; up to it and the throttle, last_seen_at follows the last use, and the key does not
      outlive the idle limit by more than it and the delay. */
  predicate Carried(c: Config, e: Entry, last: int, exp: int, delay: nat, slack: nat) {
    var m := e.session.meta;
    && m.expiresAt == Some(exp) && m.expSec == Some(Floor(exp)) && m.lastSeen.Some?
    && (e.deadline >= last + Pause(c) || e.deadline > exp - 1000)
    && (m.seenSec.Some? ==> e.deadline >= (m.seenSec.value + c.idleTtl) * 1000 || e.deadline > exp - 1000)
    && (m.seenSec.Some? ==> m.seenSec.value * 1000 <= m.lastSeen.value)
    && last <= m.lastSeen.value + Max(c.extendThreshold * 1000, slack)
    && e.deadline <= m.lastSeen.value + c.idleTtl * 1000 + delay + slack
  }

  /** Events that destroy this session or shorten its idle time. */
  predicate Against(e: Event, id: Id) {
    (e.Destroy? || e.RaiseRisk?) && e.id == id
  }

  predicate CallOf(e: Event, id: Id) {
    e.Extend? && e.id == id
  }

  predicate RewriteOf(e: Event, id: Id) {
    (e.PatchLegacy? || e.RewriteAgent?) && e.id == id
  }

  /** A session value of this login, read before its use at `at`; its last_seen_at is at most `slack`
      older than that. */
  predicate ReadBefore(s: Session, at: int, exp: int, slack: nat) {
    var m := s.meta;
    && m.expiresAt == Some(exp) && m.expSec == Some(Floor(exp))
    && m.lastSeen.Some? && m.lastSeen.value <= at <= m.lastSeen.value + slack
    && (m.seenSec.Some? ==> m.seenSec.value * 1000 <= m.lastSeen.value)
  }

  /** Time advances only within a pause of the session's last use and up to a second before its
      absolute expiry, nothing is directed against the session, and what it is rewritten with was
      read before; a patch sets last_seen_at itself. */
  predicate KeepsPace(c: Config, e: Event, id: Id, last: int, exp: int, slack: nat) {
    && !Against(e, id)
    && (e.Advance? ==> e.t < last + Pause(c) && e.t <= exp - 1000)
    && (e.RewriteAgent? && e.id == id ==> ReadBefore(e.s, e.at, exp, slack))
    && (e.PatchLegacy? && e.id == id ==> ReadBefore(EnsureTimestamps(e.s, true, e.at), e.at, exp, slack))
  }

  function LastUse(e: Event, id: Id, last: int): int {
    if CallOf(e, id) || RewriteOf(e, id) then e.at else last
  }

  predicate InUse(c: Config, es: seq<Event>, id: Id, last: int, exp: int, slack: nat)
    decreases |es|
  {
    es == [] ||
    (KeepsPace(c, es[0], id, last, exp, slack) && InUse(c, es[1..], id, LastUse(es[0], id, last), exp, slack))
  }

  /** Every call on the session is answered as valid, written or throttled. */
  predicate Served(c: Config, w: World, es: seq<Event>, id: Id)
    decreases |es|
  {
    es == [] ||
    ((CallOf(es[0], id) ==>
        ExtendCode(c, w.db, id, es[0].at) == Updated || ExtendCode(c, w.db, id, es[0].at) == Throttled)
     && Served(c, Step(c, w, es[0]), es[1..], id))
  }

  predicate Holds(c: Config, w: World, id: Id, last: int, exp: int, delay: nat, slack: nat) {
    && id in w.db.keys && id in w.used && w.db.now <= exp - 1000 && w.db.now <= w.db.keys[id].deadline
    && w.db.now <= last + Max(delay, Pause(c))
    && Carried(c, w.db.keys[id], last, exp, delay, slack)
  }

  /** A call on the session: valid, and the session is good for another pause. */
  lemma CallCarries(c: Config, w: World, id: Id, user: Option<User>, at: int, last: int, exp: int, delay: nat, slack: nat)
    requires Sane(c) && Timely(w, at, delay) && Holds(c, w, id, last, exp, delay, slack)
    ensures ExtendCode(c, w.db, id, at) == Updated || ExtendCode(c, w.db, id, at) == Throttled
    ensures Holds(c, Step(c, w, Extend(id, user, at)), id, at, exp, delay, slack)
  {
    assert Floor(at) * 1000 <= at < (Floor(at) + 1) * 1000;
    assert Floor(exp) * 1000 > exp - 1000;
    assert Floor(at) <= Floor(exp);
    if ExtendCode(c, w.db, id, at) == Updated {
      var s := w.db.keys[id].session;
      var ttl := Max(1, Min(c.idleTtl, s.meta.expSec.value - Floor(at)));
      var t := s.(meta := s.meta.(lastSeen := Some(at), seenSec := Some(Floor(at))));
      assert LuaExtend(c, w.db, id, user, at) == ExpireSet(SetEx(w.db, id, ttl, t), user, ttl);
      assert LuaExtend(c, w.db, id, user, at).keys[id] == Entry(t, w.db.now + ttl * 1000);
      assert ttl <= c.idleTtl;
    }
  }

  /** Writing a session with a freshly computed TTL carries it from the clock reading of the writer. */
  lemma WrittenIsCarried(c: Config, now: int, s: Session, at: int, exp: int, delay: nat, slack: nat)
    requires Sane(c) && at <= now <= at + delay && now <= exp - 1000 && ReadBefore(s, at, exp, slack)
    ensures ComputeTtl(c, s, at).Some?
    ensures var e := Entry(s, now + ComputeTtl(c, s, at).value * 1000);
      Carried(c, e, at, exp, delay, slack) && now <= e.deadline
  {
    var ttl := ComputeTtl(c, s, at).value;
    assert ttl == c.idleTtl || (ttl < c.idleTtl && at + ttl * 1000 > exp - 1000);
  }

  /** What other programs do leaves the session alone. */
  lemma OthersCarry(c: Config, w: World, e: Event, id: Id, last: int, exp: int, delay: nat, slack: nat)
    requires Enabled(w, e, delay) && Holds(c, w, id, last, exp, delay, slack)
    requires KeepsPace(c, e, id, last, exp, slack) && !CallOf(e, id) && !RewriteOf(e, id)
    ensures Holds(c, Step(c, w, e), id, last, exp, delay, slack)
  {
    var v := Step(c, w, e);
    if !e.Advance? {
      assert id in v.db.keys && v.db.keys[id] == w.db.keys[id] && v.db.now == w.db.now && w.used <= v.used by {
        Elsewhere(c, w, e, id, delay);
      }
    }
  }

  lemma Elsewhere(c: Config, w: World, e: Event, id: Id, delay: nat)
    requires Enabled(w, e, delay) && id in w.db.keys && id in w.used && !e.Advance?
    requires !Against(e, id) && !CallOf(e, id) && !RewriteOf(e, id)
    ensures var v := Step(c, w, e);
      id in v.db.keys && v.db.keys[id] == w.db.keys[id] && v.db.now == w.db.now && w.used <= v.used
  {
    match e
    case Login(n, login, user, ip, agent, csrf, at) =>
      CreateElsewhere(c, w.(logins := w.logins[login := at + c.absoluteTtl * 1000]), n,
                      LoginSession(c, login, user, ip, agent, csrf, at), at, id);
    case KeepAlive(n, s, csrf, at) => CreateElsewhere(c, w, n, KeepAliveSession(s, csrf, at), at, id);
    case RotateIp(n, s, ip, at) => CreateElsewhere(c, w, n, IpSession(s, ip, at), at, id);
    case _ =>
  }

  lemma CreateElsewhere(c: Config, w: World, id: Id, s: Session, at: int, other: Id)
    requires other != id && other in w.db.keys
    ensures var v := StepCreate(c, w, id, s, at);
      other in v.db.keys && v.db.keys[other] == w.db.keys[other] && v.db.now == w.db.now && w.used <= v.used
  {
  }

  lemma RewriteCarries(c: Config, w: World, e: Event, id: Id, last: int, exp: int, delay: nat, slack: nat)
    requires Sane(c) && Enabled(w, e, delay) && Holds(c, w, id, last, exp, delay, slack)
    requires KeepsPace(c, e, id, last, exp, slack) && RewriteOf(e, id)
    ensures Holds(c, Step(c, w, e), id, e.at, exp, delay, slack)
  {
    var s := if e.PatchLegacy? then EnsureTimestamps(e.s, true, e.at) else e.s.(agent := e.agent);
    WrittenIsCarried(c, w.db.now, s, e.at, exp, delay, slack);
    assert Step(c, w, e) == StepRewrite(w, id, Rewrite(c, w.db, id, s, e.at));
  }

  lemma {:induction false} RunCarries(c: Config, w: World, es: seq<Event>, id: Id, last: int, exp: int, delay: nat, slack: nat)
    requires Sane(c) && ValidRun(c, w, es, delay) && InUse(c, es, id, last, exp, slack)
    requires Holds(c, w, id, last, exp, delay, slack)
    ensures exists later :: Holds(c, Exec(c, w, es), id, later, exp, delay, slack)
    ensures Served(c, w, es, id)
    decreases |es|
  {
    if es == [] {
      assert Holds(c, Exec(c, w, es), id, last, exp, delay, slack);
    } else {
      var e, next := es[0], LastUse(es[0], id, last);
      if CallOf(e, id) {
        CallCarries(c, w, id, e.user, e.at, last, exp, delay, slack);
      } else if RewriteOf(e, id) {
        RewriteCarries(c, w, e, id, last, exp, delay, slack);
      } else {
        OthersCarry(c, w, e, id, last, exp, delay, slack);
      }
      RunCarries(c, Step(c, w, e), es[1..], id, next, exp, delay, slack);
      var later :| Holds(c, Exec(c, Step(c, w, e), es[1..]), id, later, exp, delay, slack);
      assert Exec(c, w, es) == Exec(c, Step(c, w, e), es[1..]);
    }
  }

  /** A new session, from a login or in place of another one, is carried from the clock reading of the
      program that creates it. */
  lemma CreatedIsCarried(c: Config, w: World, e: Event, exp: int, delay: nat, slack: nat)
    requires Sane(c) && Enabled(w, e, delay) && (e.Login? || e.KeepAlive? || e.RotateIp?)
    requires w.db.now <= exp - 1000
    requires e.Login? ==> exp == e.at + c.absoluteTtl * 1000
    requires !e.Login? ==> e.s.meta.expiresAt == Some(exp) && (e.s.meta.expSec.Some? ==> e.s.meta.expSec.value == Floor(exp))
    requires !e.Login? && e.s.meta.seenSec.Some? ==> e.s.meta.seenSec.value * 1000 <= e.at
    ensures Holds(c, Step(c, w, e), e.id, e.at, exp, delay, slack)
  {
    match e
    case Login(id, login, user, ip, agent, csrf, at) =>
      FreshIsCarried(c, w.(logins := w.logins[login := at + c.absoluteTtl * 1000]), id,
                     LoginSession(c, login, user, ip, agent, csrf, at), at, exp, delay, slack);
    case KeepAlive(id, s, csrf, at) => FreshIsCarried(c, w, id, KeepAliveSession(s, csrf, at), at, exp, delay, slack);
    case RotateIp(id, s, ip, at) => FreshIsCarried(c, w, id, IpSession(s, ip, at), at, exp, delay, slack);
  }

  lemma FreshIsCarried(c: Config, w: World, id: Id, s: Session, at: int, exp: int, delay: nat, slack: nat)
    requires Sane(c) && Timely(w, at, delay) && w.db.now <= exp - 1000
    requires s.meta.expiresAt == Some(exp) && (s.meta.expSec.Some? ==> s.meta.expSec.value == Floor(exp))
    requires s.meta.lastSeen == Some(at) && (s.meta.seenSec.Some? ==> s.meta.seenSec.value * 1000 <= at)
    ensures Holds(c, StepCreate(c, w, id, s, at), id, at, exp, delay, slack)
  {
    var t := EnsureTimestamps(s, false, at);
    WrittenIsCarried(c, w.db.now, t, at, exp, delay, slack);
    var ttl := ComputeTtl(c, t, at).value;
    assert StepCreate(c, w, id, s, at).db == CreateMulti(w.db, id, ttl, t);
    assert CreateMulti(w.db, id, ttl, t).keys[id] == Entry(t, w.db.now + ttl * 1000);
  }

  /** Nobody who stays active is logged out, whatever the others do: while time never runs a pause
      ahead of the session's last use, every call on it is answered as valid up to a second before
      the absolute expiry, and the session stays stored. It also stays valid if delay and staleness
      together are within the tolerated clock skew, or if the delay is within a pause and rewrites are
      no staler than the throttle and the skew allow. */
  lemma ActiveSessionSurvives(c: Config, w: World, es: seq<Event>, id: Id, last: int, exp: int, delay: nat, slack: nat)
    requires Sane(c) && ValidRun(c, w, es, delay) && InUse(c, es, id, last, exp, slack)
    requires Holds(c, w, id, last, exp, delay, slack)
    ensures var v := Exec(c, w, es);
      && Served(c, w, es, id) && id in v.db.keys
      && (delay + slack <= c.skewMs || (delay <= Pause(c) && slack <= c.extendThreshold * 1000 + c.skewMs)
          ==> IsValid(c, v.db.keys[id].session, v.db.now))
  {
    RunCarries(c, w, es, id, last, exp, delay, slack);
  }

  /** Beyond that staleness the bound fails: an agent rewrite with a value whose last_seen_at lies
      further back than idle limit and tolerance makes a live session invalid on the spot. */
  lemma StaleRewriteInvalidatesIff(c: Config, w: World, id: Id, s: Session, agent: nat, at: int, delay: nat)
    requires Enabled(w, RewriteAgent(id, s, agent, at), delay) && ComputeTtl(c, s, at).Some?
    requires s.meta.lastSeen.Some? && s.meta.expiresAt.value >= w.db.now
    ensures var v := Step(c, w, RewriteAgent(id, s, agent, at));
      && id in v.db.keys
      && (IsValid(c, v.db.keys[id].session, v.db.now)
          <==> w.db.now - s.meta.lastSeen.value <= c.idleTtl * 1000 + c.skewMs)
  {
    assert Step(c, w, RewriteAgent(id, s, agent, at)) == StepRewrite(w, id, Rewrite(c, w.db, id, s.(agent := agent), at));
  }
}
