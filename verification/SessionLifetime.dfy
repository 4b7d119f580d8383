/**
 The absolute lifetime of a login: no interleaving of extensions, rewrites and rotations lets a
 session outlive the expiry its login was given.
 */
module SessionLifetime {
  import opened Common
  import opened SessionModel

  /** A session value still carries the expiry its login was given. */
  predicate Faithful(logins: map<nat, int>, s: Session) {
    && s.meta.login in logins
    && s.meta.expiresAt == Some(logins[s.meta.login])
    && (s.meta.expSec.Some? ==> s.meta.expSec.value == Floor(logins[s.meta.login]))
  }

  /** The first instant at which no key of a login with this expiry can be left. */
  function Limit(expiresAt: int, delay: nat): int {
    (Floor(expiresAt) + 2) * 1000 + delay
  }

  predicate GoodEntry(logins: map<nat, int>, e: Entry, now: int, delay: nat) {
    && Faithful(logins, e.session)
    && now <= e.deadline < Limit(logins[e.session.meta.login], delay)
  }

  ghost predicate LifeInv(w: World, delay: nat) {
    && (forall s :: s in w.seen ==> Faithful(w.logins, s))
    && (forall id :: id in w.db.keys ==> GoodEntry(w.logins, w.db.keys[id], w.db.now, delay))
  }

  /** computeSessionTtl reports expiry exactly when less than a second is left; otherwise the TTL
      is the smaller of the idle time and the whole seconds left, and never outlasts the expiry. */
  lemma ComputeTtlExact(c: Config, s: Session, now: int)
    requires s.meta.expiresAt.Some?
    ensures ComputeTtl(c, s, now).None? <==> s.meta.expiresAt.value - now < 1000
    ensures ComputeTtl(c, s, now).Some? ==>
      var ttl := ComputeTtl(c, s, now).value;
      && 1 <= ttl && now + ttl * 1000 <= s.meta.expiresAt.value
      && (c.idleTtl >= 1 ==> ttl <= c.idleTtl)
      && (c.idleTtl >= 1 && ttl < c.idleTtl ==> s.meta.expiresAt.value < now + (ttl + 1) * 1000)
  {
  }

  /** The last instant at which isSessionValid still accepts a session. */
  function ValidUntil(c: Config, s: Session): Option<int> {
    var seen := if s.meta.lastSeen.Some? then s.meta.lastSeen else s.meta.createdAt;
    if seen.None? then None
    else
      var idle := seen.value + c.idleTtl * 1000 + c.skewMs;
      Some(if s.meta.expiresAt.Some? then Min(idle, s.meta.expiresAt.value) else idle)
  }

  /** Validity is one interval that ends for good: a session is accepted exactly up to the earlier of
      its expiry and its idle limit with tolerance, so what is invalid once is invalid ever after. */
  lemma ValidExactlyUntil(c: Config, s: Session, t: int, later: int)
    requires t <= later
    ensures IsValid(c, s, t) <==> ValidUntil(c, s).Some? && t <= ValidUntil(c, s).value
    ensures IsValid(c, s, later) ==> IsValid(c, s, t)
  {
  }

  lemma SetExKeeps(w: World, id: Id, ttl: int, s: Session, at: int, delay: nat)
    requires LifeInv(w, delay) && Faithful(w.logins, s) && Timely(w, at, delay)
    requires ttl >= 1 && at + ttl * 1000 < Limit(w.logins[s.meta.login], 0)
    ensures LifeInv(w.(db := SetEx(w.db, id, ttl, s)), delay)
  {
  }

  lemma CreateKeeps(c: Config, w: World, id: Id, s: Session, at: int, delay: nat)
    requires LifeInv(w, delay) && Faithful(w.logins, s) && Timely(w, at, delay)
    ensures LifeInv(StepCreate(c, w, id, s, at), delay)
  {
    var t := EnsureTimestamps(s, false, at);
    if ComputeTtl(c, t, at).Some? {
      var ttl := ComputeTtl(c, t, at).value;
      SetExKeeps(w, id, ttl, t, at, delay);
      var d := w.(db := SetEx(w.db, id, ttl, t));
      assert StepCreate(c, w, id, s, at).db.keys == d.db.keys;
      assert StepCreate(c, w, id, s, at).db.now == d.db.now;
    }
  }

  lemma RewriteKeeps(c: Config, w: World, id: Id, s: Session, at: int, delay: nat)
    requires LifeInv(w, delay) && Faithful(w.logins, s) && Timely(w, at, delay)
    ensures LifeInv(StepRewrite(w, id, Rewrite(c, w.db, id, s, at)), delay)
  {
    if ComputeTtl(c, s, at).Some? {
      var ttl := ComputeTtl(c, s, at).value;
      SetExKeeps(w, id, ttl, s, at, delay);
    }
  }

  lemma RiskKeeps(c: Config, w: World, id: Id, s: Session, level: nat, at: int, delay: nat)
    requires LifeInv(w, delay) && Faithful(w.logins, s) && Timely(w, at, delay)
    ensures LifeInv(StepRewrite(w, id, RiskRewrite(c, w.db, id, s, level, at)), delay)
  {
    var ttl := Min(RiskIdle(c, level), (s.meta.expiresAt.value - at) / 1000);
    if level > s.risk && ttl > 0 { SetExKeeps(w, id, ttl, s.(risk := level), at, delay); }
  }

  /** The deadline the extend script sets, whatever the idle time and the throttle. */
  lemma ExtendKeeps(c: Config, w: World, id: Id, user: Option<User>, at: int, delay: nat)
    requires LifeInv(w, delay) && Timely(w, at, delay)
    ensures LifeInv(w.(db := LuaExtend(c, w.db, id, user, at)), delay)
  {
    if ExtendCode(c, w.db, id, at) == Updated {
      var s := w.db.keys[id].session;
      var ttl := Max(1, Min(c.idleTtl, s.meta.expSec.value - Floor(at)));
      var t := s.(meta := s.meta.(lastSeen := Some(at), seenSec := Some(Floor(at))));
      assert GoodEntry(w.logins, w.db.keys[id], w.db.now, delay);
      assert at < (Floor(at) + 1) * 1000;
      SetExKeeps(w, id, ttl, t, at, delay);
      assert LuaExtend(c, w.db, id, user, at).keys == SetEx(w.db, id, ttl, t).keys;
    }
  }

  lemma LoginEventKeeps(c: Config, w: World, e: Event, delay: nat)
    requires Enabled(w, e, delay) && LifeInv(w, delay) && e.Login?
    ensures LifeInv(Step(c, w, e), delay)
  {
    var exp := e.at + c.absoluteTtl * 1000;
    var v := w.(logins := w.logins[e.login := exp]);
    var s := LoginSession(c, e.login, e.user, e.ip, e.agent, e.csrf, e.at);
    assert Faithful(v.logins, s);
    CreateKeeps(c, v, e.id, s, e.at, delay);
    assert Step(c, w, e) == StepCreate(c, v, e.id, s, e.at);
  }

  lemma StepKeepsLife(c: Config, w: World, e: Event, delay: nat)
    requires Enabled(w, e, delay) && LifeInv(w, delay)
    ensures LifeInv(Step(c, w, e), delay)
  {
    if e.Login? || e.KeepAlive? || e.RotateIp? {
      match e
      case Login(_, _, _, _, _, _, _) => LoginEventKeeps(c, w, e, delay);
      case KeepAlive(id, s, csrf, at) => CreateKeeps(c, w, id, KeepAliveSession(s, csrf, at), at, delay);
      case RotateIp(id, s, ip, at) => CreateKeeps(c, w, id, IpSession(s, ip, at), at, delay);
    } else if e.Advance? || e.Read? || e.ExpireUserSet? || e.Destroy? || e.DropSet? {
      PassiveKeeps(w, c, e, delay);
    } else {
      match e
      case Extend(id, user, at) => ExtendKeeps(c, w, id, user, at, delay);
      case PatchLegacy(id, s, at) => RewriteKeeps(c, w, id, EnsureTimestamps(s, true, at), at, delay);
      case RewriteAgent(id, s, agent, at) => RewriteKeeps(c, w, id, s.(agent := agent), at, delay);
      case RaiseRisk(id, s, level, at) => RiskKeeps(c, w, id, s, level, at, delay);
    }
  }

  /** Time passing, reads and removals. */
  lemma PassiveKeeps(w: World, c: Config, e: Event, delay: nat)
    requires Enabled(w, e, delay) && LifeInv(w, delay) && (e.Advance? || e.Read? || e.ExpireUserSet? || e.Destroy? || e.DropSet?)
    ensures LifeInv(Step(c, w, e), delay)
  {
    match e
    case Advance(t) =>
    case Read(id) => if id in w.db.keys { assert GoodEntry(w.logins, w.db.keys[id], w.db.now, delay); }
    case ExpireUserSet(_, _) =>
    case Destroy(id, user) =>
    case DropSet(user) =>
  }

  lemma {:induction false} RunKeepsLife(c: Config, w: World, es: seq<Event>, delay: nat)
    requires ValidRun(c, w, es, delay) && LifeInv(w, delay)
    ensures LifeInv(Exec(c, w, es), delay)
    decreases |es|
  {
    if es != [] {
      StepKeepsLife(c, w, es[0], delay);
      RunKeepsLife(c, Step(c, w, es[0]), es[1..], delay);
    }
  }

  /** A login's expiry, once given, is never given again. */
  lemma {:induction false} LoginsOnlyGrow(c: Config, w: World, es: seq<Event>, delay: nat, login: nat)
    requires ValidRun(c, w, es, delay) && login in w.logins
    ensures login in Exec(c, w, es).logins && Exec(c, w, es).logins[login] == w.logins[login]
    decreases |es|
  {
    if es != [] { LoginsOnlyGrow(c, Step(c, w, es[0]), es[1..], delay, login); }
  }

  /** Every session that is stored or held carries expires_at_sec. */
  ghost predicate Stamped(w: World) {
    && (forall s :: s in w.seen ==> s.meta.expSec.Some?)
    && (forall id :: id in w.db.keys ==> w.db.keys[id].session.meta.expSec.Some?)
  }

  lemma CreateStamps(c: Config, w: World, id: Id, s: Session, at: int)
    requires Stamped(w)
    ensures Stamped(StepCreate(c, w, id, s, at))
  {
    var t := EnsureTimestamps(s, false, at);
    if ComputeTtl(c, t, at).Some? {
      var ttl := ComputeTtl(c, t, at).value;
      assert StepCreate(c, w, id, s, at).db.keys == SetEx(w.db, id, ttl, t).keys;
    }
  }

  lemma StepStamps(c: Config, w: World, e: Event, delay: nat)
    requires Enabled(w, e, delay) && Stamped(w)
    ensures Stamped(Step(c, w, e))
  {
    match e
    case Login(id, login, user, ip, agent, csrf, at) =>
      CreateStamps(c, w.(logins := w.logins[login := at + c.absoluteTtl * 1000]), id,
                   LoginSession(c, login, user, ip, agent, csrf, at), at);
    case KeepAlive(id, s, csrf, at) => CreateStamps(c, w, id, KeepAliveSession(s, csrf, at), at);
    case RotateIp(id, s, ip, at) => CreateStamps(c, w, id, IpSession(s, ip, at), at);
    case Destroy(id, user) =>
    case Extend(id, user, at) =>
    case PatchLegacy(id, s, at) =>
    case RewriteAgent(id, s, agent, at) =>
    case RaiseRisk(id, s, level, at) =>
    case Advance(_) =>
    case Read(_) =>
    case ExpireUserSet(_, _) =>
    case DropSet(_) =>
  }

  lemma {:induction false} RunStamps(c: Config, w: World, es: seq<Event>, delay: nat)
    requires ValidRun(c, w, es, delay) && Stamped(w)
    ensures Stamped(Exec(c, w, es))
    decreases |es|
  {
    if es != [] {
      StepStamps(c, w, es[0], delay);
      RunStamps(c, Step(c, w, es[0]), es[1..], delay);
    }
  }

  /** The absolute lifetime: over every interleaving, every stored session keeps the expires_at of
      its login and its expires_at_sec, and is gone from the store two seconds after the second of
      its expiry (plus the delay between reading the clock and running the script). */
  lemma AbsoluteLifetime(c: Config, start: int, es: seq<Event>, delay: nat)
    requires ValidRun(c, Empty(start), es, delay)
    ensures var w := Exec(c, Empty(start), es);
      forall id :: id in w.db.keys ==>
        var m := w.db.keys[id].session.meta;
        && m.login in w.logins
        && m.expiresAt == Some(w.logins[m.login])
        && m.expSec == Some(Floor(w.logins[m.login]))
        && w.db.now < (Floor(w.logins[m.login]) + 2) * 1000 + delay
  {
    RunKeepsLife(c, Empty(start), es, delay);
    RunStamps(c, Empty(start), es, delay);
    var w := Exec(c, Empty(start), es);
    forall id | id in w.db.keys
      ensures var m := w.db.keys[id].session.meta;
        && m.login in w.logins
        && m.expiresAt == Some(w.logins[m.login])
        && m.expSec == Some(Floor(w.logins[m.login]))
        && w.db.now < (Floor(w.logins[m.login]) + 2) * 1000 + delay
    {
      assert GoodEntry(w.logins, w.db.keys[id], w.db.now, delay);
    }
  }

  /** The two seconds are needed: an extension in the very second of expiry keeps the key for more
      than a second beyond expires_at. */
  lemma LifetimeBoundIsTight(c: Config, w: World, id: Id, user: Option<User>, exp: int, delay: nat)
    requires LifeInv(w, delay) && id in w.db.keys && c.idleTtl >= 1 && c.extendThreshold == 0
    requires w.db.keys[id].session.meta.expSec == Some(Floor(exp)) && w.db.now == Floor(exp) * 1000 + 999
    ensures var db := LuaExtend(c, w.db, id, user, w.db.now);
      && id in db.keys && db.keys[id].deadline == Limit(exp, 0) - 1
  {
    assert Floor(w.db.now) == Floor(exp);
  }

  /** A rotation that is given no successor moves expires_at but not expires_at_sec: the two agree
      exactly when the old session had no expires_at_sec or the second happens to be the same. */
  lemma DefaultRotationAgreesIff(c: Config, s: Session, csrf: nat, reason: Reason, now: int)
    ensures var r := DefaultRotation(c, s, csrf, reason, now);
      && r.meta.expiresAt == Some(now + c.absoluteTtl * 1000)
      && (r.meta.expSec == Some(Floor(now + c.absoluteTtl * 1000))
          <==> s.meta.expSec.None? || s.meta.expSec.value == Floor(now + c.absoluteTtl * 1000))
  {
  }

  /** When they disagree the extend script goes by the old second: once that has passed, it calls
      the rotated session expired although its expires_at still lies ahead. */
  lemma DefaultRotationDiesEarly(c: Config, db: Db, id: Id, s: Session, csrf: nat, reason: Reason, now: int, at: int)
    requires id in db.keys && db.keys[id].session == DefaultRotation(c, s, csrf, reason, now)
    requires s.meta.expSec.Some? && s.meta.expSec.value < Floor(at) && at < now + c.absoluteTtl * 1000
    ensures ExtendCode(c, db, id, at) == Expired
    ensures at < db.keys[id].session.meta.expiresAt.value
  {
  }

  /** Such a rotation half a day after the login, with one day of absolute lifetime: a day and a second
      after the login the extend script calls the session expired, half a day before its expires_at. */
  lemma RotatedSessionDiesHalfway()
    ensures var c := Config(3600, 86400, 300, 5000);
      var s := EnsureTimestamps(LoginSession(c, 0, None, 0, 0, 0, 0), true, 0);
      var r := DefaultRotation(c, s, 1, OtherReason, 43200000);
      var db := Db(86401000, map[7 := Entry(r, 86402000)], 1, map[]);
      && ExtendCode(c, db, 7, 86401000) == Expired
      && r.meta.expiresAt == Some(86401000 + 43199000)
  {
    var c := Config(3600, 86400, 300, 5000);
    var s := EnsureTimestamps(LoginSession(c, 0, None, 0, 0, 0, 0), true, 0);
    var r := DefaultRotation(c, s, 1, OtherReason, 43200000);
    DefaultRotationDiesEarly(c, Db(86401000, map[7 := Entry(r, 86402000)], 1, map[]), 7, s, 1, OtherReason, 43200000, 86401000);
  }
}
