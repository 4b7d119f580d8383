/**
 Sessions in Redis: a keyed store whose entries expire, a counter of active sessions, and the
 programs that create, extend, rewrite, rotate and destroy sessions. All times are milliseconds
 of one clock; a key is gone once the clock has passed its deadline.
 */
module SessionModel {
  import opened Common

  type Id = nat
  type User = nat

  /** Session metadata. `login` names the login a session descends from. */
  datatype Meta = Meta(login: nat, createdAt: Option<int>, lastSeen: Option<int>, expiresAt: Option<int>,
                       expSec: Option<int>, seenSec: Option<int>)

  datatype Session = Session(meta: Meta, user: Option<User>, risk: nat, ip: nat, agent: nat, csrf: nat)

  datatype Entry = Entry(session: Session, deadline: int)

  /** user_sessions: a set of ids that may carry an expiry of its own. */
  datatype UserSet = UserSet(ids: set<Id>, deadline: Option<int>)

  datatype Db = Db(now: int, keys: map<Id, Entry>, counter: int, sets: map<User, UserSet>)

  datatype Config = Config(idleTtl: int, absoluteTtl: int, extendThreshold: int, skewMs: int)

  function Floor(ms: int): int {
    ms / 1000
  }

  function Max(a: int, b: int): int {
    if a >= b then a else b
  }

  function Min(a: int, b: int): int {
    if a <= b then a else b
  }

  // ---------------------------------------------------------------- computations on one session

  /** Seconds of life a session gets when written at `now`, or None when its absolute expiry is
      missing or less than a second away. */
  function ComputeTtl(c: Config, s: Session, now: int): Option<int> {
    if s.meta.expiresAt.None? then None
    else
      var absolute := Max(0, (s.meta.expiresAt.value - now) / 1000);
      if absolute <= 0 then None else Some(Max(1, Min(c.idleTtl, absolute)))
  }

  /** _ensureSessionTimestamps. */
  function EnsureTimestamps(s: Session, setLastSeen: bool, now: int): Session {
    var m := if s.meta.expiresAt.Some? && s.meta.expSec.None?
             then s.meta.(expSec := Some(Floor(s.meta.expiresAt.value))) else s.meta;
    s.(meta := if setLastSeen then m.(lastSeen := Some(now), seenSec := Some(Floor(now))) else m)
  }

  predicate IsValid(c: Config, s: Session, now: int) {
    if s.meta.expiresAt.Some? && s.meta.expiresAt.value < now then false
    else if s.meta.lastSeen.Some? then now - s.meta.lastSeen.value <= c.idleTtl * 1000 + c.skewMs
    else if s.meta.createdAt.Some? then now - s.meta.createdAt.value <= c.idleTtl * 1000 + c.skewMs
    else false
  }

  /** The session startSession builds at `now`. */
  function LoginSession(c: Config, login: nat, user: Option<User>, ip: nat, agent: nat, csrf: nat, now: int): Session {
    Session(Meta(login, Some(now), Some(now), Some(now + c.absoluteTtl * 1000), None, None), user, 0, ip, agent, csrf)
  }

  /** The successor keepAlive builds: new last_seen and CSRF token, same creation and expiry. */
  function KeepAliveSession(s: Session, csrf: nat, now: int): Session {
    EnsureTimestamps(s.(meta := s.meta.(lastSeen := Some(now)), csrf := csrf), true, now)
  }

  /** The successor validateSession builds on an IP mismatch; risk rises from low to medium. */
  function IpSession(s: Session, ip: nat, now: int): Session {
    EnsureTimestamps(
      s.(meta := s.meta.(createdAt := Some(now), lastSeen := Some(now)), ip := ip,
         risk := if s.risk < 1 then 1 else s.risk),
      false, now)
  }

  datatype Reason = IpMismatch | AfterLogin | OtherReason

  function RiskAfter(reason: Reason, risk: nat): nat {
    match reason
    case IpMismatch => if risk < 1 then 1 else risk
    case AfterLogin => 0
    case OtherReason => risk
  }

  /** The successor rotateSessionCanonical builds when it is given none. */
  function DefaultRotation(c: Config, s: Session, csrf: nat, reason: Reason, now: int): Session {
    EnsureTimestamps(
      s.(meta := s.meta.(createdAt := Some(now), lastSeen := Some(now),
                         expiresAt := Some(now + c.absoluteTtl * 1000)),
         csrf := csrf, risk := RiskAfter(reason, s.risk)),
      true, now)
  }

  // ---------------------------------------------------------------- atomic store operations

  function ExpireSet(db: Db, user: Option<User>, ttl: int): Db {
    if user.None? || user.value !in db.sets then db
    else db.(sets := db.sets[user.value := db.sets[user.value].(deadline := Some(db.now + ttl * 1000))])
  }

  function SetEx(db: Db, id: Id, ttl: int, s: Session): Db {
    db.(keys := db.keys[id := Entry(s, db.now + ttl * 1000)])
  }

  function AddToSet(db: Db, user: User, id: Id): Db {
    var us := if user in db.sets then db.sets[user] else UserSet({}, None);
    db.(sets := db.sets[user := us.(ids := us.ids + {id})])
  }

  /** The MULTI block of createSession: SETEX, INCR and, for a known user, SADD and EXPIRE. */
  function CreateMulti(db: Db, id: Id, ttl: int, s: Session): Db {
    var d := SetEx(db, id, ttl, s);
    var e := d.(counter := d.counter + 1);
    if s.user.None? then e else ExpireSet(AddToSet(e, s.user.value, id), s.user, ttl)
  }

  /** createSession at `now`; nothing is written when the session has expired. */
  function Create(c: Config, db: Db, id: Id, s: Session, now: int): Option<Db> {
    var t := EnsureTimestamps(s, false, now);
    match ComputeTtl(c, t, now)
    case None => None
    case Some(ttl) => Some(CreateMulti(db, id, ttl, t))
  }

  /** SREM; a set that becomes empty is no longer there. */
  function RemoveFromSet(db: Db, user: User, id: Id): Db {
    if user !in db.sets then db
    else
      var rest := db.sets[user].ids - {id};
      db.(sets := if rest == {} then db.sets - {user}
                  else db.sets[user := db.sets[user].(ids := rest)])
  }

  /** The destroy script. */
  function LuaDestroy(db: Db, id: Id, user: Option<User>): Db {
    if id !in db.keys then db
    else
      var d := db.(keys := db.keys - {id}, counter := db.counter - 1);
      if user.None? then d else RemoveFromSet(d, user.value, id)
  }

  datatype Code = Updated | Throttled | Expired | Legacy | NotFound

  /** What the extend script answers for a call with clock reading `now`. */
  function ExtendCode(c: Config, db: Db, id: Id, now: int): Code {
    if id !in db.keys then NotFound
    else
      var m := db.keys[id].session.meta;
      if m.expSec.None? then Legacy
      else if m.expSec.value < Floor(now) then Expired
      else if c.extendThreshold > 0 && m.seenSec.Some? && Floor(now) - m.seenSec.value < c.extendThreshold
      then Throttled
      else Updated
  }

  /** The extend script: on Updated it rewrites the session with a new deadline. */
  function LuaExtend(c: Config, db: Db, id: Id, user: Option<User>, now: int): Db {
    if ExtendCode(c, db, id, now) != Updated then db
    else
      var s := db.keys[id].session;
      var ttl := Max(1, Min(c.idleTtl, s.meta.expSec.value - Floor(now)));
      ExpireSet(SetEx(db, id, ttl, s.(meta := s.meta.(lastSeen := Some(now), seenSec := Some(Floor(now))))), user, ttl)
  }

  /** A plain SETEX of a session held in memory, with a freshly computed TTL. */
  function Rewrite(c: Config, db: Db, id: Id, s: Session, now: int): Db {
    match ComputeTtl(c, s, now)
    case None => db
    case Some(ttl) => SetEx(db, id, ttl, s)
  }

  /** A rewrite and the EXPIRE of the user's set behind it, with nothing in between. */
  function RewriteAndExpire(c: Config, db: Db, id: Id, s: Session, now: int): Db {
    match ComputeTtl(c, s, now)
    case None => db
    case Some(ttl) => ExpireSet(SetEx(db, id, ttl, s), s.user, ttl)
  }

  /** The idle time a session of this risk level may keep: three quarters at medium, half at high. */
  function RiskIdle(c: Config, level: nat): int {
    if level == 2 then c.idleTtl / 2 else if level == 1 then 3 * c.idleTtl / 4 else c.idleTtl
  }

  /** updateSessionRiskLevel on a session held in memory; Redis refuses a TTL below one second. */
  function RiskRewrite(c: Config, db: Db, id: Id, s: Session, level: nat, now: int): Db {
    if level <= s.risk || s.meta.expiresAt.None? then db
    else
      var ttl := Min(RiskIdle(c, level), (s.meta.expiresAt.value - now) / 1000);
      if ttl <= 0 then db else SetEx(db, id, ttl, s.(risk := level))
  }

  /** Time passes: what has expired is gone. */
  function Overdue(db: Db, t: int): set<Id> {
    set id | id in db.keys && db.keys[id].deadline < t
  }

  function Tick(db: Db, t: int): Db {
    db.(now := t, keys := db.keys - Overdue(db, t),
        sets := map u | u in db.sets && !(db.sets[u].deadline.Some? && db.sets[u].deadline.value < t) :: db.sets[u])
  }

  // ---------------------------------------------------------------- every interleaving

  /** The store together with what running programs may hold and what has happened. `seen` are all
      session values ever read, so a program may act on any of them however stale; `lost` are the
      keys that went by expiry; `logins` maps each login to its absolute expiry. */
  datatype World = World(db: Db, seen: set<Session>, used: set<Id>, lost: set<Id>, logins: map<nat, int>)

  /** One atomic operation. `at` is the clock reading the calling program took beforehand. */
  datatype Event =
    | Advance(t: int)
    | Read(id: Id)
    | Login(id: Id, login: nat, user: Option<User>, ip: nat, agent: nat, csrf: nat, at: int)
    | KeepAlive(id: Id, s: Session, csrf: nat, at: int)
    | RotateIp(id: Id, s: Session, ip: nat, at: int)
    | Extend(id: Id, user: Option<User>, at: int)
    | PatchLegacy(id: Id, s: Session, at: int)
    | RewriteAgent(id: Id, s: Session, agent: nat, at: int)
    | RaiseRisk(id: Id, s: Session, level: nat, at: int)
    | ExpireUserSet(user: Option<User>, ttl: int)
    | Destroy(id: Id, user: Option<User>)
    | DropSet(owner: User)

  /** `delay` bounds the time between a program's clock reading and its operation on the store. */
  predicate Timely(w: World, at: int, delay: nat) {
    at <= w.db.now <= at + delay
  }

  predicate Enabled(w: World, e: Event, delay: nat) {
    match e
    case Advance(t) => t >= w.db.now
    case Read(id) => true
    case Login(id, login, _, _, _, _, at) => login !in w.logins && id !in w.used && Timely(w, at, delay)
    case KeepAlive(id, s, _, at) => s in w.seen && id !in w.used && Timely(w, at, delay)
    case RotateIp(id, s, _, at) => s in w.seen && id !in w.used && Timely(w, at, delay)
    case Extend(_, _, at) => Timely(w, at, delay)
    case PatchLegacy(id, s, at) => s in w.seen && id in w.used && Timely(w, at, delay)
    case RewriteAgent(id, s, _, at) => s in w.seen && id in w.used && Timely(w, at, delay)
    case RaiseRisk(id, s, _, at) => s in w.seen && id in w.used && Timely(w, at, delay)
    case ExpireUserSet(_, _) => true
    case Destroy(_, _) => true
    case DropSet(_) => true
  }

  function StepCreate(c: Config, w: World, id: Id, s: Session, at: int): World {
    match Create(c, w.db, id, s, at)
    case None => w
    case Some(db) => w.(db := db, used := w.used + {id})
  }

  /** A rewrite brings a key back if it was gone. */
  function StepRewrite(w: World, id: Id, db: Db): World {
    if id in db.keys then w.(db := db, lost := w.lost - {id}) else w.(db := db)
  }

  function Step(c: Config, w: World, e: Event): World {
    match e
    case Advance(t) => w.(db := Tick(w.db, t), lost := w.lost + Overdue(w.db, t))
    case Read(id) => if id in w.db.keys then w.(seen := w.seen + {w.db.keys[id].session}) else w
    case Login(id, login, user, ip, agent, csrf, at) =>
      StepCreate(c, w.(logins := w.logins[login := at + c.absoluteTtl * 1000]), id,
                 LoginSession(c, login, user, ip, agent, csrf, at), at)
    case KeepAlive(id, s, csrf, at) => StepCreate(c, w, id, KeepAliveSession(s, csrf, at), at)
    case RotateIp(id, s, ip, at) => StepCreate(c, w, id, IpSession(s, ip, at), at)
    case Extend(id, user, at) => w.(db := LuaExtend(c, w.db, id, user, at))
    case PatchLegacy(id, s, at) =>
      StepRewrite(w, id, Rewrite(c, w.db, id, EnsureTimestamps(s, true, at), at))
    case RewriteAgent(id, s, agent, at) => StepRewrite(w, id, Rewrite(c, w.db, id, s.(agent := agent), at))
    case RaiseRisk(id, s, level, at) => StepRewrite(w, id, RiskRewrite(c, w.db, id, s, level, at))
    case ExpireUserSet(user, ttl) => w.(db := ExpireSet(w.db, user, ttl))
    case Destroy(id, user) => w.(db := LuaDestroy(w.db, id, user))
    case DropSet(user) => w.(db := w.db.(sets := w.db.sets - {user}))
  }

  predicate ValidRun(c: Config, w: World, es: seq<Event>, delay: nat)
    decreases |es|
  {
    es == [] || (Enabled(w, es[0], delay) && ValidRun(c, Step(c, w, es[0]), es[1..], delay))
  }

  function Exec(c: Config, w: World, es: seq<Event>): World
    decreases |es|
  {
    if es == [] then w else Exec(c, Step(c, w, es[0]), es[1..])
  }

  /** Nothing stored, nothing known. */
  function Empty(now: int): World {
    World(Db(now, map[], 0, map[]), {}, {}, {}, map[])
  }

  /** A run with one more event in front. */
  lemma RunPrepend(c: Config, w: World, e: Event, es: seq<Event>, delay: nat)
    requires Enabled(w, e, delay) && ValidRun(c, Step(c, w, e), es, delay)
    ensures ValidRun(c, w, [e] + es, delay) && Exec(c, w, [e] + es) == Exec(c, Step(c, w, e), es)
  {
    assert ([e] + es)[1..] == es;
  }

  lemma RunOfFour(c: Config, w: World, e1: Event, e2: Event, e3: Event, e4: Event, delay: nat)
    returns (w1: World, w2: World, w3: World, w4: World)
    requires Enabled(w, e1, delay) && Enabled(Step(c, w, e1), e2, delay)
    requires Enabled(Step(c, Step(c, w, e1), e2), e3, delay)
    requires Enabled(Step(c, Step(c, Step(c, w, e1), e2), e3), e4, delay)
    ensures w1 == Step(c, w, e1) && w2 == Step(c, w1, e2) && w3 == Step(c, w2, e3) && w4 == Step(c, w3, e4)
    ensures ValidRun(c, w, [e1, e2, e3, e4], delay) && Exec(c, w, [e1, e2, e3, e4]) == w4
  {
    w1 := Step(c, w, e1);
    w2 := Step(c, w1, e2);
    w3 := Step(c, w2, e3);
    w4 := Step(c, w3, e4);
    RunPrepend(c, w3, e4, [], delay);
    RunPrepend(c, w2, e3, [e4], delay);
    RunPrepend(c, w1, e2, [e3, e4], delay);
    RunPrepend(c, w, e1, [e2, e3, e4], delay);
    assert [e4] + [] == [e4] && [e3] + [e4] == [e3, e4] && [e2] + [e3, e4] == [e2, e3, e4];
    assert [e1] + [e2, e3, e4] == [e1, e2, e3, e4];
  }
}
