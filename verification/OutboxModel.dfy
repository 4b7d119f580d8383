/**
 The email outbox: rows in a table shared by any number of processors. A claim is one guarded
 update, an outcome is one transaction, and everything else interleaves. Times are in seconds.
 */
module OutboxModel {
  import opened Common

  type Id = nat
  type Pid = nat

  datatype Status = Pending | Sending | Sent | Failed

  datatype Row = Row(status: Status, attemptCount: nat, maxAttempts: nat, nextAt: int, priority: int, createdAt: int)

  datatype Attempt = Attempt(outboxId: Id, number: nat, sent: bool)

  datatype Db = Db(now: int, rows: map<Id, Row>, attempts: seq<Attempt>)

  // ---------------------------------------------------------------- repository statements

  predicate Open(r: Row) {
    (r.status == Pending || r.status == Failed) && r.attemptCount < r.maxAttempts
  }

  predicate Due(db: Db, id: Id) {
    id in db.rows && Open(db.rows[id]) && db.rows[id].nextAt <= db.now
  }

  /** The claim: a row goes to sending only from an open state; None when another one was faster. */
  function MarkSending(db: Db, id: Id): (Db, Option<Row>) {
    if id !in db.rows || !Open(db.rows[id]) then (db, None)
    else
      var r := db.rows[id].(status := Sending);
      (db.(rows := db.rows[id := r]), Some(r))
  }

  /** Seconds until the next try, from the attempt count before the failure. */
  function Backoff(attemptCount: nat): int {
    var step := 60 * (if attemptCount + 1 > 1 then attemptCount + 1 else 1);
    if step < 3600 then step else 3600
  }

  /** The number an attempt record gets: the new count of the row, or 1 if there is no row. */
  function AttemptNumber(rows: map<Id, Row>, id: Id): nat {
    if id in rows && rows[id].attemptCount != 0 then rows[id].attemptCount else 1
  }

  function MarkFailed(db: Db, id: Id): Db {
    var rows := if id !in db.rows then db.rows
                else
                  var r := db.rows[id];
                  db.rows[id := r.(status := if r.attemptCount + 1 >= r.maxAttempts then Failed else Pending,
                                   attemptCount := r.attemptCount + 1,
                                   nextAt := db.now + Backoff(r.attemptCount))];
    db.(rows := rows, attempts := db.attempts + [Attempt(id, AttemptNumber(rows, id), false)])
  }

  function MarkSent(db: Db, id: Id): Db {
    var rows := if id !in db.rows then db.rows
                else db.rows[id := db.rows[id].(status := Sent, attemptCount := db.rows[id].attemptCount + 1)];
    db.(rows := rows, attempts := db.attempts + [Attempt(id, AttemptNumber(rows, id), true)])
  }

  /** The limit of a listing: 10 by default, at least 1 and at most 50. */
  function ClampLimit(limit: int): nat {
    var n := if limit == 0 then 10 else limit;
    if n < 1 then 1 else if n > 50 then 50 else n
  }

  predicate Before(a: Row, b: Row) {
    a.priority < b.priority || (a.priority == b.priority && a.createdAt <= b.createdAt)
  }

  /** What a listing may return: the first due rows by priority and age, ties in any order. */
  ghost predicate IsListing(db: Db, limit: int, ids: seq<Id>) {
    && (forall i, j :: 0 <= i < j < |ids| ==> ids[i] != ids[j])
    && (forall i :: 0 <= i < |ids| ==> Due(db, ids[i]))
    && (forall i, j :: 0 <= i < j < |ids| ==> Before(db.rows[ids[i]], db.rows[ids[j]]))
    && |ids| <= ClampLimit(limit)
    && (forall id :: Due(db, id) && id !in ids ==>
          |ids| == ClampLimit(limit) && forall i :: 0 <= i < |ids| ==> Before(db.rows[ids[i]], db.rows[id]))
  }

  // ---------------------------------------------------------------- processors

  /** Where a processor is: not running, before the claim of the next listed row, between a claim
      and the delivery, or between the delivery and the recorded outcome. */
  datatype Phase =
    | Off
    | Next(todo: seq<Id>)
    | Claimed(id: Id, todo: seq<Id>)
    | Delivered(id: Id, ok: bool, todo: seq<Id>)

  /** `smtp` logs the row of every message handed to the SMTP server. */
  datatype World = World(db: Db, procs: map<Pid, Phase>, smtp: seq<Id>)

  datatype Event =
    | Insert(id: Id, maxAttempts: nat, priority: int)
    | Advance(t: int)
    | Start(p: Pid, limit: int, todo: seq<Id>)
    | Claim(p: Pid)
    | Deliver(p: Pid, transmitted: bool, ok: bool)
    | RecordSent(p: Pid, commits: bool)
    | RecordFailed(p: Pid, commits: bool)
    | Crash(p: Pid)

  function PhaseOf(w: World, p: Pid): Phase {
    if p in w.procs then w.procs[p] else Off
  }

  ghost predicate Enabled(w: World, e: Event) {
    match e
    case Insert(id, max, _) => id !in w.db.rows && max >= 1
    case Advance(t) => t >= w.db.now
    case Start(p, limit, todo) => PhaseOf(w, p) == Off && IsListing(w.db, limit, todo)
    case Claim(p) => PhaseOf(w, p).Next? && PhaseOf(w, p).todo != []
    case Deliver(p, transmitted, ok) => PhaseOf(w, p).Claimed? && (ok ==> transmitted)
    case RecordSent(p, _) => PhaseOf(w, p).Delivered? && PhaseOf(w, p).ok
    case RecordFailed(p, _) => PhaseOf(w, p).Delivered? && !PhaseOf(w, p).ok
    case Crash(p) => true
  }

  function SetPhase(w: World, p: Pid, phase: Phase): World {
    w.(procs := w.procs[p := phase])
  }

  /** A transaction that does not commit leaves the table alone: a failed success record is treated
      as a failed delivery, and a failed failure record ends the processor. */
  function Step(w: World, e: Event): World
    requires Enabled(w, e)
  {
    match e
    case Insert(id, max, priority) =>
      w.(db := w.db.(rows := w.db.rows[id := Row(Pending, 0, max, w.db.now, priority, w.db.now)]))
    case Advance(t) => w.(db := w.db.(now := t))
    case Start(p, _, todo) => SetPhase(w, p, Next(todo))
    case Claim(p) =>
      var todo := PhaseOf(w, p).todo;
      var (db, locked) := MarkSending(w.db, todo[0]);
      SetPhase(w.(db := db), p, if locked.Some? then Claimed(todo[0], todo[1..]) else Next(todo[1..]))
    case Deliver(p, transmitted, ok) =>
      var c := PhaseOf(w, p);
      SetPhase(w.(smtp := if transmitted then w.smtp + [c.id] else w.smtp), p, Delivered(c.id, ok, c.todo))
    case RecordSent(p, commits) =>
      var d := PhaseOf(w, p);
      if commits then SetPhase(w.(db := MarkSent(w.db, d.id)), p, Next(d.todo))
      else SetPhase(w, p, Delivered(d.id, false, d.todo))
    case RecordFailed(p, commits) =>
      var d := PhaseOf(w, p);
      if commits then SetPhase(w.(db := MarkFailed(w.db, d.id)), p, Next(d.todo))
      else SetPhase(w, p, Off)
    case Crash(p) => SetPhase(w, p, Off)
  }

  ghost predicate ValidRun(w: World, es: seq<Event>)
    decreases |es|
  {
    es == [] || (Enabled(w, es[0]) && ValidRun(Step(w, es[0]), es[1..]))
  }

  ghost function Exec(w: World, es: seq<Event>): World
    requires ValidRun(w, es)
    decreases |es|
  {
    if es == [] then w else Exec(Step(w, es[0]), es[1..])
  }

  const EMPTY := World(Db(0, map[], []), map[], [])
}
