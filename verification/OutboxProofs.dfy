/**
 What any number of concurrent outbox processors, crashes included, keep.
 */
module OutboxProofs {
  import opened Common
  import opened OutboxModel

  predicate Holds(phase: Phase, id: Id) {
    (phase.Claimed? || phase.Delivered?) && phase.id == id
  }

  function Count(log: seq<Id>, id: Id): nat {
    if log == [] then 0 else Count(log[..|log| - 1], id) + if log[|log| - 1] == id then 1 else 0
  }

  /** The attempt records of one row, in order. */
  function Of(attempts: seq<Attempt>, id: Id): seq<Attempt> {
    if attempts == [] then []
    else
      var last := attempts[|attempts| - 1];
      Of(attempts[..|attempts| - 1], id) + if last.outboxId == id then [last] else []
  }

  /** Status against attempt count: open and sending rows have tries left, failed rows have none. */
  predicate GoodRow(r: Row) {
    && r.attemptCount <= r.maxAttempts
    && (r.status == Pending || r.status == Sending ==> r.attemptCount < r.maxAttempts)
    && (r.status == Failed ==> r.attemptCount == r.maxAttempts)
    && (r.status == Sent ==> r.attemptCount >= 1)
  }

  /** The records are numbered 1..attempt_count; only the last one of a sent row is a success. */
  predicate GoodAttempts(r: Row, as_: seq<Attempt>) {
    && |as_| == r.attemptCount
    && (forall i :: 0 <= i < |as_| ==> as_[i].number == i + 1)
    && (forall i :: 0 <= i < |as_| ==> (as_[i].sent <==> r.status == Sent && i == |as_| - 1))
  }

  predicate GoodSends(w: World, id: Id)
    requires id in w.db.rows
  {
    Count(w.smtp, id) <= w.db.rows[id].attemptCount + if w.db.rows[id].status == Sending then 1 else 0
  }

  ghost predicate RowsInv(w: World) {
    && (forall id :: id in w.db.rows ==>
          GoodRow(w.db.rows[id]) && GoodAttempts(w.db.rows[id], Of(w.db.attempts, id)) && GoodSends(w, id))
    && (forall id :: id in w.smtp ==> id in w.db.rows)
    && (forall a :: a in w.db.attempts ==> a.outboxId in w.db.rows)
  }

  ghost predicate LockInv(w: World) {
    && (forall p, id :: Holds(PhaseOf(w, p), id) ==> id in w.db.rows && w.db.rows[id].status == Sending)
    && (forall p, q, id :: Holds(PhaseOf(w, p), id) && Holds(PhaseOf(w, q), id) ==> p == q)
    && (forall p :: PhaseOf(w, p).Claimed? ==>
          var id := PhaseOf(w, p).id; id in w.db.rows && Count(w.smtp, id) <= w.db.rows[id].attemptCount)
  }

  ghost predicate Inv(w: World) {
    RowsInv(w) && LockInv(w)
  }

  lemma {:induction false} CountAbsent(log: seq<Id>, id: Id)
    requires id !in log
    ensures Count(log, id) == 0
  {
    if log != [] { CountAbsent(log[..|log| - 1], id); }
  }

  lemma {:induction false} OfAbsent(attempts: seq<Attempt>, id: Id)
    requires forall a :: a in attempts ==> a.outboxId != id
    ensures Of(attempts, id) == []
  {
    if attempts != [] {
      assert attempts[|attempts| - 1] in attempts;
      OfAbsent(attempts[..|attempts| - 1], id);
    }
  }

  lemma RowsFrame(w: World, v: World)
    requires RowsInv(w) && v.db == w.db && v.smtp == w.smtp
    ensures RowsInv(v)
  {
    forall id | id in v.db.rows
      ensures GoodRow(v.db.rows[id]) && GoodAttempts(v.db.rows[id], Of(v.db.attempts, id)) && GoodSends(v, id)
    {
      assert GoodSends(w, id);
    }
  }

  lemma ClaimKeepsRows(w: World, id: Id)
    requires RowsInv(w) && id in w.db.rows && Open(w.db.rows[id])
    ensures w.db.rows[id].status == Pending
    ensures RowsInv(w.(db := MarkSending(w.db, id).0))
  {
    var v := w.(db := MarkSending(w.db, id).0);
    forall k | k in v.db.rows
      ensures GoodRow(v.db.rows[k]) && GoodAttempts(v.db.rows[k], Of(v.db.attempts, k)) && GoodSends(v, k)
    {
      assert GoodRow(w.db.rows[k]) && GoodAttempts(w.db.rows[k], Of(w.db.attempts, k)) && GoodSends(w, k);
    }
    assert GoodRow(w.db.rows[id]);
  }

  /** A claim moves an open row to sending; nobody held it before. */
  lemma ClaimKeepsLock(w: World, p: Pid, id: Id, todo: seq<Id>)
    requires Inv(w) && PhaseOf(w, p).Next? && id in w.db.rows && Open(w.db.rows[id])
    requires Count(w.smtp, id) <= w.db.rows[id].attemptCount
    ensures LockInv(SetPhase(w.(db := MarkSending(w.db, id).0), p, Claimed(id, todo)))
  {
    var v := SetPhase(w.(db := MarkSending(w.db, id).0), p, Claimed(id, todo));
    forall q | q != p ensures PhaseOf(v, q) == PhaseOf(w, q) && !Holds(PhaseOf(w, q), id) {}
    forall q | PhaseOf(v, q).Claimed?
      ensures PhaseOf(v, q).id in v.db.rows && Count(v.smtp, PhaseOf(v, q).id) <= v.db.rows[PhaseOf(v, q).id].attemptCount
    {
      if q != p { assert PhaseOf(w, q).Claimed?; }
    }
  }

  lemma ClaimKeeps(w: World, p: Pid)
    requires Inv(w) && Enabled(w, Claim(p))
    ensures Inv(Step(w, Claim(p)))
  {
    var todo := PhaseOf(w, p).todo;
    var id := todo[0];
    if id in w.db.rows && Open(w.db.rows[id]) {
      ClaimKeepsRows(w, id);
      assert GoodSends(w, id);
      ClaimKeepsLock(w, p, id, todo[1..]);
      RowsFrame(w.(db := MarkSending(w.db, id).0), Step(w, Claim(p)));
    } else {
      PhaseOnlyKeeps(w, p, Next(todo[1..]));
    }
  }

  /** One more message of a row in sending that has an attempt to spare. */
  lemma SendKeepsRows(w: World, id: Id)
    requires RowsInv(w) && id in w.db.rows && w.db.rows[id].status == Sending
    requires Count(w.smtp, id) <= w.db.rows[id].attemptCount
    ensures RowsInv(w.(smtp := w.smtp + [id]))
  {
    var v := w.(smtp := w.smtp + [id]);
    forall k | k in v.db.rows
      ensures GoodRow(v.db.rows[k]) && GoodAttempts(v.db.rows[k], Of(v.db.attempts, k)) && GoodSends(v, k)
    {
      assert GoodSends(w, k);
      CountAppend(w.smtp, id, k);
    }
  }

  lemma DeliverKeepsLock(w: World, p: Pid, transmitted: bool, ok: bool)
    requires Inv(w) && Enabled(w, Deliver(p, transmitted, ok))
    ensures LockInv(Step(w, Deliver(p, transmitted, ok)))
  {
    var v := Step(w, Deliver(p, transmitted, ok));
    var id := PhaseOf(w, p).id;
    assert Holds(PhaseOf(w, p), id);
    forall q | q != p ensures PhaseOf(v, q) == PhaseOf(w, q) && !Holds(PhaseOf(w, q), id) {}
    forall q | PhaseOf(v, q).Claimed?
      ensures PhaseOf(v, q).id in v.db.rows && Count(v.smtp, PhaseOf(v, q).id) <= v.db.rows[PhaseOf(v, q).id].attemptCount
    {
      assert Holds(PhaseOf(w, q), PhaseOf(w, q).id);
      CountAppend(w.smtp, id, PhaseOf(w, q).id);
    }
  }

  lemma DeliverKeeps(w: World, p: Pid, transmitted: bool, ok: bool)
    requires Inv(w) && Enabled(w, Deliver(p, transmitted, ok))
    ensures Inv(Step(w, Deliver(p, transmitted, ok)))
  {
    var id := PhaseOf(w, p).id;
    assert Holds(PhaseOf(w, p), id);
    SendKeepsRows(w, id);
    RowsFrame(if transmitted then w.(smtp := w.smtp + [id]) else w, Step(w, Deliver(p, transmitted, ok)));
    DeliverKeepsLock(w, p, transmitted, ok);
  }

  lemma CountAppend(log: seq<Id>, x: Id, id: Id)
    ensures Count(log + [x], id) == Count(log, id) + if x == id then 1 else 0
  {
    assert (log + [x])[..|log|] == log;
  }

  /** An outcome as both transactions write it: one more attempt, one more record, not sending. */
  function Outcome(db: Db, id: Id, r: Row, sent: bool): Db {
    db.(rows := db.rows[id := r], attempts := db.attempts + [Attempt(id, r.attemptCount, sent)])
  }

  /** One more record on a row in sending. */
  lemma AttemptsGrow(before: Row, as_: seq<Attempt>, r: Row, sent: bool, id: Id)
    requires before.status == Sending && GoodAttempts(before, as_) && r.attemptCount == before.attemptCount + 1
    requires sent <==> r.status == Sent
    ensures GoodAttempts(r, as_ + [Attempt(id, r.attemptCount, sent)])
  {
  }

  lemma OutcomeKeepsRow(w: World, id: Id, r: Row, sent: bool, k: Id)
    requires RowsInv(w) && id in w.db.rows && k in w.db.rows && w.db.rows[id].status == Sending
    requires GoodRow(r) && r.attemptCount == w.db.rows[id].attemptCount + 1
    requires r.status != Sending && (sent <==> r.status == Sent)
    ensures var v := w.(db := Outcome(w.db, id, r, sent));
      GoodRow(v.db.rows[k]) && GoodAttempts(v.db.rows[k], Of(v.db.attempts, k)) && GoodSends(v, k)
  {
    var old_ := Of(w.db.attempts, k);
    OfAppend(w.db.attempts, Attempt(id, r.attemptCount, sent), k);
    assert GoodRow(w.db.rows[k]) && GoodAttempts(w.db.rows[k], old_) && GoodSends(w, k);
    if k == id { AttemptsGrow(w.db.rows[id], old_, r, sent, id); }
  }

  lemma OfAppend(attempts: seq<Attempt>, a: Attempt, id: Id)
    ensures Of(attempts + [a], id) == if a.outboxId == id then Of(attempts, id) + [a] else Of(attempts, id)
  {
    assert (attempts + [a])[..|attempts|] == attempts;
    assert Of(attempts, id) + [] == Of(attempts, id);
  }

  lemma OutcomeKeepsRows(w: World, id: Id, r: Row, sent: bool)
    requires RowsInv(w) && id in w.db.rows && w.db.rows[id].status == Sending
    requires GoodRow(r) && r.attemptCount == w.db.rows[id].attemptCount + 1
    requires r.status != Sending && (sent <==> r.status == Sent)
    ensures RowsInv(w.(db := Outcome(w.db, id, r, sent)))
  {
    forall k | k in w.db.rows
      ensures var v := w.(db := Outcome(w.db, id, r, sent));
        GoodRow(v.db.rows[k]) && GoodAttempts(v.db.rows[k], Of(v.db.attempts, k)) && GoodSends(v, k)
    {
      OutcomeKeepsRow(w, id, r, sent, k);
    }
  }

  lemma OutcomeKeepsLock(w: World, p: Pid, r: Row, sent: bool)
    requires Inv(w) && PhaseOf(w, p).Delivered?
    requires r.attemptCount == w.db.rows[PhaseOf(w, p).id].attemptCount + 1
    ensures var d := PhaseOf(w, p);
      LockInv(SetPhase(w.(db := Outcome(w.db, d.id, r, sent)), p, Next(d.todo)))
  {
    var d := PhaseOf(w, p);
    var v := SetPhase(w.(db := Outcome(w.db, d.id, r, sent)), p, Next(d.todo));
    assert Holds(d, d.id);
    forall q | q != p ensures PhaseOf(v, q) == PhaseOf(w, q) && !Holds(PhaseOf(w, q), d.id) {}
    forall q | PhaseOf(v, q).Claimed?
      ensures PhaseOf(v, q).id in v.db.rows && Count(v.smtp, PhaseOf(v, q).id) <= v.db.rows[PhaseOf(v, q).id].attemptCount
    {
      assert Holds(PhaseOf(w, q), PhaseOf(w, q).id);
    }
  }

  lemma OutcomeKeeps(w: World, p: Pid, sent: bool)
    requires Inv(w) && PhaseOf(w, p).Delivered?
    ensures var d := PhaseOf(w, p);
      Inv(SetPhase(w.(db := if sent then MarkSent(w.db, d.id) else MarkFailed(w.db, d.id)), p, Next(d.todo)))
  {
    var d := PhaseOf(w, p);
    assert Holds(d, d.id);
    assert GoodRow(w.db.rows[d.id]);
    var r := (if sent then MarkSent(w.db, d.id) else MarkFailed(w.db, d.id)).rows[d.id];
    OutcomeKeepsRows(w, d.id, r, sent);
    OutcomeKeepsLock(w, p, r, sent);
    var u := w.(db := Outcome(w.db, d.id, r, sent));
    RowsFrame(u, SetPhase(u, p, Next(d.todo)));
  }

  /** Giving up a phase, or moving inside one without touching the table, keeps everything. */
  lemma PhaseOnlyKeeps(w: World, p: Pid, phase: Phase)
    requires Inv(w)
    requires phase == Off || phase.Next? || (phase.Delivered? && PhaseOf(w, p).Delivered? && phase.id == PhaseOf(w, p).id)
    ensures Inv(SetPhase(w, p, phase))
  {
    var v := SetPhase(w, p, phase);
    forall q | q != p ensures PhaseOf(v, q) == PhaseOf(w, q) {}
    if phase.Delivered? { assert Holds(PhaseOf(w, p), phase.id); }
    forall q, id | Holds(PhaseOf(v, q), id) ensures Holds(PhaseOf(w, q), id) {}
  }

  lemma InsertKeeps(w: World, id: Id, max: nat, priority: int)
    requires Inv(w) && Enabled(w, Insert(id, max, priority))
    ensures Inv(Step(w, Insert(id, max, priority)))
  {
    var v := Step(w, Insert(id, max, priority));
    CountAbsent(w.smtp, id);
    OfAbsent(w.db.attempts, id);
    forall q ensures PhaseOf(v, q) == PhaseOf(w, q) {}
    forall k | k in v.db.rows && k != id ensures GoodSends(v, k) { assert GoodSends(w, k); }
  }

  lemma StepKeeps(w: World, e: Event)
    requires Inv(w) && Enabled(w, e)
    ensures Inv(Step(w, e))
  {
    match e
    case Insert(id, max, priority) => InsertKeeps(w, id, max, priority);
    case Advance(t) =>
      var v := Step(w, e);
      forall q ensures PhaseOf(v, q) == PhaseOf(w, q) {}
    case Start(p, _, todo) => PhaseOnlyKeeps(w, p, Next(todo));
    case Claim(p) => ClaimKeeps(w, p);
    case Deliver(p, transmitted, ok) => DeliverKeeps(w, p, transmitted, ok);
    case RecordSent(p, commits) =>
      var d := PhaseOf(w, p);
      if commits { OutcomeKeeps(w, p, true); } else { PhaseOnlyKeeps(w, p, Delivered(d.id, false, d.todo)); }
    case RecordFailed(p, commits) =>
      if commits { OutcomeKeeps(w, p, false); } else { PhaseOnlyKeeps(w, p, Off); }
    case Crash(p) => PhaseOnlyKeeps(w, p, Off);
  }

  lemma {:induction false} RunKeeps(w: World, es: seq<Event>)
    requires Inv(w) && ValidRun(w, es)
    ensures Inv(Exec(w, es))
    decreases |es|
  {
    if es != [] {
      StepKeeps(w, es[0]);
      RunKeeps(Step(w, es[0]), es[1..]);
    }
  }

  /** Over every run of any number of processors: one holder at most per row, and it is in sending;
      never more attempts than allowed; never more SMTP messages for a row than attempts allowed;
      records numbered exactly 1..attempt_count, with a success only as the last record of a sent row. */
  lemma OutboxSafety(es: seq<Event>)
    requires ValidRun(EMPTY, es)
    ensures var w := Exec(EMPTY, es);
      && (forall p, q, id :: Holds(PhaseOf(w, p), id) && Holds(PhaseOf(w, q), id) ==> p == q)
      && (forall p, id :: Holds(PhaseOf(w, p), id) ==> id in w.db.rows && w.db.rows[id].status == Sending)
      && (forall id :: id in w.db.rows ==>
            var r := w.db.rows[id];
            && r.attemptCount <= r.maxAttempts
            && Count(w.smtp, id) <= r.maxAttempts
            && |Of(w.db.attempts, id)| == r.attemptCount
            && (forall i :: 0 <= i < r.attemptCount ==>
                  var a := Of(w.db.attempts, id)[i];
                  a.number == i + 1 && (a.sent <==> r.status == Sent && i == r.attemptCount - 1)))
  {
    RunKeeps(EMPTY, es);
    var w := Exec(EMPTY, es);
    forall id | id in w.db.rows
      ensures var r := w.db.rows[id];
        && r.attemptCount <= r.maxAttempts && Count(w.smtp, id) <= r.maxAttempts
        && GoodAttempts(r, Of(w.db.attempts, id))
    {
      assert GoodRow(w.db.rows[id]) && GoodAttempts(w.db.rows[id], Of(w.db.attempts, id)) && GoodSends(w, id);
    }
  }

  /** A row that will never be touched again. */
  predicate Final(r: Row) {
    r.status == Sent || r.status == Failed
  }

  lemma StepKeepsFinal(w: World, e: Event, id: Id)
    requires Inv(w) && Enabled(w, e) && id in w.db.rows && Final(w.db.rows[id])
    ensures id in Step(w, e).db.rows && Step(w, e).db.rows[id] == w.db.rows[id]
  {
    assert GoodRow(w.db.rows[id]);
    match e
    case RecordSent(p, _) => assert Holds(PhaseOf(w, p), PhaseOf(w, p).id);
    case RecordFailed(p, _) => assert Holds(PhaseOf(w, p), PhaseOf(w, p).id);
    case _ =>
  }

  /** `sent` is never left, and neither is `failed`: whatever runs afterwards, such a row stays
      exactly as it is, although the claim statement would accept a failed row with tries left. */
  lemma {:induction false} FinalIsForever(w: World, es: seq<Event>, id: Id)
    requires Inv(w) && ValidRun(w, es) && id in w.db.rows && Final(w.db.rows[id])
    ensures id in Exec(w, es).db.rows && Exec(w, es).db.rows[id] == w.db.rows[id]
    decreases |es|
  {
    if es != [] {
      StepKeeps(w, es[0]);
      StepKeepsFinal(w, es[0], id);
      FinalIsForever(Step(w, es[0]), es[1..], id);
    }
  }

  /** In a reachable state the rows a listing may pick are exactly the due pending ones. */
  lemma OnlyPendingIsListed(w: World, id: Id)
    requires Inv(w)
    ensures Due(w.db, id) <==> id in w.db.rows && w.db.rows[id].status == Pending && w.db.rows[id].nextAt <= w.db.now
  {
    if id in w.db.rows { assert GoodRow(w.db.rows[id]); }
  }

  /** After the k-th failure a row waits min(3600, 60k) seconds, and it is closed for good exactly
      when the failures have used up its attempts. */
  lemma FailureSchedule(db: Db, id: Id)
    requires id in db.rows && GoodRow(db.rows[id]) && db.rows[id].status == Sending
    ensures var r := MarkFailed(db, id).rows[id];
      && r.attemptCount == db.rows[id].attemptCount + 1
      && r.nextAt - db.now == (if 60 * r.attemptCount < 3600 then 60 * r.attemptCount else 3600)
      && 60 <= r.nextAt - db.now <= 3600
      && (r.status == Failed <==> r.attemptCount == r.maxAttempts)
      && (r.status == Pending <==> Open(r))
  {
  }

  // ---------------------------------------------------------------- the statements themselves

  /** The rows the listing's WHERE lets through. */
  function Eligible(db: Db): set<Id> {
    set id | id in db.rows
      && (db.rows[id].status == Pending || db.rows[id].status == Failed)
      && db.rows[id].attemptCount < db.rows[id].maxAttempts && db.rows[id].nextAt <= db.now
  }

  lemma {:induction false} DistinctSize(ids: seq<Id>, all: set<Id>)
    requires forall i, j :: 0 <= i < j < |ids| ==> ids[i] != ids[j]
    requires forall x :: x in all <==> x in ids
    ensures |all| == |ids|
    decreases |ids|
  {
    if ids != [] {
      var rest := all - {ids[0]};
      assert ids[0] in all && all == rest + {ids[0]};
      DistinctSize(ids[1..], rest);
    }
  }

  /** What a listing is, in numbers: rows ascend by priority, rows of one priority by age; no eligible
      row that is left out comes before a listed one; and as many rows are listed as are eligible, up
      to the limit, which is 10 if none is given, at least 1 and at most 50. */
  lemma ListingIs(db: Db, limit: int, ids: seq<Id>)
    requires IsListing(db, limit, ids)
    ensures forall i :: 0 <= i < |ids| ==> ids[i] in Eligible(db)
    ensures forall i, j :: 0 <= i < j < |ids| ==>
      var a, b := db.rows[ids[i]], db.rows[ids[j]];
      a.priority < b.priority || (a.priority == b.priority && a.createdAt <= b.createdAt)
    ensures forall id, i :: id in Eligible(db) && id !in ids && 0 <= i < |ids| ==>
      var a, b := db.rows[ids[i]], db.rows[id];
      a.priority < b.priority || (a.priority == b.priority && a.createdAt <= b.createdAt)
    ensures var n, max := |Eligible(db)|, if limit == 0 then 10 else if limit < 1 then 1 else if limit > 50 then 50 else limit;
      |ids| == if n <= max then n else max
  {
    var listed := set id | id in ids;
    DistinctSize(ids, listed);
    SubsetSize(listed, Eligible(db));
    if listed != Eligible(db) {
      var id :| id in Eligible(db) && id !in listed;
      assert Due(db, id);
    }
  }

  /** What the three UPDATE statements write, and when the claim is refused. */
  lemma StatementsWrite(db: Db, id: Id)
    ensures var (d, locked) := MarkSending(db, id);
      && (locked.Some? <==> id in db.rows && db.rows[id].attemptCount < db.rows[id].maxAttempts
                            && (db.rows[id].status == Pending || db.rows[id].status == Failed))
      && d == (if locked.Some? then db.(rows := db.rows[id := locked.value]) else db)
      && (locked.Some? ==> locked == Some(db.rows[id].(status := Sending)))
    ensures id in db.rows ==>
      var r := db.rows[id];
      var k := r.attemptCount + 1;
      && MarkSent(db, id) == Db(db.now, db.rows[id := Row(Sent, k, r.maxAttempts, r.nextAt, r.priority, r.createdAt)],
                                db.attempts + [Attempt(id, k, true)])
      && MarkFailed(db, id)
         == Db(db.now, db.rows[id := Row(if k < r.maxAttempts then Pending else Failed, k, r.maxAttempts,
                                         db.now + (if k < 60 then 60 * k else 3600), r.priority, r.createdAt)],
               db.attempts + [Attempt(id, k, false)])
    ensures id !in db.rows ==>
      && MarkSent(db, id) == db.(attempts := db.attempts + [Attempt(id, 1, true)])
      && MarkFailed(db, id) == db.(attempts := db.attempts + [Attempt(id, 1, false)])
  {
  }
}
