/**
 The outbox table as an object, the listing as a query over it, and the processing loop of one
 processor that is not disturbed by others.
 */
module EmailOutboxObject {
  import opened Common
  import opened OutboxModel

  /** What the outside does to one claimed row: is it delivered, and do the transactions commit? */
  datatype Outcome = Outcome(delivered: bool, sentCommits: bool, failedCommits: bool)

  datatype Report = Report(id: Id, sent: bool)

  /** One listed row: the table afterwards, the report if the row was claimed, and whether the
      processor had to give up because the failure could not be recorded. */
  function ProcessOne(db: Db, id: Id, o: Outcome): (Db, Option<Report>, bool) {
    var (locked, row) := MarkSending(db, id);
    if row.None? then (db, None, false)
    else if o.delivered && o.sentCommits then (MarkSent(locked, id), Some(Report(id, true)), false)
    else if o.failedCommits then (MarkFailed(locked, id), Some(Report(id, false)), false)
    else (locked, None, true)
  }

  function ProcessAll(db: Db, ids: seq<Id>, outcome: Id -> Outcome): (Db, seq<Report>, bool)
    decreases |ids|
  {
    if ids == [] then (db, [], false)
    else
      var (d, report, gaveUp) := ProcessOne(db, ids[0], outcome(ids[0]));
      if gaveUp then (d, [], true)
      else
        var (d', reports, up) := ProcessAll(d, ids[1..], outcome);
        (d', (if report.Some? then [report.value] else []) + reports, up)
  }

  /** What a finished pass does to a row it listed. */
  predicate Attempted(before: Row, after: Row, o: Outcome) {
    && after.attemptCount == before.attemptCount + 1
    && (after.status == Sent <==> o.delivered && o.sentCommits)
    && (after.status == Failed <==> !(o.delivered && o.sentCommits) && after.attemptCount >= before.maxAttempts)
    && after.status != Sending
  }

  lemma OneAttempt(db: Db, id: Id, o: Outcome)
    requires id in db.rows && Open(db.rows[id]) && !ProcessOne(db, id, o).2
    ensures var (d, report, _) := ProcessOne(db, id, o);
      && d.rows.Keys == db.rows.Keys && Attempted(db.rows[id], d.rows[id], o)
      && (forall k :: k in db.rows && k != id ==> d.rows[k] == db.rows[k])
      && report == Some(Report(id, o.delivered && o.sentCommits)) && |d.attempts| == |db.attempts| + 1
  {
  }

  /** Listed rows: distinct and open. */
  predicate Listed(db: Db, ids: seq<Id>) {
    && (forall i :: 0 <= i < |ids| ==> ids[i] in db.rows && Open(db.rows[ids[i]]))
    && (forall i, j :: 0 <= i < j < |ids| ==> ids[i] != ids[j])
  }

  lemma RestIsListed(db: Db, ids: seq<Id>, outcome: Id -> Outcome)
    requires ids != [] && Listed(db, ids) && !ProcessOne(db, ids[0], outcome(ids[0])).2
    ensures Listed(ProcessOne(db, ids[0], outcome(ids[0])).0, ids[1..]) && ids[0] !in ids[1..]
  {
    var d, rest := ProcessOne(db, ids[0], outcome(ids[0])).0, ids[1..];
    OneAttempt(db, ids[0], outcome(ids[0]));
    forall i | 0 <= i < |rest| ensures rest[i] in d.rows && Open(d.rows[rest[i]]) && rest[i] != ids[0] {
      assert rest[i] == ids[i + 1];
    }
  }

  /** A failure that cannot be recorded. */
  predicate Lost(o: Outcome) {
    !(o.delivered && o.sentCommits) && !o.failedCommits
  }

  /** The pass is given up at the first such row, k: it stays in sending, the rows before it are
      reported, and those behind it are left as they were. */
  lemma {:induction false} PassEndsAtFirstLoss(db: Db, ids: seq<Id>, outcome: Id -> Outcome, k: nat)
    requires Listed(db, ids) && k <= |ids|
    requires (forall i :: 0 <= i < k ==> !Lost(outcome(ids[i]))) && (k < |ids| ==> Lost(outcome(ids[k])))
    ensures var (d, reports, gaveUp) := ProcessAll(db, ids, outcome);
      && (gaveUp <==> k < |ids|) && |reports| == k
      && d.rows.Keys == db.rows.Keys
      && (forall id :: id in db.rows && id !in ids[..k] && (k < |ids| ==> id != ids[k]) ==> d.rows[id] == db.rows[id])
      && (k < |ids| ==> d.rows[ids[k]].status == Sending)
    decreases |ids|
  {
    if ids != [] {
      OneRow(db, ids[0], outcome(ids[0]));
      if k > 0 {
        OneAttempt(db, ids[0], outcome(ids[0]));
        RestIsListed(db, ids, outcome);
        PassEndsAtFirstLoss(ProcessOne(db, ids[0], outcome(ids[0])).0, ids[1..], outcome, k - 1);
        assert ids[..k] == [ids[0]] + ids[1..][..k - 1];
      }
    }
  }

  /** The reports are those of the listed rows, in order. */
  lemma {:induction false} ReportsInOrder(db: Db, ids: seq<Id>, outcome: Id -> Outcome)
    requires Listed(db, ids) && !ProcessAll(db, ids, outcome).2
    ensures var (d, reports, _) := ProcessAll(db, ids, outcome);
      && |reports| == |ids| && |d.attempts| == |db.attempts| + |ids|
      && (forall i :: 0 <= i < |ids| ==>
            reports[i] == Report(ids[i], outcome(ids[i]).delivered && outcome(ids[i]).sentCommits))
    decreases |ids|
  {
    if ids != [] {
      var (d, report, gaveUp) := ProcessOne(db, ids[0], outcome(ids[0]));
      OneAttempt(db, ids[0], outcome(ids[0]));
      RestIsListed(db, ids, outcome);
      ReportsInOrder(d, ids[1..], outcome);
    }
  }

  /** The rows after the pass: each listed one attempted, the others as they were. */
  lemma {:induction false} RowsAttempted(db: Db, ids: seq<Id>, outcome: Id -> Outcome)
    requires Listed(db, ids) && !ProcessAll(db, ids, outcome).2
    ensures var (d, reports, _) := ProcessAll(db, ids, outcome);
      && d.rows.Keys == db.rows.Keys
      && (forall id :: id in db.rows && id !in ids ==> d.rows[id] == db.rows[id])
      && (forall i :: 0 <= i < |ids| ==> Attempted(db.rows[ids[i]], d.rows[ids[i]], outcome(ids[i])))
    decreases |ids|
  {
    if ids != [] {
      var (d, report, gaveUp) := ProcessOne(db, ids[0], outcome(ids[0]));
      OneAttempt(db, ids[0], outcome(ids[0]));
      RestIsListed(db, ids, outcome);
      RowsAttempted(d, ids[1..], outcome);
      var (e, reports, up) := ProcessAll(d, ids[1..], outcome);
      forall i | 0 <= i < |ids| ensures Attempted(db.rows[ids[i]], e.rows[ids[i]], outcome(ids[i])) {
        if i > 0 { assert ids[1..][i - 1] == ids[i]; }
      }
    }
  }

  /** What happens to one listed row: skipped if another processor was faster; else attempted and
      reported, or, if the outcome is a failure that cannot be recorded, left in sending and the pass
      is over. */
  lemma OneRow(db: Db, id: Id, o: Outcome)
    ensures var (d, report, gaveUp) := ProcessOne(db, id, o);
      var open := id in db.rows && Open(db.rows[id]);
      && (!open ==> d == db && report == None && !gaveUp)
      && (open ==> (gaveUp <==> !(o.delivered && o.sentCommits) && !o.failedCommits))
      && (open && !gaveUp ==> report == Some(Report(id, o.delivered && o.sentCommits)))
      && (gaveUp ==> d == db.(rows := db.rows[id := db.rows[id].(status := Sending)]) && report == None)
  {
  }

  /** A pass that does not give up attempts every listed row exactly once, touches no other row,
      and reports the rows in listing order with their true outcome. */
  lemma PassAttemptsEachOnce(db: Db, ids: seq<Id>, outcome: Id -> Outcome)
    requires forall i :: 0 <= i < |ids| ==> ids[i] in db.rows && Open(db.rows[ids[i]])
    requires forall i, j :: 0 <= i < j < |ids| ==> ids[i] != ids[j]
    requires !ProcessAll(db, ids, outcome).2
    ensures var (d, reports, _) := ProcessAll(db, ids, outcome);
      && d.rows.Keys == db.rows.Keys
      && (forall id :: id in db.rows && id !in ids ==> d.rows[id] == db.rows[id])
      && (forall i :: 0 <= i < |ids| ==> Attempted(db.rows[ids[i]], d.rows[ids[i]], outcome(ids[i])))
      && |reports| == |ids| && |d.attempts| == |db.attempts| + |ids|
      && (forall i :: 0 <= i < |ids| ==>
            reports[i] == Report(ids[i], outcome(ids[i]).delivered && outcome(ids[i]).sentCommits))
  {
    RowsAttempted(db, ids, outcome);
    ReportsInOrder(db, ids, outcome);
  }

  class EmailOutbox {
    var db: Db

    constructor (db: Db)
      ensures this.db == db
    {
      this.db := db;
    }

    /** The due row that comes first. */
    method FirstOf(due: set<Id>) returns (m: Id)
      requires due != {} && forall id :: id in due ==> id in db.rows
      ensures m in due && forall id :: id in due ==>
        && db.rows[m].priority <= db.rows[id].priority
        && (db.rows[m].priority == db.rows[id].priority ==> db.rows[m].createdAt <= db.rows[id].createdAt)
    {
      m :| m in due;
      var rest := due - {m};
      while rest != {}
        invariant rest <= due && m in due
        invariant forall id :: id in due && id !in rest ==> Before(db.rows[m], db.rows[id])
        decreases rest
      {
        var id :| id in rest;
        if !Before(db.rows[m], db.rows[id]) { m := id; }
        rest := rest - {id};
      }
    }

    method ListPending(limit: int) returns (ids: seq<Id>)
      ensures IsListing(db, limit, ids)
    {
      var rest := set id | id in db.rows && Due(db, id);
      ids := [];
      while rest != {} && |ids| < ClampLimit(limit)
        invariant |ids| <= ClampLimit(limit)
        invariant forall i :: 0 <= i < |ids| ==> Due(db, ids[i]) && ids[i] !in rest
        invariant forall i, j :: 0 <= i < j < |ids| ==> ids[i] != ids[j]
        invariant forall i, j :: 0 <= i < j < |ids| ==> Before(db.rows[ids[i]], db.rows[ids[j]])
        invariant forall id :: id in rest ==> Due(db, id)
        invariant forall i, id :: 0 <= i < |ids| && id in rest ==> Before(db.rows[ids[i]], db.rows[id])
        invariant forall id :: Due(db, id) ==> id in rest || id in ids
        decreases rest
      {
        var m := FirstOf(rest);
        rest, ids := rest - {m}, ids + [m];
      }
    }

    method MarkSending(id: Id) returns (locked: Option<Row>)
      modifies this
      ensures (db, locked) == OutboxModel.MarkSending(old(db), id)
    {
      if id !in db.rows { return None; }
      var r := db.rows[id];
      if !(r.status == Pending || r.status == Failed) || !(r.attemptCount < r.maxAttempts) { return None; }
      r := r.(status := Sending);
      db := db.(rows := db.rows[id := r]);
      return Some(r);
    }

    /** The failure transaction; nothing changes unless it commits. */
    method MarkFailed(id: Id, commits: bool) returns (ok: bool)
      modifies this
      ensures ok == commits && db == if commits then OutboxModel.MarkFailed(old(db), id) else old(db)
    {
      if !commits { return false; }
      var rows := db.rows;
      if id in rows {
        var r := rows[id];
        var minutes := if r.attemptCount + 1 > 1 then r.attemptCount + 1 else 1;
        var wait := if 60 * minutes < 3600 then 60 * minutes else 3600;
        rows := rows[id := r.(status := if r.attemptCount + 1 >= r.maxAttempts then Failed else Pending,
                              attemptCount := r.attemptCount + 1, nextAt := db.now + wait)];
      }
      db := db.(rows := rows, attempts := db.attempts + [Attempt(id, AttemptNumber(rows, id), false)]);
      return true;
    }

    method MarkSent(id: Id, commits: bool) returns (ok: bool)
      modifies this
      ensures ok == commits && db == if commits then OutboxModel.MarkSent(old(db), id) else old(db)
    {
      if !commits { return false; }
      var rows := db.rows;
      if id in rows { rows := rows[id := rows[id].(status := Sent, attemptCount := rows[id].attemptCount + 1)]; }
      db := db.(rows := rows, attempts := db.attempts + [Attempt(id, AttemptNumber(rows, id), true)]);
      return true;
    }

    /** One turn of the loop: claim, deliver, record. */
    method ProcessRow(id: Id, o: Outcome) returns (report: Option<Report>, gaveUp: bool)
      modifies this
      ensures (db, report, gaveUp) == ProcessOne(old(db), id, o)
    {
      var locked := MarkSending(id);
      if locked.None? { return None, false; }
      var sent := false;
      if o.delivered { sent := MarkSent(id, o.sentCommits); }
      if sent { return Some(Report(id, true)), false; }
      var recorded := MarkFailed(id, o.failedCommits);
      if !recorded { return None, true; }
      return Some(Report(id, false)), false;
    }

    /** The loop over the listed rows; Err when a failure could not be recorded and it was left. */
    method ProcessItems(items: seq<Id>, outcome: Id -> Outcome) returns (r: Result<seq<Report>, Id>)
      modifies this
      ensures var (d, reports, gaveUp) := ProcessAll(old(db), items, outcome);
        db == d && (gaveUp <==> r.Err?) && (r.Ok? ==> r.value == reports)
    {
      var reports: seq<Report> := [];
      ghost var goal := ProcessAll(db, items, outcome);
      var i := 0;
      assert items[0..] == items;
      while i < |items|
        invariant i <= |items|
        invariant goal.0 == ProcessAll(db, items[i..], outcome).0
        invariant goal.2 == ProcessAll(db, items[i..], outcome).2
        invariant !goal.2 ==> goal.1 == reports + ProcessAll(db, items[i..], outcome).1
      {
        ghost var rest := items[i..];
        assert rest[0] == items[i] && rest[1..] == items[i + 1..];
        var report, gaveUp := ProcessRow(items[i], outcome(items[i]));
        if gaveUp { return Err(items[i]); }
        if report.Some? { reports := reports + [report.value]; }
        i := i + 1;
      }
      return Ok(reports);
    }

    /** One pass: nothing at all while delivery is disabled, else the due rows in listing order. */
    method Process(enabled: bool, limit: int, outcome: Id -> Outcome)
      returns (listed: seq<Id>, r: Result<seq<Report>, Id>)
      modifies this
      ensures !enabled ==> db == old(db) && listed == [] && r == Ok([])
      ensures enabled ==> IsListing(old(db), limit, listed)
      ensures enabled ==>
        var (d, reports, gaveUp) := ProcessAll(old(db), listed, outcome);
        db == d && (gaveUp <==> r.Err?) && (r.Ok? ==> r.value == reports)
    {
      if !enabled { return [], Ok([]); }
      listed := ListPending(limit);
      r := ProcessItems(listed, outcome);
    }
  }
}
