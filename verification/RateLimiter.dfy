/**
 The sliding-window rate limiter: a sorted set that is pruned and expires, against the full log
 of requests. Members and scores are the request times in milliseconds.
 */
module RateLimiter {
  import opened Common

  datatype Zset = Zset(scores: set<int>, deadline: Option<int>)

  datatype Verdict = Verdict(allowed: bool, count: nat, retryAfterSec: int)

  const EMPTY := Zset({}, None)

  /** The scores that are still stored at `now`. */
  function Stored(z: Zset, now: int): set<int> {
    if z.deadline.Some? && z.deadline.value < now then {} else z.scores
  }

  /** The times in (lo, hi]. */
  function Between(s: set<int>, lo: int, hi: int): set<int> {
    set x | x in s && lo < x <= hi
  }

  /** The transaction of one request: prune, add, count, expire. */
  function Transact(z: Zset, now: int, windowSec: int): (r: (Zset, nat)) {
    var minScore := now - windowSec * 1000;
    var kept := (set x | x in Stored(z, now) && x >= minScore) + {now};
    (if windowSec <= 0 then EMPTY else Zset(kept, Some(now + windowSec * 1000)), |Between(kept, minScore, now)|)
  }

  function Judge(count: nat, windowSec: int, limit: int): Verdict {
    Verdict(count <= limit, count,
            if count <= limit then 0 else if windowSec / 4 > 1 then windowSec / 4 else 1)
  }

  function Times(log: seq<int>): set<int> {
    set i | 0 <= i < |log| :: log[i]
  }

  predicate Nondecreasing(ts: seq<int>) {
    forall i, j :: 0 <= i < j < |ts| ==> ts[i] <= ts[j]
  }

  predicate StrictlyIncreasing(ts: seq<int>) {
    forall i, j :: 0 <= i < j < |ts| ==> ts[i] < ts[j]
  }

  /** The store after a sequence of requests. */
  function After(ts: seq<int>, windowSec: int): Zset {
    if ts == [] then EMPTY else Transact(After(ts[..|ts| - 1], windowSec), ts[|ts| - 1], windowSec).0
  }

  /** What the i-th request of a sequence is told. */
  function Reply(ts: seq<int>, i: nat, windowSec: int, limit: int): Verdict
    requires i < |ts|
  {
    Judge(Transact(After(ts[..i], windowSec), ts[i], windowSec).1, windowSec, limit)
  }

  /** The set holds only logged times and all those the next window can still reach. */
  ghost predicate Covers(z: Zset, log: seq<int>, windowSec: int) {
    && (forall x :: x in z.scores ==> x in log)
    && (log != [] ==> forall x :: x in log && x > log[|log| - 1] - windowSec * 1000 ==> x in z.scores)
    && (log == [] ==> z == EMPTY)
    && (log != [] && windowSec > 0 ==> z.deadline == Some(log[|log| - 1] + windowSec * 1000))
    && (windowSec <= 0 ==> z == EMPTY)
  }

  lemma {:induction false} AfterCovers(ts: seq<int>, windowSec: int)
    requires Nondecreasing(ts)
    ensures Covers(After(ts, windowSec), ts, windowSec)
  {
    if ts != [] {
      var log, now := ts[..|ts| - 1], ts[|ts| - 1];
      AfterCovers(log, windowSec);
      var z := After(log, windowSec);
      forall x | x in ts && x > now - windowSec * 1000 ensures x in After(ts, windowSec).scores {
        if x != now {
          var i :| 0 <= i < |ts| && ts[i] == x;
          assert log[i] == x && log[i] <= log[|log| - 1] <= now;
        }
      }
      forall x | x in After(ts, windowSec).scores ensures x in ts {
        if x != now { assert x in log; }
      }
    }
  }

  lemma CoversCounts(z: Zset, log: seq<int>, now: int, windowSec: int)
    requires Covers(z, log, windowSec) && Nondecreasing(log + [now])
    ensures Transact(z, now, windowSec).1 == |Between(Times(log + [now]), now - windowSec * 1000, now)|
  {
    var minScore := now - windowSec * 1000;
    var kept := (set x | x in Stored(z, now) && x >= minScore) + {now};
    var full := Times(log + [now]);
    assert (log + [now])[|log|] == now;
    forall x | x in Between(full, minScore, now) ensures x in kept {
      if x != now {
        var i :| 0 <= i < |log + [now]| && (log + [now])[i] == x;
        assert log[i] == x;
        assert (log + [now])[|log| - 1] <= (log + [now])[|log|];
      }
    }
    forall x | x in Between(kept, minScore, now) ensures x in full {
      if x != now {
        assert x in log;
        var i :| 0 <= i < |log| && log[i] == x;
        assert (log + [now])[i] == x;
      }
    }
    assert Between(full, minScore, now) == Between(kept, minScore, now);
  }

  /** The number of requests of a log in (lo, hi]. */
  function NumIn(log: seq<int>, lo: int, hi: int): nat {
    if log == [] then 0
    else NumIn(log[..|log| - 1], lo, hi) + if lo < log[|log| - 1] <= hi then 1 else 0
  }

  predicate DistinctIn(log: seq<int>, lo: int, hi: int) {
    forall i, j :: 0 <= i < j < |log| && lo < log[i] <= hi ==> log[i] != log[j]
  }

  lemma TimesAppend(init: seq<int>, x: int)
    ensures Times(init + [x]) == Times(init) + {x}
  {
    forall y | y in Times(init) + {x} ensures y in Times(init + [x]) {
      if y == x {
        assert (init + [x])[|init|] == x;
      } else {
        var i :| 0 <= i < |init| && init[i] == y;
        assert (init + [x])[i] == y;
      }
    }
  }

  lemma {:induction false} NumInVersusTimes(log: seq<int>, lo: int, hi: int)
    ensures |Between(Times(log), lo, hi)| <= NumIn(log, lo, hi)
    ensures NumIn(log, lo, hi) == |Between(Times(log), lo, hi)| <==> DistinctIn(log, lo, hi)
  {
    if log == [] {
      assert Between(Times(log), lo, hi) == {};
    } else {
      var init, x := log[..|log| - 1], log[|log| - 1];
      assert log == init + [x];
      NumInVersusTimes(init, lo, hi);
      TimesAppend(init, x);
      var before := Between(Times(init), lo, hi);
      var after := Between(Times(log), lo, hi);
      if x in before {
        assert after == before;
      } else {
        assert after == if lo < x <= hi then before + {x} else before;
        DistinctExtends(init, x, lo, hi);
      }
    }
  }

  lemma DistinctExtends(init: seq<int>, x: int, lo: int, hi: int)
    requires x !in Between(Times(init), lo, hi)
    ensures DistinctIn(init + [x], lo, hi) <==> DistinctIn(init, lo, hi)
  {
    var log := init + [x];
    if DistinctIn(init, lo, hi) {
      forall i, j | 0 <= i < j < |log| && lo < log[i] <= hi ensures log[i] != log[j] {
        assert log[i] == init[i];
        if j < |init| { assert log[j] == init[j]; }
      }
    }
    if DistinctIn(log, lo, hi) {
      forall i, j | 0 <= i < j < |init| && lo < init[i] <= hi ensures init[i] != init[j] {
        assert log[i] == init[i] && log[j] == init[j];
      }
    }
  }

  /** What the i-th request is told, in terms of the distinct logged times. */
  lemma ReplyCountsTimes(ts: seq<int>, i: nat, windowSec: int, limit: int)
    requires Nondecreasing(ts) && i < |ts|
    ensures Reply(ts, i, windowSec, limit).count == |Between(Times(ts[..i + 1]), ts[i] - windowSec * 1000, ts[i])|
  {
    assert ts[..i + 1] == ts[..i] + [ts[i]];
    AfterCovers(ts[..i], windowSec);
    CoversCounts(After(ts[..i], windowSec), ts[..i], ts[i], windowSec);
  }

  /** Requests in time order: the pruned and expiring set counts the distinct times the full log
      has in the window, so it counts the requests themselves exactly when no two of them in the
      window fall on one millisecond. */
  lemma CountIsLogCountIff(ts: seq<int>, i: nat, windowSec: int, limit: int)
    requires Nondecreasing(ts) && i < |ts|
    ensures var lo := ts[i] - windowSec * 1000;
      && Reply(ts, i, windowSec, limit).count == |Between(Times(ts[..i + 1]), lo, ts[i])|
      && (Reply(ts, i, windowSec, limit).count == NumIn(ts[..i + 1], lo, ts[i])
          <==> DistinctIn(ts[..i + 1], lo, ts[i]))
  {
    ReplyCountsTimes(ts, i, windowSec, limit);
    NumInVersusTimes(ts[..i + 1], ts[i] - windowSec * 1000, ts[i]);
  }

  /** With one request per millisecond at most, the set counts exactly what the full log would. */
  lemma StrictTimesCountExactly(ts: seq<int>, i: nat, windowSec: int, limit: int)
    requires StrictlyIncreasing(ts) && i < |ts|
    ensures Reply(ts, i, windowSec, limit).count == NumIn(ts[..i + 1], ts[i] - windowSec * 1000, ts[i])
  {
    CountIsLogCountIff(ts, i, windowSec, limit);
  }

  /** Two requests in one millisecond are counted once: a limit of one lets both through. */
  lemma SameMillisecondUndercounts(now: int)
    ensures var ts := [now, now];
      && Reply(ts, 0, 60, 1).allowed && Reply(ts, 1, 60, 1).allowed
      && NumIn(ts, now - 60000, now) == 2
  {
    var ts := [now, now];
    assert ts[..1] == [now] && ts[..2] == ts && [now][..0] == [];
    OneTime(ts[..1], now);
    OneTime(ts, now);
    ReplyCountsTimes(ts, 0, 60, 1);
    ReplyCountsTimes(ts, 1, 60, 1);
    assert NumIn([now], now - 60000, now) == 1 + NumIn([], now - 60000, now);
  }

  lemma OneTime(log: seq<int>, now: int)
    requires log != [] && forall i :: 0 <= i < |log| ==> log[i] == now
    ensures |Between(Times(log), now - 60000, now)| == 1
  {
    assert log[0] == now;
    assert Between(Times(log), now - 60000, now) == {now};
  }

  /** The allowed requests of a sequence with times in an interval given by its membership test. */
  function AllowedIn(ts: seq<int>, windowSec: int, limit: int, a: int, closedLeft: bool): set<nat> {
    set i | 0 <= i < |ts| && Reply(ts, i, windowSec, limit).allowed
         && (if closedLeft then a <= ts[i] < a + windowSec * 1000 else a < ts[i] <= a + windowSec * 1000)
  }

  lemma MaxIndex(s: set<nat>) returns (m: nat)
    requires s != {}
    ensures m in s && forall i :: i in s ==> i <= m
    decreases |s|
  {
    m :| m in s;
    var rest := s - {m};
    if rest != {} {
      var k := MaxIndex(rest);
      assert s == rest + {m};
      m := if k > m then k else m;
    } else {
      assert s == {m};
    }
  }

  /** The milliseconds of a set of requests. */
  function TimesOf(s: set<nat>, ts: seq<int>): set<int>
    requires forall i :: i in s ==> i < |ts|
  {
    set i | i in s :: ts[i]
  }

  lemma {:induction false} StrictTimesAreRequests(s: set<nat>, ts: seq<int>)
    requires StrictlyIncreasing(ts) && forall i :: i in s ==> i < |ts|
    ensures |TimesOf(s, ts)| == |s|
    decreases |s|
  {
    if s != {} {
      var i :| i in s;
      var rest := s - {i};
      StrictTimesAreRequests(rest, ts);
      assert ts[i] !in TimesOf(rest, ts);
      assert TimesOf(s, ts) == TimesOf(rest, ts) + {ts[i]};
    } else {
      assert TimesOf(s, ts) == {};
    }
  }

  /** For requests in time order, every interval of windowSec seconds, open on either side, has
      allowed requests in at most `limit` different milliseconds. */
  lemma AllowedMillisecondsBounded(ts: seq<int>, windowSec: int, limit: int, a: int, closedLeft: bool)
    requires Nondecreasing(ts)
    ensures |TimesOf(AllowedIn(ts, windowSec, limit, a, closedLeft), ts)| <= if limit > 0 then limit else 0
  {
    var s := AllowedIn(ts, windowSec, limit, a, closedLeft);
    if s != {} {
      var m := MaxIndex(s);
      var lo := ts[m] - windowSec * 1000;
      var window := Between(Times(ts[..m + 1]), lo, ts[m]);
      ReplyCountsTimes(ts, m, windowSec, limit);
      forall i | i in s ensures ts[i] in window {
        assert ts[..m + 1][i] == ts[i];
      }
      SubsetSize(TimesOf(s, ts), window);
    } else {
      assert TimesOf(s, ts) == {};
    }
  }

  /** The promise of the limiter: for requests at strictly increasing milliseconds, every such
      interval holds at most `limit` allowed requests. */
  lemma AtMostLimitPerWindow(ts: seq<int>, windowSec: int, limit: int, a: int, closedLeft: bool)
    requires StrictlyIncreasing(ts)
    ensures |AllowedIn(ts, windowSec, limit, a, closedLeft)| <= if limit > 0 then limit else 0
  {
    AllowedMillisecondsBounded(ts, windowSec, limit, a, closedLeft);
    StrictTimesAreRequests(AllowedIn(ts, windowSec, limit, a, closedLeft), ts);
  }

  /** The limiter as it is called: one stored set, one call per request. */
  class SlidingWindow {
    var stored: Zset

    constructor ()
      ensures stored == EMPTY
    {
      stored := EMPTY;
    }

    method Check(now: int, windowSec: int, limit: int) returns (v: Verdict)
      modifies this
      ensures (stored, v.count) == Transact(old(stored), now, windowSec)
      ensures v.allowed <==> v.count <= limit
      ensures v.allowed ==> v.retryAfterSec == 0
      ensures !v.allowed && windowSec < 8 ==> v.retryAfterSec == 1
      ensures !v.allowed && windowSec >= 8 ==> 4 * v.retryAfterSec <= windowSec < 4 * (v.retryAfterSec + 1)
      ensures windowSec <= 0 ==> stored == EMPTY && v.count == 0
      ensures windowSec > 0 ==> stored.deadline == Some(now + windowSec * 1000)
      ensures windowSec > 0 ==> forall x :: x in stored.scores <==>
        x == now || (x >= now - windowSec * 1000 && x in old(stored).scores
                     && (old(stored).deadline == None || now <= old(stored).deadline.value))
      ensures v == Judge(v.count, windowSec, limit)
    {
      var minScore := now - windowSec * 1000;
      if stored.deadline.Some? && stored.deadline.value < now { stored := EMPTY; }
      stored := stored.(scores := set x | x in stored.scores && !(x < minScore));
      stored := stored.(scores := stored.scores + {now});
      var counted := set x | x in stored.scores && minScore < x <= now;
      var kept := stored.scores;
      assert kept == (set x | x in Stored(old(stored), now) && x >= minScore) + {now};
      assert counted == Between(kept, minScore, now);
      stored := if windowSec <= 0 then EMPTY else stored.(deadline := Some(now + windowSec * 1000));
      var allowed := |counted| <= limit;
      var quarter := windowSec / 4;
      return Verdict(allowed, |counted|, if allowed then 0 else if quarter > 1 then quarter else 1);
    }
  }
}
