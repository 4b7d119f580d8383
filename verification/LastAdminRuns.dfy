/**
 The last administrator when operations interleave: a guard and the write it protects are separate
 statements, so any number of writes may be pending behind guards that have already passed.
 */
module LastAdminRuns {
  import opened Common
  import opened LastAdmin
  import opened LastAdminOutcomes

  /** A write that can cost an administrator: of changeRole, delete and activate. */
  datatype Write = Unlink(u: Uid, r: Rid) | DeleteUser(u: Uid) | Deactivate(u: Uid)

  function Apply(db: Db, x: Write): Db {
    match x
    case Unlink(u, r) => if (u, r) !in db.links then db else db.(links := db.links[(u, r) := false])
    case DeleteUser(u) => MarkDeleted(db, u)
    case Deactivate(u) => if u !in db.users then db else db.(users := db.users[u := db.users[u].(isActive := false)])
  }

  /** All writes of a list, in its order. */
  function ApplyAll(db: Db, xs: seq<Write>): Db
    decreases |xs|
  {
    if xs == [] then db else ApplyAll(Apply(db, xs[0]), xs[1..])
  }

  /** The last statement before the write: the count is read, or found unnecessary. */
  predicate GuardPasses(db: Db, x: Write) {
    || |ActiveAdmins(db)| >= 2
    || (if x.Unlink? then !(x.r in db.roles && IsAdminName(db.roles[x.r].name)) else !HasAdminRole(db, x.u))
  }

  // ---------------------------------------------------------------- what writes leave

  lemma ActiveAdminsMeans(db: Db, v: Uid)
    ensures v in ActiveAdmins(db) <==> Counts(db, v) && exists r :: AdminLink(db, (v, r))
  {
    if v in ActiveAdmins(db) {
      var p :| p in db.links && AdminLink(db, p) && Counts(db, p.0) && p.0 == v;
      assert AdminLink(db, (v, p.1));
    }
  }

  /** Is this administrator certain to stay when these writes have been made? */
  ghost predicate Spared(db: Db, xs: seq<Write>, v: Uid) {
    && Counts(db, v) && DeleteUser(v) !in xs && Deactivate(v) !in xs
    && exists r :: AdminLink(db, (v, r)) && Unlink(v, r) !in xs
  }

  lemma ApplySpares(db: Db, x: Write, xs: seq<Write>, v: Uid)
    ensures Spared(Apply(db, x), xs, v) <==> Spared(db, [x] + xs, v)
  {
    var d := Apply(db, x);
    assert forall y :: y in [x] + xs <==> y == x || y in xs;
    assert Counts(d, v) <==> Counts(db, v) && x != DeleteUser(v) && x != Deactivate(v);
    forall r ensures AdminLink(d, (v, r)) <==> AdminLink(db, (v, r)) && x != Unlink(v, r) {}
    if Spared(d, xs, v) {
      var r :| AdminLink(d, (v, r)) && Unlink(v, r) !in xs;
      assert AdminLink(db, (v, r)) && Unlink(v, r) !in [x] + xs;
    }
    if Spared(db, [x] + xs, v) {
      var r :| AdminLink(db, (v, r)) && Unlink(v, r) !in [x] + xs;
      assert AdminLink(d, (v, r)) && Unlink(v, r) !in xs;
    }
  }

  /** Exactly who is an administrator after any list of writes, in whatever order they come. */
  lemma {:induction false} LeftAfterWrites(db: Db, xs: seq<Write>, v: Uid)
    ensures v in ActiveAdmins(ApplyAll(db, xs)) <==> Spared(db, xs, v)
    decreases |xs|
  {
    if xs == [] {
      ActiveAdminsMeans(db, v);
      if Spared(db, xs, v) {
        var r :| AdminLink(db, (v, r)) && Unlink(v, r) !in xs;
      }
      if v in ActiveAdmins(db) {
        var r :| AdminLink(db, (v, r));
        assert Unlink(v, r) !in xs;
      }
    } else {
      LeftAfterWrites(Apply(db, xs[0]), xs[1..], v);
      ApplySpares(db, xs[0], xs[1..], v);
      assert xs == [xs[0]] + xs[1..];
    }
  }

  /** Two deletions whose guards both passed before either write: exactly the two are gone, so nobody
      is left if and only if they were all there were. */
  lemma TwoDeletions(db: Db, u: Uid, v: Uid)
    ensures var d := MarkDeleted(MarkDeleted(db, u), v);
      && ActiveAdmins(d) == ActiveAdmins(db) - {u, v}
      && (ActiveAdmins(d) == {} <==> ActiveAdmins(db) <= {u, v})
  {
    var xs, d := [DeleteUser(u), DeleteUser(v)], MarkDeleted(MarkDeleted(db, u), v);
    forall w ensures w in ActiveAdmins(d) <==> w in ActiveAdmins(db) - {u, v} {
      LeftAfterWrites(db, xs, w);
      ActiveAdminsMeans(db, w);
      if w in ActiveAdmins(db) && w != u && w != v {
        var r :| AdminLink(db, (w, r));
        assert Unlink(w, r) !in xs;
      }
    }
  }

  // ---------------------------------------------------------------- runs

  /** The database and the writes whose guards have passed. */
  datatype World = World(db: Db, pending: seq<Write>)

  /** Guards, writes, operations given up by an error, and what else happens to the tables: roles are
      assigned, users activated, and roles that are no system roles written in any way. */
  datatype Event =
    | Pass(x: Write)
    | Commit(i: nat)
    | GiveUp(i: nat)
    | Link(u: Uid, r: Rid)
    | Reactivate(u: Uid)
    | WriteRole(r: Rid, role: Role)

  predicate Enabled(w: World, e: Event) {
    match e
    case Pass(x) => GuardPasses(w.db, x)
    case Commit(i) => i < |w.pending|
    case GiveUp(i) => i < |w.pending|
    case Link(_, _) => true
    case Reactivate(u) => u in w.db.users
    case WriteRole(r, role) => (r in w.db.roles ==> !w.db.roles[r].isSystem) && !IsAdminName(role.name)
  }

  function Without(xs: seq<Write>, i: nat): seq<Write>
    requires i < |xs|
  {
    xs[..i] + xs[i + 1..]
  }

  function Step(w: World, e: Event): World
    requires Enabled(w, e)
  {
    match e
    case Pass(x) => w.(pending := w.pending + [x])
    case Commit(i) => World(Apply(w.db, w.pending[i]), Without(w.pending, i))
    case GiveUp(i) => w.(pending := Without(w.pending, i))
    case Link(u, r) => w.(db := w.db.(links := w.db.links[(u, r) := true]))
    case Reactivate(u) => w.(db := w.db.(users := w.db.users[u := w.db.users[u].(isActive := true)]))
    case WriteRole(r, role) => w.(db := w.db.(roles := w.db.roles[r := role]))
  }

  predicate ValidRun(w: World, es: seq<Event>)
    decreases |es|
  {
    es == [] || (Enabled(w, es[0]) && ValidRun(Step(w, es[0]), es[1..]))
  }

  function Exec(w: World, es: seq<Event>): World
    requires ValidRun(w, es)
    decreases |es|
  {
    if es == [] then w else Exec(Step(w, es[0]), es[1..])
  }

  /** The administrators that stay when every pending write has been made. */
  function Sure(w: World): set<Uid> {
    ActiveAdmins(ApplyAll(w.db, w.pending))
  }

  lemma SureMeans(w: World)
    ensures forall v :: v in Sure(w) <==> Spared(w.db, w.pending, v)
    ensures Sure(w) <= ActiveAdmins(w.db)
  {
    forall v ensures v in Sure(w) <==> Spared(w.db, w.pending, v) { LeftAfterWrites(w.db, w.pending, v); }
    forall v | v in Sure(w) ensures v in ActiveAdmins(w.db) { ActiveAdminsMeans(w.db, v); }
  }

  /** Making a pending write changes nothing about who stays in the end. */
  lemma CommitKeepsSure(w: World, i: nat)
    requires i < |w.pending|
    ensures Sure(Step(w, Commit(i))) == Sure(w)
  {
    var v := Step(w, Commit(i));
    var x, xs := w.pending[i], v.pending;
    SureMeans(w);
    SureMeans(v);
    assert w.pending == w.pending[..i] + [x] + w.pending[i + 1..];
    assert forall y :: y in w.pending <==> y == x || y in xs;
    forall u ensures u in Sure(v) <==> u in Sure(w) {
      ApplySpares(w.db, x, xs, u);
      SameWrites(w.db, [x] + xs, w.pending, u);
    }
  }

  lemma SameWrites(db: Db, xs: seq<Write>, ys: seq<Write>, v: Uid)
    requires forall y :: y in xs <==> y in ys
    ensures Spared(db, xs, v) <==> Spared(db, ys, v)
  {
    if Spared(db, xs, v) {
      var r :| AdminLink(db, (v, r)) && Unlink(v, r) !in xs;
      assert Unlink(v, r) !in ys;
    }
    if Spared(db, ys, v) {
      var r :| AdminLink(db, (v, r)) && Unlink(v, r) !in ys;
      assert Unlink(v, r) !in xs;
    }
  }

  /** An event other than a passing guard takes nobody off those who stay. */
  lemma OthersKeepSure(w: World, e: Event)
    requires Seeded(w.db) && Enabled(w, e) && !e.Pass?
    ensures Sure(w) <= Sure(Step(w, e))
  {
    var v := Step(w, e);
    SureMeans(w);
    SureMeans(v);
    if e.Commit? {
      CommitKeepsSure(w, e.i);
    } else {
      forall u | u in Sure(w) ensures u in Sure(v) {
        var r :| AdminLink(w.db, (u, r)) && Unlink(u, r) !in w.pending;
        assert AdminLink(v.db, (u, r)) && Unlink(u, r) !in v.pending;
      }
    }
  }

  lemma ApplyKeepsSeed(db: Db, x: Write)
    requires Seeded(db)
    ensures Seeded(Apply(db, x))
  {
    assert Apply(db, x).roles == db.roles;
    forall n | NameTaken(db, n) ensures NameTaken(Apply(db, x), n) {}
  }

  lemma StepKeepsSeed(w: World, e: Event)
    requires Seeded(w.db) && Enabled(w, e)
    ensures Seeded(Step(w, e).db)
  {
    match e
    case Commit(i) => ApplyKeepsSeed(w.db, w.pending[i]);
    case WriteRole(r, role) => RolesKeepSeed(w.db, Step(w, e).db, r, role);
    case _ => assert Step(w, e).db.roles == w.db.roles;
      forall n | NameTaken(w.db, n) ensures NameTaken(Step(w, e).db, n) {}
  }

  // ---------------------------------------------------------------- the exact condition

  /** Committing some of the pending writes one after the other, given by their places. */
  predicate CanCommit(w: World, order: seq<nat>)
    decreases |order|
  {
    order == [] || (order[0] < |w.pending| && CanCommit(Step(w, Commit(order[0])), order[1..]))
  }

  function Committed(w: World, order: seq<nat>): World
    requires CanCommit(w, order)
    decreases |order|
  {
    if order == [] then w else Committed(Step(w, Commit(order[0])), order[1..])
  }

  lemma {:induction false} CommittedKeepsSure(w: World, order: seq<nat>)
    requires CanCommit(w, order)
    ensures Sure(Committed(w, order)) == Sure(w)
    decreases |order|
  {
    if order != [] {
      CommitKeepsSure(w, order[0]);
      CommittedKeepsSure(Step(w, Commit(order[0])), order[1..]);
    }
  }

  function Zeros(n: nat): seq<nat> {
    seq(n, _ => 0)
  }

  lemma {:induction false} CommitAllIsApplyAll(w: World)
    ensures CanCommit(w, Zeros(|w.pending|))
    ensures Committed(w, Zeros(|w.pending|)) == World(ApplyAll(w.db, w.pending), [])
    decreases |w.pending|
  {
    var order := Zeros(|w.pending|);
    if w.pending != [] {
      var v := Step(w, Commit(0));
      assert v.pending == w.pending[1..];
      assert order[1..] == Zeros(|v.pending|);
      CommitAllIsApplyAll(v);
    }
  }

  /** Whatever pending writes are made, in any order, an administrator is left. */
  ghost predicate SomebodyStays(w: World) {
    forall order :: CanCommit(w, order) ==> ActiveAdmins(Committed(w, order).db) != {}
  }

  /** The exact condition of safety: whatever pending writes are made, in any order, an administrator
      is left if and only if not every administrator there is now is the target of one of them. */
  lemma InterleavedSafetyIff(w: World)
    ensures SomebodyStays(w) <==> exists v :: Spared(w.db, w.pending, v)
  {
    SureMeans(w);
    if exists v :: Spared(w.db, w.pending, v) {
      var v :| Spared(w.db, w.pending, v);
      forall order | CanCommit(w, order) ensures ActiveAdmins(Committed(w, order).db) != {} {
        CommittedKeepsSure(w, order);
        SureMeans(Committed(w, order));
        assert v in Sure(Committed(w, order));
      }
    } else {
      CommitAllIsApplyAll(w);
      assert CanCommit(w, Zeros(|w.pending|));
      assert Sure(w) == {};
    }
  }

  /** Every guard of the run passes while somebody else is spared by all writes pending then and by
      its own. */
  ghost predicate Careful(w: World, es: seq<Event>)
    requires ValidRun(w, es)
    decreases |es|
  {
    es == [] ||
    ((es[0].Pass? ==> exists v :: Spared(w.db, w.pending + [es[0].x], v)) && Careful(Step(w, es[0]), es[1..]))
  }

  /** At every point of the run an administrator is certain to stay, whatever is committed next. */
  ghost predicate SafeThroughout(w: World, es: seq<Event>)
    requires ValidRun(w, es)
    decreases |es|
  {
    SomebodyStays(w) && (es == [] || SafeThroughout(Step(w, es[0]), es[1..]))
  }

  /** Over all runs with any number of overlapping operations: an administrator is certain at every
      point if and only if each guard passed while somebody was spared. */
  lemma {:induction false} RunIsSafeIff(w: World, es: seq<Event>)
    requires Seeded(w.db) && ValidRun(w, es) && Sure(w) != {}
    ensures SafeThroughout(w, es) <==> Careful(w, es)
    decreases |es|
  {
    SureMeans(w);
    var v :| v in Sure(w);
    assert Spared(w.db, w.pending, v);
    InterleavedSafetyIff(w);
    if es != [] {
      var next := Step(w, es[0]);
      StepKeepsSeed(w, es[0]);
      InterleavedSafetyIff(next);
      SureMeans(next);
      if !es[0].Pass? {
        OthersKeepSure(w, es[0]);
        assert v in Sure(next);
        RunIsSafeIff(next, es[1..]);
      } else if exists u :: Spared(w.db, w.pending + [es[0].x], u) {
        var u :| Spared(w.db, w.pending + [es[0].x], u);
        assert u in Sure(next);
        RunIsSafeIff(next, es[1..]);
      } else {
        assert !SomebodyStays(next);
      }
    }
  }

  // ---------------------------------------------------------------- what the guard's threshold is good for

  lemma OthersUntouched(db: Db, x: Write, v: Uid)
    requires v in ActiveAdmins(db) && v != x.u
    ensures v in ActiveAdmins(Apply(db, x))
  {
    var d := Apply(db, x);
    ActiveAdminsMeans(db, v);
    var r :| AdminLink(db, (v, r));
    assert AdminLink(d, (v, r)) && Counts(d, v);
    ActiveAdminsMeans(d, v);
  }

  /** One write costs at most one administrator. */
  lemma OneWriteCostsOne(db: Db, x: Write)
    ensures |ActiveAdmins(Apply(db, x))| >= |ActiveAdmins(db)| - 1
  {
    var before, after := ActiveAdmins(db), ActiveAdmins(Apply(db, x));
    forall v | v in before && v != x.u ensures v in after { OthersUntouched(db, x, v); }
    assert before <= after + {x.u};
    SubsetSize(before - {x.u}, after);
  }

  lemma {:induction false} WritesCostAtMost(db: Db, xs: seq<Write>)
    ensures |ActiveAdmins(ApplyAll(db, xs))| >= |ActiveAdmins(db)| - |xs|
    decreases |xs|
  {
    if xs != [] {
      OneWriteCostsOne(db, xs[0]);
      WritesCostAtMost(Apply(db, xs[0]), xs[1..]);
    }
  }

  /** A guard that finds more administrators than there are pending writes, its own included, spares
      one of them. The threshold of two is therefore enough exactly for operations that do not
      overlap: with nothing pending every passing guard spares somebody, with one write pending it
      may not (TwoDeletions). */
  lemma FewPendingIsCareful(w: World, x: Write)
    requires GuardPasses(w.db, x)
    requires |ActiveAdmins(w.db)| > |w.pending| + 1 || (w.pending == [] && |ActiveAdmins(w.db)| >= 1 && Seeded(w.db))
    ensures exists v :: Spared(w.db, w.pending + [x], v)
  {
    var next := World(w.db, w.pending + [x]);
    SureMeans(next);
    if |ActiveAdmins(w.db)| > |w.pending| + 1 {
      WritesCostAtMost(w.db, w.pending + [x]);
      assert Sure(next) != {};
      var v :| v in Sure(next);
    } else {
      var v :| v in ActiveAdmins(w.db);
      ActiveAdminsMeans(w.db, v);
      var r :| AdminLink(w.db, (v, r));
      ActiveAdminsAre(w.db, v);
      assert w.pending + [x] == [x];
      assert Spared(w.db, [x], v);
    }
  }

  /** The failing run: two administrators are left, both deletions pass their guards, both are made. */
  lemma OverlappingDeletionsLeaveNobody(db: Db, u: Uid, v: Uid)
    requires u != v && ActiveAdmins(db) == {u, v}
    ensures var es := [Pass(DeleteUser(u)), Pass(DeleteUser(v)), Commit(0), Commit(0)];
      ValidRun(World(db, []), es) && ActiveAdmins(Exec(World(db, []), es).db) == {}
  {
    var pu, pv := Pass(DeleteUser(u)), Pass(DeleteUser(v));
    TwoDeletions(db, u, v);
    BothGuardsPass(db, u, v);
    BothAreMade(db, DeleteUser(u), DeleteUser(v));
    OneMoreEvent(World(db, [DeleteUser(u)]), pv, [Commit(0), Commit(0)]);
    OneMoreEvent(World(db, []), pu, [pv, Commit(0), Commit(0)]);
    assert [pu] + [pv, Commit(0), Commit(0)] == [pu, pv, Commit(0), Commit(0)];
  }

  lemma BothGuardsPass(db: Db, u: Uid, v: Uid)
    requires u != v && ActiveAdmins(db) == {u, v}
    ensures Enabled(World(db, []), Pass(DeleteUser(u))) && Enabled(World(db, [DeleteUser(u)]), Pass(DeleteUser(v)))
  {
  }

  lemma BothAreMade(db: Db, x: Write, y: Write)
    ensures var es, w := [Commit(0), Commit(0)], World(db, [x, y]);
      ValidRun(w, es) && Exec(w, es) == World(Apply(Apply(db, x), y), [])
  {
    FirstIsMade(db, x, [y]);
    FirstIsMade(Apply(db, x), y, []);
    assert [x] + [y] == [x, y] && [y] + [] == [y];
    OneMoreEvent(World(Apply(db, x), [y]), Commit(0), []);
    OneMoreEvent(World(db, [x, y]), Commit(0), [Commit(0)]);
  }

  lemma FirstIsMade(db: Db, x: Write, rest: seq<Write>)
    ensures Enabled(World(db, [x] + rest), Commit(0))
    ensures Step(World(db, [x] + rest), Commit(0)) == World(Apply(db, x), rest)
  {
  }

  lemma OneMoreEvent(w: World, e: Event, es: seq<Event>)
    requires Enabled(w, e) && ValidRun(Step(w, e), es)
    ensures ValidRun(w, [e] + es) && Exec(w, [e] + es) == Exec(Step(w, e), es)
  {
    assert ([e] + es)[1..] == es;
  }

  // ---------------------------------------------------------------- undisturbed operations

  /** The events of an operation that nobody interrupts. */
  function EventsOf(db: Db, op: Op): seq<Event>
    requires Perform(db, op).Ok?
  {
    match op
    case OpAssign(u, r) => [Link(u, r)]
    case OpRemove(u, r, _) => [Pass(Unlink(u, r)), Commit(0)]
    case OpDelete(u) => [Pass(DeleteUser(u)), Commit(0)]
    case OpActivate(u, activate, _) => if activate then [Reactivate(u)] else [Pass(Deactivate(u)), Commit(0)]
    case OpUpdateRole(r, name, isActive, _) => [WriteRole(r, Edited(db.roles[r], name, isActive))]
    case OpDeleteRole(r) => [WriteRole(r, db.roles[r].(isDeleted := true))]
    case OpCreateRole(r, name, isSystem) => [WriteRole(r, Role(name, isSystem, true, false))]
  }

  lemma PassThenCommit(db: Db, x: Write)
    requires GuardPasses(db, x)
    ensures var es := [Pass(x), Commit(0)];
      ValidRun(World(db, []), es) && Exec(World(db, []), es) == World(Apply(db, x), [])
  {
    OneMoreEvent(World(db, [x]), Commit(0), []);
    OneMoreEvent(World(db, []), Pass(x), [Commit(0)]);
    assert [Pass(x)] + [Commit(0)] == [Pass(x), Commit(0)];
  }

  lemma OneEvent(w: World, e: Event)
    requires Enabled(w, e)
    ensures ValidRun(w, [e]) && Exec(w, [e]) == Step(w, e)
  {
    OneMoreEvent(w, e, []);
    assert [e] + [] == [e];
  }

  /** Each of the seven operations, run alone, is such a run: its guards allow its events, which leave
      the tables as the operation does. */
  lemma OperationsAreRuns(db: Db, op: Op)
    requires Seeded(db) && Perform(db, op).Ok?
    ensures var es := EventsOf(db, op);
      ValidRun(World(db, []), es) && Exec(World(db, []), es) == World(Perform(db, op).value, [])
  {
    match op
    case OpAssign(u, r) => OneEvent(World(db, []), Link(u, r));
    case OpRemove(u, r, _) => PassThenCommit(db, Unlink(u, r));
    case OpDelete(u) => PassThenCommit(db, DeleteUser(u));
    case OpActivate(u, activate, _) =>
      if activate { OneEvent(World(db, []), Reactivate(u)); } else { PassThenCommit(db, Deactivate(u)); }
    case _ => OneEvent(World(db, []), EventsOf(db, op)[0]);
  }
}
