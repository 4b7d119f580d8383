/**
 How the seven operations on users and roles end: which check refuses one, in what order the checks
 come, and what a success writes.
 */
module LastAdminOutcomes {
  import opened Common
  import opened LastAdmin

  // ---------------------------------------------------------------- who is an administrator

  /** Holding a role that makes an administrator, spelled out. */
  ghost predicate HoldsAdmin(db: Db, u: Uid) {
    exists r :: (u, r) in db.links && db.links[(u, r)] && r in db.roles && db.roles[r].isActive
                && (db.roles[r].name == "admin" || db.roles[r].name == "super_admin")
  }

  /** The users counted are the active, undeleted holders of an active admin role; the guards see the
      holders, active or not. */
  lemma AdminsAre(db: Db, u: Uid)
    ensures HasAdminRole(db, u) <==> HoldsAdmin(db, u)
    ensures u in ActiveAdmins(db) <==> u in db.users && db.users[u].isActive && !db.users[u].isDeleted && HoldsAdmin(db, u)
  {
    if HasAdminRole(db, u) {
      var p :| p in db.links && AdminLink(db, p) && p.0 == u;
      assert (u, p.1) == p;
    }
    if HoldsAdmin(db, u) {
      var r :| (u, r) in db.links && db.links[(u, r)] && r in db.roles && db.roles[r].isActive
               && (db.roles[r].name == "admin" || db.roles[r].name == "super_admin");
      assert AdminLink(db, (u, r));
    }
    ActiveAdminsAre(db, u);
  }

  // ---------------------------------------------------------------- which check refuses

  /** One check of an operation: does it fail, and with which error? */
  datatype Check = Check(fails: bool, error: Error)

  predicate Assigned(db: Db, u: Uid, r: Rid) {
    (u, r) in db.links && db.links[(u, r)]
  }

  predicate OtherName(db: Db, r: Rid, name: string) {
    exists q :: q in db.roles && q != r && db.roles[q].name == name
  }

  /** The checks of an operation in the order in which they are made. */
  ghost function Checks(db: Db, op: Op): seq<Check> {
    var few := |ActiveAdmins(db)| <= 1;
    match op
    case OpAssign(u, r) => [
      Check(r in db.roles && db.roles[r].name == "super_admin", Protected),
      Check(u !in db.users, UserMissing),
      Check(u in db.users && db.users[u].isDeleted, UserDeleted),
      Check(r !in db.roles, RoleMissing),
      Check(Assigned(db, u, r), AlreadyAssigned)]
    case OpRemove(u, r, actor) => [
      Check(u == actor, OnYourself),
      Check(few && r in db.roles && (db.roles[r].name == "admin" || db.roles[r].name == "super_admin"), LastOne),
      Check(u !in db.users, UserMissing),
      Check(u in db.users && db.users[u].isDeleted, UserDeleted),
      Check(r !in db.roles, RoleMissing),
      Check(!Assigned(db, u, r), NotAssigned)]
    case OpDelete(u) => [
      Check(u !in db.users, UserMissing),
      Check(u in db.users && db.users[u].isDeleted, UserDeleted),
      Check(few && HoldsAdmin(db, u), LastOne)]
    case OpActivate(u, activate, actor) => [
      Check(u !in db.users, UserMissing),
      Check(u in db.users && db.users[u].isDeleted, UserDeleted),
      Check(!activate && actor == Some(u), OnYourself),
      Check(!activate && few && HoldsAdmin(db, u), LastOne)]
    case OpUpdateRole(r, name, isActive, other) => [
      Check(r !in db.roles, RoleMissing),
      Check(r in db.roles && db.roles[r].isSystem, Protected),
      Check(r in db.roles && name.Some? && name.value != "" && name.value != db.roles[r].name && OtherName(db, r, name.value), Taken),
      Check(name == None && isActive == None && !other, NothingToUpdate),
      Check(r in db.roles && db.roles[r].isDeleted, RoleMissing)]
    case OpDeleteRole(r) => [
      Check(r !in db.roles, RoleMissing),
      Check(r in db.roles && db.roles[r].isSystem, Protected),
      Check(exists u :: Assigned(db, u, r), InUse)]
    case OpCreateRole(r, name, _) => [
      Check(name == "", NoName),
      Check(r in db.roles || OtherName(db, r, name), Taken)]
  }

  function FirstError(checks: seq<Check>): Option<Error> {
    if checks == [] then None else if checks[0].fails then Some(checks[0].error) else FirstError(checks[1..])
  }

  /** An operation succeeds if and only if none of its checks fails, and is refused with the error of
      the first that does. */
  lemma OutcomeIs(db: Db, op: Op)
    ensures FirstError(Checks(db, op)) == match Perform(db, op) case Ok(_) => None case Err(e) => Some(e)
  {
    var cs := Checks(db, op);
    FirstErrorIs(cs);
    if |cs| > 3 { FirstErrorIs(cs[3..]); }
    match op
    case OpDelete(u) => AdminsAre(db, u);
    case OpActivate(u, _, _) => AdminsAre(db, u);
    case OpDeleteRole(r) => InUseIs(db, r);
    case _ =>
  }

  lemma InUseIs(db: Db, r: Rid)
    ensures (exists u :: Assigned(db, u, r)) <==> exists p :: p in db.links && db.links[p] && p.1 == r
  {
    if p :| p in db.links && db.links[p] && p.1 == r { assert Assigned(db, p.0, r); }
  }

  lemma FirstErrorIs(cs: seq<Check>)
    requires cs != []
    ensures FirstError(cs) ==
      if cs[0].fails then Some(cs[0].error) else if |cs| > 1 && cs[1].fails then Some(cs[1].error)
      else if |cs| > 2 && cs[2].fails then Some(cs[2].error) else if |cs| <= 3 then None else FirstError(cs[3..])
  {
    if |cs| > 1 { assert cs[1..][0] == cs[1] && cs[1..][1..] == cs[2..]; }
    if |cs| > 2 { assert cs[2..][0] == cs[2] && cs[2..][1..] == cs[3..]; }
  }

  // ---------------------------------------------------------------- what a success writes

  /** The role record after an edit: the given fields, and the others as they were. */
  function Edited(role: Role, name: Option<string>, isActive: Option<bool>): Role {
    Role(if name.Some? then name.value else role.name, role.isSystem,
         if isActive.Some? then isActive.value else role.isActive, role.isDeleted)
  }

  /** A success writes one record, and nothing else changes. */
  lemma Written(db: Db, op: Op)
    requires Perform(db, op).Ok?
    ensures var d := Perform(db, op).value;
      match op
      case OpAssign(u, r) => d == Db(db.users, db.roles, db.links[(u, r) := true])
      case OpRemove(u, r, _) => d == Db(db.users, db.roles, db.links[(u, r) := false])
      case OpDelete(u) => u in db.users && d == Db(db.users[u := User(true, db.users[u].isActive)], db.roles, db.links)
      case OpActivate(u, activate, _) => u in db.users && d == Db(db.users[u := User(false, activate)], db.roles, db.links)
      case OpUpdateRole(r, name, isActive, _) =>
        r in db.roles && d == Db(db.users, db.roles[r := Edited(db.roles[r], name, isActive)], db.links)
      case OpDeleteRole(r) =>
        r in db.roles && d == Db(db.users, db.roles[r := Role(db.roles[r].name, false, db.roles[r].isActive, true)], db.links)
      case OpCreateRole(r, name, isSystem) => d == Db(db.users, db.roles[r := Role(name, isSystem, true, false)], db.links)
  {
  }

  /** A removed role can be given back, unless it is super_admin, which nobody can assign; and an
      assigned one can be taken away again unless that is forbidden for administrators' sake. */
  lemma RemovedCanBeAssigned(db: Db, u: Uid, r: Rid, actor: Uid)
    requires Remove(db, u, r, actor).Ok?
    ensures var d := Remove(db, u, r, actor).value;
      (Assign(d, u, r).Ok? <==> db.roles[r].name != "super_admin")
      && (Assign(d, u, r).Ok? ==> Assign(d, u, r).value == db)
  {
    assert db.links[(u, r) := false][(u, r) := true] == db.links;
  }

  // ---------------------------------------------------------------- role names

  /** No two roles share a name, unless it is the empty one, which an edit lets pass unchecked. */
  ghost predicate NamesDistinct(db: Db) {
    forall q, r :: q in db.roles && r in db.roles && q != r && db.roles[q].name == db.roles[r].name ==> db.roles[q].name == ""
  }

  lemma StepKeepsNames(db: Db, op: Op)
    requires NamesDistinct(db) && Perform(db, op).Ok?
    ensures NamesDistinct(Perform(db, op).value)
  {
    Written(db, op);
  }

  /** Over every run role names stay distinct, also those of deleted roles. */
  lemma {:induction false} NamesStayDistinct(db: Db, ops: seq<Op>)
    requires NamesDistinct(db)
    ensures NamesDistinct(Run(db, ops))
    decreases |ops|
  {
    if ops != [] {
      if Perform(db, ops[0]).Ok? { StepKeepsNames(db, ops[0]); }
      NamesStayDistinct(match Perform(db, ops[0]) case Ok(d) => d case Err(_) => db, ops[1..]);
    }
  }

  /** The exception is real: two roles edited to an empty name. */
  lemma EmptyNamesCollide(db: Db, q: Rid, r: Rid)
    requires q in db.roles && r in db.roles && q != r
    requires !db.roles[q].isSystem && !db.roles[r].isSystem && !db.roles[q].isDeleted && !db.roles[r].isDeleted
    ensures var d := Run(db, [OpUpdateRole(q, Some(""), None, false), OpUpdateRole(r, Some(""), None, false)]);
      q in d.roles && r in d.roles && d.roles[q].name == "" && d.roles[r].name == ""
  {
    var e1, e2 := OpUpdateRole(q, Some(""), None, false), OpUpdateRole(r, Some(""), None, false);
    var d1 := Perform(db, e1).value;
    assert [e1, e2][1..] == [e2] && [e2][1..] == [];
    assert Run(d1, [e2]) == Run(Perform(d1, e2).value, []);
  }

  // ---------------------------------------------------------------- roles in use

  /** A role becomes deleted only while nobody holds it, and no other operation deletes or revives one. */
  lemma OnlyUnusedRolesGo(db: Db, op: Op, r: Rid)
    requires Perform(db, op).Ok? && r in db.roles
    ensures var d := Perform(db, op).value;
      && r in d.roles
      && (d.roles[r].isDeleted && !db.roles[r].isDeleted ==> op == OpDeleteRole(r) && forall u :: !Assigned(db, u, r))
      && (db.roles[r].isDeleted ==> d.roles[r].isDeleted)
  {
    Written(db, op);
    if op == OpDeleteRole(r) { InUseIs(db, r); }
  }
}
