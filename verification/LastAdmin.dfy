/**
 Users, roles and their assignments, and the guards that keep the last administrator.
 */
module LastAdmin {
  import opened Common

  type Uid = nat
  type Rid = nat

  datatype User = User(isDeleted: bool, isActive: bool)

  datatype Role = Role(name: string, isSystem: bool, isActive: bool, isDeleted: bool)

  /** `links` are the UserRole rows with their is_active flag. */
  datatype Db = Db(users: map<Uid, User>, roles: map<Rid, Role>, links: map<(Uid, Rid), bool>)

  predicate IsAdminName(name: string) {
    name == "admin" || name == "super_admin"
  }

  /** An active assignment of an active admin role. */
  predicate AdminLink(db: Db, p: (Uid, Rid)) {
    p in db.links && db.links[p] && p.1 in db.roles && IsAdminName(db.roles[p.1].name) && db.roles[p.1].isActive
  }

  predicate Counts(db: Db, u: Uid) {
    u in db.users && !db.users[u].isDeleted && db.users[u].isActive
  }

  /** The users countActiveAdmins counts. */
  function ActiveAdmins(db: Db): set<Uid> {
    set p | p in db.links && AdminLink(db, p) && Counts(db, p.0) :: p.0
  }

  predicate HasAdminRole(db: Db, u: Uid) {
    exists p :: p in db.links && AdminLink(db, p) && p.0 == u
  }

  predicate NameTaken(db: Db, name: string) {
    exists r :: r in db.roles && db.roles[r].name == name
  }

  datatype Error =
    | UserMissing | UserDeleted | RoleMissing | Protected | OnYourself | LastOne
    | AlreadyAssigned | NotAssigned | NoName | Taken | NothingToUpdate | InUse

  // ---------------------------------------------------------------- the operations

  function Assign(db: Db, u: Uid, r: Rid): Result<Db, Error> {
    if r in db.roles && db.roles[r].name == "super_admin" then Err(Protected)
    else if u !in db.users then Err(UserMissing)
    else if db.users[u].isDeleted then Err(UserDeleted)
    else if r !in db.roles then Err(RoleMissing)
    else if (u, r) in db.links && db.links[(u, r)] then Err(AlreadyAssigned)
    else Ok(db.(links := db.links[(u, r) := true]))
  }

  function Remove(db: Db, u: Uid, r: Rid, actor: Uid): Result<Db, Error> {
    if u == actor then Err(OnYourself)
    else if r in db.roles && IsAdminName(db.roles[r].name) && |ActiveAdmins(db)| <= 1 then Err(LastOne)
    else if u !in db.users then Err(UserMissing)
    else if db.users[u].isDeleted then Err(UserDeleted)
    else if r !in db.roles then Err(RoleMissing)
    else if !((u, r) in db.links && db.links[(u, r)]) then Err(NotAssigned)
    else Ok(db.(links := db.links[(u, r) := false]))
  }

  function DeleteGuard(db: Db, u: Uid): Option<Error> {
    if u !in db.users then Some(UserMissing)
    else if db.users[u].isDeleted then Some(UserDeleted)
    else if HasAdminRole(db, u) && |ActiveAdmins(db)| <= 1 then Some(LastOne)
    else None
  }

  function MarkDeleted(db: Db, u: Uid): Db {
    if u !in db.users then db else db.(users := db.users[u := db.users[u].(isDeleted := true)])
  }

  function Delete(db: Db, u: Uid): Result<Db, Error> {
    match DeleteGuard(db, u)
    case Some(e) => Err(e)
    case None => Ok(MarkDeleted(db, u))
  }

  function Activate(db: Db, u: Uid, activate: bool, actor: Option<Uid>): Result<Db, Error> {
    if u !in db.users then Err(UserMissing)
    else if db.users[u].isDeleted then Err(UserDeleted)
    else if !activate && actor == Some(u) then Err(OnYourself)
    else if !activate && HasAdminRole(db, u) && |ActiveAdmins(db)| <= 1 then Err(LastOne)
    else Ok(db.(users := db.users[u := db.users[u].(isActive := activate)]))
  }

  /** `other` says whether a field without influence on the guards is updated as well. */
  function UpdateRole(db: Db, r: Rid, name: Option<string>, isActive: Option<bool>, other: bool): Result<Db, Error> {
    if r !in db.roles then Err(RoleMissing)
    else if db.roles[r].isSystem then Err(Protected)
    else if name.Some? && name.value != "" && name.value != db.roles[r].name && NameTaken(db, name.value) then Err(Taken)
    else if name.None? && isActive.None? && !other then Err(NothingToUpdate)
    else if db.roles[r].isDeleted then Err(RoleMissing)
    else
      var role := db.roles[r];
      var named := if name.Some? then role.(name := name.value) else role;
      Ok(db.(roles := db.roles[r := if isActive.Some? then named.(isActive := isActive.value) else named]))
  }

  function DeleteRole(db: Db, r: Rid): Result<Db, Error> {
    if r !in db.roles then Err(RoleMissing)
    else if db.roles[r].isSystem then Err(Protected)
    else if exists p :: p in db.links && db.links[p] && p.1 == r then Err(InUse)
    else Ok(db.(roles := db.roles[r := db.roles[r].(isDeleted := true)]))
  }

  function CreateRole(db: Db, r: Rid, name: string, isSystem: bool): Result<Db, Error> {
    if name == "" then Err(NoName)
    else if NameTaken(db, name) || r in db.roles then Err(Taken)
    else Ok(db.(roles := db.roles[r := Role(name, isSystem, true, false)]))
  }

  // ---------------------------------------------------------------- sequential runs

  datatype Op =
    | OpAssign(u: Uid, r: Rid)
    | OpRemove(u: Uid, r: Rid, remover: Uid)
    | OpDelete(u: Uid)
    | OpActivate(u: Uid, activate: bool, changer: Option<Uid>)
    | OpUpdateRole(r: Rid, newName: Option<string>, isActive: Option<bool>, other: bool)
    | OpDeleteRole(r: Rid)
    | OpCreateRole(r: Rid, name: string, isSystem: bool)

  function Perform(db: Db, op: Op): Result<Db, Error> {
    match op
    case OpAssign(u, r) => Assign(db, u, r)
    case OpRemove(u, r, actor) => Remove(db, u, r, actor)
    case OpDelete(u) => Delete(db, u)
    case OpActivate(u, activate, actor) => Activate(db, u, activate, actor)
    case OpUpdateRole(r, name, isActive, other) => UpdateRole(db, r, name, isActive, other)
    case OpDeleteRole(r) => DeleteRole(db, r)
    case OpCreateRole(r, name, isSystem) => CreateRole(db, r, name, isSystem)
  }

  /** Operations that fail change nothing. */
  function Run(db: Db, ops: seq<Op>): Db
    decreases |ops|
  {
    if ops == [] then db
    else Run(match Perform(db, ops[0]) case Ok(d) => d case Err(_) => db, ops[1..])
  }

  /** Both admin names are seeded, and whatever carries one is an active system role. */
  ghost predicate Seeded(db: Db) {
    && NameTaken(db, "admin") && NameTaken(db, "super_admin")
    && forall r :: r in db.roles && IsAdminName(db.roles[r].name) ==> db.roles[r].isSystem && db.roles[r].isActive
  }

  lemma ActiveAdminsAre(db: Db, u: Uid)
    ensures u in ActiveAdmins(db) <==> HasAdminRole(db, u) && Counts(db, u)
  {
  }

  /** Taking one admin out of a set of at least two leaves one. */
  lemma OneLess(before: set<Uid>, after: set<Uid>, u: Uid)
    requires before - {u} <= after && |before| >= 2
    ensures |after| >= 1
  {
    SubsetSize(before - {u}, after);
  }

  /** Links and users change for u only; roles stay: then only u can drop out. */
  lemma OnlyOneDrops(db: Db, d: Db, u: Uid)
    requires d.roles == db.roles
    requires forall v :: v != u ==> (v in db.users <==> v in d.users) && (v in db.users ==> d.users[v] == db.users[v])
    requires forall p :: p in db.links && p.0 != u ==> p in d.links && d.links[p] == db.links[p]
    ensures ActiveAdmins(db) - {u} <= ActiveAdmins(d)
  {
    forall v | v in ActiveAdmins(db) && v != u ensures v in ActiveAdmins(d) {
      var p :| p in db.links && AdminLink(db, p) && Counts(db, p.0) && p.0 == v;
      assert p in d.links && AdminLink(d, p) && Counts(d, v);
    }
  }

  lemma RolesKeepSeed(db: Db, d: Db, r: Rid, role: Role)
    requires Seeded(db) && d == db.(roles := db.roles[r := role])
    requires r !in db.roles || !db.roles[r].isSystem
    requires !IsAdminName(role.name)
    ensures Seeded(d) && ActiveAdmins(d) == ActiveAdmins(db)
  {
    forall n | IsAdminName(n) ensures NameTaken(d, n) {
      var k :| k in db.roles && db.roles[k].name == n;
      assert k in d.roles && d.roles[k].name == n;
    }
    forall p | p in db.links ensures AdminLink(d, p) <==> AdminLink(db, p) {}
  }

  lemma StepKeepsAdmin(db: Db, op: Op)
    requires Seeded(db) && |ActiveAdmins(db)| >= 1
    ensures Perform(db, op).Ok? ==> Seeded(Perform(db, op).value) && |ActiveAdmins(Perform(db, op).value)| >= 1
  {
    if Perform(db, op).Ok? {
      var d := Perform(db, op).value;
      match op
      case OpAssign(u, r) => AssignKeeps(db, u, r);
      case OpRemove(u, r, actor) => RemoveKeeps(db, u, r, actor);
      case OpDelete(u) => DeleteKeeps(db, u);
      case OpActivate(u, activate, actor) => ActivateKeeps(db, u, activate, actor);
      case OpUpdateRole(r, name, isActive, other) => RolesKeepSeed(db, d, r, d.roles[r]);
      case OpDeleteRole(r) => RolesKeepSeed(db, d, r, d.roles[r]);
      case OpCreateRole(r, name, isSystem) => RolesKeepSeed(db, d, r, d.roles[r]);
    }
  }

  lemma AssignKeeps(db: Db, u: Uid, r: Rid)
    requires Seeded(db) && |ActiveAdmins(db)| >= 1 && Assign(db, u, r).Ok?
    ensures var d := Assign(db, u, r).value; Seeded(d) && |ActiveAdmins(d)| >= 1
  {
    var d := Assign(db, u, r).value;
    forall v | v in ActiveAdmins(db) ensures v in ActiveAdmins(d) {
      var p :| p in db.links && AdminLink(db, p) && Counts(db, p.0) && p.0 == v;
      assert p in d.links && AdminLink(d, p) && Counts(d, v);
    }
    SubsetSize(ActiveAdmins(db), ActiveAdmins(d));
  }

  lemma RemoveKeeps(db: Db, u: Uid, r: Rid, actor: Uid)
    requires Seeded(db) && |ActiveAdmins(db)| >= 1 && Remove(db, u, r, actor).Ok?
    ensures var d := Remove(db, u, r, actor).value; Seeded(d) && |ActiveAdmins(d)| >= 1
  {
    var d := Remove(db, u, r, actor).value;
    if IsAdminName(db.roles[r].name) {
      OnlyOneDrops(db, d, u);
      OneLess(ActiveAdmins(db), ActiveAdmins(d), u);
    } else {
      forall v | v in ActiveAdmins(db) ensures v in ActiveAdmins(d) {
        var p :| p in db.links && AdminLink(db, p) && Counts(db, p.0) && p.0 == v;
        assert p != (u, r);
        assert p in d.links && AdminLink(d, p) && Counts(d, v);
      }
      SubsetSize(ActiveAdmins(db), ActiveAdmins(d));
    }
  }

  lemma UserChangeKeeps(db: Db, d: Db, u: Uid)
    requires |ActiveAdmins(db)| >= 1 && d.roles == db.roles && d.links == db.links
    requires forall v :: v != u ==> (v in db.users <==> v in d.users) && (v in db.users ==> d.users[v] == db.users[v])
    requires HasAdminRole(db, u) ==> |ActiveAdmins(db)| >= 2
    ensures |ActiveAdmins(d)| >= 1
  {
    OnlyOneDrops(db, d, u);
    ActiveAdminsAre(db, u);
    if HasAdminRole(db, u) {
      OneLess(ActiveAdmins(db), ActiveAdmins(d), u);
    } else {
      SubsetSize(ActiveAdmins(db), ActiveAdmins(d));
    }
  }

  lemma DeleteKeeps(db: Db, u: Uid)
    requires Seeded(db) && |ActiveAdmins(db)| >= 1 && Delete(db, u).Ok?
    ensures var d := Delete(db, u).value; Seeded(d) && |ActiveAdmins(d)| >= 1
  {
    UserChangeKeeps(db, Delete(db, u).value, u);
  }

  lemma ActivateKeeps(db: Db, u: Uid, activate: bool, actor: Option<Uid>)
    requires Seeded(db) && |ActiveAdmins(db)| >= 1 && Activate(db, u, activate, actor).Ok?
    ensures var d := Activate(db, u, activate, actor).value; Seeded(d) && |ActiveAdmins(d)| >= 1
  {
    var d := Activate(db, u, activate, actor).value;
    if activate {
      forall v | v in ActiveAdmins(db) ensures v in ActiveAdmins(d) {
        var p :| p in db.links && AdminLink(db, p) && Counts(db, p.0) && p.0 == v;
        assert p in d.links && AdminLink(d, p) && Counts(d, v);
      }
      SubsetSize(ActiveAdmins(db), ActiveAdmins(d));
    } else {
      UserChangeKeeps(db, d, u);
    }
  }

  /** The last administrator stays: from a seeded state with an active admin, no sequence of role
      assignments and removals, deletions, (de)activations and role edits leaves none. */
  lemma {:induction false} AlwaysAnAdmin(db: Db, ops: seq<Op>)
    requires Seeded(db) && |ActiveAdmins(db)| >= 1
    ensures Seeded(Run(db, ops)) && |ActiveAdmins(Run(db, ops))| >= 1
    decreases |ops|
  {
    if ops != [] {
      StepKeepsAdmin(db, ops[0]);
      AlwaysAnAdmin(match Perform(db, ops[0]) case Ok(d) => d case Err(_) => db, ops[1..]);
    }
  }

  /** The guard and the write are separate statements: two deletions whose guards both ran before
      either write remove the last two administrators together. */
  lemma InterleavedGuardsFail(db: Db, u: Uid, v: Uid)
    requires u != v && ActiveAdmins(db) == {u, v}
    ensures DeleteGuard(db, u).None? && DeleteGuard(db, v).None?
    ensures ActiveAdmins(MarkDeleted(MarkDeleted(db, u), v)) == {}
  {
    ActiveAdminsAre(db, u);
    ActiveAdminsAre(db, v);
    var d := MarkDeleted(MarkDeleted(db, u), v);
    forall w ensures w !in ActiveAdmins(d) {
      ActiveAdminsAre(d, w);
      ActiveAdminsAre(db, w);
      if HasAdminRole(d, w) {
        var p :| p in d.links && AdminLink(d, p) && p.0 == w;
        assert p in db.links && AdminLink(db, p);
      }
    }
  }

  /** Refused deletions of existing users are exactly those of admin-role holders while at most one
      active administrator is left, whether or not the user is that one. */
  lemma DeleteRefusedIff(db: Db, u: Uid)
    requires u in db.users && !db.users[u].isDeleted && |ActiveAdmins(db)| >= 1
    ensures Delete(db, u).Err? <==> HasAdminRole(db, u) && |ActiveAdmins(db)| == 1
    ensures Delete(db, u).Err? && !db.users[u].isActive ==> ActiveAdmins(MarkDeleted(db, u)) == ActiveAdmins(db)
  {
    var d := MarkDeleted(db, u);
    if !db.users[u].isActive {
      forall v ensures v in ActiveAdmins(d) <==> v in ActiveAdmins(db) {
        ActiveAdminsAre(db, v);
        ActiveAdminsAre(d, v);
        assert HasAdminRole(d, v) <==> HasAdminRole(db, v) by {
          assert forall p :: AdminLink(d, p) <==> AdminLink(db, p);
        }
      }
    }
  }

  /** The domain functions as they run: guard after guard, then the write. */
  class UserAdministration {
    var db: Db

    constructor (db: Db)
      ensures this.db == db
    {
      this.db := db;
    }

    method CountActiveAdmins() returns (n: nat)
      ensures n == |ActiveAdmins(db)|
    {
      n := |ActiveAdmins(db)|;
    }

    method ChangeRole(u: Uid, r: Rid, assign: bool, actor: Uid) returns (error: Option<Error>)
      modifies this
      ensures var result := if assign then Assign(old(db), u, r) else Remove(old(db), u, r, actor);
        if error.None? then result == Ok(db) else result == Err(error.value) && db == old(db)
    {
      if assign && r in db.roles && db.roles[r].name == "super_admin" { return Some(Protected); }
      if !assign && u == actor { return Some(OnYourself); }
      if !assign && r in db.roles && IsAdminName(db.roles[r].name) {
        var adminCount := CountActiveAdmins();
        if adminCount <= 1 { return Some(LastOne); }
      }
      if u !in db.users { return Some(UserMissing); }
      if db.users[u].isDeleted { return Some(UserDeleted); }
      if r !in db.roles { return Some(RoleMissing); }
      var existing := (u, r) in db.links;
      if assign {
        if existing && db.links[(u, r)] { return Some(AlreadyAssigned); }
        db := db.(links := db.links[(u, r) := true]);
      } else {
        if !existing || !db.links[(u, r)] { return Some(NotAssigned); }
        db := db.(links := db.links[(u, r) := false]);
      }
      return None;
    }

    method DeleteUser(u: Uid) returns (error: Option<Error>)
      modifies this
      ensures if error.None? then Delete(old(db), u) == Ok(db) else Delete(old(db), u) == Err(error.value) && db == old(db)
    {
      if u !in db.users { return Some(UserMissing); }
      if db.users[u].isDeleted { return Some(UserDeleted); }
      if HasAdminRole(db, u) {
        var totalAdmins := CountActiveAdmins();
        if totalAdmins <= 1 { return Some(LastOne); }
      }
      db := db.(users := db.users[u := db.users[u].(isDeleted := true)]);
      return None;
    }

    method SetActive(u: Uid, activate: bool, actor: Option<Uid>) returns (error: Option<Error>)
      modifies this
      ensures var result := Activate(old(db), u, activate, actor);
        if error.None? then result == Ok(db) else result == Err(error.value) && db == old(db)
    {
      if u !in db.users { return Some(UserMissing); }
      if db.users[u].isDeleted { return Some(UserDeleted); }
      if !activate && actor == Some(u) { return Some(OnYourself); }
      if !activate && HasAdminRole(db, u) {
        var totalActiveAdmins := CountActiveAdmins();
        if totalActiveAdmins <= 1 { return Some(LastOne); }
      }
      db := db.(users := db.users[u := db.users[u].(isActive := activate)]);
      return None;
    }

    /** Collect the fields to change one by one, then write them. */
    method EditRole(r: Rid, name: Option<string>, isActive: Option<bool>, other: bool) returns (error: Option<Error>)
      modifies this
      ensures var result := UpdateRole(old(db), r, name, isActive, other);
        if error.None? then result == Ok(db) else result == Err(error.value) && db == old(db)
    {
      if r !in db.roles { return Some(RoleMissing); }
      var role := db.roles[r];
      if role.isSystem { return Some(Protected); }
      if name.Some? && name.value != "" && name.value != role.name && NameTaken(db, name.value) { return Some(Taken); }
      var updates := 0;
      if name.Some? { role, updates := role.(name := name.value), updates + 1; }
      if other { updates := updates + 1; }
      if isActive.Some? { role, updates := role.(isActive := isActive.value), updates + 1; }
      if updates == 0 { return Some(NothingToUpdate); }
      if role.isDeleted { return Some(RoleMissing); }
      db := db.(roles := db.roles[r := role]);
      return None;
    }

    method AddRole(r: Rid, name: string, isSystem: bool) returns (error: Option<Error>)
      modifies this
      ensures var result := CreateRole(old(db), r, name, isSystem);
        if error.None? then result == Ok(db) else result == Err(error.value) && db == old(db)
    {
      if name == "" { return Some(NoName); }
      if NameTaken(db, name) || r in db.roles { return Some(Taken); }
      db := db.(roles := db.roles[r := Role(name, isSystem, true, false)]);
      return None;
    }

    method RemoveRole(r: Rid) returns (error: Option<Error>)
      modifies this
      ensures var result := DeleteRole(old(db), r);
        if error.None? then result == Ok(db) else result == Err(error.value) && db == old(db)
    {
      if r !in db.roles { return Some(RoleMissing); }
      if db.roles[r].isSystem { return Some(Protected); }
      var inUse := exists p :: p in db.links && db.links[p] && p.1 == r;
      if inUse { return Some(InUse); }
      db := db.(roles := db.roles[r := db.roles[r].(isDeleted := true)]);
      return None;
    }
  }
}
