/**
 User and role administration: whatever users and roles are created, changed or deleted, one operation
 after another, an active administrator remains.
 */
module LastAdmin {
  import opened Options

  datatype User = User(username: string, active: bool, deleted: bool)
  datatype Role = Role(code: string, deleted: bool)

  /** The three tables: users, roles and which user has which role. */
  datatype Db = Db(users: map<nat, User>, roles: map<nat, Role>, userRoles: set<(nat, nat)>)

  datatype Error = NotFound | ValidationError | Conflict | Forbidden
  datatype Outcome = Done(db: Db) | Refused(error: Error)

  /** Ids given to created rows are new ones. */
  datatype Operation =
    | CreateUser(id: nat, name: string, active: bool, codes: seq<string>)
    | UpdateUser(id: nat, newName: Option<string>, newStatus: Option<bool>, newCodes: Option<seq<string>>)
    | UpdateStatus(id: nat, active: bool)
    | DeleteUser(id: nat, operator: nat)
    | CreateRole(id: nat, code: string)
    | UpdateRole(id: nat, newCode: Option<string>)
    | DeleteRole(id: nat)

  /** Old role codes stand for the two built-in ones; codes are already trimmed and in lower case. */
  function NormalizeRoleCode(code: string): (normalized: string)
    ensures normalized == "admin" <==> code == "admin" || code == "super_admin"
    ensures normalized == "user" <==> code == "user" || code == "analyst" || code == "operator"
    ensures normalized == "admin" || normalized == "user" || normalized == code
  {
    if code == "super_admin" then "admin"
    else if code == "analyst" || code == "operator" then "user"
    else code
  }

  predicate LiveUser(db: Db, u: nat) { u in db.users && !db.users[u].deleted }
  predicate LiveRole(db: Db, r: nat) { r in db.roles && !db.roles[r].deleted }

  /** The role counts as an administrator's, under its present or its old code. */
  predicate IsAdminRole(db: Db, r: nat) { LiveRole(db, r) && NormalizeRoleCode(db.roles[r].code) == "admin" }

  predicate HasAdminRole(db: Db, u: nat) {
    exists p :: p in db.userRoles && p.0 == u && IsAdminRole(db, p.1)
  }

  predicate IsActiveAdmin(db: Db, u: nat) {
    LiveUser(db, u) && db.users[u].active && HasAdminRole(db, u)
  }

  function ActiveAdmins(db: Db): set<nat> {
    set u | u in db.users && IsActiveAdmin(db, u)
  }

  predicate UsernameTaken(db: Db, username: string, except: Option<nat>) {
    exists u :: u in db.users && Some(u) != except && db.users[u].username == username
  }

  predicate CodeTaken(db: Db, code: string, except: Option<nat>) {
    exists r :: r in db.roles && Some(r) != except && db.roles[r].code == code
  }

  predicate AssignedToLiveUser(db: Db, r: nat) {
    exists p :: p in db.userRoles && p.1 == r && LiveUser(db, p.0)
  }

  function NormalizedCodes(codes: seq<string>): set<string> {
    set c | c in codes && NormalizeRoleCode(c) != "" :: NormalizeRoleCode(c)
  }

  /** The codes ask for exactly one built-in role, and this live row is it. */
  predicate Resolves(db: Db, codes: seq<string>, r: nat) {
    LiveRole(db, r) && (db.roles[r].code == "admin" || db.roles[r].code == "user") && NormalizedCodes(codes) == {db.roles[r].code}
  }

  ghost function ResolveRole(db: Db, codes: seq<string>): (role: Option<nat>)
    ensures role.Some? ==> Resolves(db, codes, role.value)
    ensures role.None? ==> forall r :: !Resolves(db, codes, r)
  {
    if exists r :: Resolves(db, codes, r) then var r :| Resolves(db, codes, r); Some(r) else None
  }

  /** The check before a user is changed: whoever gives up being an active administrator must not be the last. */
  predicate MayChange(db: Db, u: nat, nextActive: bool, nextDeleted: bool, newCodes: Option<seq<string>>) {
    || !HasAdminRole(db, u)
    || (nextActive && !nextDeleted && (newCodes.Some? ==> "admin" in NormalizedCodes(newCodes.value)))
    || |ActiveAdmins(db)| > 1
  }

  function Without(userRoles: set<(nat, nat)>, u: nat): set<(nat, nat)> { set p | p in userRoles && p.0 != u }

  function SetUser(db: Db, id: nat, user: User): Db { db.(users := db.users[id := user]) }
  function Assign(db: Db, id: nat, r: nat): Db { db.(userRoles := Without(db.userRoles, id) + {(id, r)}) }

  /** The operations that change an existing user. */
  predicate ChangesUser(op: Operation) { op.UpdateUser? || op.UpdateStatus? || op.DeleteUser? }

  function CodesOf(op: Operation): Option<seq<string>> {
    match op
    case CreateUser(_, _, _, codes) => Some(codes)
    case UpdateUser(_, _, _, newCodes) => newCodes
    case _ => None
  }

  /** Whether the user is to be active afterwards. */
  function NextActive(db: Db, op: Operation): bool
    requires ChangesUser(op) && op.id in db.users
  {
    if op.UpdateUser? then op.newStatus.GetOr(db.users[op.id].active) else op.UpdateStatus? && op.active
  }

  /** The change asked for, before anyone looks at the other administrators. */
  ghost function Requested(db: Db, op: Operation): Outcome
    requires ChangesUser(op)
  {
    match op
    case UpdateUser(id, newName, _, newCodes) =>
      if !LiveUser(db, id) then Refused(NotFound)
      else
        var user := db.users[id];
        var next := User(newName.GetOr(user.username), NextActive(db, op), false);
        if next.username != user.username && UsernameTaken(db, next.username, Some(id)) then Refused(Conflict)
        else
          var role := if newCodes.Some? then ResolveRole(db, newCodes.value) else None;
          if newCodes.Some? && role.None? then Refused(ValidationError)
          else Done(if role.Some? then Assign(SetUser(db, id, next), id, role.value) else SetUser(db, id, next))
    case UpdateStatus(id, active) =>
      if !LiveUser(db, id) then Refused(NotFound)
      else Done(SetUser(db, id, db.users[id].(active := active)))
    case DeleteUser(id, operator) =>
      if id == operator then Refused(Forbidden)
      else if !LiveUser(db, id) then Refused(NotFound)
      else Done(SetUser(db, id, db.users[id].(active := false, deleted := true)).(userRoles := Without(db.userRoles, id)))
  }

  ghost function Guarded(db: Db, op: Operation): Outcome
    requires ChangesUser(op)
  {
    var outcome := Requested(db, op);
    if outcome.Done? && !MayChange(db, op.id, NextActive(db, op), op.DeleteUser?, CodesOf(op)) then Refused(ValidationError) else outcome
  }

  ghost function Next(db: Db, op: Operation): Outcome {
    match op
    case UpdateUser(_, _, _, _) => Guarded(db, op)
    case UpdateStatus(_, _) => Guarded(db, op)
    case DeleteUser(_, _) => Guarded(db, op)
    case CreateUser(id, name, active, codes) =>
      if id in db.users || UsernameTaken(db, name, None) then Refused(Conflict)
      else
        var role := ResolveRole(db, codes);
        if role.None? then Refused(ValidationError)
        else Done(Assign(SetUser(db, id, User(name, active, false)), id, role.value))
    case CreateRole(id, code) =>
      var normalized := NormalizeRoleCode(code);
      if normalized == "" then Refused(ValidationError)
      else if id in db.roles || CodeTaken(db, normalized, None) then Refused(Conflict)
      else Done(db.(roles := db.roles[id := Role(normalized, false)]))
    case UpdateRole(id, newCode) =>
      if !LiveRole(db, id) then Refused(NotFound)
      else if db.roles[id].code == "admin" && newCode.Some? && newCode.value != "" then Refused(Forbidden)
      else
        var normalized := if newCode.Some? then NormalizeRoleCode(newCode.value) else db.roles[id].code;
        if normalized == "" then Refused(ValidationError)
        else if normalized != db.roles[id].code && CodeTaken(db, normalized, Some(id)) then Refused(Conflict)
        else Done(db.(roles := db.roles[id := Role(normalized, false)]))
    case DeleteRole(id) =>
      if !LiveRole(db, id) then Refused(NotFound)
      else if db.roles[id].code == "admin" then Refused(Forbidden)
      else if AssignedToLiveUser(db, id) then Refused(Conflict)
      else Done(db.(roles := db.roles[id := db.roles[id].(deleted := true)], userRoles := set p | p in db.userRoles && p.1 != id))
  }

  ghost function After(db: Db, op: Operation): Db {
    var outcome := Next(db, op);
    if outcome.Done? then outcome.db else db
  }

  ghost function Run(db: Db, ops: seq<Operation>): Db
    decreases |ops|
  {
    if ops == [] then db else Run(After(db, ops[0]), ops[1..])
  }

  // ---------------------------------------------------------------- invariant

  /** The unique index on role codes. */
  ghost predicate UniqueCodes(db: Db) {
    forall a, b :: a in db.roles && b in db.roles && a != b ==> db.roles[a].code != db.roles[b].code
  }

  predicate HoldsAdminCode(db: Db, u: nat) {
    exists p :: p in db.userRoles && p.0 == u && LiveRole(db, p.1) && db.roles[p.1].code == "admin"
  }

  /** No user is an administrator by the old code alone. */
  ghost predicate NoLegacyOnlyAdmin(db: Db) {
    forall u :: LiveUser(db, u) && HasAdminRole(db, u) ==> HoldsAdminCode(db, u)
  }

  ghost predicate Safe(db: Db) {
    UniqueCodes(db) && NoLegacyOnlyAdmin(db) && exists u :: IsActiveAdmin(db, u)
  }

  /** Only one user's row and roles differ. */
  ghost predicate OnlyUserChanged(before: Db, after: Db, id: nat) {
    && after.roles == before.roles
    && (forall u :: u != id ==> (u in after.users <==> u in before.users) && (u in after.users ==> after.users[u] == before.users[u]))
    && forall p: (nat, nat) :: p.0 != id ==> (p in after.userRoles <==> p in before.userRoles)
  }

  lemma OthersKeepTheirRoles(before: Db, after: Db, id: nat, u: nat)
    requires OnlyUserChanged(before, after, id) && u != id
    ensures IsActiveAdmin(after, u) <==> IsActiveAdmin(before, u)
    ensures HasAdminRole(after, u) <==> HasAdminRole(before, u)
    ensures HoldsAdminCode(after, u) <==> HoldsAdminCode(before, u)
  {}

  /** A user change that leaves the user an active administrator, or was no administrator's, or leaves another one. */
  lemma UserChangeIsSafe(before: Db, after: Db, id: nat)
    requires Safe(before) && OnlyUserChanged(before, after, id)
    requires LiveUser(after, id) && HasAdminRole(after, id) ==> HoldsAdminCode(after, id)
    requires !IsActiveAdmin(before, id) || IsActiveAdmin(after, id) || |ActiveAdmins(before)| > 1
    ensures Safe(after)
  {
    hide IsActiveAdmin, HasAdminRole, HoldsAdminCode;
    forall u | LiveUser(after, u) && HasAdminRole(after, u) ensures HoldsAdminCode(after, u) {
      if u != id {
        OthersKeepTheirRoles(before, after, id, u);
      }
    }
    if !IsActiveAdmin(after, id) {
      var other := AnotherAdmin(before, id);
      OthersKeepTheirRoles(before, after, id, other);
      assert IsActiveAdmin(after, other);
    }
  }

  lemma AnotherAdmin(db: Db, id: nat) returns (other: nat)
    requires exists u :: IsActiveAdmin(db, u)
    requires !IsActiveAdmin(db, id) || |ActiveAdmins(db)| > 1
    ensures other != id && IsActiveAdmin(db, other)
  {
    other :| IsActiveAdmin(db, other);
    if other == id {
      assert id in ActiveAdmins(db);
      assert |ActiveAdmins(db) - {id}| == |ActiveAdmins(db)| - 1;
      other :| other in ActiveAdmins(db) - {id};
    }
  }

  /** The roles a user is given make an administrator only under the present code. */
  lemma AssignedRoleIsPresent(db: Db, id: nat, r: nat, codes: seq<string>)
    requires Resolves(db, codes, r)
    ensures var after := Assign(db, id, r);
            && (HasAdminRole(after, id) <==> "admin" in NormalizedCodes(codes))
            && (HoldsAdminCode(after, id) <==> "admin" in NormalizedCodes(codes))
  {}

  lemma SameRolesSameStanding(before: Db, after: Db, id: nat)
    requires after.roles == before.roles && after.userRoles == before.userRoles
    ensures HasAdminRole(after, id) <==> HasAdminRole(before, id)
    ensures HoldsAdminCode(after, id) <==> HoldsAdminCode(before, id)
  {}

  predicate IsUserOperation(op: Operation) { op.CreateUser? || op.UpdateUser? || op.UpdateStatus? || op.DeleteUser? }

  lemma UserOperationChangesOneUser(db: Db, op: Operation)
    requires IsUserOperation(op) && Next(db, op).Done?
    ensures OnlyUserChanged(db, Next(db, op).db, op.id)
  {}

  /** After the operation the user is an administrator only by the present code. */
  lemma UserOperationAssignsPresentCodes(db: Db, op: Operation)
    requires NoLegacyOnlyAdmin(db) && IsUserOperation(op) && Next(db, op).Done?
    ensures var after := Next(db, op).db;
            && (LiveUser(after, op.id) && HasAdminRole(after, op.id) ==> HoldsAdminCode(after, op.id))
            && (CodesOf(op).Some? ==> (HasAdminRole(after, op.id) <==> "admin" in NormalizedCodes(CodesOf(op).value)))
            && (CodesOf(op).None? && !op.DeleteUser? ==> (HasAdminRole(after, op.id) <==> HasAdminRole(db, op.id)))
  {
    hide HasAdminRole, HoldsAdminCode, MayChange, UsernameTaken, NormalizedCodes;
    var after := Next(db, op).db;
    if CodesOf(op).Some? {
      var r := ResolveRole(db, CodesOf(op).value).value;
      var named := SetUser(db, op.id, after.users[op.id]);
      assert Resolves(named, CodesOf(op).value, r);
      AssignedRoleIsPresent(named, op.id, r, CodesOf(op).value);
    } else if !op.DeleteUser? {
      SameRolesSameStanding(db, after, op.id);
    }
  }

  lemma UserOperationLeavesAnAdmin(db: Db, op: Operation)
    requires NoLegacyOnlyAdmin(db) && IsUserOperation(op) && Next(db, op).Done?
    ensures !IsActiveAdmin(db, op.id) || IsActiveAdmin(Next(db, op).db, op.id) || |ActiveAdmins(db)| > 1
  {}

  // ---------------------------------------------------------------- when the guard refuses

  /** The user would not stay an active administrator by this change. */
  predicate GivesUp(nextActive: bool, nextDeleted: bool, newCodes: Option<seq<string>>) {
    !nextActive || nextDeleted || (newCodes.Some? && "admin" !in NormalizedCodes(newCodes.value))
  }

  lemma RequestedChangesOneUser(db: Db, op: Operation)
    requires ChangesUser(op) && Requested(db, op).Done?
    ensures var after := Requested(db, op).db;
            && OnlyUserChanged(db, after, op.id) && LiveUser(db, op.id)
            && (HasAdminRole(db, op.id) ==>
                  (IsActiveAdmin(after, op.id) <==> !GivesUp(NextActive(db, op), op.DeleteUser?, CodesOf(op))))
  {
    hide HasAdminRole, UsernameTaken, NormalizedCodes;
    var after := Requested(db, op).db;
    if CodesOf(op).Some? {
      var r := ResolveRole(db, CodesOf(op).value).value;
      var named := SetUser(db, op.id, after.users[op.id]);
      assert Resolves(named, CodesOf(op).value, r);
      AssignedRoleIsPresent(named, op.id, r, CodesOf(op).value);
    } else if !op.DeleteUser? {
      SameRolesSameStanding(db, after, op.id);
    }
  }

  /** Whether only this user is an active administrator, by the count the code makes. */
  lemma AtMostOneIsTheLast(db: Db, u: nat)
    requires IsActiveAdmin(db, u)
    ensures |ActiveAdmins(db)| <= 1 <==> ActiveAdmins(db) == {u}
  {
    if |ActiveAdmins(db)| <= 1 {
      assert |ActiveAdmins(db) - {u}| == |ActiveAdmins(db)| - 1;
      assert ActiveAdmins(db) - {u} == {};
    }
  }

  /**
   What the guard's refusals mean. A change of an active administrator is refused exactly when nobody would
   remain. A change of anyone else takes no active administrator away; it is refused all the same, needlessly,
   exactly when the user is a disabled administrator who does not become active and at most one is active.
   */
  lemma GuardRefusesIff(db: Db, op: Operation)
    requires ChangesUser(op) && Requested(db, op).Done?
    ensures var after := Requested(db, op).db;
            && (IsActiveAdmin(db, op.id) ==> (Next(db, op).Refused? <==> ActiveAdmins(after) == {}))
            && (!IsActiveAdmin(db, op.id) ==> ActiveAdmins(db) <= ActiveAdmins(after))
            && (Next(db, op).Refused? && ActiveAdmins(db) <= ActiveAdmins(after) <==>
                  && HasAdminRole(db, op.id) && !db.users[op.id].active
                  && GivesUp(NextActive(db, op), op.DeleteUser?, CodesOf(op)) && |ActiveAdmins(db)| <= 1)
  {
    hide HasAdminRole, Requested, OnlyUserChanged, IsActiveAdmin;
    var after := Requested(db, op).db;
    RequestedChangesOneUser(db, op);
    OthersStayAdmins(db, after, op.id);
    ApartFromOne(ActiveAdmins(db), ActiveAdmins(after), op.id);
    ActiveMeans(db, op.id);
    if IsActiveAdmin(db, op.id) {
      AtMostOneIsTheLast(db, op.id);
    }
    MayChangeMeans(db, op.id, NextActive(db, op), op.DeleteUser?, CodesOf(op));
  }

  lemma ApartFromOne(before: set<nat>, after: set<nat>, id: nat)
    requires after - {id} == before - {id}
    ensures before <= after <==> (id in before ==> id in after)
    ensures id in before ==> (after == {} <==> id !in after && before == {id})
  {
    assert forall u :: u != id ==> (u in after - {id} <==> u in after) && (u in before - {id} <==> u in before);
  }

  lemma ActiveMeans(db: Db, u: nat)
    ensures IsActiveAdmin(db, u) <==> LiveUser(db, u) && db.users[u].active && HasAdminRole(db, u)
  {}

  lemma OthersStayAdmins(before: Db, after: Db, id: nat)
    requires OnlyUserChanged(before, after, id)
    ensures ActiveAdmins(after) - {id} == ActiveAdmins(before) - {id}
    ensures id in ActiveAdmins(after) <==> IsActiveAdmin(after, id)
    ensures id in ActiveAdmins(before) <==> IsActiveAdmin(before, id)
  {
    hide HasAdminRole;
    forall u | u != id ensures IsActiveAdmin(after, u) <==> IsActiveAdmin(before, u) {
      OthersKeepTheirRoles(before, after, id, u);
    }
  }

  lemma MayChangeMeans(db: Db, u: nat, nextActive: bool, nextDeleted: bool, newCodes: Option<seq<string>>)
    ensures !MayChange(db, u, nextActive, nextDeleted, newCodes) <==>
            HasAdminRole(db, u) && GivesUp(nextActive, nextDeleted, newCodes) && |ActiveAdmins(db)| <= 1
  {}

  /** It does happen: beside one active administrator a disabled one can be neither deleted nor renamed. */
  lemma NeedlessRefusalHappens()
    ensures var db := Db(map[1 := User("a", true, false), 2 := User("b", false, false)], map[7 := Role("admin", false)], {(1, 7), (2, 7)});
            && Safe(db)
            && Next(db, DeleteUser(2, 1)) == Refused(ValidationError)
            && Next(db, UpdateUser(2, Some("c"), None, None)) == Refused(ValidationError)
            && Requested(db, DeleteUser(2, 1)).Done? && ActiveAdmins(Requested(db, DeleteUser(2, 1)).db) == {1}
  {
    var db := Db(map[1 := User("a", true, false), 2 := User("b", false, false)], map[7 := Role("admin", false)], {(1, 7), (2, 7)});
    hide Next, Requested, HasAdminRole, IsActiveAdmin, ActiveAdmins, Safe;
    OneActiveTwoHolders(db);
    DisabledHolderIsRefused(db, DeleteUser(2, 1));
    DisabledHolderIsRefused(db, UpdateUser(2, Some("c"), None, None));
    var op := DeleteUser(2, 1);
    RequestedChangesOneUser(db, op);
    OthersStayAdmins(db, Requested(db, op).db, 2);
  }

  lemma DisabledHolderIsRefused(db: Db, op: Operation)
    requires HasAdminRole(db, 2) && ActiveAdmins(db) == {1} && db.users == map[1 := User("a", true, false), 2 := User("b", false, false)]
    requires op == DeleteUser(2, 1) || op == UpdateUser(2, Some("c"), None, None)
    ensures Requested(db, op).Done? && Next(db, op) == Refused(ValidationError)
  {
    hide HasAdminRole, ActiveAdmins, NormalizedCodes;
  }

  lemma OneActiveTwoHolders(db: Db)
    requires db == Db(map[1 := User("a", true, false), 2 := User("b", false, false)], map[7 := Role("admin", false)], {(1, 7), (2, 7)})
    ensures HasAdminRole(db, 1) && HasAdminRole(db, 2) && ActiveAdmins(db) == {1} && Safe(db)
  {
    assert (1, 7) in db.userRoles && (2, 7) in db.userRoles && IsAdminRole(db, 7);
    assert IsActiveAdmin(db, 1) && !IsActiveAdmin(db, 2);
    assert HoldsAdminCode(db, 1) && HoldsAdminCode(db, 2);
  }

  // ---------------------------------------------------------------- what an operation does

  /** The user holds a live role with the administrator's present or old code. */
  ghost predicate IsAdministrator(db: Db, u: nat) {
    exists r :: (u, r) in db.userRoles && r in db.roles && !db.roles[r].deleted && (db.roles[r].code == "admin" || db.roles[r].code == "super_admin")
  }

  ghost predicate IsAtWork(db: Db, u: nat) {
    u in db.users && db.users[u].active && !db.users[u].deleted && IsAdministrator(db, u)
  }

  lemma ActiveAdminMeans(db: Db, u: nat)
    ensures HasAdminRole(db, u) <==> IsAdministrator(db, u)
    ensures IsActiveAdmin(db, u) <==> IsAtWork(db, u)
  {
    if r :| (u, r) in db.userRoles && r in db.roles && !db.roles[r].deleted && (db.roles[r].code == "admin" || db.roles[r].code == "super_admin") {
      assert IsAdminRole(db, (u, r).1);
    }
    if p :| p in db.userRoles && p.0 == u && IsAdminRole(db, p.1) {
      assert (u, p.1) in db.userRoles;
    }
  }

  /** The live built-in role that all the codes given, and at least one of them, stand for. */
  ghost predicate Grants(db: Db, codes: seq<string>, r: nat) {
    && r in db.roles && !db.roles[r].deleted && (db.roles[r].code == "admin" || db.roles[r].code == "user")
    && (exists c :: c in codes && NormalizeRoleCode(c) == db.roles[r].code)
    && forall c :: c in codes && c != "" ==> NormalizeRoleCode(c) == db.roles[r].code
  }

  lemma GrantsMeans(db: Db, codes: seq<string>, r: nat)
    ensures Resolves(db, codes, r) <==> Grants(db, codes, r)
  {
    if Resolves(db, codes, r) {
      assert db.roles[r].code in NormalizedCodes(codes);
      forall c | c in codes && c != "" ensures NormalizeRoleCode(c) == db.roles[r].code {
        assert NormalizeRoleCode(c) in NormalizedCodes(codes);
      }
    }
  }

  /** The guard's refusal: an administrator gives up status or role, or is deleted, with at most one at work. */
  ghost predicate IsHeldBack(db: Db, u: nat, staysActive: bool, deleted: bool, newCodes: Option<seq<string>>) {
    && IsAdministrator(db, u)
    && (!staysActive || deleted || (newCodes.Some? && forall c :: c in newCodes.value ==> c != "admin" && c != "super_admin"))
    && forall v, w :: IsAtWork(db, v) && IsAtWork(db, w) ==> v == w
  }

  lemma HeldBackMeans(db: Db, u: nat, staysActive: bool, deleted: bool, newCodes: Option<seq<string>>)
    ensures !MayChange(db, u, staysActive, deleted, newCodes) <==> IsHeldBack(db, u, staysActive, deleted, newCodes)
  {
    AtMostOneActive(db);
    forall v ensures HasAdminRole(db, v) <==> IsAdministrator(db, v)
             ensures IsActiveAdmin(db, v) <==> IsAtWork(db, v)
    {
      ActiveAdminMeans(db, v);
    }
    if newCodes.Some? {
      assert "admin" in NormalizedCodes(newCodes.value) <==> exists c :: c in newCodes.value && NormalizeRoleCode(c) == "admin";
    }
  }

  ghost predicate NameTaken(db: Db, name: string) { exists u :: u in db.users && db.users[u].username == name }
  ghost predicate CodeInUse(db: Db, code: string) { exists r :: r in db.roles && db.roles[r].code == code }

  ghost predicate OnlyRole(before: Db, after: Db, u: nat, r: nat) {
    after.userRoles == (set p | p in before.userRoles && p.0 != u) + {(u, r)}
  }

  /** What the operation leaves behind, or the first reason against it. */
  ghost predicate IsOutcome(before: Db, op: Operation, after: Db, error: Option<Error>) {
    && (error.Some? ==> after == before)
    && match op
       case CreateUser(id, name, active, codes) =>
         if id in before.users || NameTaken(before, name) then error == Some(Conflict)
         else if forall r :: !Grants(before, codes, r) then error == Some(ValidationError)
         else
           && error == None && after.users == before.users[id := User(name, active, false)] && after.roles == before.roles
           && exists r :: Grants(before, codes, r) && OnlyRole(before, after, id, r)
       case UpdateUser(id, newName, newStatus, newCodes) => IsUpdate(before, id, newName, newStatus, newCodes, after, error)
       case UpdateStatus(id, active) =>
         if id !in before.users || before.users[id].deleted then error == Some(NotFound)
         else if IsHeldBack(before, id, active, false, None) then error == Some(ValidationError)
         else error == None && after == before.(users := before.users[id := User(before.users[id].username, active, false)])
       case DeleteUser(id, operator) =>
         if id == operator then error == Some(Forbidden)
         else if id !in before.users || before.users[id].deleted then error == Some(NotFound)
         else if IsHeldBack(before, id, false, true, None) then error == Some(ValidationError)
         else
           && error == None && after.users == before.users[id := User(before.users[id].username, false, true)]
           && after.roles == before.roles && after.userRoles == set p | p in before.userRoles && p.0 != id
       case CreateRole(id, code) =>
         if code == "" then error == Some(ValidationError)
         else if id in before.roles || CodeInUse(before, NormalizeRoleCode(code)) then error == Some(Conflict)
         else error == None && after == before.(roles := before.roles[id := Role(NormalizeRoleCode(code), false)])
       case UpdateRole(id, newCode) =>
         if id !in before.roles || before.roles[id].deleted then error == Some(NotFound)
         else if newCode == None then error == (if before.roles[id].code == "" then Some(ValidationError) else None) && after == before
         else if newCode.value == "" then error == Some(ValidationError)
         else if before.roles[id].code == "admin" then error == Some(Forbidden)
         else if exists r :: r in before.roles && r != id && before.roles[r].code == NormalizeRoleCode(newCode.value)
                             && NormalizeRoleCode(newCode.value) != before.roles[id].code then error == Some(Conflict)
         else error == None && after == before.(roles := before.roles[id := Role(NormalizeRoleCode(newCode.value), false)])
       case DeleteRole(id) =>
         if id !in before.roles || before.roles[id].deleted then error == Some(NotFound)
         else if before.roles[id].code == "admin" then error == Some(Forbidden)
         else if exists u :: (u, id) in before.userRoles && u in before.users && !before.users[u].deleted then error == Some(Conflict)
         else
           && error == None && after.users == before.users && after.roles == before.roles[id := Role(before.roles[id].code, true)]
           && after.userRoles == set p | p in before.userRoles && p.1 != id
  }

  ghost predicate IsUpdate(before: Db, id: nat, newName: Option<string>, newStatus: Option<bool>, newCodes: Option<seq<string>>,
                           after: Db, error: Option<Error>) {
    if id !in before.users || before.users[id].deleted then error == Some(NotFound)
    else
      var user := before.users[id];
      var name, active := if newName == None then user.username else newName.value, if newStatus == None then user.active else newStatus.value;
      if name != user.username && (exists u :: u in before.users && u != id && before.users[u].username == name) then error == Some(Conflict)
      else if newCodes != None && forall r :: !Grants(before, newCodes.value, r) then error == Some(ValidationError)
      else if IsHeldBack(before, id, active, false, newCodes) then error == Some(ValidationError)
      else
        && error == None && after.users == before.users[id := User(name, active, false)] && after.roles == before.roles
        && if newCodes == None then after.userRoles == before.userRoles
           else exists r :: Grants(before, newCodes.value, r) && OnlyRole(before, after, id, r)
  }

  lemma NoneGrants(db: Db, codes: seq<string>)
    ensures ResolveRole(db, codes).None? <==> forall r :: !Grants(db, codes, r)
    ensures ResolveRole(db, codes).Some? ==> Grants(db, codes, ResolveRole(db, codes).value)
  {
    forall r ensures Resolves(db, codes, r) <==> Grants(db, codes, r) {
      GrantsMeans(db, codes, r);
    }
  }

  ghost predicate MeansOutcome(db: Db, op: Operation) {
    match Next(db, op)
    case Done(after) => IsOutcome(db, op, after, None)
    case Refused(e) => IsOutcome(db, op, db, Some(e))
  }

  /** Every operation, told by what it leaves in the tables and when it is refused with which error. */
  lemma OperationMeans(db: Db, op: Operation)
    ensures MeansOutcome(db, op)
  {
    match op
    case CreateUser(_, _, _, _) => CreationMeans(db, op);
    case UpdateUser(_, _, _, _) => UpdateMeans(db, op);
    case UpdateStatus(id, active) => StatusMeans(db, op);
    case DeleteUser(id, operator) => DeletionMeans(db, op);
    case _ => RoleOperationMeans(db, op);
  }

  lemma CreationMeans(db: Db, op: Operation)
    requires op.CreateUser?
    ensures MeansOutcome(db, op)
  {
    hide Grants, Resolves, NormalizeRoleCode, IsHeldBack, MayChange;
    NoneGrants(db, op.codes);
    assert UsernameTaken(db, op.name, None) <==> NameTaken(db, op.name);
  }

  lemma UpdateMeans(db: Db, op: Operation)
    requires op.UpdateUser?
    ensures MeansOutcome(db, op)
  {
    hide Grants, Resolves, NormalizeRoleCode, IsHeldBack, MayChange;
    if op.newCodes.Some? {
      NoneGrants(db, op.newCodes.value);
    }
    if op.id in db.users {
      HeldBackMeans(db, op.id, NextActive(db, op), false, op.newCodes);
      var name := op.newName.GetOr(db.users[op.id].username);
      assert UsernameTaken(db, name, Some(op.id)) <==> exists u :: u in db.users && u != op.id && db.users[u].username == name;
    }
  }

  lemma StatusMeans(db: Db, op: Operation)
    requires op.UpdateStatus?
    ensures MeansOutcome(db, op)
  {
    hide Grants, Resolves, IsHeldBack, MayChange;
    HeldBackMeans(db, op.id, op.active, false, None);
  }

  lemma DeletionMeans(db: Db, op: Operation)
    requires op.DeleteUser?
    ensures MeansOutcome(db, op)
  {
    hide Grants, Resolves, IsHeldBack, MayChange;
    HeldBackMeans(db, op.id, false, true, None);
  }

  lemma RoleOperationMeans(db: Db, op: Operation)
    requires op.CreateRole? || op.UpdateRole? || op.DeleteRole?
    ensures MeansOutcome(db, op)
  {
    hide Grants, Resolves, IsHeldBack, MayChange;
    if op.DeleteRole? && AssignedToLiveUser(db, op.id) {
      var p :| p in db.userRoles && p.1 == op.id && LiveUser(db, p.0);
      assert (p.0, op.id) in db.userRoles;
    }
  }

  // ---------------------------------------------------------------- role operations

  /** No role becomes an administrator's, and none with the present administrator code is touched. */
  ghost predicate AdminRolesKept(before: Db, after: Db) {
    && after.users == before.users
    && (forall r :: IsAdminRole(after, r) ==> IsAdminRole(before, r))
    && (forall p :: p in after.userRoles ==> p in before.userRoles)
    && forall p :: p in before.userRoles && LiveRole(before, p.1) && before.roles[p.1].code == "admin"
                   ==> p in after.userRoles && LiveRole(after, p.1) && after.roles[p.1].code == "admin"
  }

  lemma KeepingAdminRolesIsSafe(before: Db, after: Db)
    requires NoLegacyOnlyAdmin(before) && AdminRolesKept(before, after) && exists u :: IsActiveAdmin(before, u)
    ensures NoLegacyOnlyAdmin(after) && exists u :: IsActiveAdmin(after, u)
  {
    hide NormalizeRoleCode;
    forall u | HoldsAdminCode(before, u) ensures HoldsAdminCode(after, u) && HasAdminRole(after, u) {
      HolderIsAdmin(before, after, u);
    }
    forall u | HasAdminRole(after, u) ensures HasAdminRole(before, u) {
      var p :| p in after.userRoles && p.0 == u && IsAdminRole(after, p.1);
      assert p in before.userRoles && IsAdminRole(before, p.1);
    }
    var u :| IsActiveAdmin(before, u);
    assert IsActiveAdmin(after, u);
  }

  lemma HolderIsAdmin(before: Db, after: Db, u: nat)
    requires AdminRolesKept(before, after) && HoldsAdminCode(before, u)
    ensures HoldsAdminCode(after, u) && HasAdminRole(after, u)
  {}

  lemma RoleOperationKeepsAdminRoles(db: Db, op: Operation)
    requires Safe(db) && !IsUserOperation(op) && Next(db, op).Done?
    ensures AdminRolesKept(db, Next(db, op).db)
  {
    hide HasAdminRole, UsernameTaken, AssignedToLiveUser, ResolveRole, MayChange;
    var admin := LiveAdminRole(db);
    assert op.CreateRole? ==> !CodeTaken(db, NormalizeRoleCode(op.code), None);
  }

  lemma LiveAdminRole(db: Db) returns (r: nat)
    requires Safe(db)
    ensures LiveRole(db, r) && db.roles[r].code == "admin"
  {
    var u :| IsActiveAdmin(db, u);
    assert HoldsAdminCode(db, u);
    var p :| p in db.userRoles && p.0 == u && LiveRole(db, p.1) && db.roles[p.1].code == "admin";
    r := p.1;
  }

  lemma StepKeepsUniqueCodes(db: Db, op: Operation)
    requires UniqueCodes(db)
    ensures UniqueCodes(After(db, op))
  {}

  lemma StepKeepsSafe(db: Db, op: Operation)
    requires Safe(db)
    ensures Safe(After(db, op))
  {
    hide Next, IsActiveAdmin, HasAdminRole, HoldsAdminCode, UniqueCodes, NoLegacyOnlyAdmin;
    if Next(db, op).Done? {
      StepKeepsUniqueCodes(db, op);
      if IsUserOperation(op) {
        UserOperationChangesOneUser(db, op);
        UserOperationAssignsPresentCodes(db, op);
        UserOperationLeavesAnAdmin(db, op);
        UserChangeIsSafe(db, Next(db, op).db, op.id);
      } else {
        RoleOperationKeepsAdminRoles(db, op);
        KeepingAdminRolesIsSafe(db, Next(db, op).db);
      }
    }
  }

  lemma {:induction false} RunKeepsSafe(db: Db, ops: seq<Operation>)
    requires Safe(db)
    ensures Safe(Run(db, ops))
    decreases |ops|
  {
    if ops != [] {
      StepKeepsSafe(db, ops[0]);
      RunKeepsSafe(After(db, ops[0]), ops[1..]);
    }
  }

  // ---------------------------------------------------------------- the exact condition

  /** After these operations nobody is an active administrator. */
  ghost predicate LocksEveryoneOut(db: Db, ops: seq<Operation>) {
    forall u :: !IsActiveAdmin(Run(db, ops), u)
  }

  /** The user is an administrator, but only by the old code. */
  ghost predicate LegacyOnlyAdmin(db: Db, u: nat) {
    LiveUser(db, u) && HasAdminRole(db, u) && !HoldsAdminCode(db, u)
  }

  /**
   An active administrator survives every run exactly when no user is an administrator by the old code
   alone: otherwise that user can be made the last one, and the old role given another code.
   */
  lemma AnAdminAlwaysRemainsIff(db: Db)
    requires UniqueCodes(db) && exists u :: IsActiveAdmin(db, u)
    ensures NoLegacyOnlyAdmin(db) <==> forall ops :: !LocksEveryoneOut(db, ops)
  {
    if NoLegacyOnlyAdmin(db) {
      forall ops ensures !LocksEveryoneOut(db, ops) {
        RunKeepsSafe(db, ops);
      }
    } else {
      var b :| LiveUser(db, b) && HasAdminRole(db, b) && !HoldsAdminCode(db, b);
      var enabled := After(db, UpdateStatus(b, true));
      EnablingWorks(db, b);
      var ops := DisableTheOthers(enabled, b);
      var all := [UpdateStatus(b, true)] + ops;
      assert all[1..] == ops;
      assert LocksEveryoneOut(db, all) by { assert Run(db, all) == Run(enabled, ops); }
    }
  }

  lemma EnablingWorks(db: Db, b: nat)
    requires UniqueCodes(db) && LegacyOnlyAdmin(db, b)
    ensures var enabled := After(db, UpdateStatus(b, true));
            UniqueCodes(enabled) && LegacyOnlyAdmin(enabled, b) && IsActiveAdmin(enabled, b)
  {}

  /** Disables the other administrators one by one, then renames the old role. */
  lemma {:induction false} DisableTheOthers(db: Db, b: nat) returns (ops: seq<Operation>)
    requires UniqueCodes(db) && LegacyOnlyAdmin(db, b) && IsActiveAdmin(db, b)
    ensures LocksEveryoneOut(db, ops)
    decreases |ActiveAdmins(db)|
  {
    if other :| other != b && IsActiveAdmin(db, other) {
      var next := After(db, UpdateStatus(other, false));
      DisablingWorks(db, b, other);
      var rest := DisableTheOthers(next, b);
      ops := [UpdateStatus(other, false)] + rest;
      assert ops[1..] == rest;
    } else {
      ops := RenameTheOldRole(db, b);
    }
  }

  lemma DisablingWorks(db: Db, b: nat, other: nat)
    requires UniqueCodes(db) && LegacyOnlyAdmin(db, b) && IsActiveAdmin(db, b) && other != b && IsActiveAdmin(db, other)
    ensures var next := After(db, UpdateStatus(other, false));
            && UniqueCodes(next) && LegacyOnlyAdmin(next, b) && IsActiveAdmin(next, b)
            && |ActiveAdmins(next)| < |ActiveAdmins(db)|
  {
    hide HasAdminRole, HoldsAdminCode;
    var next := After(db, UpdateStatus(other, false));
    assert {b, other} <= ActiveAdmins(db);
    TwoAreMoreThanOne(ActiveAdmins(db), b, other);
    SameRolesSameStanding(db, next, b);
    forall u | u in ActiveAdmins(next) ensures u in ActiveAdmins(db) - {other} {
      SameRolesSameStanding(db, next, u);
    }
    SubsetIsSmaller(ActiveAdmins(next), ActiveAdmins(db) - {other});
  }

  lemma TwoAreMoreThanOne(s: set<nat>, a: nat, b: nat)
    requires a in s && b in s && a != b
    ensures |s| > 1
  {
    assert |s| == |s - {a}| + 1 && b in s - {a};
  }

  lemma {:induction false} SubsetIsSmaller(a: set<nat>, b: set<nat>)
    requires a <= b
    ensures |a| <= |b|
  {
    assert b == a + (b - a);
  }

  lemma RenameTheOldRole(db: Db, b: nat) returns (ops: seq<Operation>)
    requires UniqueCodes(db) && LegacyOnlyAdmin(db, b) && forall u :: IsActiveAdmin(db, u) ==> u == b
    ensures LocksEveryoneOut(db, ops)
  {
    var p :| p in db.userRoles && p.0 == b && IsAdminRole(db, p.1);
    var r := p.1;
    assert db.roles[r].code == "super_admin";
    var code := UnusedCode(db);
    var after := After(db, UpdateRole(r, Some(code)));
    ops := [UpdateRole(r, Some(code))];
    assert Run(db, ops) == after by { assert ops[1..] == []; }
    forall u ensures !IsActiveAdmin(after, u) {
      RenamedAway(db, after, b, r, code, u);
    }
  }

  lemma RenamedAway(db: Db, after: Db, b: nat, r: nat, code: string, u: nat)
    requires UniqueCodes(db) && LegacyOnlyAdmin(db, b) && (forall v :: IsActiveAdmin(db, v) ==> v == b)
    requires LiveRole(db, r) && db.roles[r].code == "super_admin" && NormalizeRoleCode(code) != "admin"
    requires after == db.(roles := db.roles[r := Role(code, false)])
    ensures !IsActiveAdmin(after, u)
  {
    if IsActiveAdmin(after, u) {
      var q :| q in after.userRoles && q.0 == u && IsAdminRole(after, q.1);
      assert q.1 != r && IsAdminRole(db, q.1);
      assert IsActiveAdmin(db, u);
      assert false;
    }
  }

  lemma UnusedCode(db: Db) returns (code: string)
    ensures code != "" && NormalizeRoleCode(code) == code && code != "admin" && forall r :: r in db.roles ==> db.roles[r].code != code
  {
    var n := LongerThanAll(db.roles, db.roles.Keys);
    code := seq(n + 1, i => 'x');
    assert code[0] == 'x';
  }

  lemma LongerThanAll(roles: map<nat, Role>, ids: set<nat>) returns (n: nat)
    requires ids <= roles.Keys
    ensures forall r :: r in ids ==> |roles[r].code| <= n
  {
    if ids == {} {
      n := 0;
    } else {
      var r :| r in ids;
      var rest := LongerThanAll(roles, ids - {r});
      n := if |roles[r].code| < rest then rest else |roles[r].code|;
      assert forall q :: q in ids ==> q == r || q in ids - {r};
    }
  }

  // ---------------------------------------------------------------- seeding

  /** The roles as seeding leaves them: both built-in codes live, no old code live. */
  ghost predicate RolesSeeded(db: Db) {
    && (exists r :: LiveRole(db, r) && db.roles[r].code == "admin")
    && (exists r :: LiveRole(db, r) && db.roles[r].code == "user")
    && forall r :: LiveRole(db, r) ==> NormalizeRoleCode(db.roles[r].code) == db.roles[r].code
  }

  /** The role with this code made live, or created. */
  ghost predicate Upserted(before: Db, after: Db, code: string, r: nat) {
    && after.users == before.users && after.userRoles == before.userRoles
    && LiveRole(after, r) && after.roles[r].code == code
    && (forall q :: q != r ==> (q in after.roles <==> q in before.roles) && (q in after.roles ==> after.roles[q] == before.roles[q]))
    && (r in before.roles ==> before.roles[r].code == code)
  }

  /** What seeding makes of a user: an administrator stays one, and so does one fixed user name. */
  function Target(db: Db, u: nat): string
    requires u in db.users
  {
    if db.users[u].username == "surper1" || HasAdminRole(db, u) then "admin" else "user"
  }

  function LiveRolesOf(db: Db, u: nat): set<(nat, nat)> {
    set p | p in db.userRoles && p.0 == u && LiveRole(db, p.1)
  }

  /** The user's live roles are just the one with this code. */
  predicate Settled(db: Db, u: nat, code: string) {
    exists p :: p in db.userRoles && LiveRolesOf(db, u) == {p} && db.roles[p.1].code == code
  }

  lemma AssigningSettles(db: Db, u: nat, r: nat)
    requires LiveRole(db, r)
    ensures Settled(Assign(db, u, r), u, db.roles[r].code)
  {}

  lemma OthersStaySettled(before: Db, after: Db, id: nat, u: nat, code: string)
    requires OnlyUserChanged(before, after, id) && u != id && Settled(before, u, code)
    ensures Settled(after, u, code)
  {}

  function Retired(roles: map<nat, Role>): map<nat, Role> {
    map r | r in roles :: if roles[r].code in {"super_admin", "analyst", "operator"} then roles[r].(deleted := true) else roles[r]
  }

  /** Retiring the old codes leaves a settled user as it was. */
  lemma RetiringKeepsSettled(db: Db, u: nat, code: string)
    requires Settled(db, u, code) && (code == "admin" || code == "user")
    ensures var after := db.(roles := Retired(db.roles));
            (HasAdminRole(after, u) <==> code == "admin") && Settled(after, u, code)
  {
    var after := db.(roles := Retired(db.roles));
    var p :| p in db.userRoles && LiveRolesOf(db, u) == {p} && db.roles[p.1].code == code;
    assert p in LiveRolesOf(db, u);
    assert IsAdminRole(after, p.1) <==> code == "admin";
    assert forall q :: q in db.userRoles && q.0 == u && LiveRole(after, q.1) ==> q in LiveRolesOf(db, u);
    assert LiveRolesOf(after, u) == {p};
  }

  // ---------------------------------------------------------------- the services

  /** AdminUsersService, AdminRolesService and the seeding of AuthService over their common tables. */
  class AdminServices {
    var users: map<nat, User>
    var roles: map<nat, Role>
    var userRoles: set<(nat, nat)>

    function View(): Db
      reads this
    {
      Db(users, roles, userRoles)
    }

    /** The unique index of the role table: all that an operation needs. */
    ghost predicate Valid()
      reads this
    {
      UniqueCodes(View())
    }

    /** The state in which an administrator can no longer be lost. */
    ghost predicate Secure()
      reads this
    {
      Safe(View())
    }

    /** The operation was carried out as specified, or refused with its error and nothing changed. */
    ghost predicate Performed(before: Db, op: Operation, error: Option<Error>)
      reads this
    {
      match Next(before, op)
      case Done(db) => View() == db && error == None
      case Refused(e) => View() == before && error == Some(e)
    }

    /** Inserts the built-in role, or makes it live again. */
    method UpsertRole(code: string, newId: nat) returns (r: nat)
      requires UniqueCodes(View()) && newId !in roles
      modifies this`roles
      ensures UniqueCodes(View()) && Upserted(old(View()), View(), code, r) && (r in old(roles) || r == newId)
    {
      if found :| found in roles && roles[found].code == code {
        r := found;
      } else {
        r := newId;
      }
      roles := roles[r := Role(code, false)];
    }

    /** Gives every live user exactly one of the two built-in roles. */
    method SettleUsers(adminRole: nat, userRole: nat)
      requires BuiltinRoles(View(), adminRole, userRole)
      modifies this`userRoles
      ensures forall u :: LiveUser(View(), u) ==> Settled(View(), u, Target(old(View()), u))
    {
      hide Settled, Target;
      ghost var before := View();
      var todo: set<nat> := set u: nat | u in users && !users[u].deleted;
      while todo != {}
        invariant forall u :: u in todo ==> LiveUser(before, u)
        invariant forall u :: u in todo ==> forall r :: (u, r) in userRoles <==> (u, r) in before.userRoles
        invariant forall u :: LiveUser(before, u) && u !in todo ==> Settled(View(), u, Target(before, u))
        decreases |todo|
      {
        ghost var current := View();
        var u :| u in todo;
        UntouchedUserKeepsTarget(before, current, u);
        var target := Target(View(), u);
        if !Settled(View(), u, target) {
          SetRole(u, if target == "admin" then adminRole else userRole);
          TargetIsBuiltin(current, u);
          AssigningSettles(current, u, if target == "admin" then adminRole else userRole);
        }
        forall v | LiveUser(before, v) && v !in todo ensures Settled(View(), v, Target(before, v)) {
          OthersStaySettled(current, View(), u, v, Target(before, v));
        }
        todo := todo - {u};
      }
    }

    /**
     seedBuiltinRolesAndUsers: the built-in roles, an initial administrator for an empty installation, one
     built-in role for every live user, and no live old code. From then on an active administrator
     always remains exactly when there was one to keep.
     */
    method Seed(adminId: nat, userId: nat, initId: nat, initName: string) returns (ok: bool, ghost upserted: Db)
      requires Valid() && adminId !in roles && userId !in roles && adminId != userId && initId !in users
      modifies this`users, this`roles, this`userRoles
      ensures Valid() && upserted.users == old(users) && upserted.userRoles == old(userRoles)
      ensures BuiltinsUpserted(old(roles), upserted.roles)
      ensures ok ==> RolesSeeded(View()) && roles == Retired(upserted.roles)
      ensures ok && (exists u :: LiveUser(old(View()), u)) ==> KeptAdmins(upserted, View())
      ensures ok && !(exists u :: LiveUser(old(View()), u)) ==>
                users == old(users)[initId := User(initName, true, false)] && IsActiveAdmin(View(), initId)
      ensures ok ==> (Secure() <==> exists u :: IsActiveAdmin(View(), u))
      ensures !ok ==> View() == old(View()) && UsernameTaken(old(View()), initName, None)
    {
      hide Settled, Target, HasAdminRole, RolesSeeded, NoLegacyOnlyAdmin, BuiltinsUpserted;
      var oldRoles := roles;
      var adminRole, userRole := UpsertBuiltinRoles(adminId, userId);
      upserted := View();
      ok := true;
      if u :| u in users && LiveUser(View(), u) {
        assert LiveUser(old(View()), u);
        SettleUsers(adminRole, userRole);
        RetiringKeepsAdmins(upserted, View());
      } else if UsernameTaken(View(), initName, None) {
        roles := oldRoles;
        return false, upserted;
      } else {
        CreateInitialAdmin(initId, initName, adminRole);
      }
      RetiringSeeds(View(), adminRole, userRole);
      roles := Retired(roles);
      SeededIsSafeIffAdmin(View());
    }

    method UpsertBuiltinRoles(adminId: nat, userId: nat) returns (adminRole: nat, userRole: nat)
      requires UniqueCodes(View()) && adminId !in roles && userId !in roles && adminId != userId
      modifies this`roles
      ensures UniqueCodes(View()) && BuiltinRoles(View(), adminRole, userRole) && BuiltinsUpserted(old(roles), roles)
    {
      adminRole := UpsertRole("admin", adminId);
      userRole := UpsertRole("user", userId);
    }

    method CreateInitialAdmin(id: nat, name: string, adminRole: nat)
      requires id !in users && LiveRole(View(), adminRole) && roles[adminRole].code == "admin"
      modifies this`users, this`userRoles
      ensures users == old(users)[id := User(name, true, false)]
      ensures IsActiveAdmin(View().(roles := Retired(roles)), id)
    {
      users := users[id := User(name, true, false)];
      AssigningSettles(View(), id, adminRole);
      SetRole(id, adminRole);
      RetiringKeepsSettled(View(), id, "admin");
    }

    method ResolveRoleIds(codes: seq<string>) returns (role: Option<nat>)
      requires UniqueCodes(View())
      ensures role == ResolveRole(View(), codes)
    {
      var db := View();
      if r :| r in roles && Resolves(db, codes, r) {
        return Some(r);
      }
      return None;
    }

    method CountActiveAdmins() returns (count: nat)
      ensures count == |ActiveAdmins(View())|
    {
      count := |ActiveAdmins(View())|;
    }

    /** ensureNotLastAdmin, with its answer instead of an exception: an active administrator who gives up is refused
        exactly as the only one, a disabled one also beside the only active one. */
    method EnsureNotLastAdmin(u: nat, nextActive: bool, nextDeleted: bool, newCodes: Option<seq<string>>) returns (ok: bool)
      ensures ok == MayChange(View(), u, nextActive, nextDeleted, newCodes)
      ensures IsActiveAdmin(View(), u) ==>
                (!ok <==> GivesUp(nextActive, nextDeleted, newCodes) && forall v :: IsActiveAdmin(View(), v) ==> v == u)
      ensures !ok <==> IsHeldBack(View(), u, nextActive, nextDeleted, newCodes)
      ensures !IsActiveAdmin(View(), u) ==>
                (!ok <==> HasAdminRole(View(), u) && GivesUp(nextActive, nextDeleted, newCodes)
                          && forall v, w :: IsActiveAdmin(View(), v) && IsActiveAdmin(View(), w) ==> v == w)
    {
      AtMostOneActive(View());
      HeldBackMeans(View(), u, nextActive, nextDeleted, newCodes);
      hide IsHeldBack;
      var hasAdminRole := HasAdminRole(View(), u);
      if !hasAdminRole {
        return true;
      }
      var willHaveAdminRole := if newCodes.Some? then "admin" in NormalizedCodes(newCodes.value) else hasAdminRole;
      if nextActive && !nextDeleted && willHaveAdminRole {
        return true;
      }
      var activeAdminCount := CountActiveAdmins();
      return activeAdminCount > 1;
    }

    method SetRole(id: nat, r: nat)
      modifies this`userRoles
      ensures View() == Assign(old(View()), id, r)
    {
      userRoles := Without(userRoles, id);
      userRoles := userRoles + {(id, r)};
    }

    method Create(id: nat, name: string, active: bool, codes: seq<string>) returns (error: Option<Error>)
      requires Valid()
      modifies this`users, this`userRoles
      ensures Valid() && (old(Secure()) ==> Secure()) && Performed(old(View()), CreateUser(id, name, active, codes), error)
      ensures IsOutcome(old(View()), CreateUser(id, name, active, codes), View(), error)
    {
      hide Safe, UniqueCodes, IsOutcome;
      StepKeepsStanding(View(), CreateUser(id, name, active, codes));
      OperationMeans(View(), CreateUser(id, name, active, codes));
      if id in users || UsernameTaken(View(), name, None) {
        return Some(Conflict);
      }
      var role := ResolveRoleIds(codes);
      if role.None? {
        return Some(ValidationError);
      }
      users := users[id := User(name, active, false)];
      SetRole(id, role.value);
      return None;
    }

    method Update(id: nat, newName: Option<string>, newStatus: Option<bool>, newCodes: Option<seq<string>>) returns (error: Option<Error>)
      requires Valid()
      modifies this`users, this`userRoles
      ensures Valid() && (old(Secure()) ==> Secure()) && Performed(old(View()), UpdateUser(id, newName, newStatus, newCodes), error)
      ensures IsOutcome(old(View()), UpdateUser(id, newName, newStatus, newCodes), View(), error)
    {
      hide Safe, UniqueCodes, MayChange, IsOutcome;
      StepKeepsStanding(View(), UpdateUser(id, newName, newStatus, newCodes));
      OperationMeans(View(), UpdateUser(id, newName, newStatus, newCodes));
      if !LiveUser(View(), id) {
        return Some(NotFound);
      }
      var user := users[id];
      var next := User(newName.GetOr(user.username), newStatus.GetOr(user.active), false);
      if next.username != user.username && UsernameTaken(View(), next.username, Some(id)) {
        return Some(Conflict);
      }
      var role := None;
      if newCodes.Some? {
          role := ResolveRoleIds(newCodes.value);
        if role.None? {
          return Some(ValidationError);
        }
      }
      var ok := EnsureNotLastAdmin(id, next.active, false, newCodes);
      if !ok {
        return Some(ValidationError);
      }
      users := users[id := next];
      if role.Some? {
        SetRole(id, role.value);
      }
      return None;
    }

    method SetStatus(id: nat, active: bool) returns (error: Option<Error>)
      requires Valid()
      modifies this`users
      ensures Valid() && (old(Secure()) ==> Secure()) && Performed(old(View()), UpdateStatus(id, active), error)
      ensures IsOutcome(old(View()), UpdateStatus(id, active), View(), error)
    {
      hide Safe, UniqueCodes, MayChange, IsOutcome;
      StepKeepsStanding(View(), UpdateStatus(id, active));
      OperationMeans(View(), UpdateStatus(id, active));
      if !LiveUser(View(), id) {
        return Some(NotFound);
      }
      var ok := EnsureNotLastAdmin(id, active, false, None);
      if !ok {
        return Some(ValidationError);
      }
      users := users[id := users[id].(active := active)];
      return None;
    }

    method SoftDelete(id: nat, operator: nat) returns (error: Option<Error>)
      requires Valid()
      modifies this`users, this`userRoles
      ensures Valid() && (old(Secure()) ==> Secure()) && Performed(old(View()), DeleteUser(id, operator), error)
      ensures IsOutcome(old(View()), DeleteUser(id, operator), View(), error)
    {
      hide Safe, UniqueCodes, MayChange, IsOutcome;
      StepKeepsStanding(View(), DeleteUser(id, operator));
      OperationMeans(View(), DeleteUser(id, operator));
      if id == operator {
        return Some(Forbidden);
      }
      if !LiveUser(View(), id) {
        return Some(NotFound);
      }
      var ok := EnsureNotLastAdmin(id, false, true, None);
      if !ok {
        return Some(ValidationError);
      }
      users := users[id := users[id].(active := false, deleted := true)];
      userRoles := Without(userRoles, id);
      return None;
    }

    method AddRole(id: nat, code: string) returns (error: Option<Error>)
      requires Valid()
      modifies this`roles
      ensures Valid() && (old(Secure()) ==> Secure()) && Performed(old(View()), CreateRole(id, code), error)
      ensures IsOutcome(old(View()), CreateRole(id, code), View(), error)
    {
      hide Safe, UniqueCodes, IsOutcome;
      StepKeepsStanding(View(), CreateRole(id, code));
      OperationMeans(View(), CreateRole(id, code));
      var normalized := NormalizeRoleCode(code);
      if normalized == "" {
        return Some(ValidationError);
      }
      if id in roles || CodeTaken(View(), normalized, None) {
        return Some(Conflict);
      }
      roles := roles[id := Role(normalized, false)];
      return None;
    }

    method ChangeRole(id: nat, newCode: Option<string>) returns (error: Option<Error>)
      requires Valid()
      modifies this`roles
      ensures Valid() && (old(Secure()) ==> Secure()) && Performed(old(View()), UpdateRole(id, newCode), error)
      ensures IsOutcome(old(View()), UpdateRole(id, newCode), View(), error)
    {
      hide Safe, UniqueCodes, IsOutcome;
      StepKeepsStanding(View(), UpdateRole(id, newCode));
      OperationMeans(View(), UpdateRole(id, newCode));
      if !LiveRole(View(), id) {
        return Some(NotFound);
      }
      var role := roles[id];
      if role.code == "admin" && newCode.Some? && newCode.value != "" {
        return Some(Forbidden);
      }
      var normalized := if newCode.Some? then NormalizeRoleCode(newCode.value) else role.code;
      if normalized == "" {
        return Some(ValidationError);
      }
      if normalized != role.code && CodeTaken(View(), normalized, Some(id)) {
        return Some(Conflict);
      }
      roles := roles[id := role.(code := normalized)];
      return None;
    }

    method RemoveRole(id: nat) returns (error: Option<Error>)
      requires Valid()
      modifies this`roles, this`userRoles
      ensures Valid() && (old(Secure()) ==> Secure()) && Performed(old(View()), DeleteRole(id), error)
      ensures IsOutcome(old(View()), DeleteRole(id), View(), error)
    {
      hide Safe, UniqueCodes, IsOutcome;
      StepKeepsStanding(View(), DeleteRole(id));
      OperationMeans(View(), DeleteRole(id));
      if !LiveRole(View(), id) {
        return Some(NotFound);
      }
      if roles[id].code == "admin" {
        return Some(Forbidden);
      }
      if AssignedToLiveUser(View(), id) {
        return Some(Conflict);
      }
      roles := roles[id := roles[id].(deleted := true)];
      userRoles := set p | p in userRoles && p.1 != id;
      return None;
    }
  }

  ghost predicate IsToBeAdmin(db: Db, u: nat)
    requires u in db.users
  {
    IsAdministrator(db, u) || db.users[u].username == "surper1"
  }

  /** Seeding leaves every live user one live role: the administrator's for who was one before, under either code, or has
      the fixed name, and the user's for everybody else. */
  lemma KeptAdminsMeans(before: Db, after: Db, u: nat)
    requires KeptAdmins(before, after) && u in after.users && !after.users[u].deleted
    ensures IsAdministrator(after, u) <==> IsToBeAdmin(before, u)
    ensures exists r :: (u, r) in after.userRoles && r in after.roles && !after.roles[r].deleted
                        && after.roles[r].code == (if IsToBeAdmin(before, u) then "admin" else "user")
                        && forall q :: (u, q) in after.userRoles && q in after.roles && !after.roles[q].deleted ==> q == r
  {
    ActiveAdminMeans(before, u);
    ActiveAdminMeans(after, u);
    SettledMeans(after, u, Target(before, u));
  }

  lemma SettledMeans(db: Db, u: nat, code: string)
    requires Settled(db, u, code)
    ensures exists r :: (u, r) in db.userRoles && r in db.roles && !db.roles[r].deleted && db.roles[r].code == code
                        && forall q :: (u, q) in db.userRoles && q in db.roles && !db.roles[q].deleted ==> q == r
  {
    var p :| p in db.userRoles && LiveRolesOf(db, u) == {p} && db.roles[p.1].code == code;
    assert p in LiveRolesOf(db, u);
    forall q | (u, q) in db.userRoles && q in db.roles && !db.roles[q].deleted ensures q == p.1 {
      assert (u, q) in LiveRolesOf(db, u);
    }
  }

  /** Users are as they were, each with just the one live role that is its target: so exactly the targeted are administrators. */
  ghost predicate KeptAdmins(before: Db, after: Db) {
    after.users == before.users
    && forall u :: LiveUser(after, u) ==>
         Settled(after, u, Target(before, u)) && (HasAdminRole(after, u) <==> Target(before, u) == "admin")
  }

  /** Both built-in roles made live or created; every other role as it was. */
  ghost predicate BuiltinsUpserted(before: map<nat, Role>, after: map<nat, Role>) {
    && before.Keys <= after.Keys
    && (forall r :: r in before ==>
         after[r] == if before[r].code == "admin" || before[r].code == "user" then before[r].(deleted := false) else before[r])
    && forall r :: r in after && r !in before ==> after[r] == Role("admin", false) || after[r] == Role("user", false)
  }

  lemma RetiringKeepsAdmins(before: Db, db: Db)
    requires db.users == before.users && forall u :: LiveUser(db, u) ==> Settled(db, u, Target(before, u))
    ensures KeptAdmins(before, db.(roles := Retired(db.roles)))
  {
    hide Settled, Target, HasAdminRole;
    var after := db.(roles := Retired(db.roles));
    forall u | LiveUser(after, u)
      ensures Settled(after, u, Target(before, u)) && (HasAdminRole(after, u) <==> Target(before, u) == "admin")
    {
      assert LiveUser(db, u);
      TargetIsBuiltin(before, u);
      RetiringKeepsSettled(db, u, Target(before, u));
    }
  }

  ghost predicate BuiltinRoles(db: Db, adminRole: nat, userRole: nat) {
    && LiveRole(db, adminRole) && db.roles[adminRole].code == "admin"
    && LiveRole(db, userRole) && db.roles[userRole].code == "user"
  }

  lemma RetiringSeeds(db: Db, adminRole: nat, userRole: nat)
    requires UniqueCodes(db) && BuiltinRoles(db, adminRole, userRole)
    ensures RolesSeeded(db.(roles := Retired(db.roles))) && UniqueCodes(db.(roles := Retired(db.roles)))
  {
    var after := db.(roles := Retired(db.roles));
    assert LiveRole(after, adminRole) && LiveRole(after, userRole);
  }

  lemma SeededIsSafeIffAdmin(db: Db)
    requires UniqueCodes(db) && RolesSeeded(db)
    ensures Safe(db) <==> exists u :: IsActiveAdmin(db, u)
  {}

  lemma UntouchedUserKeepsTarget(before: Db, after: Db, u: nat)
    requires u in before.users && after.users == before.users && after.roles == before.roles
    requires forall r :: (u, r) in after.userRoles <==> (u, r) in before.userRoles
    ensures Target(after, u) == Target(before, u)
  {}

  lemma TargetIsBuiltin(db: Db, u: nat)
    requires u in db.users
    ensures Target(db, u) == "admin" || Target(db, u) == "user"
  {}

  lemma AtMostOneActive(db: Db)
    ensures |ActiveAdmins(db)| <= 1 <==> forall v, w :: IsActiveAdmin(db, v) && IsActiveAdmin(db, w) ==> v == w
  {
    if u: nat :| IsActiveAdmin(db, u) {
      AtMostOneIsTheLast(db, u);
      assert forall v :: v in ActiveAdmins(db) <==> IsActiveAdmin(db, v);
      if forall v, w :: IsActiveAdmin(db, v) && IsActiveAdmin(db, w) ==> v == w {
        assert ActiveAdmins(db) == {u};
      }
    } else {
      assert ActiveAdmins(db) == {};
    }
  }

  /** Every operation keeps the unique codes, and once nobody can be locked out it stays so. */
  lemma StepKeepsStanding(db: Db, op: Operation)
    requires UniqueCodes(db)
    ensures UniqueCodes(After(db, op)) && (Safe(db) ==> Safe(After(db, op)))
  {
    hide Next, UniqueCodes, NoLegacyOnlyAdmin;
    StepKeepsUniqueCodes(db, op);
    if Safe(db) {
      StepKeepsSafe(db, op);
    }
  }
}
