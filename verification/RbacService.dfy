/**
  The services that change roles, permissions and accounts: each looks up the
  users it affects, writes one table, and drops those users' snapshots.
*/
module RbacService {
  import opened Options
  import opened Rbac

  // What the listing of role permissions yields: one row per role and permission.
  datatype PermissionRecord = PermissionRecord(role: RoleId, permission: PermissionId, tuple: Tuple)

  // The permissions of one role among the records, in their order.
  function PermissionsOf(records: seq<PermissionRecord>, r: RoleId): seq<(PermissionId, Tuple)> {
    if records == [] then [] else
      var before := PermissionsOf(records[..|records| - 1], r);
      var last := records[|records| - 1];
      if last.role == r then before + [(last.permission, last.tuple)] else before
  }

  // A role is given exactly the records that carry its id.
  lemma {:induction false} PermissionsAreTheRolesOwn(records: seq<PermissionRecord>, r: RoleId, p: PermissionId,
                                                     t: Tuple)
    ensures (p, t) in PermissionsOf(records, r) <==> PermissionRecord(r, p, t) in records
  {
    if records != [] {
      PermissionsAreTheRolesOwn(records[..|records| - 1], r, p, t);
      assert records == records[..|records| - 1] + [records[|records| - 1]];
    }
  }

  // Groups the records by role in one pass and hands each listed role its group.
  method IncludePermissions(roleIds: seq<RoleId>, records: seq<PermissionRecord>)
    returns (lists: seq<seq<(PermissionId, Tuple)>>)
    ensures |lists| == |roleIds|
    ensures forall i | 0 <= i < |roleIds| :: lists[i] == PermissionsOf(records, roleIds[i])
  {
    var byRole: map<RoleId, seq<(PermissionId, Tuple)>> := map[];
    for k := 0 to |records|
      invariant forall r :: (if r in byRole then byRole[r] else []) == PermissionsOf(records[..k], r)
    {
      var record := records[k];
      assert records[..k + 1][..k] == records[..k];
      var list := if record.role in byRole then byRole[record.role] else [];
      byRole := byRole[record.role := list + [(record.permission, record.tuple)]];
    }
    assert records[..|records|] == records;
    lists := seq(|roleIds|, i requires 0 <= i < |roleIds| => if roleIds[i] in byRole then byRole[roleIds[i]] else []);
  }

  class RbacService {
    var db: Database
    var cache: map<UserId, Snapshot>

    constructor (db: Database)
      requires Consistent(db)
      ensures Contents() == State(db, map[]) && Agrees(Contents())
    {
      this.db, cache := db, map[];
    }

    ghost function Contents(): State
      reads this
    {
      State(db, cache)
    }

    method Invalidate(users: set<UserId>)
      modifies this`cache
      ensures cache == old(cache) - users
    {
      cache := cache - users;
    }

    method AssertCanMutateUser(requester: UserId, target: UserId) returns (error: Option<Error>)
      ensures error == MayMutate(db, requester, target)
      ensures error.None? <==>
              target in db.users && !db.users[target].deleted && (db.users[target].isRoot ==> requester == target)
      ensures error == Some(Forbidden) ==> target in db.users && db.users[target].isRoot && requester != target
    {
      if target !in db.users || db.users[target].deleted {
        return Some(NotFound);
      }
      if db.users[target].isRoot && target != requester {
        return Some(Forbidden);
      }
      return None;
    }

    // Creations and renamings write one table and drop no snapshot.
    method CreateRole(r: RoleId, name: Name) returns (error: Option<Error>)
      requires r !in db.roles
      modifies this`db
      ensures Contents() == Mutated(old(Contents()), Operation.CreateRole(r, name))
      ensures error.Some? ==> Write(old(db), Operation.CreateRole(r, name)) == Thrown(error.value)
      ensures error.Some? <==>
              exists other <- old(db).roles :: !old(db).roles[other].deleted && old(db).roles[other].name == name
      ensures error.Some? ==> error == Some(Conflict)
      ensures error.None? ==> r in db.roles && db.roles[r] == Role(name, false)
      ensures old(Agrees(Contents())) ==> Agrees(Contents())
      ensures old(Agrees(Contents())) && error.None? ==> Reshapes(old(db), db, Operation.CreateRole(r, name))
    {
      if Agrees(Contents()) {
        MutationKeepsAgreement(Contents(), Operation.CreateRole(r, name));
      }
      if RoleNameTaken(db, name, {}) {
        return Some(Conflict);
      }
      db := db.(roles := db.roles[r := Role(name, false)]);
      return None;
    }

    method UpdateRole(r: RoleId, newName: Option<Name>, describes: bool) returns (error: Option<Error>)
      modifies this`db
      ensures Contents() == Mutated(old(Contents()), Operation.UpdateRole(r, newName, describes))
      ensures error.Some? ==> Write(old(db), Operation.UpdateRole(r, newName, describes)) == Thrown(error.value)
      ensures error ==
              if newName.None? && !describes then Some(BadRequest)
              else if r !in old(db).roles || old(db).roles[r].deleted then Some(NotFound)
              else if newName.Some? &&
                      exists other <- old(db).roles :: other != r && !old(db).roles[other].deleted &&
                                                       old(db).roles[other].name == newName.value
              then Some(Conflict)
              else None
      ensures error.None? && newName.Some? ==> r in db.roles && db.roles[r] == Role(newName.value, false)
      ensures old(Agrees(Contents())) ==> Agrees(Contents())
      ensures old(Agrees(Contents())) && error.None? ==>
                Reshapes(old(db), db, Operation.UpdateRole(r, newName, describes))
    {
      if Agrees(Contents()) {
        MutationKeepsAgreement(Contents(), Operation.UpdateRole(r, newName, describes));
      }
      if newName.None? && !describes {
        return Some(BadRequest);
      }
      if !RoleAlive(db, r) {
        return Some(NotFound);
      }
      if newName.Some? {
        if RoleNameTaken(db, newName.value, {r}) {
          return Some(Conflict);
        }
        db := db.(roles := db.roles[r := Role(newName.value, false)]);
      }
      return None;
    }

    method CreatePermission(p: PermissionId, action: Name, subject: Name) returns (error: Option<Error>)
      requires p !in db.permissions
      modifies this`db
      ensures Contents() == Mutated(old(Contents()), Operation.CreatePermission(p, action, subject))
      ensures error.Some? ==> Write(old(db), Operation.CreatePermission(p, action, subject)) == Thrown(error.value)
      ensures error.Some? <==>
              exists q <- old(db).permissions :: !old(db).permissions[q].deleted &&
                                                 old(db).permissions[q].action == action &&
                                                 old(db).permissions[q].subject == subject
      ensures error.Some? ==> error == Some(Conflict)
      ensures error.None? ==> p in db.permissions && db.permissions[p] == Permission(action, subject, false)
      ensures old(Agrees(Contents())) ==> Agrees(Contents())
      ensures old(Agrees(Contents())) && error.None? ==>
                Reshapes(old(db), db, Operation.CreatePermission(p, action, subject))
    {
      if Agrees(Contents()) {
        MutationKeepsAgreement(Contents(), Operation.CreatePermission(p, action, subject));
      }
      if TupleTaken(db, action, subject) {
        return Some(Conflict);
      }
      db := db.(permissions := db.permissions[p := Permission(action, subject, false)]);
      return None;
    }

    method DeleteRole(r: RoleId) returns (error: Option<Error>)
      modifies this
      ensures Contents() == Mutated(old(Contents()), Operation.DeleteRole(r))
      ensures error.Some? ==> Write(old(db), Operation.DeleteRole(r)) == Thrown(error.value)
      ensures error == if r in old(db).roles && !old(db).roles[r].deleted then None else Some(NotFound)
      ensures forall u :: u in cache <==> u in old(cache) && (error.Some? || Membership(u, r) !in old(db).userRoles)
      ensures old(Agrees(Contents())) ==> Agrees(Contents())
      ensures old(Agrees(Contents())) && error.None? ==> Reshapes(old(db), db, Operation.DeleteRole(r))
    {
      if Agrees(Contents()) {
        MutationKeepsAgreement(Contents(), Operation.DeleteRole(r));
      }
      var affected := RoleMembers(db, r);
      if !RoleAlive(db, r) {
        return Some(NotFound);
      }
      db := db.(roles := db.roles[r := db.roles[r].(deleted := true)]);
      Invalidate(affected);
      return None;
    }

    method DeletePermission(p: PermissionId) returns (error: Option<Error>)
      modifies this
      ensures Contents() == Mutated(old(Contents()), Operation.DeletePermission(p))
      ensures error.Some? ==> Write(old(db), Operation.DeletePermission(p)) == Thrown(error.value)
      ensures error == if p in old(db).permissions && !old(db).permissions[p].deleted then None else Some(NotFound)
      ensures forall u :: u in cache <==>
                u in old(cache) &&
                (error.Some? ||
                 forall r :: Membership(u, r) in old(db).userRoles ==> Grant(r, p) !in old(db).rolePermissions)
      ensures old(Agrees(Contents())) ==> Agrees(Contents())
      ensures old(Agrees(Contents())) && error.None? ==> Reshapes(old(db), db, Operation.DeletePermission(p))
    {
      if Agrees(Contents()) {
        MutationKeepsAgreement(Contents(), Operation.DeletePermission(p));
      }
      var affected := PermissionHolders(db, p);
      if !PermissionAlive(db, p) {
        return Some(NotFound);
      }
      db := db.(permissions := db.permissions[p := db.permissions[p].(deleted := true)]);
      Invalidate(affected);
      return None;
    }

    method AttachPermission(r: RoleId, p: PermissionId) returns (error: Option<Error>)
      modifies this
      ensures Contents() == Mutated(old(Contents()), Operation.AttachPermission(r, p))
      ensures error.Some? ==> Write(old(db), Operation.AttachPermission(r, p)) == Thrown(error.value)
      ensures error ==
              if r !in old(db).roles || old(db).roles[r].deleted then Some(NotFound)
              else if p !in old(db).permissions || old(db).permissions[p].deleted then Some(NotFound)
              else if Grant(r, p) in old(db).rolePermissions then Some(Conflict)
              else None
      ensures forall u :: u in cache <==> u in old(cache) && (error.Some? || Membership(u, r) !in old(db).userRoles)
      ensures error.None? ==> Grant(r, p) in db.rolePermissions
      ensures old(Agrees(Contents())) ==> Agrees(Contents())
      ensures old(Agrees(Contents())) && error.None? ==> Reshapes(old(db), db, Operation.AttachPermission(r, p))
    {
      if Agrees(Contents()) {
        MutationKeepsAgreement(Contents(), Operation.AttachPermission(r, p));
      }
      if !RoleAlive(db, r) {
        return Some(NotFound);
      }
      if !PermissionAlive(db, p) {
        return Some(NotFound);
      }
      var affected := RoleMembers(db, r);
      if Grant(r, p) in db.rolePermissions {
        return Some(Conflict);
      }
      db := db.(rolePermissions := db.rolePermissions + {Grant(r, p)});
      Invalidate(affected);
      return None;
    }

    method DetachPermission(r: RoleId, p: PermissionId) returns (error: Option<Error>)
      modifies this
      ensures Contents() == Mutated(old(Contents()), Operation.DetachPermission(r, p))
      ensures error.Some? ==> Write(old(db), Operation.DetachPermission(r, p)) == Thrown(error.value)
      ensures error == if Grant(r, p) in old(db).rolePermissions then None else Some(NotFound)
      ensures forall u :: u in cache <==> u in old(cache) && (error.Some? || Membership(u, r) !in old(db).userRoles)
      ensures Grant(r, p) !in db.rolePermissions
      ensures old(Agrees(Contents())) ==> Agrees(Contents())
      ensures old(Agrees(Contents())) && error.None? ==> Reshapes(old(db), db, Operation.DetachPermission(r, p))
    {
      if Agrees(Contents()) {
        MutationKeepsAgreement(Contents(), Operation.DetachPermission(r, p));
      }
      var affected := RoleMembers(db, r);
      if Grant(r, p) !in db.rolePermissions {
        return Some(NotFound);
      }
      db := db.(rolePermissions := db.rolePermissions - {Grant(r, p)});
      Invalidate(affected);
      return None;
    }

    method AssignRole(requester: UserId, target: UserId, r: RoleId) returns (error: Option<Error>)
      modifies this
      ensures Contents() == Mutated(old(Contents()), Operation.AssignRole(requester, target, r))
      ensures error.Some? ==> Write(old(db), Operation.AssignRole(requester, target, r)) == Thrown(error.value)
      ensures error ==
              if target !in old(db).users || old(db).users[target].deleted then Some(NotFound)
              else if old(db).users[target].isRoot && requester != target then Some(Forbidden)
              else if r !in old(db).roles || old(db).roles[r].deleted then Some(NotFound)
              else if Membership(target, r) in old(db).userRoles then Some(Conflict)
              else None
      ensures cache == if error.None? then old(cache) - {target} else old(cache)
      ensures error.None? ==> Membership(target, r) in db.userRoles
      ensures old(Agrees(Contents())) ==> Agrees(Contents())
      ensures old(Agrees(Contents())) && error.None? ==>
                Reshapes(old(db), db, Operation.AssignRole(requester, target, r))
    {
      if Agrees(Contents()) {
        MutationKeepsAgreement(Contents(), Operation.AssignRole(requester, target, r));
      }
      error := AssertCanMutateUser(requester, target);
      if error.Some? {
        return;
      }
      if !RoleAlive(db, r) {
        return Some(NotFound);
      }
      if Membership(target, r) in db.userRoles {
        return Some(Conflict);
      }
      db := db.(userRoles := db.userRoles + {Membership(target, r)});
      Invalidate({target});
    }

    method UnassignRole(requester: UserId, target: UserId, r: RoleId) returns (error: Option<Error>)
      modifies this
      ensures Contents() == Mutated(old(Contents()), Operation.UnassignRole(requester, target, r))
      ensures error.Some? ==> Write(old(db), Operation.UnassignRole(requester, target, r)) == Thrown(error.value)
      ensures error ==
              if target !in old(db).users || old(db).users[target].deleted then Some(NotFound)
              else if old(db).users[target].isRoot && requester != target then Some(Forbidden)
              else if Membership(target, r) !in old(db).userRoles then Some(NotFound)
              else None
      ensures cache == if error.None? then old(cache) - {target} else old(cache)
      ensures error.None? ==> Membership(target, r) !in db.userRoles
      ensures old(Agrees(Contents())) ==> Agrees(Contents())
      ensures old(Agrees(Contents())) && error.None? ==>
                Reshapes(old(db), db, Operation.UnassignRole(requester, target, r))
    {
      if Agrees(Contents()) {
        MutationKeepsAgreement(Contents(), Operation.UnassignRole(requester, target, r));
      }
      error := AssertCanMutateUser(requester, target);
      if error.Some? {
        return;
      }
      if Membership(target, r) !in db.userRoles {
        return Some(NotFound);
      }
      db := db.(userRoles := db.userRoles - {Membership(target, r)});
      Invalidate({target});
    }

    method RemoveUser(requester: UserId, target: UserId) returns (error: Option<Error>)
      modifies this
      ensures Contents() == Mutated(old(Contents()), Operation.RemoveUser(requester, target))
      ensures error.Some? ==> Write(old(db), Operation.RemoveUser(requester, target)) == Thrown(error.value)
      ensures error ==
              if target !in old(db).users || old(db).users[target].deleted then Some(NotFound)
              else if old(db).users[target].isRoot && requester != target then Some(Forbidden)
              else None
      ensures error.None? ==> target in db.users && db.users[target].deleted && target !in cache
      ensures old(Agrees(Contents())) && error.None? ==> Answer(Contents(), target) == Thrown(NotFound)
      ensures old(Agrees(Contents())) ==> Agrees(Contents())
      ensures old(Agrees(Contents())) && error.None? ==> Reshapes(old(db), db, Operation.RemoveUser(requester, target))
    {
      if Agrees(Contents()) {
        MutationKeepsAgreement(Contents(), Operation.RemoveUser(requester, target));
      }
      error := AssertCanMutateUser(requester, target);
      if error.Some? {
        return;
      }
      db := db.(users := db.users[target := db.users[target].(deleted := true)]);
      Invalidate({target});
    }

    method SetEnabled(requester: UserId, target: UserId, enabled: bool) returns (error: Option<Error>)
      modifies this
      ensures Contents() == Mutated(old(Contents()), Operation.SetEnabled(requester, target, enabled))
      ensures error.Some? ==> Write(old(db), Operation.SetEnabled(requester, target, enabled)) == Thrown(error.value)
      ensures error ==
              if target !in old(db).users || old(db).users[target].deleted then Some(NotFound)
              else if old(db).users[target].isRoot && requester != target then Some(Forbidden)
              else None
      ensures error.None? ==>
                target in db.users && db.users[target].enabled == enabled && !db.users[target].deleted &&
                target !in cache
      ensures old(Agrees(Contents())) && error.None? ==> (Answer(Contents(), target).Done? <==> enabled)
      ensures old(Agrees(Contents())) ==> Agrees(Contents())
      ensures old(Agrees(Contents())) && error.None? ==>
                Reshapes(old(db), db, Operation.SetEnabled(requester, target, enabled))
    {
      if Agrees(Contents()) {
        MutationKeepsAgreement(Contents(), Operation.SetEnabled(requester, target, enabled));
      }
      error := AssertCanMutateUser(requester, target);
      if error.Some? {
        return;
      }
      db := db.(users := db.users[target := db.users[target].(enabled := enabled)]);
      Invalidate({target});
    }

    method CreateUser(u: UserId, username: Name) returns (error: Option<Error>)
      requires u !in db.users
      modifies this`db
      ensures Contents() == Mutated(old(Contents()), Operation.CreateUser(u, username))
      ensures error.Some? ==> Write(old(db), Operation.CreateUser(u, username)) == Thrown(error.value)
      ensures error.Some? <==>
              exists other <- old(db).users ::
                !old(db).users[other].deleted && old(db).users[other].username == username
      ensures error.Some? ==> error == Some(Conflict)
      ensures error.None? ==> u in db.users && db.users[u] == User(username, false, true, false)
      ensures old(Agrees(Contents())) ==> Agrees(Contents())
      ensures old(Agrees(Contents())) && error.None? ==> Reshapes(old(db), db, Operation.CreateUser(u, username))
    {
      if Agrees(Contents()) {
        MutationKeepsAgreement(Contents(), Operation.CreateUser(u, username));
      }
      if UsernameTaken(db, username) {
        return Some(Conflict);
      }
      db := db.(users := db.users[u := User(username, false, true, false)]);
      return None;
    }

    // The strategy that authorizes a request: the cached snapshot, or a freshly loaded one that is cached.
    method Authorize(u: UserId) returns (result: Result<Snapshot, Error>)
      modifies this`cache
      ensures Contents() == Authorized(old(Contents()), u)
      ensures result == Answer(old(Contents()), u)
      ensures old(Agrees(Contents())) ==> Agrees(Contents()) && result == Fresh(db, u)
      ensures old(Agrees(Contents())) ==>
                (result.Done? <==> u in db.users && !db.users[u].deleted && db.users[u].enabled)
      ensures old(Agrees(Contents())) && result.Done? ==>
                result.value.isRoot == db.users[u].isRoot &&
                forall t :: t in result.value.permissions <==> Holds(db, u, t)
      ensures result.Done? ==> u in cache && cache[u] == result.value
    {
      SnapshotMeans(db, u);
      if Agrees(Contents()) {
        StepKeepsAgreement(Contents(), Step.Authorize(u));
        assert Cached(Contents(), u);
      }
      if u in cache {
        return Done(cache[u]);
      }
      if u !in db.users || db.users[u].deleted {
        return Thrown(NotFound);
      }
      if !db.users[u].enabled {
        return Thrown(Forbidden);
      }
      var snapshot := Snapshot(db.users[u].isRoot, db.users[u].enabled, UserPermissions(db, u));
      cache := cache[u := snapshot];
      return Done(snapshot);
    }
  }
}
