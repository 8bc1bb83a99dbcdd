/**
  Roles, permissions and accounts, the authorization snapshot joined from
  them, and the cache of snapshots that every mutation invalidates by naming
  the users it affects.
*/
module Rbac {
  import opened Options

  type UserId = int
  type RoleId = int
  type PermissionId = int
  type Name = int

  datatype User = User(username: Name, isRoot: bool, enabled: bool, deleted: bool)
  datatype Role = Role(name: Name, deleted: bool)
  datatype Permission = Permission(action: Name, subject: Name, deleted: bool)
  datatype Tuple = Tuple(action: Name, subject: Name)
  datatype Membership = Membership(user: UserId, role: RoleId)
  datatype Grant = Grant(role: RoleId, permission: PermissionId)

  datatype Database = Database(
    users: map<UserId, User>,
    roles: map<RoleId, Role>,
    permissions: map<PermissionId, Permission>,
    userRoles: set<Membership>,
    rolePermissions: set<Grant>)

  datatype Snapshot = Snapshot(isRoot: bool, enabled: bool, permissions: set<Tuple>)

  datatype Error = NotFound | Conflict | Forbidden | BadRequest

  // ---------- queries ----------

  predicate UserAlive(db: Database, u: UserId) { u in db.users && !db.users[u].deleted }
  predicate RoleAlive(db: Database, r: RoleId) { r in db.roles && !db.roles[r].deleted }
  predicate PermissionAlive(db: Database, p: PermissionId) { p in db.permissions && !db.permissions[p].deleted }

  function TupleOf(db: Database, p: PermissionId): Tuple
    requires p in db.permissions
  {
    Tuple(db.permissions[p].action, db.permissions[p].subject)
  }

  // One row of the join: the user is in a live role that carries a live permission.
  predicate Joins(db: Database, u: UserId, m: Membership, g: Grant) {
    m in db.userRoles && g in db.rolePermissions && m.user == u && m.role == g.role &&
    RoleAlive(db, m.role) && PermissionAlive(db, g.permission)
  }

  function UserPermissions(db: Database, u: UserId): set<Tuple> {
    set m, g | m in db.userRoles && g in db.rolePermissions && Joins(db, u, m, g) :: TupleOf(db, g.permission)
  }

  // What the loader computes: a missing or disabled account makes it throw, and nothing is cached.
  function Fresh(db: Database, u: UserId): Result<Snapshot, Error> {
    if !UserAlive(db, u) then Thrown(NotFound)
    else if !db.users[u].enabled then Thrown(Forbidden)
    else Done(Snapshot(db.users[u].isRoot, db.users[u].enabled, UserPermissions(db, u)))
  }

  function RoleMembers(db: Database, r: RoleId): set<UserId> {
    set m | m in db.userRoles && m.role == r :: m.user
  }

  // Deleted roles are not filtered out here.
  function PermissionHolders(db: Database, p: PermissionId): set<UserId> {
    set m, g | m in db.userRoles && g in db.rolePermissions && m.role == g.role && g.permission == p :: m.user
  }

  // ---------- mutations ----------

  datatype Operation =
    | CreateRole(role: RoleId, name: Name)
    | UpdateRole(role: RoleId, newName: Option<Name>, describes: bool)
    | DeleteRole(role: RoleId)
    | CreatePermission(permission: PermissionId, action: Name, subject: Name)
    | DeletePermission(permission: PermissionId)
    | AttachPermission(role: RoleId, permission: PermissionId)
    | DetachPermission(role: RoleId, permission: PermissionId)
    | AssignRole(requester: UserId, target: UserId, role: RoleId)
    | UnassignRole(requester: UserId, target: UserId, role: RoleId)
    | CreateUser(user: UserId, username: Name)
    | RemoveUser(requester: UserId, target: UserId)
    | SetEnabled(requester: UserId, target: UserId, enabled: bool)

  // Serial ids are new.
  predicate IdIsNew(db: Database, operation: Operation) {
    (operation.CreateRole? ==> operation.role !in db.roles) &&
    (operation.CreatePermission? ==> operation.permission !in db.permissions) &&
    (operation.CreateUser? ==> operation.user !in db.users)
  }

  // The root account is changed by nobody but itself.
  function MayMutate(db: Database, requester: UserId, target: UserId): Option<Error> {
    if !UserAlive(db, target) then Some(NotFound)
    else if db.users[target].isRoot && target != requester then Some(Forbidden)
    else None
  }

  predicate RoleNameTaken(db: Database, name: Name, except: set<RoleId>) {
    exists r <- db.roles :: r !in except && !db.roles[r].deleted && db.roles[r].name == name
  }

  predicate TupleTaken(db: Database, action: Name, subject: Name) {
    exists p <- db.permissions :: !db.permissions[p].deleted && TupleOf(db, p) == Tuple(action, subject)
  }

  predicate UsernameTaken(db: Database, username: Name) {
    exists u <- db.users :: !db.users[u].deleted && db.users[u].username == username
  }

  function Write(db: Database, operation: Operation): Result<Database, Error> {
    match operation
    case CreateRole(r, name) =>
      if RoleNameTaken(db, name, {}) then Thrown(Conflict)
      else Done(db.(roles := db.roles[r := Role(name, false)]))
    case UpdateRole(r, newName, describes) =>
      if newName.None? && !describes then Thrown(BadRequest)
      else if !RoleAlive(db, r) then Thrown(NotFound)
      else if newName.Some? && RoleNameTaken(db, newName.value, {r}) then Thrown(Conflict)
      else if newName.Some? then Done(db.(roles := db.roles[r := Role(newName.value, false)]))
      else Done(db)
    case DeleteRole(r) =>
      if !RoleAlive(db, r) then Thrown(NotFound)
      else Done(db.(roles := db.roles[r := db.roles[r].(deleted := true)]))
    case CreatePermission(p, action, subject) =>
      if TupleTaken(db, action, subject) then Thrown(Conflict)
      else Done(db.(permissions := db.permissions[p := Permission(action, subject, false)]))
    case DeletePermission(p) =>
      if !PermissionAlive(db, p) then Thrown(NotFound)
      else Done(db.(permissions := db.permissions[p := db.permissions[p].(deleted := true)]))
    case AttachPermission(r, p) =>
      if !RoleAlive(db, r) || !PermissionAlive(db, p) then Thrown(NotFound)
      else if Grant(r, p) in db.rolePermissions then Thrown(Conflict)
      else Done(db.(rolePermissions := db.rolePermissions + {Grant(r, p)}))
    case DetachPermission(r, p) =>
      if Grant(r, p) !in db.rolePermissions then Thrown(NotFound)
      else Done(db.(rolePermissions := db.rolePermissions - {Grant(r, p)}))
    case AssignRole(requester, target, r) =>
      if MayMutate(db, requester, target).Some? then Thrown(MayMutate(db, requester, target).value)
      else if !RoleAlive(db, r) then Thrown(NotFound)
      else if Membership(target, r) in db.userRoles then Thrown(Conflict)
      else Done(db.(userRoles := db.userRoles + {Membership(target, r)}))
    case UnassignRole(requester, target, r) =>
      if MayMutate(db, requester, target).Some? then Thrown(MayMutate(db, requester, target).value)
      else if Membership(target, r) !in db.userRoles then Thrown(NotFound)
      else Done(db.(userRoles := db.userRoles - {Membership(target, r)}))
    case CreateUser(u, username) =>
      if UsernameTaken(db, username) then Thrown(Conflict)
      else Done(db.(users := db.users[u := User(username, false, true, false)]))
    case RemoveUser(requester, target) =>
      if MayMutate(db, requester, target).Some? then Thrown(MayMutate(db, requester, target).value)
      else Done(db.(users := db.users[target := db.users[target].(deleted := true)]))
    case SetEnabled(requester, target, enabled) =>
      if MayMutate(db, requester, target).Some? then Thrown(MayMutate(db, requester, target).value)
      else Done(db.(users := db.users[target := db.users[target].(enabled := enabled)]))
  }

  // The users whose snapshots the operation drops from the cache, queried before it writes.
  function Affected(db: Database, operation: Operation): set<UserId> {
    match operation
    case CreateRole(_, _) => {}
    case UpdateRole(_, _, _) => {}
    case DeleteRole(r) => RoleMembers(db, r)
    case CreatePermission(_, _, _) => {}
    case DeletePermission(p) => PermissionHolders(db, p)
    case AttachPermission(r, _) => RoleMembers(db, r)
    case DetachPermission(r, _) => RoleMembers(db, r)
    case AssignRole(_, target, _) => {target}
    case UnassignRole(_, target, _) => {target}
    case CreateUser(_, _) => {}
    case RemoveUser(_, target) => {target}
    case SetEnabled(_, target, _) => {target}
  }

  // ---------- the tables stay consistent ----------

  // Foreign keys: the link tables name existing rows.
  ghost predicate Consistent(db: Database) {
    (forall m <- db.userRoles :: m.user in db.users && m.role in db.roles) &&
    (forall g <- db.rolePermissions :: g.role in db.roles && g.permission in db.permissions)
  }

  lemma WriteKeepsConsistent(db: Database, operation: Operation)
    requires Consistent(db) && Write(db, operation).Done?
    ensures Consistent(Write(db, operation).value)
    ensures var after := Write(db, operation).value;
            && (forall m <- after.userRoles :: m.user in after.users && m.role in after.roles)
            && (forall g <- after.rolePermissions :: g.role in after.roles && g.permission in after.permissions)
  {
  }

  // ---------- who is affected ----------

  // Nothing the join for the user looks at has changed.
  ghost predicate SameJoins(a: Database, b: Database, u: UserId) {
    (forall m, g :: Joins(a, u, m, g) <==> Joins(b, u, m, g)) &&
    (forall p | p in a.permissions && p in b.permissions :: TupleOf(a, p) == TupleOf(b, p))
  }

  lemma {:induction false} SameJoinsSamePermissions(a: Database, b: Database, u: UserId)
    requires SameJoins(a, b, u)
    ensures UserPermissions(a, u) == UserPermissions(b, u)
  {
    forall t
      ensures t in UserPermissions(a, u) <==> t in UserPermissions(b, u)
    {
      if t in UserPermissions(a, u) {
        var m, g :| m in a.userRoles && g in a.rolePermissions && Joins(a, u, m, g) && TupleOf(a, g.permission) == t;
        assert Joins(b, u, m, g);
      }
      if t in UserPermissions(b, u) {
        var m, g :| m in b.userRoles && g in b.rolePermissions && Joins(b, u, m, g) && TupleOf(b, g.permission) == t;
        assert Joins(a, u, m, g);
      }
    }
  }

  lemma RoleMutationsSpareOthers(db: Database, operation: Operation, u: UserId)
    requires Consistent(db) && IdIsNew(db, operation) && Write(db, operation).Done? && u !in Affected(db, operation)
    requires operation.CreateRole? || operation.UpdateRole? || operation.DeleteRole?
    ensures SameJoins(db, Write(db, operation).value, u)
  {
    var after := Write(db, operation).value;
    forall m, g
      ensures Joins(db, u, m, g) <==> Joins(after, u, m, g)
    {
      assert m in db.userRoles && m.user == u ==> operation.DeleteRole? ==> m.role != operation.role;
    }
  }

  lemma PermissionMutationsSpareOthers(db: Database, operation: Operation, u: UserId)
    requires Consistent(db) && IdIsNew(db, operation) && Write(db, operation).Done? && u !in Affected(db, operation)
    requires operation.CreatePermission? || operation.DeletePermission?
    ensures SameJoins(db, Write(db, operation).value, u)
  {
    var after := Write(db, operation).value;
    forall m, g
      ensures Joins(db, u, m, g) <==> Joins(after, u, m, g)
    {
      if operation.DeletePermission? && m in db.userRoles && g in db.rolePermissions && m.role == g.role {
        assert g.permission == operation.permission ==> m.user in PermissionHolders(db, operation.permission);
      }
    }
  }

  lemma LinkMutationsSpareOthers(db: Database, operation: Operation, u: UserId)
    requires Write(db, operation).Done? && u !in Affected(db, operation)
    requires operation.AttachPermission? || operation.DetachPermission? ||
             operation.AssignRole? || operation.UnassignRole?
    ensures SameJoins(db, Write(db, operation).value, u)
  {
    var after := Write(db, operation).value;
    forall m, g
      ensures Joins(db, u, m, g) <==> Joins(after, u, m, g)
    {
      if operation.AttachPermission? || operation.DetachPermission? {
        assert m in db.userRoles && m.role == operation.role ==> m.user in RoleMembers(db, operation.role);
      }
    }
  }

  lemma AccountMutationsSpareOthers(db: Database, operation: Operation, u: UserId)
    requires Write(db, operation).Done? && u !in Affected(db, operation)
    requires operation.CreateUser? || operation.RemoveUser? || operation.SetEnabled?
    ensures SameJoins(db, Write(db, operation).value, u)
  {
  }

  // A mutation changes the snapshot of nobody but the users it names; an account it creates had none.
  lemma {:induction false} OnlyTheNamedAreAffected(db: Database, operation: Operation, u: UserId)
    requires Consistent(db) && IdIsNew(db, operation) && Write(db, operation).Done? && u !in Affected(db, operation)
    ensures Fresh(Write(db, operation).value, u) == Fresh(db, u) ||
            (operation.CreateUser? && operation.user == u && Fresh(db, u) == Thrown(NotFound))
  {
    if operation.CreateRole? || operation.UpdateRole? || operation.DeleteRole? {
      RoleMutationsSpareOthers(db, operation, u);
    } else if operation.CreatePermission? || operation.DeletePermission? {
      PermissionMutationsSpareOthers(db, operation, u);
    } else if operation.CreateUser? || operation.RemoveUser? || operation.SetEnabled? {
      AccountMutationsSpareOthers(db, operation, u);
    } else {
      LinkMutationsSpareOthers(db, operation, u);
    }
    SameJoinsSamePermissions(db, Write(db, operation).value, u);
  }

  // The list is not too long either where it names one account: assigning a role that grants something new
  // does change that account's snapshot.
  lemma AssignmentMatters(db: Database, requester: UserId, target: UserId, r: RoleId, p: PermissionId)
    requires Write(db, AssignRole(requester, target, r)).Done?
    requires Grant(r, p) in db.rolePermissions && PermissionAlive(db, p) && db.users[target].enabled
    ensures var after := Write(db, AssignRole(requester, target, r)).value;
            Fresh(after, target).Done? && TupleOf(db, p) in Fresh(after, target).value.permissions
  {
    var after := Write(db, AssignRole(requester, target, r)).value;
    assert Joins(after, target, Membership(target, r), Grant(r, p));
  }

  // ---------- what a user holds, over the rows themselves ----------

  // User u holds tuple t through role r and permission p: the four rows are there, and neither the role nor
  // the permission is deleted.
  ghost predicate Through(db: Database, u: UserId, r: RoleId, p: PermissionId, t: Tuple) {
    Membership(u, r) in db.userRoles && Grant(r, p) in db.rolePermissions &&
    r in db.roles && db.roles[r].deleted == false &&
    p in db.permissions && db.permissions[p].deleted == false &&
    db.permissions[p].action == t.action && db.permissions[p].subject == t.subject
  }

  ghost predicate Holds(db: Database, u: UserId, t: Tuple) {
    exists r, p :: Through(db, u, r, p, t)
  }

  // A snapshot exists exactly for accounts that are there, not deleted and enabled; it shows whether the
  // account is root, and its permissions are exactly the tuples the account holds.
  lemma {:induction false} SnapshotMeans(db: Database, u: UserId)
    ensures Fresh(db, u).Done? <==> u in db.users && db.users[u].deleted == false && db.users[u].enabled
    ensures Fresh(db, u) == Thrown(NotFound) <==> u !in db.users || db.users[u].deleted
    ensures Fresh(db, u).Done? ==> Fresh(db, u).value.isRoot == db.users[u].isRoot && Fresh(db, u).value.enabled
    ensures Fresh(db, u).Done? ==> forall t :: t in Fresh(db, u).value.permissions <==> Holds(db, u, t)
  {
    forall t
      ensures t in UserPermissions(db, u) <==> Holds(db, u, t)
    {
      if t in UserPermissions(db, u) {
        var m, g :| m in db.userRoles && g in db.rolePermissions && Joins(db, u, m, g) &&
                    TupleOf(db, g.permission) == t;
        assert m == Membership(u, m.role) && g == Grant(m.role, g.permission);
        assert Through(db, u, m.role, g.permission, t);
      }
      if Holds(db, u, t) {
        var r, p :| Through(db, u, r, p, t);
        assert Joins(db, u, Membership(u, r), Grant(r, p)) && TupleOf(db, p) == t;
      }
    }
  }

  // What each mutation takes from and gives to whom.
  ghost predicate Reshapes(a: Database, b: Database, operation: Operation) {
    forall u, r, p, t :: Through(b, u, r, p, t) <==>
      match operation
      case CreateRole(_, _) => Through(a, u, r, p, t)
      case UpdateRole(_, _, _) => Through(a, u, r, p, t)
      case DeleteRole(gone) => Through(a, u, r, p, t) && r != gone
      case CreatePermission(_, _, _) => Through(a, u, r, p, t)
      case DeletePermission(gone) => Through(a, u, r, p, t) && p != gone
      case AttachPermission(to, given) =>
        Through(a, u, r, p, t) ||
        (r == to && p == given && Membership(u, r) in a.userRoles &&
         p in a.permissions && a.permissions[p].action == t.action && a.permissions[p].subject == t.subject)
      case DetachPermission(from, taken) => Through(a, u, r, p, t) && !(r == from && p == taken)
      case AssignRole(_, target, given) =>
        Through(a, u, r, p, t) ||
        (u == target && r == given && Grant(r, p) in a.rolePermissions && p in a.permissions &&
         !a.permissions[p].deleted && a.permissions[p].action == t.action &&
         a.permissions[p].subject == t.subject)
      case UnassignRole(_, target, taken) => Through(a, u, r, p, t) && !(u == target && r == taken)
      case CreateUser(_, _) => Through(a, u, r, p, t)
      case RemoveUser(_, _) => Through(a, u, r, p, t)
      case SetEnabled(_, _, _) => Through(a, u, r, p, t)
  }

  lemma {:induction false} MutationReshapes(db: Database, operation: Operation)
    requires Consistent(db) && IdIsNew(db, operation) && Write(db, operation).Done?
    ensures Reshapes(db, Write(db, operation).value, operation)
  {
  }

  // ---------- the cache ----------

  datatype State = State(db: Database, cache: map<UserId, Snapshot>)

  datatype Step = Mutate(operation: Operation) | Authorize(user: UserId) | Expire(user: UserId)

  predicate Enabled(s: State, step: Step) {
    step.Mutate? ==> IdIsNew(s.db, step.operation)
  }

  // A refused mutation leaves tables and cache alone.
  function Mutated(s: State, operation: Operation): State {
    match Write(s.db, operation)
    case Done(db) => State(db, s.cache - Affected(s.db, operation))
    case Thrown(_) => s
  }

  function Authorized(s: State, u: UserId): State {
    if u in s.cache then s else
      match Fresh(s.db, u)
      case Done(snapshot) => s.(cache := s.cache[u := snapshot])
      case Thrown(_) => s
  }

  function Answer(s: State, u: UserId): Result<Snapshot, Error> {
    if u in s.cache then Done(s.cache[u]) else Fresh(s.db, u)
  }

  function Apply(s: State, step: Step): State {
    match step
    case Mutate(operation) => Mutated(s, operation)
    case Authorize(u) => Authorized(s, u)
    case Expire(u) => s.(cache := s.cache - {u})
  }

  ghost predicate Run(start: State, steps: seq<Step>) {
    steps == [] ||
    (Run(start, steps[..|steps| - 1]) && Enabled(After(start, steps[..|steps| - 1]), steps[|steps| - 1]))
  }

  ghost function After(start: State, steps: seq<Step>): State {
    if steps == [] then start else Apply(After(start, steps[..|steps| - 1]), steps[|steps| - 1])
  }

  lemma RunSnoc(start: State, steps: seq<Step>, step: Step)
    requires Run(start, steps) && Enabled(After(start, steps), step)
    ensures Run(start, steps + [step]) && After(start, steps + [step]) == Apply(After(start, steps), step)
  {
    assert (steps + [step])[..|steps|] == steps;
  }

  ghost predicate Cached(s: State, u: UserId) {
    u in s.cache ==> Fresh(s.db, u) == Done(s.cache[u])
  }

  ghost predicate Agrees(s: State) {
    Consistent(s.db) && forall u :: Cached(s, u)
  }

  lemma MutationKeepsAgreement(s: State, operation: Operation)
    requires Agrees(s) && IdIsNew(s.db, operation)
    ensures Agrees(Mutated(s, operation))
  {
    if Write(s.db, operation).Done? {
      WriteKeepsConsistent(s.db, operation);
      forall u
        ensures Cached(Mutated(s, operation), u)
      {
        assert Cached(s, u);
        if u !in Affected(s.db, operation) {
          OnlyTheNamedAreAffected(s.db, operation, u);
        }
      }
    }
  }

  lemma StepKeepsAgreement(s: State, step: Step)
    requires Agrees(s) && Enabled(s, step)
    ensures Agrees(Apply(s, step))
  {
    match step {
      case Mutate(operation) => MutationKeepsAgreement(s, operation);
      case Authorize(user) =>
        forall u
          ensures Cached(Authorized(s, user), u)
        {
          assert Cached(s, u);
        }
      case Expire(user) =>
        forall u
          ensures Cached(Apply(s, step), u)
        {
          assert Cached(s, u);
        }
    }
  }

  lemma {:induction false} RunKeepsAgreement(start: State, steps: seq<Step>)
    requires Agrees(start) && Run(start, steps)
    ensures Agrees(After(start, steps))
  {
    if steps != [] {
      RunKeepsAgreement(start, steps[..|steps| - 1]);
      StepKeepsAgreement(After(start, steps[..|steps| - 1]), steps[|steps| - 1]);
    }
  }

  // After every run of mutations, authorizations and expiries from an empty cache, what an authorization
  // answers, cached or not, is what the tables say at that moment.
  lemma {:induction false} AuthorizationIsCurrent(db: Database, steps: seq<Step>, u: UserId)
    requires Consistent(db) && Run(State(db, map[]), steps)
    ensures Agrees(After(State(db, map[]), steps))
    ensures var s := After(State(db, map[]), steps); Answer(s, u) == Fresh(s.db, u)
  {
    RunKeepsAgreement(State(db, map[]), steps);
    assert Cached(After(State(db, map[]), steps), u);
  }

  lemma RemovedStaysRemoved(s: State, step: Step, u: UserId)
    requires Enabled(s, step) && u in s.db.users && s.db.users[u].deleted
    ensures u in Apply(s, step).db.users && Apply(s, step).db.users[u].deleted
  {
  }

  lemma {:induction false} RunKeepsRemoved(start: State, steps: seq<Step>, u: UserId)
    requires Run(start, steps) && u in start.db.users && start.db.users[u].deleted
    ensures u in After(start, steps).db.users && After(start, steps).db.users[u].deleted
  {
    if steps != [] {
      RunKeepsRemoved(start, steps[..|steps| - 1], u);
      RemovedStaysRemoved(After(start, steps[..|steps| - 1]), steps[|steps| - 1], u);
    }
  }

  // A removed account is refused from then on, whatever else happens and whatever was cached.
  lemma {:induction false} RemovedStaysOut(start: State, steps: seq<Step>, requester: UserId, target: UserId)
    requires Agrees(start) && Write(start.db, RemoveUser(requester, target)).Done?
    requires Run(Mutated(start, RemoveUser(requester, target)), steps)
    ensures var s := After(Mutated(start, RemoveUser(requester, target)), steps);
            target in s.db.users && s.db.users[target].deleted && Answer(s, target) == Thrown(NotFound)
  {
    var removed := Mutated(start, RemoveUser(requester, target));
    MutationKeepsAgreement(start, RemoveUser(requester, target));
    RunKeepsAgreement(removed, steps);
    RunKeepsRemoved(removed, steps, target);
    assert Cached(After(removed, steps), target);
  }

  // Whatever was cached, current or not, an expiry may take at any time, and the next authorization answers
  // from the tables.
  lemma ExpiryHealsStaleness(s: State, u: UserId)
    ensures Enabled(s, Expire(u)) && Apply(s, Expire(u)).db == s.db
    ensures Answer(Apply(s, Expire(u)), u) == Fresh(s.db, u)
    ensures forall v :: v != u ==> Answer(Apply(s, Expire(u)), v) == Answer(s, v)
  {
  }

  // What an account held only through a deleted role or permission is gone at its next authorization.
  lemma {:induction false} DeletedRoleGrantsNothing(s: State, r: RoleId, u: UserId, t: Tuple)
    requires Agrees(s) && Write(s.db, DeleteRole(r)).Done?
    requires forall q, p :: Through(s.db, u, q, p, t) ==> q == r
    ensures var answer := Answer(Mutated(s, DeleteRole(r)), u);
            answer.Done? ==> t !in answer.value.permissions
  {
    var after := Mutated(s, DeleteRole(r));
    MutationKeepsAgreement(s, DeleteRole(r));
    MutationReshapes(s.db, DeleteRole(r));
    SnapshotMeans(after.db, u);
    assert Cached(after, u);
    assert forall q, p :: !Through(after.db, u, q, p, t);
  }

  lemma {:induction false} DeletedPermissionGrantsNothing(s: State, p: PermissionId, u: UserId, t: Tuple)
    requires Agrees(s) && Write(s.db, DeletePermission(p)).Done?
    requires forall r, q :: Through(s.db, u, r, q, t) ==> q == p
    ensures var answer := Answer(Mutated(s, DeletePermission(p)), u);
            answer.Done? ==> t !in answer.value.permissions
  {
    var after := Mutated(s, DeletePermission(p));
    MutationKeepsAgreement(s, DeletePermission(p));
    MutationReshapes(s.db, DeletePermission(p));
    SnapshotMeans(after.db, u);
    assert Cached(after, u);
    assert forall r, q :: !Through(after.db, u, r, q, t);
  }

  // ---------- when the affected users are listed before the write ----------

  // What really happens is a query for the affected users and, later, the write and the deletion of their
  // snapshots. `listed` is what the query found.
  function Committed(s: State, operation: Operation, listed: set<UserId>): State {
    match Write(s.db, operation)
    case Done(db) => State(db, s.cache - listed)
    case Thrown(_) => s
  }

  // A late write keeps the cache in agreement as long as every affected user who has a snapshot by then was
  // listed. A user who joined the role after the query and was authorized before the write breaks it.
  lemma {:induction false} LateWriteKeepsAgreement(s: State, operation: Operation, listed: set<UserId>)
    requires Agrees(s) && IdIsNew(s.db, operation)
    requires Affected(s.db, operation) * s.cache.Keys <= listed
    ensures Agrees(Committed(s, operation, listed))
  {
    if Write(s.db, operation).Done? {
      WriteKeepsConsistent(s.db, operation);
      forall u
        ensures Cached(Committed(s, operation, listed), u)
      {
        assert Cached(s, u);
        if u !in Affected(s.db, operation) {
          OnlyTheNamedAreAffected(s.db, operation, u);
        }
      }
    }
  }

  // When the write really changes the snapshot of each affected user, the condition is also needed.
  lemma {:induction false} LateWriteAgreesIff(s: State, operation: Operation, listed: set<UserId>)
    requires Agrees(s) && IdIsNew(s.db, operation) && Write(s.db, operation).Done?
    requires forall u <- Affected(s.db, operation) :: Fresh(Write(s.db, operation).value, u) != Fresh(s.db, u)
    ensures Agrees(Committed(s, operation, listed)) <==> Affected(s.db, operation) * s.cache.Keys <= listed
  {
    if Affected(s.db, operation) * s.cache.Keys <= listed {
      LateWriteKeepsAgreement(s, operation, listed);
    } else {
      var u :| u in Affected(s.db, operation) * s.cache.Keys && u !in listed;
      assert Cached(s, u);
      assert !Cached(Committed(s, operation, listed), u);
    }
  }

  // Role 1 is empty when its members are listed; then user 1 is assigned to it and authorized; then the late
  // attachment of permission 1 leaves the user's snapshot without it.
  lemma StaleAfterOverlap()
    ensures var db := Database(map[1 := User(1, false, true, false)], map[1 := Role(1, false)],
                               map[1 := Permission(1, 1, false)], {}, {});
            var s := Authorized(Mutated(State(db, map[]), AssignRole(1, 1, 1)), 1);
            && RoleMembers(db, 1) == {} && Agrees(s)
            && !Agrees(Committed(s, AttachPermission(1, 1), RoleMembers(db, 1)))
  {
    var db := Database(map[1 := User(1, false, true, false)], map[1 := Role(1, false)],
                       map[1 := Permission(1, 1, false)], {}, {});
    var joined := Mutated(State(db, map[]), AssignRole(1, 1, 1));
    assert Agrees(State(db, map[]));
    MutationKeepsAgreement(State(db, map[]), AssignRole(1, 1, 1));
    StepKeepsAgreement(joined, Authorize(1));
    var s := Authorized(joined, 1);
    assert s.db.userRoles == {Membership(1, 1)} && s.db.rolePermissions == {};
    assert UserPermissions(s.db, 1) == {};
    var after := Write(s.db, AttachPermission(1, 1)).value;
    assert Joins(after, 1, Membership(1, 1), Grant(1, 1));
    assert Tuple(1, 1) in UserPermissions(after, 1);
    assert !Cached(Committed(s, AttachPermission(1, 1), {}), 1);
  }
}
