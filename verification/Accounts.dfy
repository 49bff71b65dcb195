/**
  The directory of accounts and roles, and what each operation of the user, role and
  password services does to it.  Passwords stand for their hashes.
*/
module Accounts {
  import opened Common
  import opened Authorization

  type UserId = nat
  type RoleId = nat

  datatype Account = Account(
    email: string,
    name: Option<string>,
    password: string,
    changedAt: Option<Time>,
    roles: seq<RoleId>,
    active: bool)

  type People = map<UserId, Account>
  type Roles = map<RoleId, Role>

  datatype Directory = Directory(people: People, roles: Roles, nextUser: UserId, nextRole: RoleId)

  datatype Error =
    | InvalidCredentials
    | ImpersonationRevoked
    | ImpersonationBlocked
    | ImpersonationSelf
    | InsufficientPermissions
    | EmailTaken
    | RoleNotFound
    | UserNotFound
    | PermissionNotFound
    | DuplicateGrant
    | SelfAdminRole
    | CloseOwnAccount
    | PasswordIncorrect
    | RoleNameTaken
    | RoleAdminImmutable
    | RoleBuiltIn
    | RoleHasAccounts

  datatype Result<+T> = Done(value: T) | Refused(error: Error)

  // ----- Lookups -----

  function FindRole(roles: Roles, name: string, below: RoleId): (r: Option<RoleId>)
    ensures r.Some? ==> r.value < below && r.value in roles && roles[r.value].name == name
    ensures r.None? ==> forall id :: id in roles && id < below ==> roles[id].name != name
  {
    if below == 0 then None
    else if below - 1 in roles && roles[below - 1].name == name then Some(below - 1)
    else FindRole(roles, name, below - 1)
  }

  predicate IsOpen(people: People, user: UserId) {
    user in people && people[user].active
  }

  /** Only open accounts hold on to their address. */
  function FindEmail(people: People, email: string, below: UserId): (r: Option<UserId>)
    ensures r.Some? ==> r.value < below && IsOpen(people, r.value) && people[r.value].email == email
    ensures r.None? ==> forall id: UserId :: IsOpen(people, id) && id < below ==> people[id].email != email
  {
    if below == 0 then None
    else if IsOpen(people, below - 1) && people[below - 1].email == email then Some(below - 1)
    else FindEmail(people, email, below - 1)
  }

  function RoleNamed(d: Directory, name: string): Option<RoleId> {
    FindRole(d.roles, name, d.nextRole)
  }

  function Held(roles: Roles, ids: seq<RoleId>): (held: seq<Role>)
    ensures forall g :: g in AllGrants(held) ==> exists id :: id in ids && id in roles && g in roles[id].grants
  {
    if ids == [] then [] else
      var front := Held(roles, ids[..|ids| - 1]);
      var last := ids[|ids| - 1];
      if last in roles then
        assert (front + [roles[last]])[..|front|] == front;
        front + [roles[last]]
      else front
  }

  function RolesOf(d: Directory, user: UserId): seq<Role>
    requires user in d.people
  {
    Held(d.roles, d.people[user].roles)
  }

  predicate HoldsNamed(roles: Roles, ids: seq<RoleId>, name: string) {
    exists i :: 0 <= i < |ids| && ids[i] in roles && roles[ids[i]].name == name
  }

  function Without(roles: Roles, ids: seq<RoleId>, name: string): (kept: seq<RoleId>)
    ensures forall id :: id in kept ==> id in ids
    ensures forall id :: id in ids && id in roles && roles[id].name != name ==> id in kept
    ensures !HoldsNamed(roles, kept, name)
  {
    if ids == [] then []
    else
      var rest := Without(roles, ids[1..], name);
      if ids[0] in roles && roles[ids[0]].name == name then rest else [ids[0]] + rest
  }

  // ----- User service -----

  function Enrol(d: Directory, account: Account): Directory {
    d.(people := d.people[d.nextUser := account], nextUser := d.nextUser + 1)
  }

  function SetAccount(d: Directory, user: UserId, account: Account): Directory {
    d.(people := d.people[user := account])
  }

  function EnrolAs(d: Directory, email: string, name: Option<string>, password: string, role: string): Result<Directory> {
    if FindEmail(d.people, email, d.nextUser).Some? then Refused(EmailTaken)
    else
      match RoleNamed(d, role)
      case None => Refused(RoleNotFound)
      case Some(id) => Done(Enrol(d, Account(email, name, password, None, [id], true)))
  }

  /** The first account ever made becomes the administrator. */
  function Register(d: Directory, email: string, name: Option<string>, password: string): Result<Directory> {
    EnrolAs(d, email, name, password, if d.people == map[] then ADMIN else USER)
  }

  function UpdateProfile(d: Directory, user: UserId, email: Option<string>, name: Option<Option<string>>): Result<Directory>
    requires user in d.people
  {
    var was := d.people[user];
    if email.Some? && email.value != was.email && FindEmail(d.people, email.value, d.nextUser).Some? then
      Refused(EmailTaken)
    else
      Done(SetAccount(d, user, was.(email := if email.Some? then email.value else was.email,
                                    name := if name.Some? then name.value else was.name)))
  }

  function AddRole(d: Directory, user: UserId, name: string): Result<Directory> {
    if !IsOpen(d.people, user) then Refused(UserNotFound)
    else
      match RoleNamed(d, name)
      case None => Refused(RoleNotFound)
      case Some(id) =>
        var was := d.people[user];
        if HoldsNamed(d.roles, was.roles, name) then Done(d)
        else Done(SetAccount(d, user, was.(roles := was.roles + [id])))
  }

  function RemoveRole(d: Directory, actor: UserId, user: UserId, name: string): Result<Directory> {
    if actor == user && name == ADMIN then Refused(SelfAdminRole)
    else if !IsOpen(d.people, user) then Refused(UserNotFound)
    else if RoleNamed(d, name).None? then Refused(RoleNotFound)
    else
      var was := d.people[user];
      Done(SetAccount(d, user, was.(roles := Without(d.roles, was.roles, name))))
  }

  function AddRoleById(d: Directory, user: UserId, role: RoleId): Result<Directory> {
    if role !in d.roles then Refused(RoleNotFound) else AddRole(d, user, d.roles[role].name)
  }

  function RemoveRoleById(d: Directory, actor: UserId, user: UserId, role: RoleId): Result<Directory> {
    if role !in d.roles then Refused(RoleNotFound) else RemoveRole(d, actor, user, d.roles[role].name)
  }

  function Close(d: Directory, user: UserId): Directory
    requires user in d.people
  {
    SetAccount(d, user, d.people[user].(active := false))
  }

  function Deactivate(d: Directory, user: UserId, password: string): Result<Directory>
    requires user in d.people
  {
    if password != d.people[user].password then Refused(PasswordIncorrect) else Done(Close(d, user))
  }

  function RemoveUser(d: Directory, actor: UserId, user: UserId): Result<Directory>
    requires actor in d.people
  {
    if !IsOpen(d.people, user) then Refused(UserNotFound)
    else if user == actor then Refused(CloseOwnAccount)
    else if !Outranks(RolesOf(d, actor), RolesOf(d, user)) then Refused(InsufficientPermissions)
    else Done(Close(d, user))
  }

  // ----- Passwords -----

  function MovePassword(d: Directory, user: UserId, password: string, now: Time): Directory
    requires user in d.people
  {
    SetAccount(d, user, d.people[user].(password := password, changedAt := Some(now)))
  }

  function ChangePassword(d: Directory, user: UserId, current: string, password: string, now: Time): Result<Directory>
    requires user in d.people
  {
    if current != d.people[user].password then Refused(PasswordIncorrect)
    else Done(MovePassword(d, user, password, now))
  }

  // ----- Role service -----

  predicate NoPermissionTwice(gs: seq<Grant>) {
    forall i, j :: 0 <= i < j < |gs| ==> gs[i].permission != gs[j].permission
  }

  /** A grant names a known permission, and the table holds one row per (role, permission). */
  function CheckGrants(cat: seq<Permission>, gs: seq<Grant>): Option<Error> {
    if !(forall g :: g in gs ==> g.permission in cat) then Some(PermissionNotFound)
    else if !NoPermissionTwice(gs) then Some(DuplicateGrant)
    else None
  }

  function CreateRole(cat: seq<Permission>, d: Directory, data: Role): Result<Directory> {
    if RoleNamed(d, data.name).Some? then Refused(RoleNameTaken)
    else if CheckGrants(cat, data.grants).Some? then Refused(CheckGrants(cat, data.grants).value)
    else Done(d.(roles := d.roles[d.nextRole := data], nextRole := d.nextRole + 1))
  }

  function UpdateRole(cat: seq<Permission>, d: Directory, id: RoleId, data: Role): Result<Directory> {
    if id !in d.roles then Refused(RoleNotFound)
    else if d.roles[id].name == ADMIN then Refused(RoleAdminImmutable)
    else if RoleNamed(d, data.name).Some? && RoleNamed(d, data.name).value != id then Refused(RoleNameTaken)
    else if CheckGrants(cat, data.grants).Some? then Refused(CheckGrants(cat, data.grants).value)
    else Done(d.(roles := d.roles[id := data]))
  }

  predicate HasMembers(people: People, id: RoleId) {
    exists u :: u in people && people[u].active && id in people[u].roles
  }

  function Drop(ids: seq<RoleId>, id: RoleId): (kept: seq<RoleId>)
    ensures forall x :: x in kept ==> x in ids && x != id
  {
    if ids == [] then [] else if ids[0] == id then Drop(ids[1..], id) else [ids[0]] + Drop(ids[1..], id)
  }

  /** Closed accounts do not keep a role alive: their links go with it. */
  function DropLinks(people: People, id: RoleId): People {
    map u | u in people :: people[u].(roles := Drop(people[u].roles, id))
  }

  function DeleteRole(d: Directory, id: RoleId): Result<Directory> {
    if id !in d.roles then Refused(RoleNotFound)
    else if d.roles[id].name in {USER, ADMIN} then Refused(RoleBuiltIn)
    else if HasMembers(d.people, id) then Refused(RoleHasAccounts)
    else Done(d.(roles := d.roles - {id}, people := DropLinks(d.people, id)))
  }

  // ----- What every operation keeps -----

  ghost predicate NamesDiffer(roles: Roles) {
    forall a, b :: a in roles && b in roles && roles[a].name == roles[b].name ==> a == b
  }

  ghost predicate EmailsDiffer(people: People) {
    forall a, b :: IsOpen(people, a) && IsOpen(people, b) && people[a].email == people[b].email ==> a == b
  }

  ghost predicate LinksExist(people: People, roles: Roles) {
    forall u, id :: u in people && id in people[u].roles ==> id in roles
  }

  ghost predicate GrantsKnown(cat: seq<Permission>, roles: Roles) {
    forall id :: id in roles ==> Catalogued(roles[id].grants, cat)
  }

  ghost predicate Numbered(d: Directory) {
    && (forall u :: u in d.people ==> u < d.nextUser)
    && (forall id :: id in d.roles ==> id < d.nextRole)
  }

  ghost predicate WellFormed(cat: seq<Permission>, d: Directory) {
    && Numbered(d)
    && NamesDiffer(d.roles)
    && EmailsDiffer(d.people)
    && LinksExist(d.people, d.roles)
    && GrantsKnown(cat, d.roles)
  }

  /** The administrator role, once there, is never renamed, rewritten or deleted. */
  ghost predicate AdminRoleIs(d: Directory, id: RoleId, gs: seq<Grant>) {
    id in d.roles && d.roles[id] == Role(ADMIN, gs)
  }

  /** `to` follows from `from` as far as the invariants go. */
  ghost predicate Keeps(cat: seq<Permission>, from: Directory, to: Directory) {
    && WellFormed(cat, to)
    && (forall id, gs :: AdminRoleIs(from, id, gs) ==> AdminRoleIs(to, id, gs))
  }

  lemma EnrolKeeps(cat: seq<Permission>, d: Directory, email: string, name: Option<string>, password: string, role: string)
    requires WellFormed(cat, d) && EnrolAs(d, email, name, password, role).Done?
    ensures Keeps(cat, d, EnrolAs(d, email, name, password, role).value)
  {
  }

  lemma SetAccountKeeps(cat: seq<Permission>, d: Directory, user: UserId, account: Account)
    requires WellFormed(cat, d) && user in d.people
    requires forall id :: id in account.roles ==> id in d.roles
    requires account.active ==> d.people[user].active
    requires account.active && account.email != d.people[user].email ==> FindEmail(d.people, account.email, d.nextUser).None?
    ensures Keeps(cat, d, SetAccount(d, user, account))
  {
  }

  lemma UserServiceKeeps(cat: seq<Permission>, d: Directory, actor: UserId, user: UserId, role: string, password: string)
    requires WellFormed(cat, d) && user in d.people && actor in d.people
    ensures AddRole(d, user, role).Done? ==> Keeps(cat, d, AddRole(d, user, role).value)
    ensures RemoveRole(d, actor, user, role).Done? ==> Keeps(cat, d, RemoveRole(d, actor, user, role).value)
    ensures Deactivate(d, user, password).Done? ==> Keeps(cat, d, Deactivate(d, user, password).value)
    ensures RemoveUser(d, actor, user).Done? ==> Keeps(cat, d, RemoveUser(d, actor, user).value)
  {
    var was := d.people[user];
    SetAccountKeeps(cat, d, user, was.(active := false));
    SetAccountKeeps(cat, d, user, was.(roles := Without(d.roles, was.roles, role)));
    if RoleNamed(d, role).Some? {
      SetAccountKeeps(cat, d, user, was.(roles := was.roles + [RoleNamed(d, role).value]));
    }
  }

  lemma CreateRoleKeeps(cat: seq<Permission>, d: Directory, data: Role)
    requires WellFormed(cat, d) && CreateRole(cat, d, data).Done?
    ensures Keeps(cat, d, CreateRole(cat, d, data).value)
  {
  }

  lemma UpdateRoleKeeps(cat: seq<Permission>, d: Directory, id: RoleId, data: Role)
    requires WellFormed(cat, d) && UpdateRole(cat, d, id, data).Done?
    ensures Keeps(cat, d, UpdateRole(cat, d, id, data).value)
  {
  }

  lemma DeleteRoleKeeps(cat: seq<Permission>, d: Directory, id: RoleId)
    requires WellFormed(cat, d) && DeleteRole(d, id).Done?
    ensures Keeps(cat, d, DeleteRole(d, id).value)
  {
  }

  lemma {:induction false} DropAbsent(ids: seq<RoleId>, id: RoleId)
    requires id !in ids
    ensures Drop(ids, id) == ids
  {
    if ids != [] {
      DropAbsent(ids[1..], id);
    }
  }

  /** Deleting a role changes nobody's standing among the open accounts. */
  lemma DeleteRoleTouchesNoOpenAccount(d: Directory, id: RoleId, user: UserId)
    requires DeleteRole(d, id).Done? && IsOpen(d.people, user)
    ensures DeleteRole(d, id).value.people[user] == d.people[user]
  {
    DropAbsent(d.people[user].roles, id);
  }

  /** What an account's permission listing needs: its grants refer to known permissions. */
  lemma GrantsAreCatalogued(cat: seq<Permission>, d: Directory, user: UserId)
    requires WellFormed(cat, d) && user in d.people
    ensures Catalogued(AllGrants(RolesOf(d, user)), cat)
  {
  }

  // ----- Who may close an account or move a password -----

  /** Somebody else's open account, and only one that does not outrank the caller, is closed with everything else kept. */
  lemma RemovalExactlyWhen(d: Directory, actor: UserId, user: UserId)
    requires actor in d.people
    ensures var r := RemoveUser(d, actor, user);
      && (r.Done? <==> user in d.people && d.people[user].active && user != actor
                       && (IsSuperuser(RolesOf(d, user)) ==> IsSuperuser(RolesOf(d, actor))))
      && (r.Done? ==> r.value == d.(people := d.people[user := d.people[user].(active := false)]))
  {
  }

  /** The present password opens both doors, and nothing else does. */
  lemma PasswordExactlyWhen(d: Directory, user: UserId, given: string, password: string, now: Time)
    requires user in d.people
    ensures ChangePassword(d, user, given, password, now)
         == if given != d.people[user].password then Refused(PasswordIncorrect)
            else Done(d.(people := d.people[user := d.people[user].(password := password, changedAt := Some(now))]))
    ensures Deactivate(d, user, given)
         == if given != d.people[user].password then Refused(PasswordIncorrect)
            else Done(d.(people := d.people[user := d.people[user].(active := false)]))
  {
  }

  // ----- Which role writes are accepted -----

  /** Known permissions, none of them twice. */
  ghost predicate GoodGrants(cat: seq<Permission>, gs: seq<Grant>) {
    && (forall i :: 0 <= i < |gs| ==> gs[i].permission in cat)
    && (forall i, j :: 0 <= i < |gs| && 0 <= j < |gs| && i != j ==> gs[i].permission != gs[j].permission)
  }

  /** A role is created exactly when its name is free and its grants are good, under the next number. */
  lemma CreatedExactlyWhen(cat: seq<Permission>, d: Directory, data: Role)
    requires WellFormed(cat, d)
    ensures var r := CreateRole(cat, d, data);
      && (r.Done? <==> (forall id :: id in d.roles ==> d.roles[id].name != data.name) && GoodGrants(cat, data.grants))
      && (r.Done? ==> r.value == d.(roles := d.roles[d.nextRole := data], nextRole := d.nextRole + 1))
  {
    assert forall i :: 0 <= i < |data.grants| ==> data.grants[i] in data.grants;
  }

  /** It is edited exactly when it exists, is not the administrator's, and the new name and grants are good. */
  lemma EditedExactlyWhen(cat: seq<Permission>, d: Directory, id: RoleId, data: Role)
    requires WellFormed(cat, d)
    ensures var r := UpdateRole(cat, d, id, data);
      && (r.Done? <==> id in d.roles && d.roles[id].name != "superadmin" && GoodGrants(cat, data.grants)
                       && (forall other :: other in d.roles && other != id ==> d.roles[other].name != data.name))
      && (r.Done? ==> r.value == d.(roles := d.roles[id := data]))
  {
    assert forall i :: 0 <= i < |data.grants| ==> data.grants[i] in data.grants;
  }

  /** And deleted exactly when it is not built in and no open account holds it. */
  lemma DeletedExactlyWhen(d: Directory, id: RoleId)
    ensures var r := DeleteRole(d, id);
      && (r.Done? <==> id in d.roles && d.roles[id].name != "user" && d.roles[id].name != "superadmin"
                       && (forall u :: u in d.people && d.people[u].active ==> id !in d.people[u].roles))
      && (r.Done? ==> r.value.roles == d.roles - {id} && r.value.people.Keys == d.people.Keys)
  {
  }

  /** Membership by number is membership by the name it stands for. */
  lemma ByNumberIsByName(d: Directory, actor: UserId, user: UserId, id: RoleId)
    requires id in d.roles
    ensures AddRoleById(d, user, id) == AddRole(d, user, d.roles[id].name)
    ensures RemoveRoleById(d, actor, user, id) == RemoveRole(d, actor, user, d.roles[id].name)
  {
  }

  // ----- Granting and taking roles -----

  lemma {:induction false} WithoutLast(roles: Roles, ids: seq<RoleId>, id: RoleId, name: string)
    requires !HoldsNamed(roles, ids, name) && id in roles && roles[id].name == name
    ensures Without(roles, ids + [id], name) == ids
  {
    if ids == [] {
      assert (ids + [id])[1..] == [];
    } else {
      assert (ids + [id])[1..] == ids[1..] + [id];
      assert !HoldsNamed(roles, ids[1..], name) by {
        assert forall i :: 0 <= i < |ids[1..]| ==> ids[1..][i] == ids[i + 1];
      }
      WithoutLast(roles, ids[1..], id, name);
      assert (ids + [id])[0] == ids[0] && !(ids[0] in roles && roles[ids[0]].name == name);
      assert ids == [ids[0]] + ids[1..];
    }
  }

  /** Taking back a role that was just granted restores the directory exactly. */
  lemma GrantThenTake(d: Directory, actor: UserId, user: UserId, role: string)
    requires AddRole(d, user, role).Done? && !HoldsNamed(d.roles, d.people[user].roles, role)
    requires !(actor == user && role == ADMIN)
    ensures RemoveRole(AddRole(d, user, role).value, actor, user, role) == Done(d)
  {
    var id := RoleNamed(d, role).value;
    WithoutLast(d.roles, d.people[user].roles, id, role);
    var was := d.people[user];
    var given := was.(roles := was.roles + [id]);
    assert AddRole(d, user, role).value == SetAccount(d, user, given);
    assert given.(roles := was.roles) == was;
    assert d.people[user := given][user := was] == d.people;
  }

  /** Granting a role never narrows what an account may do, and touches no other account. */
  lemma GrantingNeverNarrows(d: Directory, user: UserId, role: string, other: UserId, p: Permission)
    requires AddRole(d, user, role).Done? && other in d.people
    ensures var t := AddRole(d, user, role).value;
      && AtMost(ScopeFor(RolesOf(d, other), p), ScopeFor(RolesOf(t, other), p))
      && (other != user ==> t.people[other] == d.people[other])
  {
    var t := AddRole(d, user, role).value;
    if other == user && t.people[user] != d.people[user] {
      var ids, id := d.people[user].roles, RoleNamed(d, role).value;
      assert (ids + [id])[..|ids|] == ids;
      var before := Held(d.roles, ids);
      assert Held(d.roles, ids + [id]) == before + [d.roles[id]];
      AddingARoleNeverNarrows(before, d.roles[id], [], p);
      assert before + [] == before && before + [d.roles[id]] + [] == before + [d.roles[id]];
    }
  }

  // ----- The ordinary role is less protected than the administrator's -----

  /** Deleting it is refused, but an edit may rename it away: the role survives exactly when the edit keeps its name. */
  lemma OrdinaryRoleSurvivesExactlyWhen(cat: seq<Permission>, d: Directory, id: RoleId, data: Role)
    requires WellFormed(cat, d) && RoleNamed(d, USER).Some?
    ensures UpdateRole(cat, d, id, data).Done? ==>
      (RoleNamed(UpdateRole(cat, d, id, data).value, USER).Some? <==> (d.roles[id].name == USER ==> data.name == USER))
    ensures DeleteRole(d, id).Done? ==> RoleNamed(DeleteRole(d, id).value, USER).Some?
  {
    var kept := RoleNamed(d, USER).value;
    if UpdateRole(cat, d, id, data).Done? {
      var t := UpdateRole(cat, d, id, data).value;
      assert kept != id ==> kept in t.roles && t.roles[kept].name == USER;
      assert id in t.roles && t.roles[id] == data;
    }
    if DeleteRole(d, id).Done? {
      assert kept in DeleteRole(d, id).value.roles;
    }
  }

  /** Registration fails after an accepted edit exactly when the edit renamed the ordinary role. */
  lemma RegistrationFailsExactlyWhenRenamed(
    cat: seq<Permission>, d: Directory, id: RoleId, data: Role, email: string, name: Option<string>, password: string)
    requires WellFormed(cat, d) && RoleNamed(d, USER).Some? && d.people != map[]
    requires UpdateRole(cat, d, id, data).Done? && FindEmail(d.people, email, d.nextUser).None?
    ensures Register(UpdateRole(cat, d, id, data).value, email, name, password) == Refused(RoleNotFound)
       <==> d.roles[id].name == USER && data.name != USER
  {
    OrdinaryRoleSurvivesExactlyWhen(cat, d, id, data);
  }

  /** A seeded deployment with one account. */
  function OneAccount(): Directory {
    Directory(map[0 := Account("a", None, "", None, [1], true)], map[0 := Role(USER, []), 1 := Role(ADMIN, [])], 1, 2)
  }

  /** For one: the administrator renames the ordinary role, and nobody can register any more. */
  lemma RenamedAway()
    ensures WellFormed([], OneAccount()) && Register(OneAccount(), "b", None, "").Done?
    ensures var edit := UpdateRole([], OneAccount(), 0, Role("staff", []));
      edit.Done? && Register(edit.value, "b", None, "") == Refused(RoleNotFound)
  {
    var d := OneAccount();
    assert d.people[0].email == "a";
    assert "a" != "b" by {
      assert "a"[0] != "b"[0];
    }
    assert "staff" != USER && "staff" != ADMIN && USER != ADMIN by {
      assert |"staff"| == 5 && |USER| == 4 && |ADMIN| == 10;
    }
    assert 0 in d.roles && d.roles[0].name == USER;
    RegistrationFailsExactlyWhenRenamed([], d, 0, Role("staff", []), "b", None, "");
  }

  // ----- The services over their tables -----

  /** A call either brings about exactly what its specification says, or reports the error and changes nothing. */
  ghost predicate Settled(was: Directory, now: Directory, spec: Result<Directory>, error: Option<Error>) {
    match spec
    case Done(d) => error.None? && now == d
    case Refused(e) => error == Some(e) && now == was
  }

  class AccountStore {
    const cat: seq<Permission>
    var people: People
    var roles: Roles
    var nextUser: UserId
    var nextRole: RoleId

    ghost function Dir(): Directory
      reads this
    {
      Directory(people, roles, nextUser, nextRole)
    }

    ghost predicate Valid()
      reads this
    {
      WellFormed(cat, Dir())
    }

    /** A freshly seeded deployment: the two built-in roles and no account. */
    constructor (cat: seq<Permission>, ordinary: seq<Grant>, admin: seq<Grant>)
      requires Catalogued(ordinary, cat) && Catalogued(admin, cat)
      ensures Valid() && this.cat == cat && people == map[]
      ensures roles == map[0 := Role(USER, ordinary), 1 := Role(ADMIN, admin)]
      ensures AdminRoleIs(Dir(), 1, admin)
    {
      this.cat := cat;
      people := map[];
      roles := map[0 := Role(USER, ordinary), 1 := Role(ADMIN, admin)];
      nextUser := 0;
      nextRole := 2;
    }

    method RegisterAccount(email: string, name: Option<string>, password: string) returns (error: Option<Error>)
      requires Valid()
      modifies this
      ensures Settled(old(Dir()), Dir(), Register(old(Dir()), email, name, password), error)
      ensures Keeps(cat, old(Dir()), Dir())
    {
      if FindEmail(people, email, nextUser).Some? {
        return Some(EmailTaken);
      }
      var first := people == map[];
      var role := FindRole(roles, if first then ADMIN else USER, nextRole);
      if role.None? {
        return Some(RoleNotFound);
      }
      EnrolKeeps(cat, Dir(), email, name, password, if first then ADMIN else USER);
      people := people[nextUser := Account(email, name, password, None, [role.value], true)];
      nextUser := nextUser + 1;
      error := None;
    }

    method Update(user: UserId, email: Option<string>, name: Option<Option<string>>) returns (error: Option<Error>)
      requires Valid() && user in people
      modifies this`people
      ensures Settled(old(Dir()), Dir(), UpdateProfile(old(Dir()), user, email, name), error)
      ensures Keeps(cat, old(Dir()), Dir())
    {
      var account := people[user];
      if email.Some? && email.value != account.email {
        if FindEmail(people, email.value, nextUser).Some? {
          return Some(EmailTaken);
        }
        account := account.(email := email.value);
      }
      if name.Some? {
        account := account.(name := name.value);
      }
      SetAccountKeeps(cat, Dir(), user, account);
      people := people[user := account];
      error := None;
    }

    method GiveRole(user: UserId, role: string) returns (error: Option<Error>)
      requires Valid()
      modifies this`people
      ensures Settled(old(Dir()), Dir(), AddRole(old(Dir()), user, role), error)
      ensures Keeps(cat, old(Dir()), Dir())
    {
      if !IsOpen(people, user) {
        return Some(UserNotFound);
      }
      var id := FindRole(roles, role, nextRole);
      if id.None? {
        return Some(RoleNotFound);
      }
      var account := people[user];
      if !HoldsNamed(roles, account.roles, role) {
        UserServiceKeeps(cat, Dir(), user, user, role, "");
        people := people[user := account.(roles := account.roles + [id.value])];
      }
      error := None;
    }

    method TakeRole(actor: UserId, user: UserId, role: string) returns (error: Option<Error>)
      requires Valid()
      modifies this`people
      ensures Settled(old(Dir()), Dir(), RemoveRole(old(Dir()), actor, user, role), error)
      ensures Keeps(cat, old(Dir()), Dir())
    {
      if actor == user && role == ADMIN {
        return Some(SelfAdminRole);
      }
      if !IsOpen(people, user) {
        return Some(UserNotFound);
      }
      if FindRole(roles, role, nextRole).None? {
        return Some(RoleNotFound);
      }
      var account := people[user];
      var kept := Without(roles, account.roles, role);
      SetAccountKeeps(cat, Dir(), user, account.(roles := kept));
      people := people[user := account.(roles := kept)];
      error := None;
    }

    method Remove(actor: UserId, user: UserId) returns (error: Option<Error>)
      requires Valid() && actor in people
      modifies this`people
      ensures Settled(old(Dir()), Dir(), RemoveUser(old(Dir()), actor, user), error)
      ensures Keeps(cat, old(Dir()), Dir())
    {
      if !IsOpen(people, user) {
        return Some(UserNotFound);
      }
      if user == actor {
        return Some(CloseOwnAccount);
      }
      if !Outranks(Held(roles, people[actor].roles), Held(roles, people[user].roles)) {
        return Some(InsufficientPermissions);
      }
      SetAccountKeeps(cat, Dir(), user, people[user].(active := false));
      people := people[user := people[user].(active := false)];
      error := None;
    }

    /** The wanted grants, one at a time, each looked up in the catalogue. */
    method CollectGrants(wanted: seq<Grant>) returns (grants: seq<Grant>, error: Option<Error>)
      ensures error.None? <==> Catalogued(wanted, cat)
      ensures error.None? ==> grants == wanted
      ensures error.Some? ==> error == Some(PermissionNotFound)
    {
      grants := [];
      for i := 0 to |wanted|
        invariant grants == wanted[..i]
        invariant Catalogued(wanted[..i], cat)
      {
        assert wanted[i] in wanted;
        if wanted[i].permission !in cat {
          return [], Some(PermissionNotFound);
        }
        grants := grants + [wanted[i]];
      }
      error := None;
    }

    method RewriteRole(id: RoleId, data: Role) returns (error: Option<Error>)
      requires Valid()
      modifies this`roles
      ensures Settled(old(Dir()), Dir(), UpdateRole(cat, old(Dir()), id, data), error)
      ensures Keeps(cat, old(Dir()), Dir())
    {
      if id !in roles {
        return Some(RoleNotFound);
      }
      if roles[id].name == ADMIN {
        return Some(RoleAdminImmutable);
      }
      var taken := FindRole(roles, data.name, nextRole);
      if taken.Some? && taken.value != id {
        return Some(RoleNameTaken);
      }
      var grants, missing := CollectGrants(data.grants);
      if missing.Some? {
        return missing;
      }
      if !NoPermissionTwice(grants) {
        return Some(DuplicateGrant);
      }
      UpdateRoleKeeps(cat, Dir(), id, data);
      roles := roles[id := Role(data.name, grants)];
      error := None;
    }
  }
}
