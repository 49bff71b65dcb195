/**
  Acting as somebody else.  An access token may carry the account that asked for it (the
  `act` claim of section 4.1 of RFC 8693).  The model covers every authenticated route with
  the guard it declares, the public routes and operator commands that change accounts, and
  whole runs of them.  A presented token is one that was minted: signatures are unforgeable.
*/
module Impersonation {
  import opened Common
  import opened Authorization
  import opened Accounts
  import Sessions

  /** `act` is the impersonator; times are whole seconds. */
  datatype Token = Token(sub: UserId, act: Option<UserId>, iat: int, exp: int)

  datatype Kind = Start | Stop

  /** An entry of the trail: who acted, on whose behalf, on which account, when. */
  datatype Event = Event(kind: Kind, actor: UserId, impersonator: Option<UserId>, target: UserId, at: Time)

  datatype Config = Config(cat: seq<Permission>, accessLife: nat, impersonationLife: nat)

  /** `items` and `preferences` are opaque: what matters is whose they are. */
  datatype State = State(
    clock: Time,
    dir: Directory,
    minted: set<Token>,
    items: map<UserId, seq<string>>,
    preferences: map<UserId, string>,
    trail: seq<Event>)

  // ----- Who is calling -----

  datatype Actor = Actor(user: UserId, impersonator: Option<UserId>)

  predicate Loadable(people: People, user: UserId, iat: int) {
    IsOpen(people, user) && !Sessions.MovedAfter(people[user].changedAt, iat)
  }

  predicate MayActAs(d: Directory, actor: UserId, target: UserId)
    requires actor in d.people && target in d.people
  {
    MayImpersonate(RolesOf(d, actor), RolesOf(d, target))
  }

  function GetActor(s: State, token: Token): Result<Actor> {
    if token !in s.minted || token.exp * Sessions.SECOND <= s.clock then Refused(InvalidCredentials)
    else if !Loadable(s.dir.people, token.sub, token.iat) then Refused(InvalidCredentials)
    else
      match token.act
      case None => Done(Actor(token.sub, None))
      case Some(other) =>
        if !Loadable(s.dir.people, other, token.iat) then Refused(InvalidCredentials)
        else if !MayActAs(s.dir, other, token.sub) then Refused(ImpersonationRevoked)
        else Done(Actor(token.sub, Some(other)))
  }

  // ----- Routes and their guards -----

  datatype Route =
    | ReadMe
    | UpdateMe(email: Option<string>, name: Option<Option<string>>)
    | DeactivateMe(password: string)
    | ReadPreferences
    | UpdatePreferences(preferences: string)
    | ReadPermissions
    | ListFeatures
    | ListUsers
    | ReadUser(user: UserId)
    | ReadUserFeatures(user: UserId)
    | UpdateUserFeatures(user: UserId, preferences: string)
    | DeleteUser(user: UserId)
    | AddUserRole(user: UserId, role: string)
    | RemoveUserRole(user: UserId, role: string)
    | StopImpersonating
    | Impersonate(user: UserId)
    | ReplacePassword(current: string, password: string)
    | ResendVerification
    | ListPermissions
    | ListRoles
    | ReadRole(id: RoleId)
    | PostRole(data: Role)
    | PutRole(id: RoleId, data: Role)
    | RemoveRoleRow(id: RoleId)
    | ListMembers(id: RoleId)
    | AddMember(id: RoleId, user: UserId)
    | RemoveMember(id: RoleId, user: UserId)
    | ReadItems
    | WriteItems(items: seq<string>)
    | ReadRequests
    | ReadTrail

  datatype Guard = Guard(forbidImpersonation: bool, needs: seq<Permission>)

  function GuardOf(route: Route): Guard {
    match route
    case UpdateMe(_, _) | DeactivateMe(_) | ReplacePassword(_, _) | ResendVerification => Guard(true, [])
    case ListUsers | ReadUser(_) => Guard(false, [USERS_READ])
    case ReadUserFeatures(_) => Guard(false, [USERS_READ, FEATURE_FLAGS_READ])
    case UpdateUserFeatures(_, _) => Guard(false, [FEATURE_FLAGS_UPDATE])
    case DeleteUser(_) => Guard(false, [USERS_DELETE])
    case AddUserRole(_, _) | RemoveUserRole(_, _) => Guard(false, [USERS_UPDATE])
    case Impersonate(_) => Guard(false, [USERS_IMPERSONATE])
    case ListPermissions | ListRoles | ReadRole(_) | ListMembers(_) => Guard(false, [ROLES_READ])
    case PostRole(_) => Guard(false, [ROLES_CREATE])
    case PutRole(_, _) | AddMember(_, _) | RemoveMember(_, _) => Guard(false, [ROLES_UPDATE])
    case RemoveRoleRow(_) => Guard(false, [ROLES_DELETE])
    case ReadRequests => Guard(false, [REQUEST_LOG_READ])
    case ReadTrail => Guard(false, [AUDIT_LOG_READ])
    case ReadMe | ReadPreferences | UpdatePreferences(_) | ReadPermissions | ListFeatures => Guard(false, [])
    case StopImpersonating | ReadItems | WriteItems(_) => Guard(false, [])
  }

  /** One `require_permission` after another; the first refusal counts. */
  function CheckNeeds(roles: seq<Role>, impersonated: bool, needs: seq<Permission>): Option<Error> {
    if needs == [] then None
    else if impersonated && needs[0] in BLOCKED_WHILE_IMPERSONATING then Some(ImpersonationBlocked)
    else if ScopeFor(roles, needs[0]).None? then Some(InsufficientPermissions)
    else CheckNeeds(roles, impersonated, needs[1..])
  }

  function CheckGuard(d: Directory, actor: Actor, guard: Guard): Option<Error>
    requires actor.user in d.people
  {
    if guard.forbidImpersonation && actor.impersonator.Some? then Some(ImpersonationBlocked)
    else CheckNeeds(RolesOf(d, actor.user), actor.impersonator.Some?, guard.needs)
  }

  // ----- What a route does once it is let through -----

  function InDirectory(s: State, r: Result<Directory>): Result<State> {
    match r
    case Done(d) => Done(s.(dir := d))
    case Refused(e) => Refused(e)
  }

  /** An account closes together with what it owns. */
  function Closing(s: State, r: Result<Directory>, user: UserId): Result<State> {
    match r
    case Done(d) => Done(s.(dir := d, items := s.items - {user}))
    case Refused(e) => Refused(e)
  }

  function Mint(s: State, sub: UserId, act: Option<UserId>, life: nat): Token {
    Token(sub, act, Sessions.Seconds(s.clock), Sessions.Seconds(s.clock + life))
  }

  function BeginImpersonation(cfg: Config, s: State, actor: Actor, target: UserId): Result<State>
    requires actor.user in s.dir.people
  {
    if !IsOpen(s.dir.people, target) then Refused(UserNotFound)
    else if target == actor.user then Refused(ImpersonationSelf)
    else if !MayActAs(s.dir, actor.user, target) then Refused(InsufficientPermissions)
    else
      Done(s.(minted := s.minted + {Mint(s, target, Some(actor.user), cfg.impersonationLife)},
              trail := s.trail + [Event(Start, actor.user, actor.impersonator, target, s.clock)]))
  }

  function Perform(cfg: Config, s: State, actor: Actor, route: Route): Result<State>
    requires actor.user in s.dir.people
  {
    match route
    case UpdateMe(email, name) => InDirectory(s, UpdateProfile(s.dir, actor.user, email, name))
    case DeactivateMe(password) => Closing(s, Deactivate(s.dir, actor.user, password), actor.user)
    case ReplacePassword(current, password) =>
      InDirectory(s, ChangePassword(s.dir, actor.user, current, password, s.clock))
    case UpdatePreferences(p) => Done(s.(preferences := s.preferences[actor.user := p]))
    case UpdateUserFeatures(user, p) =>
      if !IsOpen(s.dir.people, user) then Refused(UserNotFound) else Done(s.(preferences := s.preferences[user := p]))
    case ReadUser(user) => if IsOpen(s.dir.people, user) then Done(s) else Refused(UserNotFound)
    case ReadUserFeatures(user) => if IsOpen(s.dir.people, user) then Done(s) else Refused(UserNotFound)
    case DeleteUser(user) => Closing(s, RemoveUser(s.dir, actor.user, user), user)
    case AddUserRole(user, role) => InDirectory(s, AddRole(s.dir, user, role))
    case RemoveUserRole(user, role) => InDirectory(s, RemoveRole(s.dir, actor.user, user, role))
    case Impersonate(user) => BeginImpersonation(cfg, s, actor, user)
    case StopImpersonating =>
      if actor.impersonator.None? then Done(s)
      else Done(s.(trail := s.trail + [Event(Stop, actor.user, actor.impersonator, actor.user, s.clock)]))
    case PostRole(data) => InDirectory(s, CreateRole(cfg.cat, s.dir, data))
    case PutRole(id, data) => InDirectory(s, UpdateRole(cfg.cat, s.dir, id, data))
    case RemoveRoleRow(id) => InDirectory(s, DeleteRole(s.dir, id))
    case AddMember(id, user) => InDirectory(s, AddRoleById(s.dir, user, id))
    case RemoveMember(id, user) => InDirectory(s, RemoveRoleById(s.dir, actor.user, user, id))
    case ReadRole(id) => if id in s.dir.roles then Done(s) else Refused(RoleNotFound)
    case ListMembers(id) => if id in s.dir.roles then Done(s) else Refused(RoleNotFound)
    case WriteItems(items) => Done(s.(items := s.items[actor.user := items]))
    case ReadMe | ReadPreferences | ReadPermissions | ListFeatures | ListUsers | ResendVerification => Done(s)
    case ListPermissions | ListRoles | ReadItems | ReadRequests | ReadTrail => Done(s)
  }

  function Handle(cfg: Config, s: State, token: Token, route: Route): Result<State> {
    match GetActor(s, token)
    case Refused(e) => Refused(e)
    case Done(actor) =>
      match CheckGuard(s.dir, actor, GuardOf(route))
      case Some(e) => Refused(e)
      case None => Perform(cfg, s, actor, route)
  }

  // ----- Whole runs -----

  datatype Action =
    | Tick(elapsed: nat)
    | SignUp(email: string, name: Option<string>, password: string)
    /** A sign-in or a refresh: which of them succeed is the business of the session store. */
    | SignIn(user: UserId)
    | ResetPassword(user: UserId, password: string)
    | CreateSuperuser(email: string, password: string)
    | GrantRole(user: UserId, role: string)
    | Request(token: Token, route: Route)

  function Settle(s: State, r: Result<State>): State {
    if r.Done? then r.value else s
  }

  function Next(cfg: Config, s: State, act: Action): State {
    match act
    case Tick(elapsed) => s.(clock := s.clock + elapsed)
    case SignUp(email, name, password) => Settle(s, InDirectory(s, Register(s.dir, email, name, password)))
    case SignIn(user) =>
      if IsOpen(s.dir.people, user) then s.(minted := s.minted + {Mint(s, user, None, cfg.accessLife)}) else s
    case ResetPassword(user, password) =>
      if IsOpen(s.dir.people, user) then s.(dir := MovePassword(s.dir, user, password, s.clock)) else s
    case CreateSuperuser(email, password) => Settle(s, InDirectory(s, EnrolAs(s.dir, email, None, password, ADMIN)))
    case GrantRole(user, role) => Settle(s, InDirectory(s, AddRole(s.dir, user, role)))
    case Request(token, route) => Settle(s, Handle(cfg, s, token, route))
  }

  function Exec(cfg: Config, s: State, acts: seq<Action>): State {
    if acts == [] then s else Next(cfg, Exec(cfg, s, acts[..|acts| - 1]), acts[|acts| - 1])
  }

  // ----- What each kind of route may touch -----

  /** What a caller does to its own account. */
  predicate OwnRoute(route: Route) {
    route.UpdateMe? || route.DeactivateMe? || route.ReplacePassword?
  }

  /** What is done to somebody's account or membership. */
  predicate MemberRoute(route: Route) {
    route.DeleteUser? || route.AddUserRole? || route.RemoveUserRole? || route.AddMember? || route.RemoveMember?
  }

  predicate RoleRoute(route: Route) {
    route.PostRole? || route.PutRole? || route.RemoveRoleRow?
  }

  /** Routes that write more than the caller's own. */
  predicate WritesOthers(route: Route) {
    MemberRoute(route) || RoleRoute(route) || route.Impersonate? || route.UpdateUserFeatures?
  }

  /** Nobody else's items or preferences change. */
  ghost predicate OnlyOwnThings(s: State, t: State, user: UserId) {
    && (forall u :: u != user ==> (u in t.items <==> u in s.items) && (u in s.items ==> t.items[u] == s.items[u]))
    && (forall u :: u != user ==> (u in t.preferences <==> u in s.preferences))
    && (forall u :: u != user && u in s.preferences ==> t.preferences[u] == s.preferences[u])
  }

  /** Accounts, roles and tokens are untouched, and so is everything that is not the subject's own. */
  ghost predicate Harmless(s: State, t: State, user: UserId) {
    t.dir == s.dir && t.minted == s.minted && t.clock == s.clock && OnlyOwnThings(s, t, user)
  }

  /** Roles, other accounts, tokens and other people's things stay; so do the caller's own roles. */
  ghost predicate OwnAccountOnly(s: State, t: State, user: UserId) {
    && t.dir.roles == s.dir.roles && t.minted == s.minted
    && t.dir.people.Keys == s.dir.people.Keys
    && (forall u :: u in s.dir.people && u != user ==> t.dir.people[u] == s.dir.people[u])
    && (user in s.dir.people ==> t.dir.people[user].roles == s.dir.people[user].roles)
    && OnlyOwnThings(s, t, user)
  }

  /** A route that neither writes others' nor the caller's account writes at most its items and preferences. */
  lemma MildRoutes(cfg: Config, s: State, actor: Actor, route: Route)
    requires actor.user in s.dir.people && Perform(cfg, s, actor, route).Done?
    requires !OwnRoute(route) && !WritesOthers(route)
    ensures Harmless(s, Perform(cfg, s, actor, route).value, actor.user)
  {
  }

  lemma OwnRoutes(cfg: Config, s: State, actor: Actor, route: Route)
    requires actor.user in s.dir.people && Perform(cfg, s, actor, route).Done? && OwnRoute(route)
    ensures OwnAccountOnly(s, Perform(cfg, s, actor, route).value, actor.user)
  {
  }

  lemma DirectoryRoutesMintNothing(cfg: Config, s: State, actor: Actor, route: Route)
    requires actor.user in s.dir.people && Perform(cfg, s, actor, route).Done?
    requires MemberRoute(route) || RoleRoute(route) || route.UpdateUserFeatures?
    ensures Perform(cfg, s, actor, route).value.minted == s.minted
  {
  }

  lemma OnlyImpersonateMints(cfg: Config, s: State, actor: Actor, route: Route)
    requires actor.user in s.dir.people && Perform(cfg, s, actor, route).Done? && !route.Impersonate?
    ensures Perform(cfg, s, actor, route).value.minted == s.minted
  {
    if OwnRoute(route) {
      OwnRoutes(cfg, s, actor, route);
    } else if WritesOthers(route) {
      DirectoryRoutesMintNothing(cfg, s, actor, route);
    } else {
      MildRoutes(cfg, s, actor, route);
    }
  }

  /** Every route that writes more than the caller's own is behind one of those permissions. */
  lemma WritingOthersTakesPower(route: Route)
    requires WritesOthers(route)
    ensures GuardOf(route).needs != [] && GuardOf(route).needs[0] in BLOCKED_WHILE_IMPERSONATING
  {
  }

  // ----- (a) Where impersonation tokens come from -----

  /** In state s, request `act` creates `token`, properly: by another, open, unimpersonated account allowed to. */
  ghost predicate ProperlyMinted(cfg: Config, s: State, act: Action, token: Token) {
    && token.act.Some?
    && act.Request? && act.route == Impersonate(token.sub)
    && act.token in s.minted && act.token.act.None? && act.token.sub == token.act.value
    && token.act.value != token.sub
    && Loadable(s.dir.people, act.token.sub, act.token.iat)
    && IsOpen(s.dir.people, token.sub)
    && MayActAs(s.dir, token.act.value, token.sub)
    && token.iat == Sessions.Seconds(s.clock)
    && token.exp == Sessions.Seconds(s.clock + cfg.impersonationLife)
  }

  lemma ImpersonateNeedsPlainToken(cfg: Config, s: State, token: Token, route: Route)
    requires Handle(cfg, s, token, route).Done? && token.act.Some?
    ensures !route.Impersonate?
  {
  }

  lemma RequestMintsProperly(cfg: Config, s: State, presented: Token, route: Route, token: Token)
    requires Handle(cfg, s, presented, route).Done? && token.act.Some?
    requires token in Handle(cfg, s, presented, route).value.minted && token !in s.minted
    ensures ProperlyMinted(cfg, s, Request(presented, route), token)
  {
    var actor := GetActor(s, presented).value;
    assert route.Impersonate? by {
      if !route.Impersonate? {
        OnlyImpersonateMints(cfg, s, actor, route);
      }
    }
    assert presented.act.None? by {
      if presented.act.Some? {
        ImpersonateNeedsPlainToken(cfg, s, presented, route);
      }
    }
  }

  lemma StepMintsProperly(cfg: Config, s: State, act: Action, token: Token)
    requires token in Next(cfg, s, act).minted && token !in s.minted && token.act.Some?
    ensures ProperlyMinted(cfg, s, act, token)
  {
    if act.Request? {
      RequestMintsProperly(cfg, s, act.token, act.route, token);
    }
  }

  ghost predicate MintedAt(cfg: Config, s: State, acts: seq<Action>, k: nat, token: Token)
    requires k < |acts|
  {
    ProperlyMinted(cfg, Exec(cfg, s, acts[..k]), acts[k], token)
  }

  lemma MintedEarlier(cfg: Config, s: State, acts: seq<Action>, n: nat, k: nat, token: Token)
    requires k < n <= |acts| && MintedAt(cfg, s, acts[..n], k, token)
    ensures MintedAt(cfg, s, acts, k, token)
  {
    assert acts[..n][..k] == acts[..k];
  }

  /** Every impersonation token there is was minted at some step of the run, properly. */
  lemma {:induction false} EveryImpersonationWasAllowed(cfg: Config, s: State, acts: seq<Action>, token: Token)
    requires s.minted == {} && token in Exec(cfg, s, acts).minted && token.act.Some?
    ensures exists k :: 0 <= k < |acts| && MintedAt(cfg, s, acts, k, token)
    decreases |acts|
  {
    var n := |acts| - 1;
    var front := acts[..n];
    if token in Exec(cfg, s, front).minted {
      EveryImpersonationWasAllowed(cfg, s, front, token);
      var k :| 0 <= k < |front| && MintedAt(cfg, s, front, k, token);
      MintedEarlier(cfg, s, acts, n, k, token);
    } else {
      StepMintsProperly(cfg, Exec(cfg, s, front), acts[n], token);
      assert MintedAt(cfg, s, acts, n, token);
    }
  }

  predicate IsRecordOf(e: Event, token: Token)
    requires token.act.Some?
  {
    e == Event(Start, token.act.value, None, token.sub, e.at) && Sessions.Seconds(e.at) == token.iat
  }

  /** The trail says who began it, in their own name, and when. */
  ghost predicate Recorded(trail: seq<Event>, token: Token) {
    token.act.Some? && exists i :: 0 <= i < |trail| && IsRecordOf(trail[i], token)
  }

  lemma QuietRoutes(cfg: Config, s: State, actor: Actor, route: Route)
    requires actor.user in s.dir.people && Perform(cfg, s, actor, route).Done?
    requires !route.Impersonate? && !route.StopImpersonating?
    ensures Perform(cfg, s, actor, route).value.trail == s.trail
  {
  }

  lemma LoudRoutes(cfg: Config, s: State, actor: Actor, route: Route)
    requires actor.user in s.dir.people && Perform(cfg, s, actor, route).Done?
    requires route.Impersonate? || route.StopImpersonating?
    ensures s.trail <= Perform(cfg, s, actor, route).value.trail
  {
  }

  lemma HandlingKeepsTrail(cfg: Config, s: State, token: Token, route: Route)
    requires Handle(cfg, s, token, route).Done?
    ensures s.trail <= Handle(cfg, s, token, route).value.trail
  {
    var actor := GetActor(s, token).value;
    if route.Impersonate? || route.StopImpersonating? {
      LoudRoutes(cfg, s, actor, route);
    } else {
      QuietRoutes(cfg, s, actor, route);
    }
  }

  lemma TrailOnlyGrows(cfg: Config, s: State, act: Action)
    ensures s.trail <= Next(cfg, s, act).trail
  {
    if act.Request? && Handle(cfg, s, act.token, act.route).Done? {
      HandlingKeepsTrail(cfg, s, act.token, act.route);
    }
  }

  lemma MintingIsRecorded(cfg: Config, s: State, act: Action, token: Token)
    requires token in Next(cfg, s, act).minted && token !in s.minted && token.act.Some?
    ensures Recorded(Next(cfg, s, act).trail, token)
  {
    StepMintsProperly(cfg, s, act, token);
    var trail := Next(cfg, s, act).trail;
    assert IsRecordOf(trail[|s.trail|], token);
  }

  /** No impersonation token exists without its entry. */
  lemma {:induction false} EveryImpersonationIsRecorded(cfg: Config, s: State, acts: seq<Action>, token: Token)
    requires s.minted == {} && token in Exec(cfg, s, acts).minted && token.act.Some?
    ensures Recorded(Exec(cfg, s, acts).trail, token)
    ensures exists e :: e in Exec(cfg, s, acts).trail && e == Event(Start, token.act.value, None, token.sub, e.at)
                        && e.at / 1000000 == token.iat
    decreases |acts|
  {
    var n := |acts| - 1;
    var before := Exec(cfg, s, acts[..n]);
    if token in before.minted {
      EveryImpersonationIsRecorded(cfg, s, acts[..n], token);
      TrailOnlyGrows(cfg, before, acts[n]);
      var i :| 0 <= i < |before.trail| && IsRecordOf(before.trail[i], token);
      assert IsRecordOf(Exec(cfg, s, acts).trail[i], token);
    } else {
      MintingIsRecorded(cfg, before, acts[n], token);
    }
  }

  // ----- Exactly which tokens and requests are accepted -----

  /** Open, and without a password change in a later whole second than the token's. */
  predicate Standing(people: People, user: UserId, iat: int) {
    && user in people && people[user].active
    && (people[user].changedAt.Some? ==> people[user].changedAt.value / 1000000 <= iat)
  }

  /** A token is accepted exactly when it was minted, has not expired, and everybody it names still stands and may. */
  lemma AcceptedExactlyWhen(s: State, token: Token)
    ensures GetActor(s, token).Done?
       <==> && token in s.minted && s.clock < token.exp * 1000000
            && Standing(s.dir.people, token.sub, token.iat)
            && (token.act.Some? ==>
                  && Standing(s.dir.people, token.act.value, token.iat)
                  && ScopeFor(RolesOf(s.dir, token.act.value), Permission("users", "impersonate")).Some?
                  && (IsSuperuser(RolesOf(s.dir, token.sub)) ==> IsSuperuser(RolesOf(s.dir, token.act.value))))
    ensures GetActor(s, token).Done? ==> GetActor(s, token).value == Actor(token.sub, token.act)
  {
  }

  /** The token such a request hands out. */
  function Impersonating(cfg: Config, s: State, token: Token, user: UserId): Token {
    Token(user, Some(token.sub), s.clock / 1000000, (s.clock + cfg.impersonationLife) / 1000000)
  }

  lemma OneNeed(roles: seq<Role>, p: Permission)
    ensures CheckNeeds(roles, false, [p]).None? <==> ScopeFor(roles, p).Some?
  {
    assert [p][1..] == [];
    assert CheckNeeds(roles, false, [p][1..]).None?;
  }

  ghost predicate Has(d: Directory, actor: Actor, resource: string, action: string)
    requires actor.user in d.people
  {
    ScopeFor(RolesOf(d, actor.user), Permission(resource, action)).Some?
  }

  lemma NeedsOfOne(roles: seq<Role>, impersonated: bool, needs: seq<Permission>)
    requires |needs| <= 2
    ensures CheckNeeds(roles, impersonated, needs).None? <==> forall i :: 0 <= i < |needs| ==>
      ScopeFor(roles, needs[i]).Some? && !(impersonated && needs[i] in BLOCKED_WHILE_IMPERSONATING)
  {
    if |needs| > 0 {
      if |needs| == 2 {
        assert needs[1..][1..] == [] && needs[1..][0] == needs[1];
        assert CheckNeeds(roles, impersonated, needs[1..][1..]).None?;
      }
    }
  }

  lemma ReadsAreNotBlocked()
    ensures forall p :: p in {USERS_READ, ROLES_READ, FEATURE_FLAGS_READ, REQUEST_LOG_READ, AUDIT_LOG_READ} ==>
      p !in BLOCKED_WHILE_IMPERSONATING
  {
    assert "read" != "create" && "read" != "update" && "read" != "delete" && "read" != "impersonate" by {
      assert |"read"| == 4 && |"create"| == 6 && |"update"| == 6 && |"delete"| == 6 && |"impersonate"| == 11;
    }
  }

  /** Who is let through where: one's own affairs and every change to others' only as oneself, and what takes which permission. */
  lemma GuardsExactlyWhen(d: Directory, actor: Actor, route: Route)
    requires actor.user in d.people
    ensures CheckGuard(d, actor, GuardOf(route)).None? <==>
      match route
      case UpdateMe(_, _) | DeactivateMe(_) | ReplacePassword(_, _) | ResendVerification => actor.impersonator.None?
      case ListUsers | ReadUser(_) => Has(d, actor, "users", "read")
      case ReadUserFeatures(_) => Has(d, actor, "users", "read") && Has(d, actor, "feature_flags", "read")
      case UpdateUserFeatures(_, _) => actor.impersonator.None? && Has(d, actor, "feature_flags", "update")
      case DeleteUser(_) => actor.impersonator.None? && Has(d, actor, "users", "delete")
      case AddUserRole(_, _) | RemoveUserRole(_, _) => actor.impersonator.None? && Has(d, actor, "users", "update")
      case Impersonate(_) => actor.impersonator.None? && Has(d, actor, "users", "impersonate")
      case ListPermissions | ListRoles | ReadRole(_) | ListMembers(_) => Has(d, actor, "roles", "read")
      case PostRole(_) => actor.impersonator.None? && Has(d, actor, "roles", "create")
      case PutRole(_, _) | AddMember(_, _) | RemoveMember(_, _) => actor.impersonator.None? && Has(d, actor, "roles", "update")
      case RemoveRoleRow(_) => actor.impersonator.None? && Has(d, actor, "roles", "delete")
      case ReadRequests => Has(d, actor, "request_log", "read")
      case ReadTrail => Has(d, actor, "audit_log", "read")
      case _ => true
  {
    NeedsOfOne(RolesOf(d, actor.user), actor.impersonator.Some?, GuardOf(route).needs);
    ReadsAreNotBlocked();
    if WritesOthers(route) {
      WritingOthersTakesPower(route);
    }
  }

  /** An impersonation begins exactly when an unimpersonated caller with the permission asks for another open account it may act as. */
  lemma BegunExactlyWhen(cfg: Config, s: State, token: Token, user: UserId)
    requires GetActor(s, token).Done?
    ensures var r := Handle(cfg, s, token, Impersonate(user));
      && (r.Done? <==>
            && token.act.None? && user != token.sub && user in s.dir.people && s.dir.people[user].active
            && ScopeFor(RolesOf(s.dir, token.sub), Permission("users", "impersonate")).Some?
            && (IsSuperuser(RolesOf(s.dir, user)) ==> IsSuperuser(RolesOf(s.dir, token.sub))))
      && (r.Done? ==> r.value == s.(minted := s.minted + {Impersonating(cfg, s, token, user)},
                                    trail := s.trail + [Event(Start, token.sub, None, user, s.clock)]))
  {
    OneNeed(RolesOf(s.dir, token.sub), USERS_IMPERSONATE);
  }

  /** It is accepted from the moment it is minted, if it lives at all. */
  lemma BegunImpersonationWorks(cfg: Config, s: State, token: Token, user: UserId)
    requires Handle(cfg, s, token, Impersonate(user)).Done?
    requires forall u :: u in s.dir.people && s.dir.people[u].changedAt.Some? ==> s.dir.people[u].changedAt.value <= s.clock
    requires s.clock < (s.clock + cfg.impersonationLife) / 1000000 * 1000000
    ensures GetActor(Handle(cfg, s, token, Impersonate(user)).value, Impersonating(cfg, s, token, user))
         == Done(Actor(user, Some(token.sub)))
  {
    BegunExactlyWhen(cfg, s, token, user);
    AcceptedExactlyWhen(s, token);
    var t := Handle(cfg, s, token, Impersonate(user)).value;
    forall u | u in s.dir.people && s.dir.people[u].changedAt.Some?
      ensures s.dir.people[u].changedAt.value / 1000000 <= s.clock / 1000000
    {
      Sessions.SecondsMonotone(s.dir.people[u].changedAt.value, s.clock);
    }
    AcceptedExactlyWhen(t, Impersonating(cfg, s, token, user));
  }

  /** Stopping leaves one entry, and only if there is something to stop. */
  lemma StoppingIsRecorded(cfg: Config, s: State, token: Token)
    requires GetActor(s, token).Done?
    ensures Handle(cfg, s, token, StopImpersonating)
         == Done(if token.act.None? then s
                 else s.(trail := s.trail + [Event(Stop, token.sub, token.act, token.sub, s.clock)]))
  {
  }

  function Reset(s: State, user: UserId, password: string): Account
    requires user in s.dir.people
  {
    s.dir.people[user].(password := password, changedAt := Some(s.clock))
  }

  /** What comes from outside a request: signing in, resetting a password, and nothing for a closed account. */
  lemma OutsideSteps(cfg: Config, s: State, user: UserId, password: string)
    ensures Next(cfg, s, SignIn(user))
         == if IsOpen(s.dir.people, user)
            then s.(minted := s.minted + {Token(user, None, s.clock / 1000000, (s.clock + cfg.accessLife) / 1000000)})
            else s
    ensures Next(cfg, s, ResetPassword(user, password))
         == if IsOpen(s.dir.people, user) then s.(dir := s.dir.(people := s.dir.people[user := Reset(s, user, password)])) else s
  {
  }

  /** A run is its steps: a request takes effect if it is accepted, and changes nothing if it is not. */
  lemma OneMoreStep(cfg: Config, s: State, acts: seq<Action>, token: Token, route: Route)
    ensures var now := Exec(cfg, s, acts);
      var r := Handle(cfg, now, token, route);
      Exec(cfg, s, acts + [Request(token, route)]) == if r.Done? then r.value else now
  {
    var more := acts + [Request(token, route)];
    assert more[..|more| - 1] == acts;
  }

  /** An account closes with what it owns, and nobody else's. */
  lemma ClosingTakesItems(cfg: Config, s: State, actor: Actor, route: Route, user: UserId)
    requires actor.user in s.dir.people && Perform(cfg, s, actor, route).Done?
    requires (route.DeactivateMe? && user == actor.user) || route == DeleteUser(user)
    ensures Perform(cfg, s, actor, route).value.items == s.items - {user}
  {
  }

  /** What a caller's accepted request about itself leaves behind. */
  lemma OwnRequestsTakeEffect(cfg: Config, s: State, actor: Actor, route: Route)
    requires actor.user in s.dir.people && Perform(cfg, s, actor, route).Done?
    ensures var t := Perform(cfg, s, actor, route).value;
      match route
      case UpdateMe(email, name) =>
        && actor.user in t.dir.people
        && (email.Some? ==> t.dir.people[actor.user].email == email.value)
        && (name.Some? ==> t.dir.people[actor.user].name == name.value)
      case ReplacePassword(_, password) =>
        && actor.user in t.dir.people && t.dir.people[actor.user].password == password
        && t.dir.people[actor.user].changedAt == Some(s.clock)
      case DeactivateMe(_) => !IsOpen(t.dir.people, actor.user)
      case UpdatePreferences(p) => actor.user in t.preferences && t.preferences[actor.user] == p
      case WriteItems(items) => actor.user in t.items && t.items[actor.user] == items
      case _ => true
  {
  }

  lemma GrantIsHeld(d: Directory, user: UserId, role: string)
    requires AddRole(d, user, role).Done?
    ensures var t := AddRole(d, user, role).value;
      user in t.people && HoldsNamed(t.roles, t.people[user].roles, role)
  {
    var ids := d.people[user].roles;
    if !HoldsNamed(d.roles, ids, role) {
      assert AddRole(d, user, role).value.people[user].roles[|ids|] == RoleNamed(d, role).value;
    }
  }

  /** What an accepted administrative request leaves behind. */
  lemma AdministrativeRequestsTakeEffect(cfg: Config, s: State, actor: Actor, route: Route)
    requires WellFormed(cfg.cat, s.dir) && actor.user in s.dir.people && Perform(cfg, s, actor, route).Done?
    ensures var t := Perform(cfg, s, actor, route).value.dir;
      match route
      case DeleteUser(user) => !IsOpen(t.people, user)
      case AddUserRole(user, role) => user in t.people && HoldsNamed(t.roles, t.people[user].roles, role)
      case RemoveUserRole(user, role) => user in t.people && !HoldsNamed(t.roles, t.people[user].roles, role)
      case AddMember(id, user) =>
        id in s.dir.roles && user in t.people && HoldsNamed(t.roles, t.people[user].roles, s.dir.roles[id].name)
      case RemoveMember(id, user) =>
        id in s.dir.roles && user in t.people && !HoldsNamed(t.roles, t.people[user].roles, s.dir.roles[id].name)
      case PostRole(data) => exists id :: id in t.roles && id !in s.dir.roles && t.roles[id] == data
      case PutRole(id, data) => id in t.roles && t.roles[id] == data
      case RemoveRoleRow(id) => id !in t.roles
      case _ => true
  {
    match route
    case AddUserRole(user, role) => GrantIsHeld(s.dir, user, role);
    case AddMember(id, user) => GrantIsHeld(s.dir, user, s.dir.roles[id].name);
    case PostRole(data) =>
      assert s.dir.nextRole in Perform(cfg, s, actor, route).value.dir.roles && s.dir.nextRole !in s.dir.roles;
    case _ =>
  }

  predicate NewAccount(d: Directory, t: Directory, account: Account) {
    t == d.(people := d.people[d.nextUser := account], nextUser := d.nextUser + 1)
  }

  /** Signing up, an operator's commands, and the passing of time. */
  lemma OutsideStepsTakeEffect(
    cfg: Config, s: State, email: string, name: Option<string>, password: string, elapsed: nat, user: UserId, role: string)
    requires WellFormed(cfg.cat, s.dir)
    ensures Next(cfg, s, Tick(elapsed)).clock == s.clock + elapsed && Next(cfg, s, Tick(elapsed)).dir == s.dir
    ensures var free := forall u :: IsOpen(s.dir.people, u) ==> s.dir.people[u].email != email;
      var up, op := Next(cfg, s, SignUp(email, name, password)), Next(cfg, s, CreateSuperuser(email, password));
      && (!free ==> up == s && op == s)
      && (free && RoleNamed(s.dir, if s.dir.people == map[] then ADMIN else USER).Some? ==>
            NewAccount(s.dir, up.dir, Account(email, name, password, None,
              [RoleNamed(s.dir, if s.dir.people == map[] then ADMIN else USER).value], true)))
      && (free && RoleNamed(s.dir, ADMIN).Some? ==>
            NewAccount(s.dir, op.dir, Account(email, None, password, None, [RoleNamed(s.dir, ADMIN).value], true)))
    ensures AddRole(s.dir, user, role).Done? ==> Next(cfg, s, GrantRole(user, role)).dir == AddRole(s.dir, user, role).value
  {
    assert forall u :: u in s.dir.people ==> u < s.dir.nextUser;
  }

  /** Reading finds exactly the open accounts and the roles there are, and changes nothing; features are set for open accounts only. */
  lemma Reading(cfg: Config, s: State, actor: Actor, user: UserId, id: RoleId, p: string)
    requires actor.user in s.dir.people
    ensures Perform(cfg, s, actor, ReadUser(user)) == Perform(cfg, s, actor, ReadUserFeatures(user))
    ensures Perform(cfg, s, actor, ReadRole(id)) == Perform(cfg, s, actor, ListMembers(id))
    ensures user in s.dir.people && s.dir.people[user].active ==>
      && Perform(cfg, s, actor, ReadUser(user)) == Done(s)
      && Perform(cfg, s, actor, UpdateUserFeatures(user, p)) == Done(s.(preferences := s.preferences[user := p]))
    ensures !(user in s.dir.people && s.dir.people[user].active) ==>
      && Perform(cfg, s, actor, ReadUser(user)) == Refused(UserNotFound)
      && Perform(cfg, s, actor, UpdateUserFeatures(user, p)) == Refused(UserNotFound)
    ensures Perform(cfg, s, actor, ReadRole(id)) == if id in s.dir.roles then Done(s) else Refused(RoleNotFound)
  {
  }

  // ----- (b) An accepted impersonated request is allowed when it is made -----

  ghost predicate StillAllowed(s: State, token: Token) {
    && token.act.Some?
    && Loadable(s.dir.people, token.sub, token.iat) && Loadable(s.dir.people, token.act.value, token.iat)
    && MayActAs(s.dir, token.act.value, token.sub)
    && (IsSuperuser(RolesOf(s.dir, token.sub)) ==> IsSuperuser(RolesOf(s.dir, token.act.value)))
    && s.clock < token.exp * Sessions.SECOND
  }

  // ----- (c) What an impersonated request cannot touch -----

  /** The guards stop an impersonated caller on every route that writes its account or anything of others. */
  lemma ImpersonatedCallersAreStopped(d: Directory, actor: Actor, route: Route)
    requires actor.user in d.people && actor.impersonator.Some? && (OwnRoute(route) || WritesOthers(route))
    ensures CheckGuard(d, actor, GuardOf(route)) == Some(ImpersonationBlocked)
  {
    if WritesOthers(route) {
      WritingOthersTakesPower(route);
    }
  }

  /** The routes an impersonated caller gets through write nothing but the subject's items and preferences. */
  lemma GuardsStopTheRest(cfg: Config, s: State, actor: Actor, route: Route)
    requires actor.user in s.dir.people && actor.impersonator.Some?
    requires CheckGuard(s.dir, actor, GuardOf(route)).None? && Perform(cfg, s, actor, route).Done?
    ensures Harmless(s, Perform(cfg, s, actor, route).value, actor.user)
  {
    if OwnRoute(route) || WritesOthers(route) {
      ImpersonatedCallersAreStopped(s.dir, actor, route);
      assert false;
    }
    MildRoutes(cfg, s, actor, route);
  }

  lemma ImpersonatedStepIsHarmless(cfg: Config, s: State, token: Token, route: Route)
    requires token.act.Some?
    ensures Harmless(s, Next(cfg, s, Request(token, route)), token.sub)
  {
    if Handle(cfg, s, token, route).Done? {
      GuardsStopTheRest(cfg, s, GetActor(s, token).value, route);
    }
  }

  /** (a), (b) and (c) together, for any request made with an impersonation token at any point of any run. */
  lemma ImpersonatedRequests(cfg: Config, s: State, acts: seq<Action>, token: Token, route: Route)
    requires s.minted == {} && token.act.Some?
    requires Handle(cfg, Exec(cfg, s, acts), token, route).Done?
    ensures exists k :: 0 <= k < |acts| && MintedAt(cfg, s, acts, k, token)
    ensures StillAllowed(Exec(cfg, s, acts), token)
    ensures Harmless(Exec(cfg, s, acts), Exec(cfg, s, acts + [Request(token, route)]), token.sub)
  {
    var now := Exec(cfg, s, acts);
    EveryImpersonationWasAllowed(cfg, s, acts, token);
    var more := acts + [Request(token, route)];
    assert more[..|acts|] == acts;
    ImpersonatedStepIsHarmless(cfg, now, token, route);
  }

  /** However long it goes on: only time and impersonated requests, and no account, role or token changes. */
  ghost predicate OnlyImpersonated(acts: seq<Action>) {
    forall i :: 0 <= i < |acts| ==> acts[i].Tick? || (acts[i].Request? && acts[i].token.act.Some?)
  }

  lemma {:induction false} ImpersonatedRunIsHarmless(cfg: Config, s: State, acts: seq<Action>)
    requires OnlyImpersonated(acts)
    ensures Exec(cfg, s, acts).dir == s.dir && Exec(cfg, s, acts).minted == s.minted
    decreases |acts|
  {
    if acts != [] {
      var n := |acts| - 1;
      ImpersonatedRunIsHarmless(cfg, s, acts[..n]);
      if acts[n].Request? {
        ImpersonatedStepIsHarmless(cfg, Exec(cfg, s, acts[..n]), acts[n].token, acts[n].route);
      }
    }
  }

  // ----- What takes a permission -----

  /** The permissions that let a caller change more than what is its own. */
  ghost predicate Powerless(d: Directory, user: UserId)
    requires user in d.people
  {
    forall p :: p in BLOCKED_WHILE_IMPERSONATING ==> ScopeFor(RolesOf(d, user), p).None?
  }

  lemma PowerlessCallersAreStopped(d: Directory, actor: Actor, route: Route)
    requires actor.user in d.people && Powerless(d, actor.user) && WritesOthers(route)
    ensures CheckGuard(d, actor, GuardOf(route)).Some?
  {
    WritingOthersTakesPower(route);
  }

  /** A caller without any of the administrative permissions can, by no route, touch more than its own account. */
  lemma PowerlessCallersTouchOnlyThemselves(cfg: Config, s: State, token: Token, route: Route)
    requires Handle(cfg, s, token, route).Done? && Powerless(s.dir, token.sub)
    ensures OwnAccountOnly(s, Handle(cfg, s, token, route).value, token.sub)
  {
    var actor := GetActor(s, token).value;
    if WritesOthers(route) {
      PowerlessCallersAreStopped(s.dir, actor, route);
      assert false;
    }
    if OwnRoute(route) {
      OwnRoutes(cfg, s, actor, route);
    } else {
      MildRoutes(cfg, s, actor, route);
    }
  }

  // ----- Who changes what about an account -----

  /** An account but for its roles. */
  function Identity(a: Account): Account {
    a.(roles := [])
  }

  /** Routes about roles and membership, and those that only read, leave every account's identity alone. */
  predicate MayTouchIdentity(route: Route) {
    OwnRoute(route) || route.DeleteUser?
  }

  lemma MembershipLeavesIdentity(d: Directory, actor: UserId, user: UserId, role: string, other: UserId)
    requires other in d.people
    ensures AddRole(d, user, role).Done? ==>
      other in AddRole(d, user, role).value.people && Identity(AddRole(d, user, role).value.people[other]) == Identity(d.people[other])
    ensures RemoveRole(d, actor, user, role).Done? ==>
      other in RemoveRole(d, actor, user, role).value.people
      && Identity(RemoveRole(d, actor, user, role).value.people[other]) == Identity(d.people[other])
  {
  }

  lemma MemberRoutesLeaveIdentity(cfg: Config, s: State, actor: Actor, route: Route, other: UserId)
    requires actor.user in s.dir.people && Perform(cfg, s, actor, route).Done? && other in s.dir.people
    requires MemberRoute(route) && !route.DeleteUser?
    ensures var t := Perform(cfg, s, actor, route).value.dir;
      other in t.people && Identity(t.people[other]) == Identity(s.dir.people[other])
  {
    var role := match route
      case AddUserRole(_, role) => role
      case RemoveUserRole(_, role) => role
      case AddMember(id, _) => s.dir.roles[id].name
      case RemoveMember(id, _) => s.dir.roles[id].name
      case _ => "";
    MembershipLeavesIdentity(s.dir, actor.user, route.user, role, other);
  }

  lemma RoleRoutesLeaveIdentity(cfg: Config, s: State, actor: Actor, route: Route, other: UserId)
    requires actor.user in s.dir.people && Perform(cfg, s, actor, route).Done? && other in s.dir.people
    requires RoleRoute(route)
    ensures var t := Perform(cfg, s, actor, route).value.dir;
      other in t.people && Identity(t.people[other]) == Identity(s.dir.people[other])
  {
  }

  lemma QuietDirectory(cfg: Config, s: State, actor: Actor, route: Route)
    requires actor.user in s.dir.people && Perform(cfg, s, actor, route).Done?
    requires route.Impersonate? || route.UpdateUserFeatures?
    ensures Perform(cfg, s, actor, route).value.dir == s.dir
  {
  }

  lemma OtherRoutesLeaveIdentity(cfg: Config, s: State, actor: Actor, route: Route, other: UserId)
    requires actor.user in s.dir.people && Perform(cfg, s, actor, route).Done? && other in s.dir.people
    requires !MayTouchIdentity(route)
    ensures var t := Perform(cfg, s, actor, route).value.dir;
      other in t.people && Identity(t.people[other]) == Identity(s.dir.people[other])
  {
    if MemberRoute(route) {
      MemberRoutesLeaveIdentity(cfg, s, actor, route, other);
    } else if RoleRoute(route) {
      RoleRoutesLeaveIdentity(cfg, s, actor, route, other);
    } else if WritesOthers(route) {
      QuietDirectory(cfg, s, actor, route);
    } else {
      MildRoutes(cfg, s, actor, route);
    }
  }

  /** The change a request made to an account, and what gave it the right to. */
  ghost predicate Rightful(d: Directory, token: Token, route: Route, user: UserId, was: Account, now: Account) {
    && token.act.None?
    && (now.active != was.active ==>
          || (route == DeactivateMe(was.password) && token.sub == user)
          || (route == DeleteUser(user) && token.sub != user && token.sub in d.people
              && ScopeFor(RolesOf(d, token.sub), USERS_DELETE).Some?
              && (IsSuperuser(Held(d.roles, was.roles)) ==> IsSuperuser(RolesOf(d, token.sub)))))
    && (now.password != was.password || now.changedAt != was.changedAt ==>
          token.sub == user && route.ReplacePassword? && route.current == was.password && now.password == route.password)
    && (now.email != was.email ==> token.sub == user && route.UpdateMe? && route.email == Some(now.email))
    && (now.name != was.name ==> token.sub == user && route.UpdateMe? && route.name == Some(now.name))
  }

  lemma OwnRouteIsRightful(cfg: Config, s: State, token: Token, route: Route, user: UserId)
    requires token.act.None? && token.sub in s.dir.people && user in s.dir.people && OwnRoute(route)
    requires Perform(cfg, s, Actor(token.sub, None), route).Done?
    ensures var t := Perform(cfg, s, Actor(token.sub, None), route).value.dir;
      user in t.people && Rightful(s.dir, token, route, user, s.dir.people[user], t.people[user])
  {
  }

  lemma DeletionIsRightful(cfg: Config, s: State, token: Token, route: Route, user: UserId)
    requires token.act.None? && token.sub in s.dir.people && user in s.dir.people && route.DeleteUser?
    requires CheckGuard(s.dir, Actor(token.sub, None), GuardOf(route)).None?
    requires Perform(cfg, s, Actor(token.sub, None), route).Done?
    ensures var t := Perform(cfg, s, Actor(token.sub, None), route).value.dir;
      user in t.people && Rightful(s.dir, token, route, user, s.dir.people[user], t.people[user])
  {
    OneNeed(RolesOf(s.dir, token.sub), USERS_DELETE);
    RemovalExactlyWhen(s.dir, token.sub, route.user);
  }

  /**
    Whatever a request changes about who an account is, it had the right to: an account is closed
    by itself with its password or by another that may delete users and is not outranked, a
    password moves for its owner who knows the present one, and an address or a name for its owner.
  */
  lemma ChangesAreRightful(cfg: Config, s: State, token: Token, route: Route, user: UserId)
    requires Handle(cfg, s, token, route).Done? && user in s.dir.people
    ensures var t := Handle(cfg, s, token, route).value.dir;
      && user in t.people
      && (Identity(t.people[user]) != Identity(s.dir.people[user]) ==>
            Rightful(s.dir, token, route, user, s.dir.people[user], t.people[user]))
  {
    var actor := GetActor(s, token).value;
    if token.act.Some? {
      GuardsStopTheRest(cfg, s, actor, route);
    } else if OwnRoute(route) {
      OwnRouteIsRightful(cfg, s, token, route, user);
    } else if route.DeleteUser? {
      DeletionIsRightful(cfg, s, token, route, user);
    } else {
      OtherRoutesLeaveIdentity(cfg, s, actor, route, user);
    }
  }

  // ----- Who can make an administrator -----

  lemma {:induction false} SuperuserHoldsAdmin(roles: Roles, ids: seq<RoleId>)
    ensures IsSuperuser(Held(roles, ids)) <==> HoldsNamed(roles, ids, ADMIN)
  {
    if ids != [] {
      var front, last := ids[..|ids| - 1], ids[|ids| - 1];
      SuperuserHoldsAdmin(roles, front);
      assert HoldsNamed(roles, ids, ADMIN) <==> HoldsNamed(roles, front, ADMIN) || (last in roles && roles[last].name == ADMIN) by {
        assert forall i :: 0 <= i < |front| ==> ids[i] == front[i];
        assert ids[|front|] == last;
      }
      var before := Held(roles, front);
      if last in roles {
        var held := before + [roles[last]];
        assert Held(roles, ids) == held;
        assert forall i :: 0 <= i < |before| ==> held[i] == before[i];
        assert held[|before|] == roles[last];
      }
    }
  }

  predicate IsAdmin(d: Directory, user: UserId) {
    user in d.people && HoldsNamed(d.roles, d.people[user].roles, ADMIN)
  }

  /** Somebody becomes an administrator only if its role list or the roles themselves change. */
  lemma SameRolesSameRank(d: Directory, t: Directory, user: UserId)
    requires user in d.people && user in t.people && t.people[user].roles == d.people[user].roles
    requires forall id :: id in d.people[user].roles && id in t.roles ==> id in d.roles && t.roles[id] == d.roles[id]
    ensures IsAdmin(t, user) ==> IsAdmin(d, user)
  {
  }

  lemma CreateRolePromotesNobody(cat: seq<Permission>, d: Directory, data: Role, user: UserId)
    requires WellFormed(cat, d) && CreateRole(cat, d, data).Done? && user in d.people && !IsAdmin(d, user)
    ensures !IsAdmin(CreateRole(cat, d, data).value, user)
  {
    var t := CreateRole(cat, d, data).value;
    forall id | id in d.people[user].roles
      ensures id in d.roles && t.roles[id] == d.roles[id]
    {
      assert LinksExist(d.people, d.roles) && Numbered(d);
    }
    SameRolesSameRank(d, t, user);
  }

  lemma DeleteRolePromotesNobody(d: Directory, id: RoleId, user: UserId)
    requires DeleteRole(d, id).Done? && IsOpen(d.people, user) && !IsAdmin(d, user)
    ensures !IsAdmin(DeleteRole(d, id).value, user)
  {
    DeleteRoleTouchesNoOpenAccount(d, id, user);
    SameRolesSameRank(d, DeleteRole(d, id).value, user);
  }

  lemma RemoveUserPromotesNobody(d: Directory, actor: UserId, removed: UserId, user: UserId)
    requires actor in d.people && RemoveUser(d, actor, removed).Done? && user in d.people && !IsAdmin(d, user)
    ensures !IsAdmin(RemoveUser(d, actor, removed).value, user)
  {
    SameRolesSameRank(d, RemoveUser(d, actor, removed).value, user);
  }

  lemma OwnRoutesPromoteNobody(cfg: Config, s: State, actor: Actor, route: Route, user: UserId)
    requires actor.user in s.dir.people && Perform(cfg, s, actor, route).Done? && OwnRoute(route)
    requires user in s.dir.people && !IsAdmin(s.dir, user)
    ensures !IsAdmin(Perform(cfg, s, actor, route).value.dir, user)
  {
    OwnRoutes(cfg, s, actor, route);
    SameRolesSameRank(s.dir, Perform(cfg, s, actor, route).value.dir, user);
  }

  predicate Promoting(route: Route) {
    route.AddUserRole? || route.RemoveUserRole? || route.PutRole? || route.AddMember? || route.RemoveMember?
  }

  /** The routes that change role lists or roles are behind one of the two permissions. */
  lemma PromotingTakesPermission(route: Route)
    requires Promoting(route)
    ensures GuardOf(route).needs == [USERS_UPDATE] || GuardOf(route).needs == [ROLES_UPDATE]
  {
  }

  /** The others make nobody an administrator. */
  lemma OtherRoutesPromoteNobody(cfg: Config, s: State, actor: Actor, route: Route, user: UserId)
    requires WellFormed(cfg.cat, s.dir) && actor.user in s.dir.people && Perform(cfg, s, actor, route).Done?
    requires IsOpen(s.dir.people, user) && !IsAdmin(s.dir, user) && !Promoting(route)
    ensures !IsAdmin(Perform(cfg, s, actor, route).value.dir, user)
  {
    if OwnRoute(route) {
      OwnRoutesPromoteNobody(cfg, s, actor, route, user);
    } else if route.DeleteUser? {
      RemoveUserPromotesNobody(s.dir, actor.user, route.user, user);
    } else if route.PostRole? {
      CreateRolePromotesNobody(cfg.cat, s.dir, route.data, user);
    } else if route.RemoveRoleRow? {
      DeleteRolePromotesNobody(s.dir, route.id, user);
    } else if WritesOthers(route) {
      QuietDirectory(cfg, s, actor, route);
    } else {
      MildRoutes(cfg, s, actor, route);
    }
  }

  /** Granting the administrator role does make an administrator. */
  lemma AdminRoleMakesAdmin(cat: seq<Permission>, d: Directory, admin: RoleId, gs: seq<Grant>, user: UserId)
    requires WellFormed(cat, d) && AdminRoleIs(d, admin, gs) && IsOpen(d.people, user)
    ensures AddRole(d, user, ADMIN).Done? && IsAdmin(AddRole(d, user, ADMIN).value, user)
    ensures AddRoleById(d, user, admin) == AddRole(d, user, ADMIN)
  {
    var t := AddRole(d, user, ADMIN).value;
    var ids := d.people[user].roles;
    if !HoldsNamed(d.roles, ids, ADMIN) {
      var i := |ids|;
      assert t.people[user].roles[i] == RoleNamed(d, ADMIN).value;
    }
  }

  predicate MayPromote(roles: seq<Role>) {
    ScopeFor(roles, USERS_UPDATE).Some? || ScopeFor(roles, ROLES_UPDATE).Some?
  }

  /** The route that does it. */
  function Promotion(roles: seq<Role>, admin: RoleId, user: UserId): Route {
    if ScopeFor(roles, USERS_UPDATE).Some? then AddUserRole(user, ADMIN) else AddMember(admin, user)
  }

  lemma PromotionPasses(d: Directory, actor: UserId, admin: RoleId, user: UserId)
    requires actor in d.people && MayPromote(RolesOf(d, actor))
    ensures CheckGuard(d, Actor(actor, None), GuardOf(Promotion(RolesOf(d, actor), admin, user))).None?
  {
    OneNeed(RolesOf(d, actor), USERS_UPDATE);
    OneNeed(RolesOf(d, actor), ROLES_UPDATE);
  }

  lemma PromotionPerforms(cfg: Config, s: State, actor: UserId, admin: RoleId, gs: seq<Grant>, user: UserId)
    requires WellFormed(cfg.cat, s.dir) && AdminRoleIs(s.dir, admin, gs) && IsOpen(s.dir.people, user)
    requires actor in s.dir.people
    ensures var r := Perform(cfg, s, Actor(actor, None), Promotion(RolesOf(s.dir, actor), admin, user));
      r.Done? && IsAdmin(r.value.dir, user)
  {
    AdminRoleMakesAdmin(cfg.cat, s.dir, admin, gs, user);
  }

  lemma PromotionWorks(cfg: Config, s: State, token: Token, admin: RoleId, gs: seq<Grant>, user: UserId)
    requires WellFormed(cfg.cat, s.dir) && AdminRoleIs(s.dir, admin, gs) && IsOpen(s.dir.people, user)
    requires GetActor(s, token).Done? && token.act.None? && MayPromote(RolesOf(s.dir, token.sub))
    ensures var r := Handle(cfg, s, token, Promotion(RolesOf(s.dir, token.sub), admin, user));
      r.Done? && IsAdmin(r.value.dir, user)
  {
    assert GetActor(s, token) == Done(Actor(token.sub, None));
    PromotionPasses(s.dir, token.sub, admin, user);
    PromotionPerforms(cfg, s, token.sub, admin, gs, user);
  }

  lemma GuardedPromotion(cfg: Config, s: State, actor: UserId, route: Route, user: UserId)
    requires WellFormed(cfg.cat, s.dir) && IsOpen(s.dir.people, user) && !IsAdmin(s.dir, user)
    requires actor in s.dir.people && CheckGuard(s.dir, Actor(actor, None), GuardOf(route)).None?
    requires Perform(cfg, s, Actor(actor, None), route).Done?
    ensures IsAdmin(Perform(cfg, s, Actor(actor, None), route).value.dir, user) ==> MayPromote(RolesOf(s.dir, actor))
  {
    if Promoting(route) {
      PromotingTakesPermission(route);
      OneNeed(RolesOf(s.dir, actor), GuardOf(route).needs[0]);
    } else {
      OtherRoutesPromoteNobody(cfg, s, Actor(actor, None), route, user);
    }
  }

  lemma PromotionNeedsPermission(cfg: Config, s: State, token: Token, route: Route, user: UserId)
    requires WellFormed(cfg.cat, s.dir) && IsOpen(s.dir.people, user) && !IsAdmin(s.dir, user)
    requires Handle(cfg, s, token, route).Done?
    ensures IsAdmin(Handle(cfg, s, token, route).value.dir, user) ==> token.act.None? && MayPromote(RolesOf(s.dir, token.sub))
  {
    if token.act.Some? {
      GuardsStopTheRest(cfg, s, GetActor(s, token).value, route);
    } else {
      GuardedPromotion(cfg, s, token.sub, route, user);
    }
  }

  /** The request makes the account an administrator. */
  ghost predicate Promotes(cfg: Config, s: State, token: Token, route: Route, user: UserId) {
    var r := Handle(cfg, s, token, route);
    r.Done? && user in r.value.dir.people && IsSuperuser(RolesOf(r.value.dir, user))
  }

  /**
    A working token can make an open account that is no administrator one, by some route, exactly
    when it is not an impersonation token and its holder has users:update or roles:update.
  */
  lemma PromotesExactlyWhen(cfg: Config, s: State, token: Token, admin: RoleId, gs: seq<Grant>, user: UserId)
    requires WellFormed(cfg.cat, s.dir) && AdminRoleIs(s.dir, admin, gs)
    requires IsOpen(s.dir.people, user) && !IsSuperuser(RolesOf(s.dir, user)) && GetActor(s, token).Done?
    ensures (exists route :: Promotes(cfg, s, token, route, user))
       <==> token.act.None? && MayPromote(RolesOf(s.dir, token.sub))
  {
    SuperuserHoldsAdmin(s.dir.roles, s.dir.people[user].roles);
    if route :| Promotes(cfg, s, token, route, user) {
      var t := Handle(cfg, s, token, route).value.dir;
      SuperuserHoldsAdmin(t.roles, t.people[user].roles);
      PromotionNeedsPermission(cfg, s, token, route, user);
    }
    if token.act.None? && MayPromote(RolesOf(s.dir, token.sub)) {
      var route := Promotion(RolesOf(s.dir, token.sub), admin, user);
      PromotionWorks(cfg, s, token, admin, gs, user);
      var t := Handle(cfg, s, token, route).value.dir;
      SuperuserHoldsAdmin(t.roles, t.people[user].roles);
      assert Promotes(cfg, s, token, route, user);
    }
  }

  // ----- Impersonation adds no power -----

  lemma {:induction false} FewerChecksUnimpersonated(roles: seq<Role>, needs: seq<Permission>)
    ensures CheckNeeds(roles, true, needs).None? ==> CheckNeeds(roles, false, needs).None?
    decreases |needs|
  {
    if needs != [] {
      FewerChecksUnimpersonated(roles, needs[1..]);
    }
  }

  /** Equal but for the trail. */
  ghost predicate SameButTrail(r: Result<State>, q: Result<State>) {
    match r
    case Refused(e) => q == Refused(e)
    case Done(t) => q.Done? && q.value.(trail := t.trail) == t
  }

  /** A route's effect does not depend on who is behind the caller. */
  lemma SameEffect(cfg: Config, s: State, user: UserId, other: Option<UserId>, route: Route)
    requires user in s.dir.people
    ensures SameButTrail(Perform(cfg, s, Actor(user, other), route), Perform(cfg, s, Actor(user, None), route))
  {
  }

  /** Whatever a request achieves under impersonation, any working token of the subject's own achieves too. */
  lemma ImpersonationAddsNothing(cfg: Config, s: State, token: Token, own: Token, route: Route)
    requires Handle(cfg, s, token, route).Done?
    requires own.sub == token.sub && own.act.None? && GetActor(s, own).Done?
    ensures SameButTrail(Handle(cfg, s, token, route), Handle(cfg, s, own, route))
  {
    var actor := GetActor(s, token).value;
    FewerChecksUnimpersonated(RolesOf(s.dir, actor.user), GuardOf(route).needs);
    assert CheckGuard(s.dir, Actor(actor.user, None), GuardOf(route)).None?;
    SameEffect(cfg, s, actor.user, actor.impersonator, route);
  }

  // ----- The directory stays well-formed -----

  lemma OwnRoutesKeep(cfg: Config, s: State, actor: Actor, route: Route)
    requires WellFormed(cfg.cat, s.dir) && actor.user in s.dir.people
    requires OwnRoute(route)
    requires Perform(cfg, s, actor, route).Done?
    ensures Keeps(cfg.cat, s.dir, Perform(cfg, s, actor, route).value.dir)
  {
    SetAccountKeeps(cfg.cat, s.dir, actor.user, Perform(cfg, s, actor, route).value.dir.people[actor.user]);
  }

  lemma MemberRoutesKeep(cfg: Config, s: State, actor: Actor, route: Route)
    requires WellFormed(cfg.cat, s.dir) && actor.user in s.dir.people
    requires MemberRoute(route)
    requires Perform(cfg, s, actor, route).Done?
    ensures Keeps(cfg.cat, s.dir, Perform(cfg, s, actor, route).value.dir)
  {
    var role := match route
      case AddUserRole(_, role) => role
      case RemoveUserRole(_, role) => role
      case AddMember(id, _) => s.dir.roles[id].name
      case RemoveMember(id, _) => s.dir.roles[id].name
      case _ => "";
    UserServiceKeeps(cfg.cat, s.dir, actor.user, route.user, role, "");
  }

  lemma PostRoleKeeps(cfg: Config, s: State, actor: Actor, route: Route)
    requires WellFormed(cfg.cat, s.dir) && actor.user in s.dir.people
    requires route.PostRole? && Perform(cfg, s, actor, route).Done?
    ensures Keeps(cfg.cat, s.dir, Perform(cfg, s, actor, route).value.dir)
  {
    CreateRoleKeeps(cfg.cat, s.dir, route.data);
  }

  lemma PutRoleKeeps(cfg: Config, s: State, actor: Actor, route: Route)
    requires WellFormed(cfg.cat, s.dir) && actor.user in s.dir.people
    requires route.PutRole? && Perform(cfg, s, actor, route).Done?
    ensures Keeps(cfg.cat, s.dir, Perform(cfg, s, actor, route).value.dir)
  {
    UpdateRoleKeeps(cfg.cat, s.dir, route.id, route.data);
  }

  lemma RemoveRoleRowKeeps(cfg: Config, s: State, actor: Actor, route: Route)
    requires WellFormed(cfg.cat, s.dir) && actor.user in s.dir.people
    requires route.RemoveRoleRow? && Perform(cfg, s, actor, route).Done?
    ensures Keeps(cfg.cat, s.dir, Perform(cfg, s, actor, route).value.dir)
  {
    DeleteRoleKeeps(cfg.cat, s.dir, route.id);
  }

  lemma OtherRoutesKeep(cfg: Config, s: State, actor: Actor, route: Route)
    requires actor.user in s.dir.people && Perform(cfg, s, actor, route).Done?
    requires !OwnRoute(route) && !MemberRoute(route) && !route.PostRole? && !route.PutRole? && !route.RemoveRoleRow?
    ensures Perform(cfg, s, actor, route).value.dir == s.dir
  {
  }

  lemma PerformKeeps(cfg: Config, s: State, actor: Actor, route: Route)
    requires WellFormed(cfg.cat, s.dir) && actor.user in s.dir.people
    requires Perform(cfg, s, actor, route).Done?
    ensures Keeps(cfg.cat, s.dir, Perform(cfg, s, actor, route).value.dir)
  {
    if OwnRoute(route) {
      OwnRoutesKeep(cfg, s, actor, route);
    } else if MemberRoute(route) {
      MemberRoutesKeep(cfg, s, actor, route);
    } else if route.PostRole? {
      PostRoleKeeps(cfg, s, actor, route);
    } else if route.PutRole? {
      PutRoleKeeps(cfg, s, actor, route);
    } else if route.RemoveRoleRow? {
      RemoveRoleRowKeeps(cfg, s, actor, route);
    } else {
      OtherRoutesKeep(cfg, s, actor, route);
    }
  }

  lemma RequestKeeps(cfg: Config, s: State, token: Token, route: Route)
    requires WellFormed(cfg.cat, s.dir) && Handle(cfg, s, token, route).Done?
    ensures Keeps(cfg.cat, s.dir, Handle(cfg, s, token, route).value.dir)
  {
    PerformKeeps(cfg, s, GetActor(s, token).value, route);
  }

  lemma ResetKeeps(cat: seq<Permission>, d: Directory, user: UserId, password: string, now: Time)
    requires WellFormed(cat, d) && user in d.people
    ensures Keeps(cat, d, MovePassword(d, user, password, now))
  {
    SetAccountKeeps(cat, d, user, d.people[user].(password := password, changedAt := Some(now)));
  }

  lemma GrantKeeps(cat: seq<Permission>, d: Directory, user: UserId, role: string)
    requires WellFormed(cat, d) && AddRole(d, user, role).Done?
    ensures Keeps(cat, d, AddRole(d, user, role).value)
  {
    UserServiceKeeps(cat, d, user, user, role, "");
  }

  lemma SignUpKeeps(cfg: Config, s: State, act: Action)
    requires WellFormed(cfg.cat, s.dir) && (act.SignUp? || act.CreateSuperuser?)
    ensures Keeps(cfg.cat, s.dir, Next(cfg, s, act).dir)
  {
    var name := if act.SignUp? then act.name else None;
    var role := if act.SignUp? && s.dir.people != map[] then USER else ADMIN;
    if EnrolAs(s.dir, act.email, name, act.password, role).Done? {
      EnrolKeeps(cfg.cat, s.dir, act.email, name, act.password, role);
    }
  }

  lemma StepKeeps(cfg: Config, s: State, act: Action)
    requires WellFormed(cfg.cat, s.dir)
    ensures Keeps(cfg.cat, s.dir, Next(cfg, s, act).dir)
  {
    match act
    case SignUp(_, _, _) => SignUpKeeps(cfg, s, act);
    case CreateSuperuser(_, _) => SignUpKeeps(cfg, s, act);
    case ResetPassword(user, password) =>
      if IsOpen(s.dir.people, user) {
        ResetKeeps(cfg.cat, s.dir, user, password, s.clock);
      }
    case GrantRole(user, role) =>
      if AddRole(s.dir, user, role).Done? {
        GrantKeeps(cfg.cat, s.dir, user, role);
      }
    case Request(token, route) =>
      if Handle(cfg, s, token, route).Done? {
        RequestKeeps(cfg, s, token, route);
      }
    case _ =>
  }

  /**
    Over every run: addresses of open accounts and role names stay unique, no account points
    at a missing role, every grant refers to a known permission, and the administrator role
    keeps its name and its grants.
  */
  lemma {:induction false} RunKeepsDirectory(cfg: Config, s: State, acts: seq<Action>, admin: RoleId, gs: seq<Grant>)
    requires WellFormed(cfg.cat, s.dir) && AdminRoleIs(s.dir, admin, gs)
    ensures WellFormed(cfg.cat, Exec(cfg, s, acts).dir) && AdminRoleIs(Exec(cfg, s, acts).dir, admin, gs)
    decreases |acts|
  {
    if acts != [] {
      var n := |acts| - 1;
      RunKeepsDirectory(cfg, s, acts[..n], admin, gs);
      StepKeeps(cfg, Exec(cfg, s, acts[..n]), acts[n]);
    }
  }
}
