/** What an account may do: the widest scope its roles grant for each (resource, action). */
module Authorization {
  import opened Common

  datatype Scope = Own | All

  datatype Permission = Permission(resource: string, action: string)

  datatype Grant = Grant(permission: Permission, scope: Scope)

  datatype Role = Role(name: string, grants: seq<Grant>)

  type Scopes = map<Permission, Scope>

  const ADMIN := "superadmin"
  const USER := "user"

  const USERS_READ := Permission("users", "read")
  const USERS_UPDATE := Permission("users", "update")
  const USERS_DELETE := Permission("users", "delete")
  const USERS_IMPERSONATE := Permission("users", "impersonate")
  const ROLES_READ := Permission("roles", "read")
  const ROLES_CREATE := Permission("roles", "create")
  const ROLES_UPDATE := Permission("roles", "update")
  const ROLES_DELETE := Permission("roles", "delete")
  const FEATURE_FLAGS_READ := Permission("feature_flags", "read")
  const FEATURE_FLAGS_UPDATE := Permission("feature_flags", "update")
  const REQUEST_LOG_READ := Permission("request_log", "read")
  const AUDIT_LOG_READ := Permission("audit_log", "read")

  const BLOCKED_WHILE_IMPERSONATING: set<Permission> :=
    {ROLES_CREATE, ROLES_UPDATE, ROLES_DELETE, USERS_UPDATE, USERS_DELETE, USERS_IMPERSONATE, FEATURE_FLAGS_UPDATE}

  // ----- The lattice: nothing < own < all -----

  function Wider(a: Option<Scope>, b: Option<Scope>): Option<Scope> {
    if a == Some(All) || b == Some(All) then Some(All)
    else if a.Some? then a
    else b
  }

  predicate AtMost(a: Option<Scope>, b: Option<Scope>) {
    Wider(a, b) == b
  }

  /** Every grant the roles carry, as one list. */
  function AllGrants(roles: seq<Role>): seq<Grant> {
    if roles == [] then [] else AllGrants(roles[..|roles| - 1]) + roles[|roles| - 1].grants
  }

  /** What the grants amount to for one permission: all if any says all, else own if any does. */
  function Best(gs: seq<Grant>, p: Permission): Option<Scope> {
    if Grant(p, All) in gs then Some(All)
    else if Grant(p, Own) in gs then Some(Own)
    else None
  }

  function Lookup(m: Scopes, p: Permission): Option<Scope> {
    if p in m then Some(m[p]) else None
  }

  ghost predicate Summarises(m: Scopes, gs: seq<Grant>) {
    forall p :: Lookup(m, p) == Best(gs, p)
  }

  lemma BestOfOneMore(gs: seq<Grant>, g: Grant)
    ensures forall p :: Best(gs + [g], p) == if p == g.permission then Wider(Best(gs, p), Some(g.scope)) else Best(gs, p)
  {
    var all := gs + [g];
    forall p
      ensures Best(all, p) == if p == g.permission then Wider(Best(gs, p), Some(g.scope)) else Best(gs, p)
    {
      assert Grant(p, All) in all <==> Grant(p, All) in gs || Grant(p, All) == g;
      assert Grant(p, Own) in all <==> Grant(p, Own) in gs || Grant(p, Own) == g;
      assert g.scope.Own? || g.scope.All?;
    }
  }

  /** Overwriting anything but `all` is joining. */
  lemma OverwriteIsJoin(m: Scopes, gs: seq<Grant>, g: Grant)
    requires Summarises(m, gs)
    ensures Lookup(m, g.permission) == Some(All) ==> Summarises(m, gs + [g])
    ensures Lookup(m, g.permission) != Some(All) ==> Summarises(m[g.permission := g.scope], gs + [g])
  {
    BestOfOneMore(gs, g);
    forall p
      ensures Lookup(m, g.permission) == Some(All) ==> Lookup(m, p) == Best(gs + [g], p)
      ensures Lookup(m, g.permission) != Some(All) ==> Lookup(m[g.permission := g.scope], p) == Best(gs + [g], p)
    {
      assert Lookup(m, p) == Best(gs, p);
      assert g.scope.Own? || g.scope.All?;
    }
  }

  /** The nested loop over roles and their grants, updating a dictionary. */
  method Widest(roles: seq<Role>) returns (widest: Scopes)
    ensures Summarises(widest, AllGrants(roles))
  {
    widest := map[];
    var i := 0;
    while i < |roles|
      invariant 0 <= i <= |roles|
      invariant Summarises(widest, AllGrants(roles[..i]))
    {
      var grants := roles[i].grants;
      ghost var before := AllGrants(roles[..i]);
      assert roles[..i + 1][..i] == roles[..i];
      var j := 0;
      assert before + grants[..0] == before;
      while j < |grants|
        invariant 0 <= j <= |grants|
        invariant Summarises(widest, before + grants[..j])
      {
        var key := grants[j].permission;
        OverwriteIsJoin(widest, before + grants[..j], grants[j]);
        assert before + grants[..j + 1] == before + grants[..j] + [grants[j]];
        if !(key in widest && widest[key] == All) {
          widest := widest[key := grants[j].scope];
        }
        j := j + 1;
      }
      assert before + grants[..j] == AllGrants(roles[..i + 1]);
      i := i + 1;
    }
    assert roles[..i] == roles;
  }

  predicate IsSuperuser(roles: seq<Role>) {
    exists i :: 0 <= i < |roles| && roles[i].name == ADMIN
  }

  function ScopeFor(roles: seq<Role>, p: Permission): Option<Scope> {
    if IsSuperuser(roles) then Some(All) else Best(AllGrants(roles), p)
  }

  predicate Outranks(actor: seq<Role>, target: seq<Role>) {
    IsSuperuser(actor) || !IsSuperuser(target)
  }

  predicate MayImpersonate(actor: seq<Role>, target: seq<Role>) {
    ScopeFor(actor, USERS_IMPERSONATE).Some? && Outranks(actor, target)
  }

  // ----- Properties of the fold -----

  lemma {:induction false} GrantsConcat(a: seq<Role>, b: seq<Role>)
    ensures AllGrants(a + b) == AllGrants(a) + AllGrants(b)
  {
    if b == [] {
      assert a + b == a;
    } else {
      var n := |a + b| - 1;
      assert (a + b)[..n] == a + b[..|b| - 1];
      GrantsConcat(a, b[..|b| - 1]);
    }
  }

  /** Combining two sets of roles joins what each grants. */
  lemma FoldIsAJoin(a: seq<Role>, b: seq<Role>, p: Permission)
    ensures ScopeFor(a + b, p) == Wider(ScopeFor(a, p), ScopeFor(b, p))
  {
    GrantsConcat(a, b);
    var ab := a + b;
    assert forall i :: 0 <= i < |a| ==> ab[i] == a[i];
    assert forall i :: 0 <= i < |b| ==> ab[|a| + i] == b[i];
    assert IsSuperuser(ab) <==> IsSuperuser(a) || IsSuperuser(b);
    var ga, gb := AllGrants(a), AllGrants(b);
    assert forall x :: x in ga + gb <==> x in ga || x in gb;
  }

  lemma {:induction false} GrantsComeFromRoles(roles: seq<Role>, g: Grant)
    ensures g in AllGrants(roles) <==> exists r :: r in roles && g in r.grants
  {
    if roles != [] {
      var front, last := roles[..|roles| - 1], roles[|roles| - 1];
      GrantsComeFromRoles(front, g);
      assert forall r :: r in roles <==> r in front || r == last;
    }
  }

  lemma SuperuserByMembership(roles: seq<Role>)
    ensures IsSuperuser(roles) <==> exists r :: r in roles && r.name == ADMIN
  {
    if r :| r in roles && r.name == ADMIN {
      var i :| 0 <= i < |roles| && roles[i] == r;
    }
  }

  /** Only which roles are held matters: not their order, not how often they are listed. */
  lemma OrderDoesNotMatter(a: seq<Role>, b: seq<Role>, p: Permission)
    requires forall r :: r in a <==> r in b
    ensures ScopeFor(a, p) == ScopeFor(b, p)
  {
    SuperuserByMembership(a);
    SuperuserByMembership(b);
    GrantsComeFromRoles(a, Grant(p, All));
    GrantsComeFromRoles(b, Grant(p, All));
    GrantsComeFromRoles(a, Grant(p, Own));
    GrantsComeFromRoles(b, Grant(p, Own));
  }

  /** An extra role, wherever it lands among the others, never narrows anything. */
  lemma AddingARoleNeverNarrows(before: seq<Role>, role: Role, after: seq<Role>, p: Permission)
    ensures AtMost(ScopeFor(before + after, p), ScopeFor(before + [role] + after, p))
  {
    FoldIsAJoin(before, after, p);
    FoldIsAJoin(before + [role], after, p);
    FoldIsAJoin(before, [role], p);
  }

  /** Grant lists with the same entries, in any order and any number, mean the same dictionary. */
  lemma SameGrantsSameScopes(gs: seq<Grant>, hs: seq<Grant>, m: Scopes, n: Scopes)
    requires (forall g :: g in gs <==> g in hs) && Summarises(m, gs) && Summarises(n, hs)
    ensures m == n
  {
    forall p
      ensures p in m <==> p in n
      ensures p in m ==> m[p] == n[p]
    {
      assert Lookup(m, p) == Best(gs, p) == Best(hs, p) == Lookup(n, p);
    }
  }

  // ----- The listing -----

  predicate Distinct(ps: seq<Permission>) {
    forall i, j :: 0 <= i < j < |ps| ==> ps[i] != ps[j]
  }

  predicate Catalogued(gs: seq<Grant>, catalogue: seq<Permission>) {
    forall g :: g in gs ==> g.permission in catalogue
  }

  /** A listing and a decision procedure that say the same, once per permission. */
  ghost predicate ListsExactly(listing: seq<Grant>, roles: seq<Role>, catalogue: seq<Permission>) {
    && (forall p, s :: Grant(p, s) in listing <==> p in catalogue && ScopeFor(roles, p) == Some(s))
    && (forall i, j :: 0 <= i < j < |listing| ==> listing[i].permission != listing[j].permission)
  }

  /** Text in code-point order, strictly. */
  predicate Precedes(a: string, b: string) {
    b != "" && (a == "" || a[0] < b[0] || (a[0] == b[0] && Precedes(a[1..], b[1..])))
  }

  lemma {:induction false} TextOrderIsTotal(a: string, b: string)
    ensures a == b || Precedes(a, b) || Precedes(b, a)
    ensures !(Precedes(a, b) && Precedes(b, a)) && !Precedes(a, a)
  {
    if a != "" {
      TextOrderIsTotal(a[1..], if b != "" then b[1..] else "");
      if b != "" {
        assert a == [a[0]] + a[1..] && b == [b[0]] + b[1..];
      }
    }
  }

  lemma {:induction false} TextOrderIsTransitive(a: string, b: string, c: string)
    requires Precedes(a, b) && Precedes(b, c)
    ensures Precedes(a, c)
  {
    if a != "" && a[0] == b[0] == c[0] {
      TextOrderIsTransitive(a[1..], b[1..], c[1..]);
    }
  }

  /** The order of the listing: by resource, then by action. */
  predicate ListedBefore(p: Permission, q: Permission) {
    Precedes(p.resource, q.resource) || (p.resource == q.resource && Precedes(p.action, q.action))
  }

  lemma ListingOrder(p: Permission, q: Permission, r: Permission)
    ensures p == q || ListedBefore(p, q) || ListedBefore(q, p)
    ensures !ListedBefore(p, p)
    ensures ListedBefore(p, q) && ListedBefore(q, r) ==> ListedBefore(p, r)
  {
    TextOrderIsTotal(p.resource, q.resource);
    TextOrderIsTotal(p.action, q.action);
    TextOrderIsTotal(p.resource, p.resource);
    TextOrderIsTotal(p.action, p.action);
    if Precedes(p.resource, q.resource) && Precedes(q.resource, r.resource) {
      TextOrderIsTransitive(p.resource, q.resource, r.resource);
    }
    if Precedes(p.action, q.action) && Precedes(q.action, r.action) {
      TextOrderIsTransitive(p.action, q.action, r.action);
    }
  }

  ghost predicate ListedFirst(p: Permission, ps: set<Permission>) {
    p in ps && forall q :: q in ps ==> q == p || ListedBefore(p, q)
  }

  lemma {:induction false} SomeListedFirst(ps: set<Permission>)
    requires ps != {}
    ensures exists p :: ListedFirst(p, ps)
    decreases ps
  {
    var x :| x in ps;
    var rest := ps - {x};
    assert forall q :: q in ps ==> q == x || q in rest;
    if rest == {} {
      assert ListedFirst(x, ps);
    } else {
      SomeListedFirst(rest);
      var p :| ListedFirst(p, rest);
      ListingOrder(x, p, p);
      if ListedBefore(x, p) {
        forall q | q in rest
          ensures ListedBefore(x, q)
        {
          ListingOrder(x, p, q);
        }
        assert ListedFirst(x, ps);
      } else {
        assert ListedFirst(p, ps);
      }
    }
  }

  ghost predicate InOrder(listing: seq<Grant>) {
    forall i, j :: 0 <= i < j < |listing| ==> ListedBefore(listing[i].permission, listing[j].permission)
  }

  lemma InOrderOnce(listing: seq<Grant>)
    requires InOrder(listing)
    ensures forall i, j :: 0 <= i < j < |listing| ==> listing[i].permission != listing[j].permission
  {
    forall i, j | 0 <= i < j < |listing|
      ensures listing[i].permission != listing[j].permission
    {
      var p := listing[i].permission;
      ListingOrder(p, p, p);
    }
  }

  /** The dictionary's entries in order. */
  method Granted(m: Scopes) returns (listing: seq<Grant>)
    ensures forall p, s :: Grant(p, s) in listing <==> p in m && m[p] == s
    ensures InOrder(listing)
  {
    listing := [];
    var rest := m.Keys;
    while rest != {}
      invariant rest <= m.Keys
      invariant forall g, q :: g in listing && q in rest ==> ListedBefore(g.permission, q)
      invariant forall p, s :: Grant(p, s) in listing <==> p in m && p !in rest && m[p] == s
      invariant InOrder(listing)
      decreases rest
    {
      SomeListedFirst(rest);
      var p :| p in rest && forall q :: q in rest ==> q == p || ListedBefore(p, q);
      rest := rest - {p};
      assert forall i :: 0 <= i < |listing| ==> listing[i] in listing;
      listing := listing + [Grant(p, m[p])];
    }
  }

  /** The permissions shown to an account are the ones it has: for a superuser, everything in the catalogue. */
  method EffectiveGrants(roles: seq<Role>, catalogue: seq<Permission>) returns (listing: seq<Grant>)
    requires Distinct(catalogue) && Catalogued(AllGrants(roles), catalogue)
    ensures ListsExactly(listing, roles, catalogue)
    ensures !IsSuperuser(roles) ==> forall p, s :: Grant(p, s) in listing <==> ScopeFor(roles, p) == Some(s)
    ensures !IsSuperuser(roles) ==> InOrder(listing)
    ensures IsSuperuser(roles) ==> |listing| == |catalogue| && forall i :: 0 <= i < |catalogue| ==> listing[i] == Grant(catalogue[i], All)
  {
    if IsSuperuser(roles) {
      listing := seq(|catalogue|, i requires 0 <= i < |catalogue| => Grant(catalogue[i], All));
      forall p | p in catalogue
        ensures Grant(p, All) in listing
      {
        var i :| 0 <= i < |catalogue| && catalogue[i] == p;
        assert listing[i] == Grant(p, All);
      }
    } else {
      var widest := Widest(roles);
      listing := Granted(widest);
      InOrderOnce(listing);
      forall p, s
        ensures Grant(p, s) in listing <==> ScopeFor(roles, p) == Some(s)
        ensures ScopeFor(roles, p) == Some(s) ==> p in catalogue
      {
        assert Lookup(widest, p) == Best(AllGrants(roles), p);
      }
    }
  }
}
