/**
 * The front-end read-permission check: a fixed table from resource key to the
 * permissions that grant read access to it, and `hasPermission`, which decides
 * whether the current user may view a route.
 */
module PermissionsHelper {
  import opened Wrappers
  import opened RoutePaths

  /** A role, as far as the check looks at it: the permission strings it carries. */
  datatype Role = Role(permissions: seq<string>)

  /**
   * A signed-in user. `roles` is `None` when the user object has no `roles`
   * field at all, which the destructuring default turns into an empty list.
   */
  datatype User = User(roles: Option<seq<Role>>)

  /** `routePermissions`: seven resource keys, each readable with `read_all` or its own read permission. */
  const RoutePermissions: map<string, seq<string>> := map[
    "categories" := ["read_all", "read_categories"],
    "companies" := ["read_all", "read_companies"],
    "roles" := ["read_all", "read_roles"],
    "users" := ["read_all", "read_users"],
    "events" := ["read_all", "read_events"],
    "sessions" := ["read_all", "read_sessions"],
    "hosts" := ["read_all", "read_hosts"]
  ]

  /** The table has exactly seven keys, and each entry is `read_all` followed by `read_<key>`. */
  lemma RoutePermissionsShape()
    ensures RoutePermissions.Keys
      == {"categories", "companies", "roles", "users", "events", "sessions", "hosts"}
    ensures forall key :: key in RoutePermissions ==>
      RoutePermissions[key] == ["read_all", "read_" + key]
  {
    assert "read_" + "categories" == "read_categories";
    assert "read_" + "companies" == "read_companies";
    assert "read_" + "roles" == "read_roles";
    assert "read_" + "users" == "read_users";
    assert "read_" + "events" == "read_events";
    assert "read_" + "sessions" == "read_sessions";
    assert "read_" + "hosts" == "read_hosts";
  }

  /** `const { roles = [] } = currentUser`. */
  function RolesOf(user: User): (roles: seq<Role>)
    ensures user.roles.None? ==> roles == []
    ensures roles != [] ==> user.roles == Some(roles)
  {
    match user.roles
    case None => []
    case Some(rs) => rs
  }

  /** `routePermissions[basePath]`: the permissions a route needs, or `undefined` when it is not in the table. */
  function PermissionsNeeded(basePath: Option<string>): (needed: Option<seq<string>>)
    ensures needed.Some? <==> basePath.Some? && basePath.value in RoutePermissions
    ensures needed.Some? ==> needed.value == RoutePermissions[basePath.value]
    ensures needed.Some? ==> "read_all" in needed.value
  {
    if basePath.Some? && basePath.value in RoutePermissions then
      Some(RoutePermissions[basePath.value])
    else
      None
  }

  /** Some role among `roles` carries permission `p`. */
  ghost predicate Holds(roles: seq<Role>, p: string) {
    exists i :: 0 <= i < |roles| && p in roles[i].permissions
  }

  /** `permissions.some(p => needed.includes(p))`. */
  function SomePermissionNeeded(permissions: seq<string>, needed: seq<string>): (r: bool)
    ensures r <==> exists p :: p in permissions && p in needed
  {
    if permissions == [] then false
    else if permissions[0] in needed then true
    else
      assert forall p :: p in permissions <==> p == permissions[0] || p in permissions[1..];
      SomePermissionNeeded(permissions[1..], needed)
  }

  /** `roles.some(role => role.permissions.some(p => needed.includes(p)))`. */
  function SomeRoleGrants(roles: seq<Role>, needed: seq<string>): (r: bool)
    ensures r <==> exists p :: Holds(roles, p) && p in needed
  {
    if roles == [] then false
    else if SomePermissionNeeded(roles[0].permissions, needed) then
      assert Holds(roles, var p :| p in roles[0].permissions && p in needed; p);
      true
    else
      var r := SomeRoleGrants(roles[1..], needed);
      HoldsCons(roles);
      r
  }

  /** A permission is held by a non-empty list of roles iff the first role or the rest carries it. */
  lemma HoldsCons(roles: seq<Role>)
    requires roles != []
    ensures forall p :: Holds(roles, p) <==> p in roles[0].permissions || Holds(roles[1..], p)
  {
  }

  /** The route has a resource key, and that key is in the table. */
  predicate IsMapped(route: string): (m: bool)
    ensures m <==> BasePath(route).Some? && BasePath(route).value in RoutePermissions
    ensures m ==> !AllSlashes(route)
  {
    NoBasePathIffAllSlashes(route);
    PermissionsNeeded(BasePath(route)).Some?
  }

  /**
   * `hasPermission(currentUser, route)`: an absent user is denied everything; a route whose
   * key is not in the table is open to every user; otherwise the user needs
   * some role carrying some permission of the route's table entry.
   */
  function HasPermission(currentUser: Option<User>, route: string): (r: bool)
    ensures currentUser.None? ==> !r
    ensures currentUser.Some? && !IsMapped(route) ==> r
    ensures currentUser.Some? && IsMapped(route) ==>
      (r <==> exists p :: Holds(RolesOf(currentUser.value), p)
                          && p in RoutePermissions[BasePath(route).value])
  {
    var basePath := BasePath(route);
    var needed := PermissionsNeeded(basePath);
    if currentUser.None? then
      false
    else if needed.Some? then
      SomeRoleGrants(RolesOf(currentUser.value), needed.value)
    else
      true
  }

  /** A route with no non-empty segment ("", "/", "///") is unmapped: denied without a user, granted with one. */
  lemma SlashOnlyRouteIsUnmapped(currentUser: Option<User>, route: string)
    requires AllSlashes(route)
    ensures !IsMapped(route)
    ensures HasPermission(currentUser, route) <==> currentUser.Some?
  {
  }

  /** A user whose roles include `read_all` may read every route: each table entry lists it, and unmapped routes are open. */
  lemma ReadAllGrantsEveryRoute(user: User, route: string)
    requires Holds(RolesOf(user), "read_all")
    ensures HasPermission(Some(user), route)
  {
  }

  /** A user without a `roles` field is denied every resource in the table. */
  lemma MissingRolesDenied(route: string)
    requires IsMapped(route)
    ensures !HasPermission(Some(User(None)), route)
  {
  }

  /** Holding only permissions outside a resource's entry means being denied that resource. */
  lemma NoMatchingPermissionDenied(user: User, route: string)
    requires IsMapped(route)
    requires forall i, j :: 0 <= i < |RolesOf(user)| && 0 <= j < |RolesOf(user)[i].permissions| ==>
      RolesOf(user)[i].permissions[j] !in RoutePermissions[BasePath(route).value]
    ensures !HasPermission(Some(user), route)
  {
  }

  /**
   * A user whose only permission, across all roles, is `read_companies` may
   * read every route keyed "companies" and no route keyed "users" (for
   * instance /companies and /users).
   */
  lemma ReadCompaniesOnly(user: User, route: string)
    requires Holds(RolesOf(user), "read_companies")
    requires forall p :: Holds(RolesOf(user), p) ==> p == "read_companies"
    ensures BasePath(route) == Some("companies") ==> HasPermission(Some(user), route)
    ensures BasePath(route) == Some("users") ==> !HasPermission(Some(user), route)
  {
  }

  /** Of two roles, one matching and one not, the matching one is enough: permissions are pooled across roles. */
  lemma AnyMatchingRoleSuffices(user: User, route: string, i: nat)
    requires IsMapped(route)
    requires i < |RolesOf(user)|
    requires exists p :: p in RolesOf(user)[i].permissions && p in RoutePermissions[BasePath(route).value]
    ensures HasPermission(Some(user), route)
  {
  }

  /** Granting is monotone: a user who holds every permission another holds is granted at least as much. */
  lemma MoreHeldMoreGranted(user: User, user': User, route: string)
    requires forall p :: Holds(RolesOf(user), p) ==> Holds(RolesOf(user'), p)
    ensures HasPermission(Some(user), route) ==> HasPermission(Some(user'), route)
  {
  }

  /** Adding a role at any position never revokes access. */
  lemma AddRoleMonotone(user: User, role: Role, k: nat, route: string)
    requires k <= |RolesOf(user)|
    ensures var roles := RolesOf(user);
      HasPermission(Some(user), route) ==>
      HasPermission(Some(User(Some(roles[..k] + [role] + roles[k..]))), route)
  {
    var roles := RolesOf(user);
    var roles' := roles[..k] + [role] + roles[k..];
    var user' := User(Some(roles'));
    forall p | Holds(roles, p) ensures Holds(roles', p) {
      var i :| 0 <= i < |roles| && p in roles[i].permissions;
      if i < k {
        assert roles'[i] == roles[i];
      } else {
        assert roles'[i + 1] == roles[i];
      }
    }
    MoreHeldMoreGranted(user, user', route);
  }

  /** Adding a permission anywhere in one of the user's roles never revokes access. */
  lemma AddPermissionMonotone(user: User, i: nat, j: nat, p: string, route: string)
    requires i < |RolesOf(user)|
    requires j <= |RolesOf(user)[i].permissions|
    ensures var roles := RolesOf(user);
      var perms := roles[i].permissions;
      HasPermission(Some(user), route) ==>
      HasPermission(Some(User(Some(roles[i := Role(perms[..j] + [p] + perms[j..])]))), route)
  {
    var roles := RolesOf(user);
    var perms := roles[i].permissions;
    var roles' := roles[i := Role(perms[..j] + [p] + perms[j..])];
    var user' := User(Some(roles'));
    forall q | Holds(roles, q) ensures Holds(roles', q) {
      var i' :| 0 <= i' < |roles| && q in roles[i'].permissions;
      if i' == i {
        var j' :| 0 <= j' < |perms| && perms[j'] == q;
        if j' < j {
          assert roles'[i].permissions[j'] == q;
        } else {
          assert roles'[i].permissions[j' + 1] == q;
        }
      } else {
        assert roles'[i'] == roles[i'];
      }
    }
    MoreHeldMoreGranted(user, user', route);
  }
}
