/** The client-side role helpers of `useAuth`. */
module UseAuth {
  import opened Common

  /** `auth.user`: its `role` array of role names. */
  datatype AuthUser = AuthUser(role: seq<string>)

  /** `Array.prototype.includes` on strings. */
  function Includes(xs: seq<string>, x: string): (r: bool)
    ensures r <==> x in xs
  {
    if xs == [] then false else xs[0] == x || Includes(xs[1..], x)
  }

  /** `auth.user?.role.includes(role) ?? false`. */
  function HasRole(user: Option<AuthUser>, role: string): (r: bool)
    ensures r <==> user.Some? && role in user.value.role
  {
    match user
    case None => false
    case Some(u) => Includes(u.role, role)
  }

  /** `roles.some(role => hasRole(role))`. */
  function HasAnyRole(user: Option<AuthUser>, roles: seq<string>): (r: bool)
    ensures r <==> exists i :: 0 <= i < |roles| && HasRole(user, roles[i])
  {
    if roles == [] then false
    else HasRole(user, roles[0]) || HasAnyRole(user, roles[1..])
  }

  /** `roles.every(role => hasRole(role))`. */
  function HasAllRoles(user: Option<AuthUser>, roles: seq<string>): (r: bool)
    ensures r <==> forall i :: 0 <= i < |roles| ==> HasRole(user, roles[i])
  {
    if roles == [] then true
    else HasRole(user, roles[0]) && HasAllRoles(user, roles[1..])
  }

  function IsAdmin(user: Option<AuthUser>): bool { HasRole(user, "admin") }
  function IsLeader(user: Option<AuthUser>): bool { HasRole(user, "leader") }
  function IsMember(user: Option<AuthUser>): bool { HasRole(user, "member") }

  /** Signed out, no role holds, so `some` fails and `every` holds only
      vacuously. */
  lemma SignedOutHasNoRole(roles: seq<string>)
    ensures !IsAdmin(None) && !IsLeader(None) && !IsMember(None)
    ensures !HasAnyRole(None, roles)
    ensures HasAllRoles(None, roles) <==> roles == []
  {
    if roles != [] {
      assert !HasRole(None, roles[0]);
    }
  }

  /** For a non-empty list, holding all roles means holding some. */
  lemma AllImpliesAny(user: Option<AuthUser>, roles: seq<string>)
    requires roles != [] && HasAllRoles(user, roles)
    ensures HasAnyRole(user, roles)
  {
    assert HasRole(user, roles[0]);
  }

  /** The empty list: `some` is false and `every` is true for anyone. */
  lemma EmptyRoleList(user: Option<AuthUser>)
    ensures !HasAnyRole(user, []) && HasAllRoles(user, [])
  {
  }
}
