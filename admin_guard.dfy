/** The admin guard: a request passes only with an authenticated user whose role is named `admin`. */
module AdminGuard {
  import opened Common

  datatype Role = Role(name: string)
  datatype RequestUser = RequestUser(role: Option<Role>)

  predicate IsAdmin(user: RequestUser)
  {
    user.role.Some? && user.role.value.name == "admin"
  }

  /** `canActivate`: true, or one of the two exceptions; never false. */
  function CanActivate(user: Option<RequestUser>): (r: Result<bool>)
    ensures r.Ok? ==> r.value
    ensures r.Ok? <==> user.Some? && IsAdmin(user.value)
    ensures user.None? ==> r == Err(Error(Unauthorized, NotAuthenticated))
    ensures user.Some? && !IsAdmin(user.value) ==> r == Err(Error(Forbidden, AdminRequired))
  {
    if user.None? then Err(Error(Unauthorized, NotAuthenticated))
    else if IsAdmin(user.value) then Ok(true)
    else Err(Error(Forbidden, AdminRequired))
  }

  /** The guard is total over its inputs and never answers `false`. */
  lemma NeverFalse(user: Option<RequestUser>)
    ensures CanActivate(user) != Ok(false)
  {
  }

  /** The role name must be exactly `admin`: case or padding variants are forbidden. */
  lemma ExactRoleName(name: string)
    requires name != "admin"
    ensures CanActivate(Some(RequestUser(Some(Role(name))))) == Err(Error(Forbidden, AdminRequired))
  {
  }
}
