/**
 * frontend/src/core/auth/RoleRoute.tsx: the role guard. `check` decides from
 * the token's claims when it can and otherwise asks the profile endpoint;
 * the render step turns the two flags `checked` and `allowed` into nothing,
 * a redirect or the protected children.
 */
module RoleRoute {
  import opened Wrappers
  import opened Auth
  import opened ProtectedRoute

  const DefaultForbiddenPath: string := "/"

  /** The fields of the profile response the guard reads; "" stands for a falsy value. */
  datatype Profile = Profile(role: string, userType: string, isStaff: bool, isSuperuser: bool, isEmployee: bool)

  /** `payload.role || payload.user_type || null`, with "" for null. */
  function ClaimedRole(c: Claims): string {
    if c.role != [] then c.role else c.userType
  }

  /** Staff and superusers count as admin when "admin" or "hr" is allowed. */
  predicate StaffAllowed(allowedRoles: seq<string>) {
    "admin" in allowedRoles || "hr" in allowedRoles
  }

  /** The decoded claims grant access without asking the server. */
  predicate ClaimsGrant(c: Claims, allowedRoles: seq<string>) {
    (ClaimedRole(c) != [] && ClaimedRole(c) in allowedRoles)
    || ((c.isStaff || c.isSuperuser) && StaffAllowed(allowedRoles))
  }

  /** The token decodes to claims that grant access. */
  predicate TokenGrants(token: Option<string>, allowedRoles: seq<string>, parse: string -> Option<Claims>) {
    var payload := DecodeJwt(token, parse);
    payload.Some? && ClaimsGrant(payload.value, allowedRoles)
  }

  /** Role resolution from the profile: role, then user_type, then "admin" for staff, then "employee". */
  function ProfileRole(u: Profile): (r: string)
    ensures u.role != [] ==> r == u.role
    ensures u.role == [] && u.userType != [] ==> r == u.userType
    ensures u.role == [] && u.userType == [] ==> r == (if u.isStaff then "admin" else if u.isEmployee then "employee" else "")
  {
    if u.role != [] then u.role
    else if u.userType != [] then u.userType
    else if u.isStaff then "admin"
    else if u.isEmployee then "employee"
    else ""
  }

  /**
   * `allowed` after the profile step: a listed role grants; staff grant when
   * admin or hr is allowed, and otherwise leave `allowed` as it was; anyone
   * else is refused. A failed request (None) leaves `allowed` as it was.
   */
  function ProfileDecision(profile: Option<Profile>, allowedRoles: seq<string>, prior: bool): (r: bool)
    ensures profile.None? ==> r == prior
    ensures profile.Some? && ProfileRole(profile.value) != [] && ProfileRole(profile.value) in allowedRoles ==> r
    ensures profile.Some? && (profile.value.isStaff || profile.value.isSuperuser) && StaffAllowed(allowedRoles) ==> r
    ensures r && !prior ==> profile.Some?
  {
    match profile
    case None => prior
    case Some(u) =>
      var role := ProfileRole(u);
      if role != [] && role in allowedRoles then true
      else if u.isStaff || u.isSuperuser then (if StaffAllowed(allowedRoles) then true else prior)
      else false
  }

  /** The profile endpoint is called exactly when there is a token whose claims do not grant access. */
  predicate NeedsProfile(token: Option<string>, allowedRoles: seq<string>, parse: string -> Option<Claims>) {
    HasToken(token) && !TokenGrants(token, allowedRoles, parse)
  }

  /** The value `check` leaves in `allowed`, starting from `prior`. */
  function Decision(token: Option<string>, allowedRoles: seq<string>, parse: string -> Option<Claims>,
                    profile: Option<Profile>, prior: bool): (r: bool)
    ensures !HasToken(token) ==> !r
    ensures HasToken(token) && TokenGrants(token, allowedRoles, parse) ==> r
    ensures NeedsProfile(token, allowedRoles, parse) ==> r == ProfileDecision(profile, allowedRoles, prior)
  {
    if !HasToken(token) then false
    else if TokenGrants(token, allowedRoles, parse) then true
    else ProfileDecision(profile, allowedRoles, prior)
  }

  /** The guard's state: `checked` and `allowed`, both false at first. */
  class RoleGuard {
    var checked: bool
    var allowed: bool

    constructor ()
      ensures !checked && !allowed
    {
      checked := false;
      allowed := false;
    }

    /**
     * `check`: the token from storage, `parse` standing for `atob` and
     * `JSON.parse`, and `profile` the answer the endpoint would give (None
     * for a failed request). Reports whether the endpoint was called.
     */
    method Check(token: Option<string>, allowedRoles: seq<string>, parse: string -> Option<Claims>,
                 profile: Option<Profile>)
      returns (fetched: bool)
      modifies this
      ensures checked
      ensures fetched == NeedsProfile(token, allowedRoles, parse)
      ensures allowed == Decision(token, allowedRoles, parse, profile, old(allowed))
    {
      if !HasToken(token) {
        allowed := false;
        checked := true;
        return false;
      }
      var payload := DecodeJwt(token, parse);
      if payload.Some? {
        var roleClaim := ClaimedRole(payload.value);
        if roleClaim != [] && roleClaim in allowedRoles {
          allowed := true;
          checked := true;
          return false;
        }
        if payload.value.isStaff || payload.value.isSuperuser {
          if StaffAllowed(allowedRoles) {
            allowed := true;
            checked := true;
            return false;
          }
        }
      }
      fetched := true;
      match profile {
        case None =>
        case Some(user) =>
          var r := ProfileRole(user);
          if r != [] && r in allowedRoles {
            allowed := true;
          } else if user.isStaff || user.isSuperuser {
            if StaffAllowed(allowedRoles) {
              allowed := true;
            }
          } else {
            allowed := false;
          }
      }
      checked := true;
    }

    /**
     * `check` that starts from `allowed = false`, as the comment on the
     * failed-request branch takes for granted: the decision no longer depends on the
     * previous run.
     */
    method CheckFromClosed(token: Option<string>, allowedRoles: seq<string>, parse: string -> Option<Claims>,
                           profile: Option<Profile>)
      returns (fetched: bool)
      modifies this
      ensures checked
      ensures fetched == NeedsProfile(token, allowedRoles, parse)
      ensures allowed == Decision(token, allowedRoles, parse, profile, false)
    {
      allowed := false;
      fetched := Check(token, allowedRoles, parse, profile);
    }
  }

  /**
   * From the initial state the guard fails closed: with a failed profile
   * request only the claims themselves can grant access.
   */
  lemma FailsClosedFromStart(token: Option<string>, allowedRoles: seq<string>, parse: string -> Option<Claims>)
    ensures Decision(token, allowedRoles, parse, None, false) <==> HasToken(token) && TokenGrants(token, allowedRoles, parse)
  {
  }

  /**
   * As written, a later run of `check` (the effect re-runs when
   * `allowedRoles` changes) keeps a `true` left by an earlier run when the
   * profile request fails, although the token grants nothing.
   */
  lemma StaleAllowSurvivesFailedFetch()
    ensures var parse := (s: string) => None;
      HasToken(Some("a.b.c")) && !TokenGrants(Some("a.b.c"), ["admin"], parse)
      && Decision(Some("a.b.c"), ["admin"], parse, None, true)
  {
  }

  /**
   * The render step: nothing until checked, then the login redirect without
   * a token, the forbidden redirect when not allowed, else the children.
   */
  function Render(checked: bool, token: Option<string>, allowed: bool, loginPath: string, forbiddenPath: string): (r: Screen)
    ensures r == Nothing <==> !checked
    ensures r == Children <==> checked && HasToken(token) && allowed
    ensures checked && !HasToken(token) ==> r == RedirectTo(loginPath)
    ensures checked && HasToken(token) && !allowed ==> r == RedirectTo(forbiddenPath)
  {
    if !checked then Nothing
    else if !HasToken(token) then RedirectTo(loginPath)
    else if !allowed then RedirectTo(forbiddenPath)
    else Children
  }
}
