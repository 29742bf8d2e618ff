/** `OrganizationGuard.canActivate`: whether the authenticated user may act on the
    organisation a request names. */
module OrganizationGuard {
  import opened Errors

  datatype User = User(role: string, organizationId: Option<string>)

  /** The parsed request body, as far as the guard reads it. */
  datatype Body = Body(organizationId: Option<string>)

  /** The parts of a request the guard reads; `body` is None when the request carries none. */
  datatype Request = Request(user: Option<User>, queryOrganizationId: Option<string>, body: Option<Body>)

  /** `canActivate` returns true (Allow) or throws one of three exceptions. */
  datatype Decision = Allow | Unauthorized | Forbidden | InternalServerError

  /** JavaScript truthiness of an optional string: present and not empty. */
  predicate Truthy(s: Option<string>) {
    s.Some? && s.value != ""
  }

  /** `query.organizationId || body.organizationId`: the query's value when truthy, otherwise
      the body's; reading the body's field fails when there is no body. */
  function Requested(req: Request): (r: Option<Option<string>>)
    ensures Truthy(req.queryOrganizationId) ==> r == Some(req.queryOrganizationId)
    ensures !Truthy(req.queryOrganizationId) ==>
      (r.None? <==> req.body.None?) && (r.Some? ==> r.value == req.body.value.organizationId)
  {
    if Truthy(req.queryOrganizationId) then Some(req.queryOrganizationId)
    else if req.body.None? then None
    else Some(req.body.value.organizationId)
  }

  const SuperAdmin: string := "SUPERADMIN"

  function CanActivate(req: Request): (d: Decision)
    ensures req.user.None? ==> d == Unauthorized
    ensures d == Unauthorized <==> req.user.None?
    ensures d == InternalServerError <==> req.user.Some? && Requested(req).None?
    ensures d == Forbidden <==>
      && req.user.Some? && Requested(req).Some? && Truthy(Requested(req).value)
      && req.user.value.role != SuperAdmin
      && req.user.value.organizationId != Requested(req).value
    ensures d == Allow <==>
      && req.user.Some? && Requested(req).Some?
      && (|| !Truthy(Requested(req).value)
          || req.user.value.role == SuperAdmin
          || req.user.value.organizationId == Requested(req).value)
  {
    if req.user.None? then Unauthorized
    else
      match Requested(req)
      case None => InternalServerError
      case Some(organizationId) =>
        if !Truthy(organizationId) then Allow
        else if req.user.value.role == SuperAdmin then Allow
        else if req.user.value.organizationId != organizationId then Forbidden
        else Allow
  }

  /** A truthy query value decides alone: the body is never looked at. */
  lemma QueryTakesPrecedence(req: Request, body: Option<Body>)
    requires Truthy(req.queryOrganizationId)
    ensures CanActivate(req.(body := body)) == CanActivate(req)
  {
  }

  /** An empty query value counts as no value: the body's decides. */
  lemma EmptyQueryFallsBack(req: Request)
    requires req.queryOrganizationId == Some("")
    ensures CanActivate(req) == CanActivate(req.(queryOrganizationId := None))
  {
  }

  /** A superadmin is let through whichever organisation is named. */
  lemma SuperAdminAllowed(req: Request, org: string)
    requires req.user.Some? && req.user.value.role == SuperAdmin
    ensures CanActivate(req.(queryOrganizationId := Some(org))) != Forbidden
    ensures org != "" ==> CanActivate(req.(queryOrganizationId := Some(org))) == Allow
  {
  }

  /** Any other user is let into its own organisation and no other. */
  lemma MemberAccess(user: User, org: string, body: Option<Body>)
    requires user.role != SuperAdmin && org != ""
    ensures var d := CanActivate(Request(Some(user), Some(org), body));
      (d == Allow <==> user.organizationId == Some(org)) && (d == Forbidden <==> user.organizationId != Some(org))
  {
  }
}
