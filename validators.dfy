/**
 * The role gate mounted in front of privileged handlers: it lets the request
 * through to the next stage only for a super administrator.
 */
module Validators {
  import opened Domain

  /**
   * The parts of a request the gate could see: the user resolved by the
   * identity stage and the request's own input.
   */
  datatype Request = Request(
    currentUser: User,
    body: map<string, string>,
    params: map<string, string>,
    query: map<string, string>,
    ip: string)

  /** Exactly one of: call `next`, or answer with the denial. */
  datatype GateResult = Next | Respond(response: Response)

  const AccessDeniedMessage: string := "You not have access to this route"

  /** The denial envelope: success=false with status 200, not 403. */
  const AccessDenied: Response := Failure(AccessDeniedMessage, HttpOk)

  function ValidateSuperAdmin(req: Request): (r: GateResult)
    ensures r.Next? <==> req.currentUser.userType == SuperAdmin
    ensures r.Respond? ==> !r.response.success && r.response.data == Empty
                           && r.response.message == AccessDeniedMessage
                           && r.response.status == HttpOk
  {
    if req.currentUser.userType == SuperAdmin then Next else Respond(AccessDenied)
  }

  /** Only the current user's role is consulted: nothing else in the request matters. */
  lemma GateDependsOnlyOnRole(a: Request, b: Request)
    requires a.currentUser.userType == b.currentUser.userType
    ensures ValidateSuperAdmin(a) == ValidateSuperAdmin(b)
  {
  }
}
