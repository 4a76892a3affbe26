/**
 * The user router: an ordered series of registrations. A middleware mounted
 * with `use` runs for every request that reaches it; a route runs its own
 * stages. The identity middleware is mounted after the two public routes,
 * so it stands between them and every later route.
 */
module UserRoute {
  import opened Domain
  import ErrorHandler
  import Validators

  datatype Verb = HttpGet | HttpPost | HttpPut

  /** The controllers the routes lead to (each with its request validator). */
  datatype Handler =
    | UserLogin | SignUpUser | AddNewUser | UserList | GetUserDetail
    | UpdateUserById | GetMyProfile | UserLoggedOut | UpdateUserStatus

  /**
   * One stage of a request pipeline: the identity middleware, a handler's
   * request validator, the super-admin role gate, or a controller (wrapped so
   * that its failures reach the error handler).
   */
  datatype Stage = Identity | Validator(validates: Handler) | SuperAdminGate | Controller(handler: Handler)

  /** One call on the router: `router.use(m)` or `router.<verb>(path, ...stages)`. */
  datatype Registration = Mount(middleware: Stage) | Route(verb: Verb, path: string, stages: seq<Stage>)

  class Router {
    var registrations: seq<Registration>

    constructor ()
      ensures registrations == []
    {
      registrations := [];
    }

    method Use(middleware: Stage)
      modifies this
      ensures registrations == old(registrations) + [Mount(middleware)]
    {
      registrations := registrations + [Mount(middleware)];
    }

    method Post(path: string, stages: seq<Stage>)
      modifies this
      ensures registrations == old(registrations) + [Route(HttpPost, path, stages)]
    {
      registrations := registrations + [Route(HttpPost, path, stages)];
    }

    method Get(path: string, stages: seq<Stage>)
      modifies this
      ensures registrations == old(registrations) + [Route(HttpGet, path, stages)]
    {
      registrations := registrations + [Route(HttpGet, path, stages)];
    }

    method Put(path: string, stages: seq<Stage>)
      modifies this
      ensures registrations == old(registrations) + [Route(HttpPut, path, stages)]
    {
      registrations := registrations + [Route(HttpPut, path, stages)];
    }
  }

  /** The registration table the router file builds, in order. */
  const UserRoutes: seq<Registration> := [
    Route(HttpPost, "/login", [Validator(UserLogin), Controller(UserLogin)]),
    Route(HttpPost, "/signup", [Validator(SignUpUser), Controller(SignUpUser)]),
    Mount(Identity),
    Route(HttpPost, "/add-user", [Validator(AddNewUser), SuperAdminGate, Controller(AddNewUser)]),
    Route(HttpGet, "/users-list", [Validator(UserList), SuperAdminGate, Controller(UserList)]),
    Route(HttpGet, "/user-detail/:id", [Validator(GetUserDetail), SuperAdminGate, Controller(GetUserDetail)]),
    Route(HttpPut, "/update-user/:id", [Validator(UpdateUserById), SuperAdminGate, Controller(UpdateUserById)]),
    Route(HttpGet, "/my-profile", [Controller(GetMyProfile)]),
    Route(HttpPut, "/logout", [Controller(UserLoggedOut)]),
    Route(HttpPut, "/update-user-status/:id", [Validator(UpdateUserStatus), SuperAdminGate, Controller(UpdateUserStatus)])
  ]

  /** The router file: the registrations, one call after another. */
  method BuildUserRouter() returns (router: Router)
    ensures fresh(router)
    ensures router.registrations == UserRoutes
  {
    router := new Router();
    router.Post("/login", [Validator(UserLogin), Controller(UserLogin)]);
    router.Post("/signup", [Validator(SignUpUser), Controller(SignUpUser)]);
    router.Use(Identity);
    router.Post("/add-user", [Validator(AddNewUser), SuperAdminGate, Controller(AddNewUser)]);
    router.Get("/users-list", [Validator(UserList), SuperAdminGate, Controller(UserList)]);
    router.Get("/user-detail/:id", [Validator(GetUserDetail), SuperAdminGate, Controller(GetUserDetail)]);
    router.Put("/update-user/:id", [Validator(UpdateUserById), SuperAdminGate, Controller(UpdateUserById)]);
    router.Get("/my-profile", [Controller(GetMyProfile)]);
    router.Put("/logout", [Controller(UserLoggedOut)]);
    router.Put("/update-user-status/:id", [Validator(UpdateUserStatus), SuperAdminGate, Controller(UpdateUserStatus)]);
  }

  // ------------------------------------------------------------------
  // Which stages a request passes through

  predicate Matches(r: Registration, verb: Verb, path: string) {
    r.Route? && r.verb == verb && r.path == path
  }

  /**
   * The stages a request for (verb, path) meets, in order: every middleware
   * mounted before the first matching route, then that route's stages. When
   * no route matches, every mounted middleware (the request then falls
   * through the router).
   */
  function Pipeline(regs: seq<Registration>, verb: Verb, path: string): seq<Stage> {
    if regs == [] then []
    else match regs[0]
      case Mount(m) => [m] + Pipeline(regs[1..], verb, path)
      case Route(v, p, stages) => if v == verb && p == path then stages else Pipeline(regs[1..], verb, path)
  }

  /** The middleware mounted among the first `i` registrations, in order. */
  function MountedBefore(regs: seq<Registration>, i: nat): (r: seq<Stage>)
    requires i <= |regs|
    ensures |r| <= i
    ensures (forall j :: 0 <= j < i ==> regs[j].Route?) ==> r == []
  {
    if i == 0 then []
    else (if regs[0].Mount? then [regs[0].middleware] else []) + MountedBefore(regs[1..], i - 1)
  }

  /** With no matching route a request meets every mounted middleware and then falls through. */
  lemma {:induction false} PipelineOfUnmatched(regs: seq<Registration>, verb: Verb, path: string)
    requires forall i :: 0 <= i < |regs| ==> !Matches(regs[i], verb, path)
    ensures Pipeline(regs, verb, path) == MountedBefore(regs, |regs|)
  {
    if regs != [] {
      assert !Matches(regs[0], verb, path);
      PipelineOfUnmatched(regs[1..], verb, path);
    }
  }

  /** The pipeline of the first matching route is the middleware mounted before it, then its own stages. */
  lemma {:induction false} PipelineOfFirstMatch(regs: seq<Registration>, verb: Verb, path: string, i: nat)
    requires i < |regs| && Matches(regs[i], verb, path)
    requires forall j :: 0 <= j < i ==> !Matches(regs[j], verb, path)
    ensures Pipeline(regs, verb, path) == MountedBefore(regs, i) + regs[i].stages
  {
    if i > 0 {
      assert !Matches(regs[0], verb, path);
      PipelineOfFirstMatch(regs[1..], verb, path, i - 1);
    }
  }

  /** In the user router exactly one middleware, the identity stage, is mounted: third. */
  lemma MountedInUserRoutes(i: nat)
    requires i <= |UserRoutes|
    ensures i <= 2 ==> MountedBefore(UserRoutes, i) == []
    ensures i > 2 ==> MountedBefore(UserRoutes, i) == [Identity]
  {
    var t := UserRoutes;
    assert t[0].Route? && t[1].Route?;
    if i > 2 {
      var rest := t[3..];
      assert t[1..][1..] == t[2..] && t[2..][1..] == rest;
      assert forall j :: 0 <= j < |rest| ==> rest[j].Route?;
      assert MountedBefore(rest, i - 3) == [];
      assert MountedBefore(t[2..], i - 2) == [Identity] + MountedBefore(rest, i - 3);
      assert MountedBefore(t[1..], i - 1) == MountedBefore(t[2..], i - 2);
      assert MountedBefore(t, i) == MountedBefore(t[1..], i - 1);
    }
  }

  /** Every path is registered once in the user router. */
  lemma UserRoutesDistinct(i: nat, j: nat)
    requires i < j < |UserRoutes| && UserRoutes[i].Route? && UserRoutes[j].Route?
    ensures !Matches(UserRoutes[j], UserRoutes[i].verb, UserRoutes[i].path)
  {
  }

  /** The pipeline of the i-th registration of the user router. */
  lemma PipelineOfUserRoute(i: nat)
    requires i < |UserRoutes| && UserRoutes[i].Route?
    ensures Pipeline(UserRoutes, UserRoutes[i].verb, UserRoutes[i].path) == MountedBefore(UserRoutes, i) + UserRoutes[i].stages
  {
    forall j | 0 <= j < i
      ensures !Matches(UserRoutes[j], UserRoutes[i].verb, UserRoutes[i].path)
    {
      if UserRoutes[j].Route? {
        UserRoutesDistinct(j, i);
      }
    }
    PipelineOfFirstMatch(UserRoutes, UserRoutes[i].verb, UserRoutes[i].path, i);
  }

  /** /login and /signup are registered before the identity stage and never pass through it. */
  lemma PublicRoutesSkipIdentity()
    ensures Pipeline(UserRoutes, HttpPost, "/login") == [Validator(UserLogin), Controller(UserLogin)]
    ensures Pipeline(UserRoutes, HttpPost, "/signup") == [Validator(SignUpUser), Controller(SignUpUser)]
  {
    PipelineOfUserRoute(0);
    MountedInUserRoutes(0);
    PipelineOfUserRoute(1);
    MountedInUserRoutes(1);
  }

  /** Every route registered after the identity stage runs it first, before any of its own stages. */
  lemma LaterRoutesRunIdentityFirst(i: nat)
    requires 2 < i < |UserRoutes|
    ensures UserRoutes[i].Route?
    ensures Pipeline(UserRoutes, UserRoutes[i].verb, UserRoutes[i].path) == [Identity] + UserRoutes[i].stages
  {
    PipelineOfUserRoute(i);
    MountedInUserRoutes(i);
  }

  /** The routes guarded by identity, then the request validator, then the super-admin gate. */
  const RoleGatedRoutes: seq<(Verb, string, Handler)> := [
    (HttpPost, "/add-user", AddNewUser),
    (HttpGet, "/users-list", UserList),
    (HttpGet, "/user-detail/:id", GetUserDetail),
    (HttpPut, "/update-user/:id", UpdateUserById),
    (HttpPut, "/update-user-status/:id", UpdateUserStatus)
  ]

  /**
   * Each super-admin route runs identity, then its validator, then the role
   * gate, then its controller: validation comes before the role check.
   */
  lemma RoleGatedPipelines(k: nat)
    requires k < |RoleGatedRoutes|
    ensures var (verb, path, h) := RoleGatedRoutes[k];
            Pipeline(UserRoutes, verb, path) == [Identity, Validator(h), SuperAdminGate, Controller(h)]
  {
    var i := if k < 4 then k + 3 else 9;
    var (verb, path, h) := RoleGatedRoutes[k];
    var reg := UserRoutes[i];
    assert reg == Route(verb, path, [Validator(h), SuperAdminGate, Controller(h)]);
    LaterRoutesRunIdentityFirst(i);
    assert Pipeline(UserRoutes, reg.verb, reg.path) == [Identity] + reg.stages;
  }

  /** /my-profile and /logout pass the identity stage only: no validator, no role gate. */
  lemma IdentityOnlyRoutes()
    ensures Pipeline(UserRoutes, HttpGet, "/my-profile") == [Identity, Controller(GetMyProfile)]
    ensures Pipeline(UserRoutes, HttpPut, "/logout") == [Identity, Controller(UserLoggedOut)]
  {
    var t := UserRoutes;
    assert t[7] == Route(HttpGet, "/my-profile", [Controller(GetMyProfile)]);
    assert t[8] == Route(HttpPut, "/logout", [Controller(UserLoggedOut)]);
    LaterRoutesRunIdentityFirst(7);
    LaterRoutesRunIdentityFirst(8);
  }

  // ------------------------------------------------------------------
  // Running a pipeline

  /**
   * What a request brings to the pipeline: the user the identity stage
   * resolves from a present, known and unexpired bearer token (None when
   * there is no such token), and the failure the route's validator reports
   * (None when the input is valid).
   */
  datatype RequestContext = RequestContext(
    tokenUser: Option<User>,
    validationFailure: Option<ErrorHandler.CelebrateDetails>)

  /** How a request ends: answered, the error handler itself throwing, or the controller reached. */
  datatype Outcome = Answered(response: Response) | ErrorHandlerThrew | ReachedController(handler: Handler) | FellThrough

  /** `next(err)`: the error goes to the centralised error handler. */
  function ToErrorHandler(err: ErrorHandler.AppError): Outcome {
    match ErrorHandler.Classify(err)
    case None => ErrorHandlerThrew
    case Some(r) => Answered(r)
  }

  const UnauthorizedError: ErrorHandler.AppError :=
    ErrorHandler.AppError(None, ErrorHandler.UnauthorizedName, Some(HttpUnauthorized), "Unauthorized")

  function ValidationError(d: ErrorHandler.CelebrateDetails): ErrorHandler.AppError {
    ErrorHandler.AppError(Some(d), "CelebrateError", None, "Validation failed")
  }

  /** Reading `user_type` of an absent current user raises a TypeError. */
  const MissingUserError: ErrorHandler.AppError :=
    ErrorHandler.AppError(None, "TypeError", None, "Cannot read properties of undefined")

  /** Run `stages` for a request; `current` is the user the identity stage has attached so far. */
  function Run(stages: seq<Stage>, ctx: RequestContext, current: Option<User>): (r: Outcome)
    ensures r.Answered? ==> !r.response.success && r.response.data == Empty
    ensures r.ReachedController? ==> Controller(r.handler) in stages
  {
    if stages == [] then FellThrough
    else match stages[0]
      case Identity =>
        if ctx.tokenUser.None? then ToErrorHandler(UnauthorizedError)
        else Run(stages[1..], ctx, ctx.tokenUser)
      case Validator(_) =>
        if ctx.validationFailure.Some? then ToErrorHandler(ValidationError(ctx.validationFailure.value))
        else Run(stages[1..], ctx, current)
      case SuperAdminGate =>
        if current.None? then ToErrorHandler(MissingUserError)
        else (match Validators.ValidateSuperAdmin(Validators.Request(current.value, map[], map[], map[], ""))
          case Next => Run(stages[1..], ctx, current)
          case Respond(r) => Answered(r))
      case Controller(h) => ReachedController(h)
  }

  /** The outcome of a request for (verb, path) on the user router. */
  function Serve(verb: Verb, path: string, ctx: RequestContext): (r: Outcome)
    ensures r.Answered? ==> !r.response.success && r.response.data == Empty
    ensures r.ReachedController? ==> Controller(r.handler) in Pipeline(UserRoutes, verb, path)
  {
    Run(Pipeline(UserRoutes, verb, path), ctx, None)
  }

  /** Without a valid token every route after the identity stage answers 401 "Please login first" and runs no controller. */
  lemma ProtectedRoutesNeedToken(i: nat, ctx: RequestContext)
    requires 2 < i < |UserRoutes| && ctx.tokenUser.None?
    ensures UserRoutes[i].Route?
    ensures Serve(UserRoutes[i].verb, UserRoutes[i].path, ctx)
            == Answered(Failure(ErrorHandler.LoginFirstMessage, HttpUnauthorized))
  {
    LaterRoutesRunIdentityFirst(i);
  }

  /** The public routes never consult the token: valid input reaches the controller with or without one. */
  lemma PublicRoutesIgnoreToken(ctx: RequestContext)
    requires ctx.validationFailure.None?
    ensures Serve(HttpPost, "/login", ctx) == ReachedController(UserLogin)
    ensures Serve(HttpPost, "/signup", ctx) == ReachedController(SignUpUser)
  {
    PublicRoutesSkipIdentity();
    RunPublic(UserLogin, ctx);
    RunPublic(SignUpUser, ctx);
  }

  /** Running a validator and a controller: well-formed input reaches the controller. */
  lemma RunPublic(h: Handler, ctx: RequestContext)
    requires ctx.validationFailure.None?
    ensures Run([Validator(h), Controller(h)], ctx, None) == ReachedController(h)
  {
    var s := [Validator(h), Controller(h)];
    assert s[1..] == [Controller(h)];
    assert Run(s, ctx, None) == Run(s[1..], ctx, None);
  }

  /**
   * Running identity, validator, role gate and controller: no token gives the
   * 401 answer, a token with malformed input gives the validation answer,
   * and only a super admin with well-formed input reaches the controller.
   */
  lemma RunRoleGated(h: Handler, ctx: RequestContext)
    ensures var s := [Identity, Validator(h), SuperAdminGate, Controller(h)];
      && (ctx.tokenUser.None? ==> Run(s, ctx, None) == ToErrorHandler(UnauthorizedError))
      && (ctx.tokenUser.Some? && ctx.validationFailure.Some? ==>
            Run(s, ctx, None) == ToErrorHandler(ValidationError(ctx.validationFailure.value)))
      && (ctx.tokenUser.Some? && ctx.validationFailure.None? ==>
            Run(s, ctx, None) == if ctx.tokenUser.value.userType == SuperAdmin then ReachedController(h)
                                 else Answered(Validators.AccessDenied))
  {
    var s := [Identity, Validator(h), SuperAdminGate, Controller(h)];
    assert s[1..] == [Validator(h), SuperAdminGate, Controller(h)];
    assert s[1..][1..] == [SuperAdminGate, Controller(h)];
    assert s[1..][1..][1..] == [Controller(h)];
    if ctx.tokenUser.Some? && ctx.validationFailure.None? {
      var gate := [SuperAdminGate, Controller(h)];
      assert Run(s, ctx, None) == Run(gate, ctx, ctx.tokenUser);
      var req := Validators.Request(ctx.tokenUser.value, map[], map[], map[], "");
      if ctx.tokenUser.value.userType == SuperAdmin {
        assert Validators.ValidateSuperAdmin(req) == Validators.Next;
        assert Run(gate, ctx, ctx.tokenUser) == Run([Controller(h)], ctx, ctx.tokenUser);
      } else {
        assert Validators.ValidateSuperAdmin(req) == Validators.Respond(Validators.AccessDenied);
      }
    }
  }

  /**
   * A malformed request from a signed-in user who is not a super admin, on a
   * super-admin route, gets the validation message, not the access denial.
   */
  lemma MalformedBeforeDenied(k: nat, ctx: RequestContext)
    requires k < |RoleGatedRoutes|
    requires ctx.tokenUser.Some? && ctx.tokenUser.value.userType != SuperAdmin
    requires ctx.validationFailure.Some? && ErrorHandler.ReportedSegment(ctx.validationFailure.value) != []
    ensures var (verb, path, _) := RoleGatedRoutes[k];
            Serve(verb, path, ctx)
            == Answered(Failure(ErrorHandler.ReportedSegment(ctx.validationFailure.value)[0], HttpOk))
  {
    RoleGatedPipelines(k);
    RunRoleGated(RoleGatedRoutes[k].2, ctx);
  }

  /** A well-formed request from a signed-in non-super-admin is denied and its controller never runs. */
  lemma NonSuperAdminDenied(k: nat, ctx: RequestContext)
    requires k < |RoleGatedRoutes|
    requires ctx.tokenUser.Some? && ctx.tokenUser.value.userType != SuperAdmin
    requires ctx.validationFailure.None?
    ensures var (verb, path, _) := RoleGatedRoutes[k];
            Serve(verb, path, ctx) == Answered(Validators.AccessDenied)
  {
    RoleGatedPipelines(k);
    RunRoleGated(RoleGatedRoutes[k].2, ctx);
  }

  /** A well-formed request from a super admin reaches the route's controller. */
  lemma SuperAdminReachesController(k: nat, ctx: RequestContext)
    requires k < |RoleGatedRoutes|
    requires ctx.tokenUser.Some? && ctx.tokenUser.value.userType == SuperAdmin
    requires ctx.validationFailure.None?
    ensures var (verb, path, h) := RoleGatedRoutes[k];
            Serve(verb, path, ctx) == ReachedController(h)
  {
    RoleGatedPipelines(k);
    RunRoleGated(RoleGatedRoutes[k].2, ctx);
  }
}
