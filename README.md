# User-management backend: login, add-user, listing and request gating

This project models the decision and collection logic of a small Express/Mongo
user-management backend and proves properties of it in Dafny.

- **Login** (`UserController.Store.Login`). The store is a class with three
  collections: users, issued tokens and the append-only authentication log.
  A login looks up the first user whose email or username equals the
  identifier. It then checks the password and then the account status. The
  outcome is one of four results: unknown user, wrong password, inactive
  account, or success. Every attempt appends exactly one audit record. A token,
  valid for thirty days, is appended only on success, and before that
  attempt's audit record (the ghost `journal` records the order of writes).
- **Add user** (`UserController.Store.AddUser`). The request is rejected with
  "User already exist" when a stored user shares its email, username or
  mobile. Otherwise exactly one user is appended, and its password is stored
  only as its hash. The validator is a predicate: the roles ADMIN and CUSTOMER,
  and passwords of 8 to 70 characters.
- **Listing** (`UserListing`). The users are sorted by `order_number`, highest
  first. Then `per_page * (page_number - 1)` records are skipped and at most
  `per_page` are taken. The search term, sort field and sort order do not
  reach the query. The page holds the stored records as they are, stored
  password hash included.
- **Error handler** (`ErrorHandler.Classify`). It turns any error into a
  failure envelope. A validation error gives its first detail's message with
  status 200; body details win over params, and params over query. A
  non-validation `UnauthorizedError` gives 401 "Please login first". Anything
  else gives "O Ooo! Something Went Wrong!" with the error's own status, or 500.
- **Role gate** (`Validators.ValidateSuperAdmin`). It calls `next` exactly when
  the current user is a SUPER_ADMIN. Otherwise it answers "You not have access
  to this route" with status 200.
- **Router** (`UserRoute`). The ordered registrations become a table
  (`UserRoutes`). `Pipeline` derives each route's stages from the table, and
  `Run` executes those stages for a request context.

The password check and hash, the minted token, the clock (milliseconds), the
requester's IP and browser string, and the id, order number and initial status
that the database schema gives a new user are all parameters.

The add-user validator admits the roles ADMIN and CUSTOMER
(src/api/controllers/user.js:167-168). The detail and update routes carry
`validateSuperAdmin` (src/api/routes/userRoute.js:35-46).

## Model

| member | source | states |
|---|---|---|
| `ErrorHandler.Classify` | src/utils/errorHandler.js:11-36 | every answer has success=false and empty data; the handler itself throws exactly when a validation error has no body, params or query details; any status other than 200 comes from a non-validation error |
| `ErrorHandler.ValidationTakesPrecedence` | src/utils/errorHandler.js:11-25 | a validation error is classified the same whatever its name and status, even when it is named UnauthorizedError, and is answered with 200, not 401 |
| `ErrorHandler.ValidationReportsFirstDetail` | src/utils/errorHandler.js:14-23 | body details are used if present, else params, else query; the message is the first detail's and the status is 200 |
| `ErrorHandler.UnauthorizedIsLoginFirst` | src/utils/errorHandler.js:25-32 | a non-validation UnauthorizedError gives "Please login first" with 401, whatever its own status |
| `ErrorHandler.OtherErrorsAreGeneric` | src/utils/errorHandler.js:12-36 | every other error gets the fixed generic message whatever its own message, and its own status if defined, else 500 |
| `Validators.ValidateSuperAdmin` | src/api/controllers/validators.js:5-16 | the result is `next` if and only if user_type is SUPER_ADMIN; otherwise the one result is the denial: success=false, fixed message, status 200 |
| `Validators.GateDependsOnlyOnRole` | src/api/controllers/validators.js:5-16 | two requests whose current users have the same role get the same outcome: nothing else in the request is consulted |
| `ErrorHandler.ReportedSegment` | src/utils/errorHandler.js:14-18 | the reported details are those of body, params or query; they are empty exactly when all three segments are empty |
| `UserController.FindFirst` | src/api/controllers/user.js:33-35 | the index returned is the first user satisfying the condition; none is returned exactly when no user satisfies it |
| `UserController.ValidLoginBody` | src/api/controllers/user.js:23-30 | the login validator: an identifier of 4 to 100 characters and a password of 8 to 70 |
| `UserController.MatchesIdentifier` | src/api/controllers/user.js:33-35 | a user is named by the identifier when it is the user's email or username |
| `UserController.LookupIndex` | src/api/controllers/user.js:33-35 | `findOne` with `$or` on email and username: none exactly when no user is named by the identifier, otherwise the first user so named |
| `UserController.Decide` | src/api/controllers/user.js:33-100 | unknown user if and only if no user has the identifier as email or username; otherwise the first such user, then wrong password if and only if the password check fails, then inactive if and only if the password matches and status is not ACTIVE, else success |
| `UserController.AttemptLog` | src/api/controllers/user.js:38-126 | the audit record of an attempt: success exactly when the login succeeds; INVALID_EMAIL exactly for an unknown identifier, WRONG_PASSWORD exactly for a wrong password, LOGIN otherwise; the matched user's id unless none matched; the identifier as both username and email; the requester's IP and browser string |
| `UserController.LoginReply` | src/api/controllers/user.js:48-140 | the answer to an attempt: always status 200; success exactly when the login succeeds, then with the payload id, token, full_name and user_type, else with empty data; "Email, Username or Password is Incorrect" exactly for an unknown identifier or a wrong password |
| `UserController.IssuedToken` | src/api/controllers/user.js:102-115 | the token row belongs to the user, carries the minted token, and expires thirty days after issue |
| `UserController.Store.Login` | src/api/controllers/user.js:31-141 | users unchanged; exactly one audit record appended, the one for the decided outcome; a token valid for thirty days appended, and saved before the record, if and only if the login succeeds; the reply is the one for the decided outcome |
| `UserController.ValidAddUserBody` | src/api/controllers/user.js:145-175 | the add-user validator: non-empty full name, username matching its pattern, password of 8 to 70 characters, optional email (empty allowed), optional 10-character mobile, role ADMIN or CUSTOMER |
| `UserController.SharesIdentity` | src/api/controllers/user.js:179-181 | a stored user clashes with a request on the same email, username or mobile; an absent email or mobile is not compared |
| `UserController.Conflicts` | src/api/controllers/user.js:179-182 | `findOne` with `$or` on email, username and mobile finds a user exactly when some stored user clashes with the request |
| `UserController.StoredUser` | src/api/controllers/user.js:190-198 | the persisted record keeps the request's full name, username, email, mobile and role, stores hash(password) as its password, and clashes with the request that created it |
| `UserController.Store.AddUser` | src/api/controllers/user.js:176-207 | on a shared email, username or mobile: nothing written, "User already exist", success=false; otherwise exactly one user appended with the hashed password, "User added successfully"; tokens and logs unchanged; no-duplicate invariant preserved |
| `UserController.DecideFindsFirstMatch` | src/api/controllers/user.js:33-35 | the user the login acts on is the first stored user whose email or username is the identifier |
| `UserController.UnknownIdentifierAttempt` | src/api/controllers/user.js:33-54 | with no matching user the record is INVALID_EMAIL with success=false, and the answer is "Email, Username or Password is Incorrect" with status 200 |
| `UserController.WrongPasswordIndistinguishable` | src/api/controllers/user.js:57-78 | a wrong password is logged as WRONG_PASSWORD with success=false, and the answer equals the unknown-identifier answer exactly, whatever the account's status |
| `UserController.InactiveAccountAttempt` | src/api/controllers/user.js:58-100 | correct password and status not ACTIVE: a LOGIN record with success=false, and "Your account is not active", which differs from the generic answer |
| `UserController.SuccessfulAttempt` | src/api/controllers/user.js:102-139 | the answer and the record have success=true if and only if the login succeeds; success needs a matching password and ACTIVE status; the payload is exactly id, token, full_name and user_type |
| `UserController.IssuedTokenExpiry` | src/api/controllers/user.js:102-115 | the issued token belongs to the user, carries the minted token, and expires thirty days after issue |
| `UserController.AddKeepsNoDuplicates` | src/api/controllers/user.js:179-199 | appending a user that passed the pre-check keeps usernames, present emails and present mobiles unique |
| `UserController.RepeatedAddRejected` | src/api/controllers/user.js:179-189 | after a successful add, the same request conflicts with the stored user and is rejected |
| `UserController.StoredPasswordIsHashed` | src/api/controllers/user.js:190-198 | the stored password is hash(password); it differs from the plaintext whenever the hash does |
| `UserController.ValidatedAddIsNeverSuperAdmin` | src/api/controllers/user.js:167-168 | a request the validator admits never creates a user that the super-admin gate lets through |
| `UserController.AddedPasswordPassesLoginValidator` | src/api/controllers/user.js:145-175 | a password the add-user validator admits (8 to 70 characters) also passes the login validator's password bound |
| `UserController.AddThenLogin` | src/api/controllers/user.js:179-199 | an ACTIVE user just added logs in with its username and password, if the password check accepts the hash and no earlier user has that username as email |
| `UserListing.ValidListQuery` | src/api/controllers/user.js:211-221 | the listing validator: integer per_page and page_number of at least 1, sort order ASC, DESC or empty |
| `UserListing.Insert` | src/api/controllers/user.js:236 | inserting adds exactly the new record, one more than before, and the head is the new record or the old head |
| `UserListing.InsertKeepsRanking` | src/api/controllers/user.js:236 | inserting into a list ranked by order_number, highest first, keeps it ranked |
| `UserListing.SortByOrderDesc` | src/api/controllers/user.js:236 | the sort stage yields as many records as stored, ranked by order_number, highest first |
| `UserListing.SortIsPermutation` | src/api/controllers/user.js:236 | the sorted records are a permutation of the stored ones: each as often as stored |
| `UserListing.SkippedIsProduct` | src/api/controllers/user.js:238-240 | the records skipped before a page number are per_page * (page_number - 1) |
| `UserListing.Page` | src/api/controllers/user.js:236-242 | a page has at most per_page records, exactly as many as remain after the skip, and its k-th record is the ranked record at position skip + k |
| `UserListing.UserList` | src/api/controllers/user.js:222-254 | the answer has success=true, status 200 and "User list got successfully", and its data is exactly the page for per_page and page_number: at most per_page records, all of them stored records |
| `UserListing.PageIsSubMultiset` | src/api/controllers/user.js:236-242 | a page holds only stored records, each no more often than stored |
| `UserListing.PagesArePrefix` | src/api/controllers/user.js:236-242 | pages 1 to m together are exactly the first per_page * m ranked records |
| `UserListing.PagesAreRankedPrefix` | src/api/controllers/user.js:236-242 | pages 1 to m together are the ranked records up to the start of page m + 1 |
| `UserListing.PrefixThenPage` | src/api/controllers/user.js:236-242 | the ranking up to the start of page m, followed by page m, is the ranking up to the start of page m + 1 |
| `UserListing.ConsecutivePagesContiguous` | src/api/controllers/user.js:236-242 | page p + 1 starts where page p ends, and the two together are one slice of the ranking |
| `UserListing.PagesDisjoint` | src/api/controllers/user.js:236-242 | two different pages together never hold a record more often than it is stored |
| `UserListing.EarlierPagesRankHigher` | src/api/controllers/user.js:236-242 | every record on an earlier page has an order_number at least that of every record on a later page |
| `UserListing.SecondPageOfTen` | src/api/controllers/user.js:236-242 | with at least 20 users, page 2 of size 10 holds the records ranked 11th to 20th |
| `UserListing.ListingIgnoresSearchAndSort` | src/api/controllers/user.js:210-245 | two valid queries with the same per_page and page_number give the same answer, whatever their search term, sort field and sort order |
| `UserRoute.Router.Use` | src/api/routes/userRoute.js:21 | `use` appends a middleware registration and changes nothing else |
| `UserRoute.Router.Post` | src/api/routes/userRoute.js:18-28 | `post` appends one POST route with its stages |
| `UserRoute.Router.Get` | src/api/routes/userRoute.js:29-40 | `get` appends one GET route with its stages |
| `UserRoute.Router.Put` | src/api/routes/userRoute.js:41-46 | `put` appends one PUT route with its stages |
| `UserRoute.BuildUserRouter` | src/api/routes/userRoute.js:16-55 | the router file's calls, in order, leave exactly the registration table `UserRoutes` |
| `UserRoute.Pipeline` | src/api/routes/userRoute.js:18-54 | how Express dispatches the registration list: each mounted middleware in order, up to the first route whose method and path match, then that route's stages |
| `UserRoute.MountedBefore` | src/api/routes/userRoute.js:18-54 | the middleware mounted among the first i registrations: no more than i of them, and none when those registrations are all routes |
| `UserRoute.PipelineOfFirstMatch` | src/api/routes/userRoute.js:18-54 | a request meets the middleware mounted before the first matching route, then that route's own stages |
| `UserRoute.PipelineOfUnmatched` | src/api/routes/userRoute.js:18-54 | a request no route matches meets every mounted middleware and then falls through the router |
| `UserRoute.MountedInUserRoutes` | src/api/routes/userRoute.js:18-21 | in the user router the identity stage is the one middleware, mounted third; no middleware comes before the first two routes |
| `UserRoute.UserRoutesDistinct` | src/api/routes/userRoute.js:18-54 | no method and path pair is registered twice |
| `UserRoute.PipelineOfUserRoute` | src/api/routes/userRoute.js:18-54 | every registered route's pipeline is the middleware mounted before it, then its stages |
| `UserRoute.PublicRoutesSkipIdentity` | src/api/routes/userRoute.js:18-21 | /login and /signup run only their validator and controller, never the identity stage |
| `UserRoute.LaterRoutesRunIdentityFirst` | src/api/routes/userRoute.js:21-54 | every route registered after `router.use` runs the identity stage first, then its own stages |
| `UserRoute.RoleGatedPipelines` | src/api/routes/userRoute.js:23-54 | /add-user, /users-list, /user-detail/:id, /update-user/:id and /update-user-status/:id run identity, validator, super-admin gate, controller, in that order |
| `UserRoute.IdentityOnlyRoutes` | src/api/routes/userRoute.js:47-48 | /my-profile and /logout run the identity stage and their controller only |
| `UserRoute.Run` | src/api/routes/userRoute.js:18-54 | running a pipeline, with `next(err)` handing the error to the error handler: every early answer is a failure envelope with empty data, and a controller is reached only if its stage is in the pipeline |
| `UserRoute.Serve` | src/api/routes/userRoute.js:16-55 | serving a request on the user router: every early answer is a failure envelope with empty data, and only a controller on that route's pipeline is reached |
| `UserRoute.RunPublic` | src/api/routes/userRoute.js:18-19 | a validator and then a controller: well-formed input reaches the controller |
| `UserRoute.RunRoleGated` | src/api/routes/userRoute.js:23-28 | on identity, validator, gate, controller: no token gives the unauthorized error, malformed input the validation error, and only a super admin with well-formed input reaches the controller |
| `UserRoute.ProtectedRoutesNeedToken` | src/api/routes/userRoute.js:21-54 | without a valid token every protected route answers 401 "Please login first" and reaches no controller |
| `UserRoute.PublicRoutesIgnoreToken` | src/api/routes/userRoute.js:18-19 | well-formed login and signup requests reach their controller whether or not a token is present |
| `UserRoute.MalformedBeforeDenied` | src/api/routes/userRoute.js:25-26 | a malformed request from a signed-in non-super-admin gets the validation message, not the access denial |
| `UserRoute.NonSuperAdminDenied` | src/api/routes/userRoute.js:23-54 | a well-formed request from a signed-in non-super-admin gets the denial and reaches no controller |
| `UserRoute.SuperAdminReachesController` | src/api/routes/userRoute.js:23-54 | a well-formed request from a super admin reaches the route's controller |

## Left out

- Password hashing: bcrypt's compare and hash are uninterpreted parameters. The cost factor 12 and salting are library internals.
- Token minting and dates: the JWT is an opaque string parameter. The clock is an integer count of milliseconds, and the expiry is issue time plus thirty days. Moment's local-time day arithmetic and the string form of `valid_till` are not modelled.
- Database query semantics: lookups return the first stored user that matches. Email and mobile are compared only when the request carries them; how Mongo treats an undefined field inside `$or` is not modelled.
- Sort ties: the order among users with equal order_number is the model's insertion order. The database may return them in another order.
- Listing parameters: the model treats per_page and page_number as integers. Coercion between strings and numbers is not modelled.
- Validator patterns: REGEX_USERNAME, REGEX_EMAIL and REGEX_MOBILE live in src/utils/constants.js, which is not part of this model. They are abstract predicates (`Patterns`). Joi counts string length in UTF-16 code units; the model counts characters.
- Identity middleware: src/utils/validateUser.js is not part of this model. Its behaviour is a field of the request context: the resolved user, or none. With no user, an error named UnauthorizedError reaches the error handler.
- Collaborators not shown: getGeolocationInfo, addAuthLogs, sendResponse and catchAsync are not modelled beyond the records and envelopes they carry. The IP and browser string are parameters. The `console.log` calls are output only.
- Handlers not shown: signUpUser, getUserDetail, updateUserById, getMyProfile, userLoggedOut and updateUserStatus appear only as names in the route table. Logout's token invalidation is not in the shown code.
- Database failures: saves and queries never fail in the model. A rejection would pass through catchAsync to the error handler.
- Routing details: matching concrete URLs to `:id` patterns is not modelled. Requests are named by the registered pattern. The 404 answer for unmatched paths is outside the router.
- Concurrency: async scheduling is not modelled. Neither is the race between the duplicate pre-check and the insert, which the database owns.
