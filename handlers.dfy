/** handlers.go: the register, login and profile handlers as decision functions.
    Each takes the request's method, headers and body together with the answers of
    the store and crypto oracles, and gives the response it writes and the calls it
    made, in order. */
module Handlers {
  import opened Text
  import opened Http
  import opened Store
  import opened Requests
  import opened Middleware
  import Decimal

  datatype Outcome = Outcome(response: Response, calls: seq<Call>)

  const MethodNotAllowed := Error("Method not allowed", StatusMethodNotAllowed)
  const NotJson := Error("Content-Type must be application/json", StatusUnsupportedMediaType)
  const InvalidJson := Error("invalid json", StatusBadRequest)
  const DbFailure := Error("db error", StatusInternalServerError)
  const HashFailure := Error("failed to hash password", StatusInternalServerError)
  const TokenFailure := Error("failed to generate token", StatusInternalServerError)
  const UserExists := Error("user already exists", StatusConflict)
  const BadCredentials := Error("Invalid email or password", StatusUnauthorized)
  const UserNotFound := Error("User not found", StatusNotFound)

  function View(u: User): UserView {
    UserView(u.id, u.email, u.username, u.createdAt)
  }

  /** Issues the token for a stored user and answers `status` with token and user,
      or 500 when signing fails. */
  function Issue(u: User, status: int, env: Services, calls: seq<Call>): Outcome {
    var calls' := calls + [GenerateToken(u.id, u.username)];
    match env.generateToken(u.id, u.username)
    case Failed => Outcome(TokenFailure, calls')
    case Answer(token) => Outcome(Response(status, Session(token, View(u))), calls')
  }

  /** The store part of `RegisterHandler`, for validated fields: existence check,
      hash, insert, token. */
  function RegisterStore(f: RegisterFields, env: Services): (o: Outcome)
    ensures o.response.status in {StatusConflict, StatusInternalServerError, StatusCreated}
    ensures o.response.payload.Message? <==> o.response.status != StatusCreated
    ensures o.calls != [] && o.calls[0] == ExistsByEmail(f.email)
  {
    var c1 := [ExistsByEmail(f.email)];
    match env.userExistsByEmail(f.email)
    case Failed => Outcome(DbFailure, c1)
    case Answer(taken) =>
      if taken then Outcome(UserExists, c1)
      else
        var c2 := c1 + [HashPassword(f.password)];
        match env.hashPassword(f.password)
        case Failed => Outcome(HashFailure, c2)
        case Answer(hash) =>
          var c3 := c2 + [CreateUser(f.email, f.username, hash)];
          match env.createUser(f.email, f.username, hash)
          case Failed => Outcome(DbFailure, c3)
          case Answer(row) => Issue(User(row.id, f.email, f.username, hash, row.createdAt), StatusCreated, env, c3)
  }

  /** `RegisterHandler`. */
  function RegisterHandler(httpMethod: string, contentType: string, body: Body,
                           decode: seq<byte> -> Decoded<RegisterFields>, env: Services): (o: Outcome)
    ensures o.response.status in {StatusMethodNotAllowed, StatusUnsupportedMediaType, StatusBadRequest,
                                  StatusConflict, StatusInternalServerError, StatusCreated}
    ensures o.response.payload.Message? || o.response.status == StatusCreated
  {
    if httpMethod != "POST" then Outcome(MethodNotAllowed, [])
    else if !RequireJSON(contentType) then Outcome(NotJson, [])
    else match StrictDecode(body, decode)
      case Err(_) => Outcome(InvalidJson, [])
      case Ok(fields) =>
        var f := NormalizeRegister(fields);
        match RegisterVerdict(f)
        case Some(message) => Outcome(Error(message, StatusBadRequest), [])
        case None => RegisterStore(f, env)
  }

  /** The store part of `LoginHandler`, for validated fields: look the user up by
      e-mail, check the password against the stored hash, issue a token. Any lookup
      failure, not only a missing row, is answered like a wrong password. */
  function LoginStore(f: LoginFields, env: Services): (o: Outcome)
    ensures o.response.status in {StatusUnauthorized, StatusInternalServerError, StatusOK}
    ensures o.response.status == StatusUnauthorized ==> o.response == BadCredentials
    ensures o.calls != [] && o.calls[0] == GetByEmail(f.email)
  {
    var c1 := [GetByEmail(f.email)];
    match env.getUserByEmail(f.email)
    case NoRows => Outcome(BadCredentials, c1)
    case RowError => Outcome(BadCredentials, c1)
    case Found(u) =>
      var c2 := c1 + [CheckPassword(u.passwordHash, f.password)];
      if !env.checkPassword(u.passwordHash, f.password) then Outcome(BadCredentials, c2)
      else Issue(u, StatusOK, env, c2)
  }

  /** `LoginHandler`. */
  function LoginHandler(httpMethod: string, contentType: string, body: Body,
                        decode: seq<byte> -> Decoded<LoginFields>, env: Services): (o: Outcome)
    ensures o.response.status in {StatusMethodNotAllowed, StatusUnsupportedMediaType, StatusBadRequest,
                                  StatusUnauthorized, StatusInternalServerError, StatusOK}
    ensures o.response.status == StatusUnauthorized ==> o.response == BadCredentials
  {
    if httpMethod != "POST" then Outcome(MethodNotAllowed, [])
    else if !RequireJSON(contentType) then Outcome(NotJson, [])
    else match StrictDecode(body, decode)
      case Err(_) => Outcome(InvalidJson, [])
      case Ok(fields) =>
        var f := NormalizeLogin(fields);
        match LoginVerdict(f)
        case Some(message) => Outcome(Error(message, StatusBadRequest), [])
        case None => LoginStore(f, env)
  }

  /** `ProfileHandler`, reading the id the gate bound into `ctx`. */
  function ProfileHandler(httpMethod: string, ctx: Context, env: Services): (o: Outcome)
    ensures o.response.status in {StatusMethodNotAllowed, StatusUnauthorized, StatusNotFound,
                                  StatusInternalServerError, StatusOK}
    ensures o.response.status == StatusOK ==> o.calls == [GetByID(GetUserID(ctx).0)] && GetUserID(ctx).1
  {
    if httpMethod != "GET" then Outcome(MethodNotAllowed, [])
    else
      var (id, ok) := GetUserID(ctx);
      if !ok then Outcome(Unauthorized, [])
      else match env.getUserByID(id)
        case NoRows => Outcome(UserNotFound, [GetByID(id)])
        case RowError => Outcome(DbFailure, [GetByID(id)])
        case Found(u) => Outcome(Response(StatusOK, Profile(View(u))), [GetByID(id)])
  }

  /** The /profile route: `AuthMiddleware(ProfileHandler)`. */
  function ProfileRoute(httpMethod: string, authorization: string, validate: string -> Validation,
                        ctx: Context, env: Services): Outcome
  {
    match Authorize(authorization, validate, ctx)
    case Rejected(response) => Outcome(response, [])
    case Forwarded(ctx') => ProfileHandler(httpMethod, ctx', env)
  }

  // ----- register -----

  /** The method is checked first, before the Content-Type and the body; nothing
      else is called. */
  lemma RegisterMethodFirst(httpMethod: string, contentType: string, body: Body,
                            decode: seq<byte> -> Decoded<RegisterFields>,
                            loginDecode: seq<byte> -> Decoded<LoginFields>, env: Services)
    requires httpMethod != "POST"
    ensures RegisterHandler(httpMethod, contentType, body, decode, env) == Outcome(MethodNotAllowed, [])
    ensures LoginHandler(httpMethod, contentType, body, loginDecode, env) == Outcome(MethodNotAllowed, [])
  {
  }

  /** The Content-Type is checked next, before the body is read: a request that is
      not JSON gets 415 and nothing is called, whatever its body. */
  lemma ContentTypeBeforeBody(contentType: string, body: Body,
                              decode: seq<byte> -> Decoded<RegisterFields>,
                              loginDecode: seq<byte> -> Decoded<LoginFields>, env: Services)
    requires !RequireJSON(contentType)
    ensures RegisterHandler("POST", contentType, body, decode, env) == Outcome(NotJson, [])
    ensures LoginHandler("POST", contentType, body, loginDecode, env) == Outcome(NotJson, [])
  {
  }

  /** A body `parseJSONStrict` refuses gives 400 "invalid json" and no store call. */
  lemma RegisterInvalidJson(contentType: string, body: Body,
                            decode: seq<byte> -> Decoded<RegisterFields>, env: Services)
    requires RequireJSON(contentType) && StrictDecode(body, decode).Err?
    ensures RegisterHandler("POST", contentType, body, decode, env) == Outcome(InvalidJson, [])
  {
  }

  /** A register request that passes the gates and validation reaches the store
      with the normalised fields. */
  lemma RegisterReachesStore(contentType: string, data: seq<byte>,
                             decode: seq<byte> -> Decoded<RegisterFields>, env: Services)
    requires RequireJSON(contentType) && StrictDecode(Reader(data, false), decode).Ok?
    requires RegisterVerdict(NormalizeRegister(StrictDecode(Reader(data, false), decode).value)) == None
    ensures RegisterHandler("POST", contentType, Reader(data, false), decode, env)
         == RegisterStore(NormalizeRegister(StrictDecode(Reader(data, false), decode).value), env)
  {
  }

  /** An e-mail that is already taken gives 409, and neither hashing nor
      `CreateUser` is attempted. */
  lemma RegisterConflict(f: RegisterFields, env: Services)
    requires env.userExistsByEmail(f.email) == Answer(true)
    ensures RegisterStore(f, env) == Outcome(UserExists, [ExistsByEmail(f.email)])
    ensures forall c :: c in RegisterStore(f, env).calls ==> !c.HashPassword? && !c.CreateUser?
  {
  }

  /** A failing insert is a 500 "db error", not a 409, even when it is the store's
      uniqueness constraint that failed it. */
  lemma RegisterInsertFailure(f: RegisterFields, env: Services, hash: string)
    requires env.userExistsByEmail(f.email) == Answer(false)
    requires env.hashPassword(f.password) == Answer(hash)
    requires env.createUser(f.email, f.username, hash) == Failed
    ensures RegisterStore(f, env) == Outcome(DbFailure, [ExistsByEmail(f.email), HashPassword(f.password),
                                                         CreateUser(f.email, f.username, hash)])
  {
  }

  /** A signing failure after a successful insert gets 500 "failed to generate
      token"; the user row has been created all the same. */
  lemma RegisterTokenFailure(f: RegisterFields, env: Services, hash: string, row: Inserted)
    requires env.userExistsByEmail(f.email) == Answer(false)
    requires env.hashPassword(f.password) == Answer(hash)
    requires env.createUser(f.email, f.username, hash) == Answer(row)
    requires env.generateToken(row.id, f.username) == Failed
    ensures RegisterStore(f, env) == Outcome(TokenFailure, [ExistsByEmail(f.email), HashPassword(f.password),
                                                            CreateUser(f.email, f.username, hash),
                                                            GenerateToken(row.id, f.username)])
  {
  }

  /** 201 exactly when every step succeeds; the user is stored under the normalised
      e-mail and user name with the hash (never the password), and the response
      carries the new row. */
  lemma RegisterSuccess(f: RegisterFields, env: Services)
    ensures RegisterStore(f, env).response.status == StatusCreated
        <==> (env.userExistsByEmail(f.email) == Answer(false)
              && env.hashPassword(f.password).Answer?
              && env.createUser(f.email, f.username, env.hashPassword(f.password).value).Answer?
              && env.generateToken(env.createUser(f.email, f.username, env.hashPassword(f.password).value).value.id,
                                   f.username).Answer?)
    ensures RegisterStore(f, env).response.status == StatusCreated ==>
              var hash := env.hashPassword(f.password).value;
              var row := env.createUser(f.email, f.username, hash).value;
              RegisterStore(f, env) == Outcome(
                Response(StatusCreated, Session(env.generateToken(row.id, f.username).value,
                                                UserView(row.id, f.email, f.username, row.createdAt))),
                [ExistsByEmail(f.email), HashPassword(f.password), CreateUser(f.email, f.username, hash),
                 GenerateToken(row.id, f.username)])
  {
  }

  /** Validation failures are answered with the validator's own message and 400,
      before the store is asked anything. */
  lemma RegisterValidationMessage(contentType: string, data: seq<byte>,
                                  decode: seq<byte> -> Decoded<RegisterFields>, env: Services)
    requires RequireJSON(contentType) && StrictDecode(Reader(data, false), decode).Ok?
    requires RegisterVerdict(NormalizeRegister(StrictDecode(Reader(data, false), decode).value)).Some?
    ensures RegisterHandler("POST", contentType, Reader(data, false), decode, env)
         == Outcome(Error(RegisterVerdict(NormalizeRegister(StrictDecode(Reader(data, false), decode).value)).value,
                          StatusBadRequest), [])
  {
  }

  // ----- login -----

  /** No oracle for which part failed: an unknown e-mail and a wrong password get
      the very same response. */
  lemma LoginSameFailure(contentType: string, data: seq<byte>, decode: seq<byte> -> Decoded<LoginFields>,
                         missing: Services, mismatch: Services, u: User)
    requires RequireJSON(contentType) && StrictDecode(Reader(data, false), decode).Ok?
    requires var f := NormalizeLogin(StrictDecode(Reader(data, false), decode).value);
             LoginVerdict(f) == None
             && missing.getUserByEmail(f.email) == NoRows
             && mismatch.getUserByEmail(f.email) == Found(u)
             && !mismatch.checkPassword(u.passwordHash, f.password)
    ensures LoginHandler("POST", contentType, Reader(data, false), decode, missing).response
         == LoginHandler("POST", contentType, Reader(data, false), decode, mismatch).response
         == BadCredentials
  {
  }

  /** A login succeeds exactly when the user is found, the password matches the
      stored hash and a token is issued; the answer is 200 with that token and the
      stored user. */
  lemma LoginSuccess(f: LoginFields, env: Services)
    ensures LoginStore(f, env).response.status == StatusOK
        <==> (env.getUserByEmail(f.email).Found?
              && env.checkPassword(env.getUserByEmail(f.email).value.passwordHash, f.password)
              && env.generateToken(env.getUserByEmail(f.email).value.id,
                                   env.getUserByEmail(f.email).value.username).Answer?)
    ensures LoginStore(f, env).response.status == StatusOK ==>
              var u := env.getUserByEmail(f.email).value;
              LoginStore(f, env) == Outcome(
                Response(StatusOK, Session(env.generateToken(u.id, u.username).value, View(u))),
                [GetByEmail(f.email), CheckPassword(u.passwordHash, f.password), GenerateToken(u.id, u.username)])
  {
  }

  /** A body `parseJSONStrict` refuses gives 400 "invalid json" and no store call. */
  lemma LoginInvalidJson(contentType: string, body: Body,
                         decode: seq<byte> -> Decoded<LoginFields>, env: Services)
    requires RequireJSON(contentType) && StrictDecode(body, decode).Err?
    ensures LoginHandler("POST", contentType, body, decode, env) == Outcome(InvalidJson, [])
  {
  }

  /** A login the validator refuses gets 400 with the validator's own message and no
      store call. */
  lemma LoginValidationMessage(contentType: string, body: Body,
                               decode: seq<byte> -> Decoded<LoginFields>, env: Services)
    requires RequireJSON(contentType) && StrictDecode(body, decode).Ok?
    requires LoginVerdict(NormalizeLogin(StrictDecode(body, decode).value)).Some?
    ensures LoginHandler("POST", contentType, body, decode, env)
         == Outcome(Error(LoginVerdict(NormalizeLogin(StrictDecode(body, decode).value)).value,
                          StatusBadRequest), [])
  {
  }

  /** A signing failure after a good password check gets 500 "failed to generate
      token". */
  lemma LoginTokenFailure(f: LoginFields, env: Services, u: User)
    requires env.getUserByEmail(f.email) == Found(u)
    requires env.checkPassword(u.passwordHash, f.password)
    requires env.generateToken(u.id, u.username) == Failed
    ensures LoginStore(f, env) == Outcome(TokenFailure, [GetByEmail(f.email), CheckPassword(u.passwordHash, f.password),
                                                         GenerateToken(u.id, u.username)])
  {
  }

  /** A login request that passes the gates and validation reaches the store with
      the normalised e-mail. */
  lemma LoginReachesStore(contentType: string, data: seq<byte>, decode: seq<byte> -> Decoded<LoginFields>,
                          env: Services)
    requires RequireJSON(contentType) && StrictDecode(Reader(data, false), decode).Ok?
    requires LoginVerdict(NormalizeLogin(StrictDecode(Reader(data, false), decode).value)) == None
    ensures LoginHandler("POST", contentType, Reader(data, false), decode, env)
         == LoginStore(NormalizeLogin(StrictDecode(Reader(data, false), decode).value), env)
  {
  }

  // ----- profile -----

  /** On /profile the gate runs before the method check: without a good token
      every method gets the same 401, and nothing is looked up. */
  lemma ProfileRouteGateFirst(httpMethod: string, authorization: string, validate: string -> Validation,
                              ctx: Context, env: Services)
    requires Authorize(authorization, validate, ctx).Rejected?
    ensures ProfileRoute(httpMethod, authorization, validate, ctx, env) == Outcome(Unauthorized, [])
  {
  }

  /** Behind the gate the profile handler's own 401 cannot happen, and the user it
      looks up is the one the token's subject names. */
  lemma ProfileRouteLooksUpSubject(authorization: string, validate: string -> Validation,
                                   ctx: Context, env: Services, id: int)
    requires Authorize(authorization, validate, ctx) == Forwarded(ctx[UserIDKey := IntValue(id)])
    ensures ProfileRoute("GET", authorization, validate, ctx, env).response.status != StatusUnauthorized
    ensures ProfileRoute("GET", authorization, validate, ctx, env).calls == [GetByID(id)]
    ensures env.getUserByID(id) == NoRows ==>
              ProfileRoute("GET", authorization, validate, ctx, env).response == UserNotFound
  {
    AuthorizeForwardsIff(authorization, validate, ctx, id);
    GetUserIDBound(ctx, id);
  }

  /** Behind a gate that forwarded, a method other than GET gets 405 and nothing is
      looked up. */
  lemma ProfileRouteWrongMethod(httpMethod: string, authorization: string, validate: string -> Validation,
                                ctx: Context, env: Services)
    requires httpMethod != "GET" && Authorize(authorization, validate, ctx).Forwarded?
    ensures ProfileRoute(httpMethod, authorization, validate, ctx, env) == Outcome(MethodNotAllowed, [])
  {
  }

  /** A lookup that fails for any reason but a missing row gets 500 "db error", not
      404. */
  lemma ProfileRouteDbError(authorization: string, validate: string -> Validation,
                            ctx: Context, env: Services, id: int)
    requires Authorize(authorization, validate, ctx) == Forwarded(ctx[UserIDKey := IntValue(id)])
    requires env.getUserByID(id) == RowError
    ensures ProfileRoute("GET", authorization, validate, ctx, env) == Outcome(DbFailure, [GetByID(id)])
  {
    GetUserIDBound(ctx, id);
  }

  /** A token issued for user `n` reaches the profile of user `n`. */
  lemma ProfileRouteIssuedToken(token: string, n: int, validate: string -> Validation,
                                ctx: Context, env: Services, u: User)
    requires token != [] && Trimmed(token) && 0 < n <= Decimal.MaxInt64
    requires validate(token) == Valid(Decimal.Format(n))
    requires env.getUserByID(n) == Found(u)
    ensures ProfileRoute("GET", BearerPrefix + token, validate, ctx, env)
         == Outcome(Response(StatusOK, Profile(View(u))), [GetByID(n)])
  {
    AuthorizeIssuedToken(token, n, validate, ctx);
  }
}
