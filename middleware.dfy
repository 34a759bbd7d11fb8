/** middleware.go: the bearer-token gate in front of protected routes, and the
    lookup of the identity it binds into the request context. */
module Middleware {
  import opened Text
  import opened Decimal
  import opened Http

  /** What `ValidateToken` gives the middleware: the claims' subject, or nothing at
      all (an error, or nil claims). Signature, algorithm and expiry checks happen
      inside `ValidateToken` and are not modelled. */
  datatype Validation = Valid(subject: string) | Invalid

  /** Keys of a request context: the package's own `userIDKey`, or a key someone else set. */
  datatype CtxKey = UserIDKey | OtherKey(name: string)

  /** A value stored in a context: a Go `int`, or a value of some other type. */
  datatype CtxValue = IntValue(n: int) | OtherValue

  type Context = map<CtxKey, CtxValue>

  /** The gate either answers the request itself or calls `next` once, with a derived context. */
  datatype GateOutcome = Rejected(response: Response) | Forwarded(ctx: Context)

  const BearerPrefix := "Bearer "

  /** The one response every rejection writes. */
  const Unauthorized := Error("Unauthorized", StatusUnauthorized)

  /** The token text: the header without its prefix, trimmed of white space. */
  function BearerToken(header: string): string {
    TrimSpace(TrimPrefix(header, BearerPrefix))
  }

  /** `GetUserIDFromContext`: the stored id when it is an `int` above zero, else (0, false). */
  function GetUserID(ctx: Context): (r: (int, bool))
    ensures r.1 <==> r.0 > 0
    ensures r.1 ==> UserIDKey in ctx && ctx[UserIDKey] == IntValue(r.0)
  {
    if UserIDKey in ctx && ctx[UserIDKey].IntValue? && ctx[UserIDKey].n > 0 then (ctx[UserIDKey].n, true)
    else (0, false)
  }

  /** `AuthMiddleware`: prefix, trim, non-empty token, validation, non-empty subject,
      a subject that parses to an integer above zero; the first check that fails ends
      the request with 401, and only a request that passes all of them is forwarded,
      with the id bound under `userIDKey`. The header is `r.Header.Get("Authorization")`,
      which is "" when the header is missing. */
  function Authorize(header: string, validate: string -> Validation, ctx: Context): (o: GateOutcome)
    ensures o.Rejected? ==> o.response == Unauthorized
    ensures o.Forwarded? ==> GetUserID(o.ctx).1 && GetUserID(o.ctx).0 > 0
    ensures o.Forwarded? ==> UserIDKey in o.ctx && o.ctx == ctx[UserIDKey := o.ctx[UserIDKey]]
  {
    if !HasPrefix(header, BearerPrefix) then Rejected(Unauthorized)
    else
      var token := BearerToken(header);
      if token == "" then Rejected(Unauthorized)
      else match validate(token)
        case Invalid => Rejected(Unauthorized)
        case Valid(subject) =>
          if subject == "" then Rejected(Unauthorized)
          else match Atoi(subject)
            case Failed(_) => Rejected(Unauthorized)
            case Parsed(id) =>
              if id <= 0 then Rejected(Unauthorized)
              else Forwarded(ctx[UserIDKey := IntValue(id)])
  }

  /** The id `next` sees is the one the gate bound, and a value that is not a
      positive `int` is refused. */
  lemma GetUserIDBound(ctx: Context, id: int)
    ensures GetUserID(ctx[UserIDKey := IntValue(id)]) == if id > 0 then (id, true) else (0, false)
    ensures GetUserID(ctx[UserIDKey := OtherValue]) == (0, false)
    ensures UserIDKey !in ctx ==> GetUserID(ctx) == (0, false)
  {
  }

  /** A forwarded context is the caller's context with only the user id bound, so
      `next` never sees anything else changed. */
  lemma AuthorizeForwardsContext(header: string, validate: string -> Validation, ctx: Context)
    requires Authorize(header, validate, ctx).Forwarded?
    ensures var o := Authorize(header, validate, ctx);
            o.ctx == ctx[UserIDKey := IntValue(GetUserID(o.ctx).0)]
  {
    var o := Authorize(header, validate, ctx);
    assert o.ctx[UserIDKey] == IntValue(GetUserID(o.ctx).0);
  }

  /** A request is forwarded exactly when every check passes, and then with the
      subject's value bound as the user id. */
  lemma AuthorizeForwardsIff(header: string, validate: string -> Validation, ctx: Context, id: int)
    ensures Authorize(header, validate, ctx) == Forwarded(ctx[UserIDKey := IntValue(id)])
        <==> (HasPrefix(header, BearerPrefix) && BearerToken(header) != ""
              && validate(BearerToken(header)).Valid?
              && validate(BearerToken(header)).subject != ""
              && Atoi(validate(BearerToken(header)).subject) == Parsed(id)
              && id > 0)
  {
    if Authorize(header, validate, ctx) == Forwarded(ctx[UserIDKey := IntValue(id)]) {
      var token := BearerToken(header);
      var subject := validate(token).subject;
      var bound := ctx[UserIDKey := IntValue(id)];
      assert bound[UserIDKey] == IntValue(id);
      assert Atoi(subject).Parsed?;
      assert ctx[UserIDKey := IntValue(Atoi(subject).value)][UserIDKey] == IntValue(Atoi(subject).value);
    }
  }

  /** A header without the exact, case-sensitive prefix "Bearer " is refused. */
  lemma AuthorizeNeedsPrefix(header: string, validate: string -> Validation, ctx: Context)
    requires !HasPrefix(header, BearerPrefix)
    ensures Authorize(header, validate, ctx) == Rejected(Unauthorized)
  {
  }

  /** No header, an empty token and a token of blanks all get the same 401,
      whatever the validator would say. */
  lemma AuthorizeMissingToken(validate: string -> Validation, ctx: Context, blanks: string)
    requires AllSpace(blanks)
    ensures Authorize("", validate, ctx) == Rejected(Unauthorized)
    ensures Authorize(BearerPrefix + blanks, validate, ctx) == Rejected(Unauthorized)
    ensures Authorize("bearer abc", validate, ctx) == Rejected(Unauthorized)
  {
    TrimSpaceEmpty(blanks);
    assert TrimPrefix(BearerPrefix + blanks, BearerPrefix) == blanks;
    assert "bearer abc"[..|BearerPrefix|][0] != BearerPrefix[0];
  }

  /** The validator is consulted on the trimmed token only: validators that agree
      on it lead to the same outcome. */
  lemma AuthorizeDependsOnToken(header: string, v1: string -> Validation, v2: string -> Validation, ctx: Context)
    requires v1(BearerToken(header)) == v2(BearerToken(header))
    ensures Authorize(header, v1, ctx) == Authorize(header, v2, ctx)
  {
  }

  /** A subject that does not parse, or parses to zero or less, is refused. */
  lemma AuthorizeBadSubject(header: string, validate: string -> Validation, ctx: Context)
    requires HasPrefix(header, BearerPrefix) && BearerToken(header) != ""
    requires validate(BearerToken(header)).Valid?
    requires Atoi(validate(BearerToken(header)).subject).Failed?
          || Atoi(validate(BearerToken(header)).subject).value <= 0
    ensures Authorize(header, validate, ctx) == Rejected(Unauthorized)
  {
  }

  /** End to end: a token whose validated subject is what `GenerateToken` put there,
      toStr of a positive user id, passes the gate, and the handler behind it reads
      that same id back. */
  lemma AuthorizeIssuedToken(token: string, userID: int, validate: string -> Validation, ctx: Context)
    requires token != [] && Trimmed(token)
    requires 0 < userID <= MaxInt64
    requires validate(token) == Valid(Format(userID))
    ensures Authorize(BearerPrefix + token, validate, ctx) == Forwarded(ctx[UserIDKey := IntValue(userID)])
    ensures GetUserID(ctx[UserIDKey := IntValue(userID)]) == (userID, true)
  {
    var header := BearerPrefix + token;
    assert header[..|BearerPrefix|] == BearerPrefix;
    assert TrimPrefix(header, BearerPrefix) == token;
    TrimSpaceOfTrimmed(token);
    assert BearerToken(header) == token;
    FormatPositive(userID);
    AtoiFormatPositive(userID);
    AuthorizeForwardsIff(header, validate, ctx, userID);
    GetUserIDBound(ctx, userID);
  }
}
