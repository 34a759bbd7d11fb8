/** handlers.go, request side: the Content-Type gate, the strict body decoder and
    the in-place normalisation and validation of the register and login requests. */
module Requests {
  import opened Text

  const JsonMediaType := "application/json"

  /** `requireJSON`: the request goes on when its Content-Type, lower-cased, starts
      with "application/json"; otherwise the handler answers 415. */
  predicate RequireJSON(contentType: string) {
    HasPrefix(ToLower(contentType), JsonMediaType)
  }

  /** The gate is a case-insensitive test of the first sixteen characters of the
      header; parameters after them ("; charset=utf-8") play no part. */
  lemma RequireJSONPrefix(contentType: string)
    ensures RequireJSON(contentType) <==> |contentType| >= |JsonMediaType|
                                          && ToLower(contentType[..|JsonMediaType|]) == JsonMediaType
  {
    if |contentType| >= |JsonMediaType| {
      ToLowerSlice(contentType, 0, |JsonMediaType|);
    }
  }

  lemma RequireJSONCaseInsensitive(contentType: string)
    ensures RequireJSON(contentType) == RequireJSON(ToLower(contentType))
  {
    ToLowerIdempotent(contentType);
  }

  lemma RequireJSONParameters(contentType: string, rest: string)
    requires RequireJSON(contentType)
    ensures RequireJSON(contentType + rest)
  {
    var n := |JsonMediaType|;
    RequireJSONPrefix(contentType);
    RequireJSONPrefix(contentType + rest);
    assert (contentType + rest)[..n] == contentType[..n];
  }

  lemma RequireJSONAcceptsParameters()
    ensures RequireJSON("application/json; charset=utf-8")
  {
    ToLowerIsLower(JsonMediaType);
    RequireJSONParameters(JsonMediaType, "; charset=utf-8");
  }

  lemma RequireJSONAcceptsUpperCase()
    ensures RequireJSON("Application/JSON")
  {
    assert ToLower("Application/JSON") == JsonMediaType;
  }

  lemma RequireJSONRejects()
    ensures !RequireJSON("text/plain") && !RequireJSON("")
  {
    assert ToLower("text/plain")[0] == 't';
  }

  // ----- normalisation and validation -----

  datatype RegisterFields = RegisterFields(email: string, username: string, password: string)
  datatype LoginFields = LoginFields(email: string, password: string)

  const MinPasswordBytes := 6

  /** The e-mail as both validators store it: lower-cased, then trimmed. */
  function NormalizeEmail(email: string): string {
    TrimSpace(ToLower(email))
  }

  /** Normalising an e-mail twice changes nothing more. */
  lemma NormalizeEmailIdempotent(email: string)
    ensures NormalizeEmail(NormalizeEmail(email)) == NormalizeEmail(email)
    ensures IsLower(NormalizeEmail(email)) && Trimmed(NormalizeEmail(email))
  {
    var l := ToLower(email);
    ToLowerTrimSpace(l);
    ToLowerIdempotent(email);
    TrimSpaceIdempotent(l);
    ToLowerIsLower(TrimSpace(l));
  }

  /** The fields `validateRegisterRequest` leaves behind: e-mail lower-cased and
      trimmed, user name trimmed, password as it came. */
  function NormalizeRegister(f: RegisterFields): RegisterFields {
    RegisterFields(NormalizeEmail(f.email), TrimSpace(f.username), f.password)
  }

  /** The fields `validateLoginRequest` leaves behind: only the e-mail changes. */
  function NormalizeLogin(f: LoginFields): LoginFields {
    LoginFields(NormalizeEmail(f.email), f.password)
  }

  /** The error `validateRegisterRequest` returns for normalised fields (None for nil):
      the first of e-mail, user name, blank password and short password that fails.
      The length is Go's `len`, a count of UTF-8 bytes. */
  function RegisterVerdict(f: RegisterFields): (err: Option<string>)
    ensures err == None <==> f.email != "" && f.username != "" && !AllSpace(f.password)
                             && Utf8Len(f.password) >= MinPasswordBytes
  {
    TrimSpaceEmpty(f.password);
    if f.email == "" then Some("email is required")
    else if f.username == "" then Some("username is required")
    else if TrimSpace(f.password) == "" then Some("password is required")
    else if Utf8Len(f.password) < MinPasswordBytes then Some("password too short")
    else None
  }

  /** The error `validateLoginRequest` returns for normalised fields: a non-empty
      e-mail and a password that is not blank; no minimum length. */
  function LoginVerdict(f: LoginFields): (err: Option<string>)
    ensures err == None <==> f.email != "" && !AllSpace(f.password)
  {
    TrimSpaceEmpty(f.password);
    if f.email == "" then Some("email is required")
    else if TrimSpace(f.password) == "" then Some("password is required")
    else None
  }

  datatype Option<T> = None | Some(value: T)

  /** Validating already-normalised register fields changes nothing and repeats the verdict. */
  lemma NormalizeRegisterIdempotent(f: RegisterFields)
    ensures NormalizeRegister(NormalizeRegister(f)) == NormalizeRegister(f)
    ensures NormalizeRegister(f).password == f.password
  {
    NormalizeEmailIdempotent(f.email);
    TrimSpaceIdempotent(f.username);
  }

  lemma NormalizeLoginIdempotent(f: LoginFields)
    ensures NormalizeLogin(NormalizeLogin(f)) == NormalizeLogin(f)
    ensures NormalizeLogin(f).password == f.password
  {
    NormalizeEmailIdempotent(f.email);
  }

  /** The errors come in the order of the checks: an e-mail problem hides every
      other, a user-name problem hides the password ones. */
  lemma RegisterVerdictOrder(f: RegisterFields)
    ensures NormalizeEmail(f.email) == "" ==> RegisterVerdict(NormalizeRegister(f)) == Some("email is required")
    ensures NormalizeEmail(f.email) != "" && TrimSpace(f.username) == ""
            ==> RegisterVerdict(NormalizeRegister(f)) == Some("username is required")
    ensures NormalizeEmail(f.email) != "" && TrimSpace(f.username) != "" && AllSpace(f.password)
            ==> RegisterVerdict(NormalizeRegister(f)) == Some("password is required")
    ensures NormalizeEmail(f.email) != "" && TrimSpace(f.username) != "" && !AllSpace(f.password)
            && Utf8Len(f.password) < MinPasswordBytes
            ==> RegisterVerdict(NormalizeRegister(f)) == Some("password too short")
  {
    TrimSpaceEmpty(f.password);
  }

  /** The minimum is six bytes, not six characters: a password of three Cyrillic
      letters, six bytes in UTF-8, passes. */
  lemma PasswordLengthInBytes()
    ensures RegisterVerdict(RegisterFields("a@b.c", "a", "абв")) == None
  {
    var p := "абв";
    assert !IsSpace(p[0]);
    assert Utf8Len(p) == 6 by {
      assert Utf8Len(p[2..]) == 2 + Utf8Len(p[3..]);
      assert Utf8Len(p[1..]) == 2 + Utf8Len(p[2..]);
    }
  }

  /** Five ASCII letters are five bytes, one short of the minimum. */
  lemma PasswordTooShort()
    ensures RegisterVerdict(RegisterFields("a@b.c", "a", "abcde")) == Some("password too short")
  {
    var p := "abcde";
    assert !IsSpace(p[0]);
    TrimSpaceEmpty(p);
    assert Utf8Len(p) == 5;
  }

  /** A `RegisterRequest` decoded from the body, which `validateRegisterRequest`
      updates through its pointer. */
  class RegisterRequest {
    var email: string
    var username: string
    var password: string

    constructor (email: string, username: string, password: string)
      ensures Fields() == RegisterFields(email, username, password)
    {
      this.email, this.username, this.password := email, username, password;
    }

    function Fields(): RegisterFields
      reads this
    {
      RegisterFields(email, username, password)
    }

    /** `validateRegisterRequest`: overwrites the e-mail and user name with their
        normalised forms, then checks the normalised fields. */
    method Validate() returns (err: Option<string>)
      modifies this
      ensures Fields() == NormalizeRegister(old(Fields()))
      ensures err == RegisterVerdict(Fields())
    {
      email := TrimSpace(ToLower(email));
      username := TrimSpace(username);
      if email == "" {
        return Some("email is required");
      }
      if username == "" {
        return Some("username is required");
      }
      if TrimSpace(password) == "" {
        return Some("password is required");
      }
      if Utf8Len(password) < MinPasswordBytes {
        return Some("password too short");
      }
      return None;
    }
  }

  /** A `LoginRequest`, which `validateLoginRequest` updates through its pointer. */
  class LoginRequest {
    var email: string
    var password: string

    constructor (email: string, password: string)
      ensures Fields() == LoginFields(email, password)
    {
      this.email, this.password := email, password;
    }

    function Fields(): LoginFields
      reads this
    {
      LoginFields(email, password)
    }

    /** `validateLoginRequest`: overwrites the e-mail with its normalised form, then
        checks the normalised fields. */
    method Validate() returns (err: Option<string>)
      modifies this
      ensures Fields() == NormalizeLogin(old(Fields()))
      ensures err == LoginVerdict(Fields())
    {
      email := TrimSpace(ToLower(email));
      if email == "" {
        return Some("email is required");
      }
      if TrimSpace(password) == "" {
        return Some("password is required");
      }
      return None;
    }
  }

  /** Running `validateRegisterRequest` a second time leaves the request as the
      first run left it and gives the same answer. */
  method ValidateRegisterTwice(req: RegisterRequest) returns (first: Option<string>, second: Option<string>)
    modifies req
    ensures req.Fields() == NormalizeRegister(old(req.Fields()))
    ensures first == second
  {
    first := req.Validate();
    ghost var once := req.Fields();
    second := req.Validate();
    NormalizeRegisterIdempotent(old(req.Fields()));
    assert req.Fields() == once;
  }

  /** The same for `validateLoginRequest`. */
  method ValidateLoginTwice(req: LoginRequest) returns (first: Option<string>, second: Option<string>)
    modifies req
    ensures req.Fields() == NormalizeLogin(old(req.Fields()))
    ensures first == second
  {
    first := req.Validate();
    ghost var once := req.Fields();
    second := req.Validate();
    NormalizeLoginIdempotent(old(req.Fields()));
    assert req.Fields() == once;
  }

  // ----- strict body decoding -----

  /** `r.Body`: nil, or a reader that yields `data` and then either ends or fails. */
  datatype Body = NilBody | Reader(data: seq<byte>, fails: bool)

  /** What a `json.Decoder` makes of the first value in a byte string: the value
      and the bytes after it, or an error (malformed JSON, an unknown field, a type
      mismatch, or no value at all). The decoder itself is an input of the model. */
  datatype Decoded<T> = Value(value: T, rest: seq<byte>) | DecodeError

  /** The reasons `parseJSONStrict` fails; the handlers answer all of them with
      400 "invalid json". `NotAlone` is any failure of the second `Decode` to meet
      `io.EOF`: "unexpected data after json" when a whole second value follows, or
      that `Decode`'s own error (a syntax error, an unknown field, an unexpected end)
      for any other tail that is not white space. */
  datatype ParseError = EmptyBody | ReadFailed | Malformed | NotAlone

  datatype Parse<T> = Ok(value: T) | Err(error: ParseError)

  /** White space as the JSON scanner skips it. */
  predicate JsonBlank(b: seq<byte>) {
    forall i :: 0 <= i < |b| ==> b[i] == 0x20 || b[i] == 0x09 || b[i] == 0x0A || b[i] == 0x0D
  }

  /** `io.ReadAll(r.Body)`: everything the reader yields, or the error it ends with.
      Reading drains the reader; `ParseJSONStrict` records that in `r.Body`. */
  function ReadAll(body: Body): Parse<seq<byte>>
    requires body.Reader?
  {
    if body.fails then Err(ReadFailed) else Ok(body.data)
  }

  /** What `parseJSONStrict` returns: a nil body and a failing read are errors; the
      bytes read must decode to one value, and the second `Decode` must meet
      `io.EOF`, which it does exactly when only white space follows. */
  function StrictDecode<T>(body: Body, decode: seq<byte> -> Decoded<T>): (r: Parse<T>)
    ensures body.NilBody? ==> r == Err(EmptyBody)
    ensures r.Ok? <==> body.Reader? && !body.fails && decode(body.data).Value?
                       && JsonBlank(decode(body.data).rest)
    ensures r.Ok? ==> r.value == decode(body.data).value
  {
    match body
    case NilBody => Err(EmptyBody)
    case Reader(_, _) =>
      match ReadAll(body)
      case Err(e) => Err(e)
      case Ok(bytes) =>
        match decode(bytes)
        case DecodeError => Err(Malformed)
        case Value(v, rest) => if JsonBlank(rest) then Ok(v) else Err(NotAlone)
  }

  /** `r.Body` after `parseJSONStrict`: nil stays nil; a reader that failed is spent;
      otherwise a fresh reader over exactly the bytes that were read. */
  function BodyAfterParse(body: Body): (b: Body)
    ensures body.Reader? && !body.fails ==> b.Reader? && ReadAll(b) == ReadAll(body)
  {
    match body
    case NilBody => NilBody
    case Reader(data, fails) => if fails then Reader([], true) else Reader(data, false)
  }

  /** The request, as far as `parseJSONStrict` touches it: its body. */
  class Request {
    var body: Body

    constructor (body: Body)
      ensures this.body == body
    {
      this.body := body;
    }

    /** `parseJSONStrict`: reads the body once, puts a reader over the same bytes
        back into `r.Body`, and decodes strictly from the buffered copy. */
    method ParseJSONStrict<T>(decode: seq<byte> -> Decoded<T>) returns (r: Parse<T>)
      modifies this
      ensures r == StrictDecode(old(body), decode)
      ensures body == BodyAfterParse(old(body))
    {
      if body.NilBody? {
        return Err(EmptyBody);
      }
      var read := ReadAll(body);
      // `io.ReadAll` drains the reader: what is left of it yields nothing more.
      body := Reader([], body.fails);
      if read.Err? {
        return Err(read.error);
      }
      var bytes := read.value;
      // Restore: a fresh reader over the buffered bytes.
      body := Reader(bytes, false);
      var first := decode(bytes);
      if first.DecodeError? {
        return Err(Malformed);
      }
      if !JsonBlank(first.rest) {
        return Err(NotAlone);
      }
      return Ok(first.value);
    }
  }

  /** Reading drains the body, but the restored one serves again: parsing it a
      second time gives the same answer, so a later reader sees the same bytes. */
  lemma StrictDecodeRepeatable<T>(body: Body, decode: seq<byte> -> Decoded<T>)
    ensures StrictDecode(BodyAfterParse(body), decode) == StrictDecode(body, decode)
            || (body.Reader? && body.fails)
    ensures BodyAfterParse(BodyAfterParse(body)) == BodyAfterParse(body)
  {
  }

  /** A second JSON value after the first one is an error, whatever it is. */
  lemma StrictDecodeTrailingValue<T>(data: seq<byte>, decode: seq<byte> -> Decoded<T>)
    requires decode(data).Value? && !JsonBlank(decode(data).rest)
    ensures StrictDecode(Reader(data, false), decode) == Err(NotAlone)
  {
  }
}
