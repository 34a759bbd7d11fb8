/** What a handler writes back: a status code and a payload. `http.Error` writes a
    plain-text message; `writeJSON` writes a session (token and user) or a profile. */
module Http {

  const StatusOK := 200
  const StatusCreated := 201
  const StatusBadRequest := 400
  const StatusUnauthorized := 401
  const StatusNotFound := 404
  const StatusMethodNotAllowed := 405
  const StatusConflict := 409
  const StatusUnsupportedMediaType := 415
  const StatusInternalServerError := 500

  /** The user fields a response shows; the password hash is not among them. */
  datatype UserView = UserView(id: int, email: string, username: string, createdAt: int)

  datatype Payload =
    | Message(text: string)
    | Session(token: string, user: UserView)
    | Profile(user: UserView)

  datatype Response = Response(status: int, payload: Payload)

  /** `http.Error(w, text, status)`. */
  function Error(text: string, status: int): Response {
    Response(status, Message(text))
  }
}

/** The User Store of database.go and the library calls of auth.go, seen from the
    handlers: each is an oracle whose answers are inputs of the model. */
module Store {

  /** A row of the users table. */
  datatype User = User(id: int, email: string, username: string, passwordHash: string, createdAt: int)

  /** A store query or a crypto call: the value it yields, or the error it returns. */
  datatype Answer<T> = Answer(value: T) | Failed

  /** A single-row query: the row, `sql.ErrNoRows`, or some other failure. */
  datatype Row<T> = Found(value: T) | NoRows | RowError

  /** What `INSERT ... RETURNING id, created_at` hands back. */
  datatype Inserted = Inserted(id: int, createdAt: int)

  datatype Services = Services(
    userExistsByEmail: string -> Answer<bool>,
    createUser: (string, string, string) -> Answer<Inserted>,
    getUserByEmail: string -> Row<User>,
    getUserByID: int -> Row<User>,
    hashPassword: string -> Answer<string>,
    checkPassword: (string, string) -> bool,
    generateToken: (int, string) -> Answer<string>
  )

  /** One call a handler made into the store or the crypto library, in order. */
  datatype Call =
    | ExistsByEmail(email: string)
    | CreateUser(email: string, username: string, passwordHash: string)
    | GetByEmail(email: string)
    | GetByID(id: int)
    | HashPassword(password: string)
    | CheckPassword(hash: string, password: string)
    | GenerateToken(id: int, username: string)
}
