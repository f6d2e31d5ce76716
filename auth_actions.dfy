/**
 * The `RegisterUser` server action: validate the signup form again on the
 * server, refuse an email that is already registered, and insert the user with
 * the bcrypt hash of the password. The password hash and the email format check
 * are parameters; `fault` names the one store or hash call that throws, if any.
 */
module AuthActions {
  import opened Wrappers
  import opened Db
  import opened AuthSchemas

  const SaltRounds := 12

  const InvalidDataMessage := "Invalid data"
  const UserExistsMessage := "User already exists"
  const SomethingWrongMessage := "Something went wrong."

  /** The calls that can throw, in the order they are made. */
  datatype Call = FindUser | HashPassword | CreateUser

  datatype RegisterReply = Registered | RegisterError(error: string)

  datatype Registration = Registration(users: map<Email, User>, reply: RegisterReply)

  /** The action as a function of the user table. */
  function Register(users: map<Email, User>, data: SignupInput, isEmail: string -> bool,
                    hash: (string, int) -> string, fault: Option<Call>): (r: Registration)
    ensures !SignupValid(data, isEmail) ==> r == Registration(users, RegisterError(InvalidDataMessage))
    ensures SignupValid(data, isEmail) && fault == Some(FindUser) ==>
      r == Registration(users, RegisterError(SomethingWrongMessage))
    ensures SignupValid(data, isEmail) && fault != Some(FindUser) && data.email in users ==>
      r == Registration(users, RegisterError(UserExistsMessage))
    ensures SignupValid(data, isEmail) && data.email !in users && fault.Some? ==>
      r == Registration(users, RegisterError(SomethingWrongMessage))
    ensures r.reply.Registered? <==> SignupValid(data, isEmail) && data.email !in users && fault.None?
    ensures r.reply.Registered? ==>
      r.users == users[data.email := User(data.name, data.email, hash(data.password, SaltRounds))]
    ensures r.reply.RegisterError? ==> r.users == users
    ensures r.reply.RegisterError? && fault.None? ==> r.reply.error != SomethingWrongMessage
  {
    if !SignupValid(data, isEmail) then Registration(users, RegisterError(InvalidDataMessage))
    else if fault == Some(FindUser) then Registration(users, RegisterError(SomethingWrongMessage))
    else if data.email in users then Registration(users, RegisterError(UserExistsMessage))
    else if fault.Some? then Registration(users, RegisterError(SomethingWrongMessage))
    else Registration(users[data.email := User(data.name, data.email, hash(data.password, SaltRounds))], Registered)
  }

  /** Registration keeps every user filed under their own email, and afterwards
      the email is taken: the same signup a second time is refused. */
  lemma RegisterTwice(users: map<Email, User>, data: SignupInput, isEmail: string -> bool,
                      hash: (string, int) -> string, fault: Option<Call>)
    requires UsersKeyed(users)
    requires Register(users, data, isEmail, hash, None).reply.Registered?
    requires fault != Some(FindUser)
    ensures var once := Register(users, data, isEmail, hash, None).users;
      && UsersKeyed(once)
      && once.Keys == users.Keys + {data.email}
      && Register(once, data, isEmail, hash, fault) == Registration(once, RegisterError(UserExistsMessage))
  {
  }

  /** The action against the store. */
  method RegisterUser(db: Store, data: SignupInput, isEmail: string -> bool,
                      hash: (string, int) -> string, fault: Option<Call>) returns (reply: RegisterReply)
    requires db.Valid()
    modifies db
    ensures db.Valid()
    ensures Registration(db.users, reply) == Register(old(db.users), data, isEmail, hash, fault)
    ensures db.quotas == old(db.quotas) && db.keys == old(db.keys) && db.files == old(db.files)
  {
    if SignupIssues(data, isEmail) != [] {
      return RegisterError(InvalidDataMessage);
    }
    if fault == Some(FindUser) {
      return RegisterError(SomethingWrongMessage);
    }
    if data.email in db.users {
      return RegisterError(UserExistsMessage);
    }
    if fault == Some(HashPassword) {
      return RegisterError(SomethingWrongMessage);
    }
    var hashedPassword := hash(data.password, SaltRounds);
    if fault.Some? {
      // `db.user.create` throws
      return RegisterError(SomethingWrongMessage);
    }
    db.users := db.users[data.email := User(data.name, data.email, hashedPassword)];
    reply := Registered;
  }
}
