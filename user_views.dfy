/**
 * The account views (backend/user/views.py): e-mail verification, which
 * consumes a code once and honours it for three hours, registration, which
 * stores the user and asks for the verification mail, and the branches of
 * the login view. Token issuing, password checking and mail sending are
 * parameters or queued jobs.
 */
module UserViews {
  import opened Wrappers
  import opened TaskQueue
  import opened UserModels
  import opened UserSerializers

  /** `timedelta(hours=3)` in microseconds, the resolution of Django's timestamps. */
  const VerificationWindow: int := 3 * 60 * 60 * 1000000

  const NotFound: nat := 404
  const BadRequest: nat := 400
  const Unauthorized: nat := 401
  const Ok200: nat := 200
  const Created201: nat := 201

  const VerifiedMessage: string := "Your email has been verified"
  const ExpiredMessage: string := "Verification link has expired"
  const InvalidCodeMessage: string := "Invalid verification code"
  const WrongCredentialsMessage: string := "Неправильный email или пароль"

  // ===========================================================================
  // Verification

  /** `{"status": ..., "data": ...}` with its HTTP status. */
  datatype VerifyResponse = VerifyResponse(status: nat, state: string, data: string)

  /** The tables after a verification request, and the answer. */
  datatype VerifyResult = VerifyResult(users: map<nat, Account>, codes: map<string, Verification>, response: VerifyResponse)

  /**
   * `VerifyUserView.get(code)` on the tables: an unknown code is a 404 and
   * changes nothing; a known code is deleted either way, and verifies its
   * user only while it is younger than three hours.
   */
  function Verify(users: map<nat, Account>, codes: map<string, Verification>, code: string, now: int): (r: VerifyResult)
    requires CodesOwned(users, codes)
    ensures CodesOwned(r.users, r.codes)
    ensures r.users.Keys == users.Keys
  {
    if code !in codes then VerifyResult(users, codes, VerifyResponse(NotFound, "error", InvalidCodeMessage))
    else
      var v := codes[code];
      if now - v.createdAt < VerificationWindow then
        VerifyResult(users[v.userId := users[v.userId].(isVerified := true)], codes - {code},
                     VerifyResponse(Ok200, "success", VerifiedMessage))
      else
        VerifyResult(users, codes - {code}, VerifyResponse(BadRequest, "error", ExpiredMessage))
  }

  /**
   * The answer: success exactly for a known code younger than three hours,
   * expired for an older known code, not found otherwise.
   */
  lemma VerifyAnswers(users: map<nat, Account>, codes: map<string, Verification>, code: string, now: int)
    requires CodesOwned(users, codes)
    ensures var r := Verify(users, codes, code, now).response;
      && (r.status == Ok200 <==> code in codes && now - codes[code].createdAt < VerificationWindow)
      && (r.status == BadRequest <==> code in codes && now - codes[code].createdAt >= VerificationWindow)
      && (r.status == NotFound <==> code !in codes)
  {
  }

  /**
   * Every known code is consumed: afterwards it is gone, no other code is
   * touched, and asking again with it is a 404 whenever it is asked.
   */
  lemma VerifyConsumesOnce(users: map<nat, Account>, codes: map<string, Verification>, code: string, now: int, later: int)
    requires CodesOwned(users, codes)
    ensures var r := Verify(users, codes, code, now);
      && r.codes == codes - {code}
      && Verify(r.users, r.codes, code, later) == VerifyResult(r.users, r.codes, VerifyResponse(NotFound, "error", InvalidCodeMessage))
  {
    if code !in codes {
      assert codes - {code} == codes;
    }
  }

  /**
   * Only the code's own user changes, only in its verified flag, and only
   * when the code is still valid; every other user is left as it was.
   */
  lemma VerifyTouchesOnlyOwner(users: map<nat, Account>, codes: map<string, Verification>, code: string, now: int)
    requires CodesOwned(users, codes)
    ensures var r := Verify(users, codes, code, now);
      && (forall id :: id in users && (code !in codes || id != codes[code].userId) ==> r.users[id] == users[id])
      && (code in codes ==>
            var owner := codes[code].userId;
            r.users[owner] == (if r.response.status == Ok200 then users[owner].(isVerified := true) else users[owner]))
  {
  }

  /** `VerifyUserView.get` on the account tables at time `now`. */
  method VerifyUser(accounts: Accounts, code: string, now: int) returns (response: VerifyResponse)
    requires accounts.Valid()
    modifies accounts
    ensures accounts.Valid() && accounts.nextId == old(accounts.nextId)
    ensures VerifyResult(accounts.users, accounts.codes, response)
         == Verify(old(accounts.users), old(accounts.codes), code, now)
  {
    if code !in accounts.codes {
      return VerifyResponse(NotFound, "error", InvalidCodeMessage);
    }
    var instance := accounts.codes[code];
    if now - instance.createdAt < VerificationWindow {
      var user := accounts.users[instance.userId];
      user := user.(isVerified := true);
      accounts.users := accounts.users[user.id := user];
      accounts.codes := accounts.codes - {code};
      return VerifyResponse(Ok200, "success", VerifiedMessage);
    } else {
      accounts.codes := accounts.codes - {code};
      return VerifyResponse(BadRequest, "error", ExpiredMessage);
    }
  }

  // ===========================================================================
  // Registration

  /** The arguments of `send_email_verification_link.delay(user.id, code)`. */
  datatype MailJob = MailJob(userId: nat, code: string)

  /**
   * `RegisterViewset.action_after_registration`: draws a verification code
   * for the user and queues the mail only when a code came back.
   */
  method ActionAfterRegistration(accounts: Accounts, user: Account, drawn: string, refused: bool, now: int,
                                 mail: Queue<MailJob>)
    requires accounts.Valid() && user.id in accounts.users
    modifies accounts, mail
    ensures accounts.Valid() && accounts.users == old(accounts.users) && accounts.nextId == old(accounts.nextId)
    ensures refused || drawn in old(accounts.codes) ==> accounts.codes == old(accounts.codes) && mail.pending == old(mail.pending)
    ensures !refused && drawn !in old(accounts.codes) ==>
      && accounts.codes == old(accounts.codes)[drawn := Verification(drawn, user.id, now)]
      && mail.pending == old(mail.pending) + [MailJob(user.id, drawn)]
  {
    var code := accounts.GenerateVerificationLink(user.id, drawn, refused, now);
    if code.Some? {
      mail.Delay(MailJob(user.id, code.value));
    }
  }

  /** The account tables and the mail queue, as values. */
  datatype Tables = Tables(users: map<nat, Account>, codes: map<string, Verification>, nextId: nat, mail: seq<MailJob>)

  function TablesOf(accounts: Accounts, mail: Queue<MailJob>): Tables
    reads accounts, mail
  {
    Tables(accounts.users, accounts.codes, accounts.nextId, mail.pending)
  }

  /** What validation and saving made of a request: the errors per field, or the stored user. */
  datatype Registration = Refused(errors: map<string, seq<string>>) | Stored(user: Account)

  /**
   * The first steps of `RegisterViewset.create` on values: the field-level
   * validation, then `validate`, each refusing with its errors and storing
   * nothing; otherwise the user is created under the next id and
   * `action_after_registration` stores a code and queues its mail, unless
   * the code is taken or its insert is `refused`.
   */
  function Registering(t: Tables, data: RegisterData, other: map<string, seq<string>>, hash: string -> string,
                       drawn: string, refused: bool, now: int): (Tables, Registration)
  {
    var errs := FieldErrors(data, t.users, other);
    if errs != map[] then (t, Refused(errs))
    else match Validate(data, t.users)
      case Rejected(field, message) => (t, Refused(map[field := [message]]))
      case Accepted(d) =>
        var user := Account(t.nextId, d.username, d.email, hash(d.password), false);
        var t1 := t.(users := t.users[user.id := user], nextId := t.nextId + 1);
        if refused || drawn in t.codes then (t1, Stored(user))
        else (t1.(codes := t.codes[drawn := Verification(drawn, user.id, now)], mail := t.mail + [MailJob(user.id, drawn)]),
              Stored(user))
  }

  /**
   * A request is refused exactly when a field fails or the passwords
   * differ, and then nothing is stored or queued; a taken user name or
   * e-mail is among the reasons, under its own field, and a mismatch alone
   * is reported under 'password2'.
   */
  lemma RegisteringRefuses(t: Tables, data: RegisterData, other: map<string, seq<string>>, hash: string -> string,
                           drawn: string, refused: bool, now: int)
    ensures var (t1, r) := Registering(t, data, other, hash, drawn, refused, now);
      && (r.Refused? <==> FieldErrors(data, t.users, other) != map[] || data.password != data.password2)
      && (r.Refused? ==> t1 == t)
      && (UsernameTaken(t.users, data.username) ==> r.Refused? && UniqueUsernameMessage in r.errors["username"])
      && (EmailTaken(t.users, data.email) ==> r.Refused? && UniqueEmailMessage in r.errors["email"])
      && (FieldErrors(data, t.users, other) == map[] && data.password != data.password2 ==>
            r == Refused(map["password2" := [PasswordMismatchMessage]]))
  {
    if FieldErrors(data, t.users, other) == map[] {
      ValidateAfterFields(data, t.users, other);
    }
  }

  /**
   * A stored user is new, unverified, under the next id, with the request's
   * user name and e-mail and the hashed password; the code and its mail
   * follow exactly when the code was free and its insert accepted, and the
   * tables stay valid.
   */
  lemma RegisteringStores(t: Tables, data: RegisterData, other: map<string, seq<string>>, hash: string -> string,
                          drawn: string, refused: bool, now: int)
    requires TablesValid(t.users, t.codes, t.nextId)
    ensures var (t1, r) := Registering(t, data, other, hash, drawn, refused, now);
      r.Stored? ==>
        var user := r.user;
        && user == Account(t.nextId, data.username, data.email, hash(data.password), false)
        && t.nextId !in t.users
        && t1.users == t.users[user.id := user] && t1.nextId == t.nextId + 1
        && TablesValid(t1.users, t1.codes, t1.nextId)
        && (refused || drawn in t.codes ==> t1.codes == t.codes && t1.mail == t.mail)
        && (!refused && drawn !in t.codes ==>
              t1.codes == t.codes[drawn := Verification(drawn, user.id, now)] && t1.mail == t.mail + [MailJob(user.id, drawn)])
  {
  }

  /** Registration keeps user names and e-mails unique: it never stores a second account with either. */
  lemma {:induction false} RegisteringKeepsLoginsUnique(t: Tables, data: RegisterData, other: map<string, seq<string>>,
                                                        hash: string -> string, drawn: string, refused: bool, now: int)
    requires TablesValid(t.users, t.codes, t.nextId) && UniqueLogins(t.users)
    ensures UniqueLogins(Registering(t, data, other, hash, drawn, refused, now).0.users)
  {
    var (t1, r) := Registering(t, data, other, hash, drawn, refused, now);
    if r.Stored? {
      RegisteringRefuses(t, data, other, hash, drawn, refused, now);
      RegisteringStores(t, data, other, hash, drawn, refused, now);
      var user := r.user;
      forall a, b | a in t1.users && b in t1.users && a != b
        ensures t1.users[a].username != t1.users[b].username && t1.users[a].email != t1.users[b].email
      {
        if a == user.id {
          assert !UsernameTaken(t.users, data.username) && !EmailTaken(t.users, data.email);
          assert b in t.users;
        } else if b == user.id {
          assert !UsernameTaken(t.users, data.username) && !EmailTaken(t.users, data.email);
          assert a in t.users;
        }
      }
    }
  }

  /** Lines 60-64 of `RegisterViewset.create`: `is_valid`, `save` and `action_after_registration`. */
  method ValidateAndSave(accounts: Accounts, data: RegisterData, other: map<string, seq<string>>, hash: string -> string,
                         drawn: string, refused: bool, now: int, mail: Queue<MailJob>)
    returns (reg: Registration)
    requires accounts.Valid()
    modifies accounts, mail
    ensures accounts.Valid()
    ensures (TablesOf(accounts, mail), reg) == Registering(old(TablesOf(accounts, mail)), data, other, hash, drawn, refused, now)
  {
    var errs := FieldErrors(data, accounts.users, other);
    if errs != map[] {
      return Refused(errs);
    }
    var validated := Validate(data, accounts.users);
    if validated.Rejected? {
      return Refused(map[validated.field := [validated.message]]);
    }
    var user := Create(accounts, validated.data, hash);
    ActionAfterRegistration(accounts, user, drawn, refused, now, mail);
    reg := Stored(user);
  }

  /** The body of a registration answer: the errors per field, or the new user and its tokens. */
  datatype RegisterBody =
    | RegisterRejected(errors: map<string, seq<string>>)
    | Registered(userId: nat, email: string, access: string, refresh: string)

  datatype RegisterResponse = RegisterResponse(status: nat, body: RegisterBody)

  /** How a view call ends: an answer, or an exception that escapes the view (which Django serves as a 500). */
  datatype ViewOutcome = Answered(response: RegisterResponse) | Raised(message: string)

  /**
   * The attribute error of views.py:69: the serializer stores the `User` of
   * backend/auth/models.py, which has no `second_name`.
   */
  const SecondNameError: string := "'User' object has no attribute 'second_name'"

  /** The answer as written: the errors with a 400, and for a stored user the read of `user.second_name`, which raises. */
  function AnswerAsWritten(reg: Registration): ViewOutcome {
    match reg
    case Refused(errors) => Answered(RegisterResponse(BadRequest, RegisterRejected(errors)))
    case Stored(_) => Raised(SecondNameError)
  }

  /**
   * As written, no registration is answered with a 201: a request that
   * passes validation raises after the user is stored. A code and its mail
   * are added only when the code's insert is accepted; as written it is
   * refused (`refused`), since the verification table's key points at the
   * other user model, so nothing is queued.
   */
  lemma StoredThenRaises(t: Tables, data: RegisterData, other: map<string, seq<string>>, hash: string -> string,
                         drawn: string, refused: bool, now: int)
    requires TablesValid(t.users, t.codes, t.nextId)
    ensures var (t1, r) := Registering(t, data, other, hash, drawn, refused, now);
      && (AnswerAsWritten(r).Raised? <==> FieldErrors(data, t.users, other) == map[] && data.password == data.password2)
      && (AnswerAsWritten(r).Answered? ==> AnswerAsWritten(r).response.status == BadRequest)
      && (AnswerAsWritten(r).Raised? ==>
            && t.nextId !in t.users && t.nextId in t1.users
            && t1.users[t.nextId].email == data.email
            && (refused ==> t1.codes == t.codes && t1.mail == t.mail)
            && (!refused && drawn !in t.codes ==> t1.mail == t.mail + [MailJob(t.nextId, drawn)]))
  {
    RegisteringRefuses(t, data, other, hash, drawn, refused, now);
    RegisteringStores(t, data, other, hash, drawn, refused, now);
  }

  /** `RegisterViewset.create` as written: validation and saving, then `AnswerAsWritten`. */
  method RegisterAsWritten(accounts: Accounts, data: RegisterData, other: map<string, seq<string>>, hash: string -> string,
                           drawn: string, refused: bool, now: int, mail: Queue<MailJob>)
    returns (outcome: ViewOutcome)
    requires accounts.Valid()
    modifies accounts, mail
    ensures accounts.Valid()
    ensures var (t1, r) := Registering(old(TablesOf(accounts, mail)), data, other, hash, drawn, refused, now);
      TablesOf(accounts, mail) == t1 && outcome == AnswerAsWritten(r)
  {
    var reg := ValidateAndSave(accounts, data, other, hash, drawn, refused, now, mail);
    match reg
    case Refused(errors) =>
      outcome := Answered(RegisterResponse(BadRequest, RegisterRejected(errors)));
    case Stored(_) =>
      outcome := Raised(SecondNameError);
  }

  /** The answer the view evidently intends: the errors with a 400, or the new user's id, e-mail and tokens with a 201. */
  function Answer(reg: Registration, tokens: Account -> (string, string)): RegisterResponse {
    match reg
    case Refused(errors) => RegisterResponse(BadRequest, RegisterRejected(errors))
    case Stored(user) => RegisterResponse(Created201, Registered(user.id, user.email, tokens(user).0, tokens(user).1))
  }

  /**
   * Corrected, a registration is answered with a 201 exactly when it passes
   * validation, naming the new id and the request's e-mail, and otherwise
   * with a 400 carrying the errors.
   */
  lemma RegisterAnswers(t: Tables, data: RegisterData, other: map<string, seq<string>>, hash: string -> string,
                        tokens: Account -> (string, string), drawn: string, refused: bool, now: int)
    requires TablesValid(t.users, t.codes, t.nextId)
    ensures var (t1, r) := Registering(t, data, other, hash, drawn, refused, now);
      var response := Answer(r, tokens);
      && (response.status == Created201 <==> FieldErrors(data, t.users, other) == map[] && data.password == data.password2)
      && (response.status == BadRequest <==> r.Refused?)
      && (response.status == Created201 ==>
            response.body.userId == t.nextId && response.body.email == data.email && t.nextId in t1.users)
  {
    RegisteringRefuses(t, data, other, hash, drawn, refused, now);
    RegisteringStores(t, data, other, hash, drawn, refused, now);
  }

  /** `RegisterViewset.create` with the answer it evidently intends. */
  method Register(accounts: Accounts, data: RegisterData, other: map<string, seq<string>>, hash: string -> string,
                  tokens: Account -> (string, string), drawn: string, refused: bool, now: int, mail: Queue<MailJob>)
    returns (response: RegisterResponse)
    requires accounts.Valid()
    modifies accounts, mail
    ensures accounts.Valid()
    ensures var (t1, r) := Registering(old(TablesOf(accounts, mail)), data, other, hash, drawn, refused, now);
      TablesOf(accounts, mail) == t1 && response == Answer(r, tokens)
  {
    var reg := ValidateAndSave(accounts, data, other, hash, drawn, refused, now, mail);
    var (access, refresh) := if reg.Stored? then tokens(reg.user) else ("", "");
    match reg
    case Refused(errors) =>
      response := RegisterResponse(BadRequest, RegisterRejected(errors));
    case Stored(user) =>
      response := RegisterResponse(Created201, Registered(user.id, user.email, access, refresh));
  }

  // ===========================================================================
  // Login

  /** What the login serializer made of the request: its field errors, or the e-mail and password. */
  datatype LoginInput = LoginInvalid(errors: map<string, string>) | LoginFields(email: string, password: string)

  datatype LoginBody =
    | LoginErrors(errors: map<string, string>)
    | LoginDenied(detail: string)
    | LoggedIn(userId: nat, username: string, email: string, access: string, refresh: string)

  datatype LoginResponse = LoginResponse(status: nat, body: LoginBody)

  /**
   * `LoginViewset.create`: invalid fields are a 400 with the serializer's
   * errors, failed authentication a 401, and an authenticated user gets its
   * id, user name, e-mail and a fresh token pair.
   */
  function Login(input: LoginInput, authenticate: (string, string) -> Option<Account>,
                 tokens: Account -> (string, string)): (r: LoginResponse)
    ensures r.status == BadRequest <==> input.LoginInvalid?
    ensures r.status == Unauthorized <==> input.LoginFields? && authenticate(input.email, input.password).None?
    ensures r.status == Ok200 <==> input.LoginFields? && authenticate(input.email, input.password).Some?
    ensures r.status == Ok200 ==>
      var user := authenticate(input.email, input.password).value;
      r.body == LoggedIn(user.id, user.username, user.email, tokens(user).0, tokens(user).1)
  {
    match input
    case LoginInvalid(errors) => LoginResponse(BadRequest, LoginErrors(errors))
    case LoginFields(email, password) =>
      match authenticate(email, password)
      case None => LoginResponse(Unauthorized, LoginDenied(WrongCredentialsMessage))
      case Some(user) =>
        var (access, refresh) := tokens(user);
        LoginResponse(Ok200, LoggedIn(user.id, user.username, user.email, access, refresh))
  }
}
