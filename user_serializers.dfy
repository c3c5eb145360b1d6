/**
 * The registration serializer (backend/user/serializers.py), a
 * ModelSerializer over the `User` of backend/auth/models.py: the field-level
 * validation, with the unique validators the framework derives from the
 * model's unique user name and e-mail columns; the cross-field checks of
 * `validate`, in their fixed order, which run only once every field passed;
 * and `create`, which stores the user with a hashed password.
 */
module UserSerializers {
  import opened Wrappers
  import opened UserModels

  const EmailTakenMessage: string := "Пользователь с таким email уже существует."
  const PasswordMismatchMessage: string := "Пароли не совпадают."
  /** The `unique` message `AbstractUser` gives its user name column. */
  const UniqueUsernameMessage: string := "A user with that username already exists."
  /** Django's default `unique` message, for the model `user` and the column `email`. */
  const UniqueEmailMessage: string := "user with this email already exists."

  /** The fields `RegisterSerializer` accepts. */
  datatype RegisterData = RegisterData(username: string, email: string, password: string, password2: string)

  /** A `ValidationError` from `validate` carries one message under one field name. */
  datatype Validated = Accepted(data: RegisterData) | Rejected(field: string, message: string)

  /** `User.objects.filter(email=email).exists()`: an exact match on the column. */
  predicate EmailTaken(users: map<nat, Account>, email: string) {
    exists id :: id in users && users[id].email == email
  }

  /** The lookup of the user name's unique validator: an exact match on the column. */
  predicate UsernameTaken(users: map<nat, Account>, username: string) {
    exists id :: id in users && users[id].username == username
  }

  /** `message` added to the list of `field`. */
  function AddMessage(errs: map<string, seq<string>>, field: string, message: string): map<string, seq<string>> {
    errs[field := (if field in errs then errs[field] else []) + [message]]
  }

  /**
   * The field-level validation, which reports every failing field at once:
   * `other` holds the messages of the field validators this model does not
   * restate, and the unique validators add theirs for a taken user name and
   * a taken e-mail. It passes exactly when no field has a message.
   */
  function FieldErrors(data: RegisterData, users: map<nat, Account>, other: map<string, seq<string>>)
    : (errs: map<string, seq<string>>)
    ensures errs.Keys == other.Keys + (if UsernameTaken(users, data.username) then {"username"} else {})
                                    + (if EmailTaken(users, data.email) then {"email"} else {})
    ensures UsernameTaken(users, data.username) ==> UniqueUsernameMessage in errs["username"]
    ensures EmailTaken(users, data.email) ==> UniqueEmailMessage in errs["email"]
    ensures forall f :: f in other ==> forall m :: m in other[f] ==> m in errs[f]
    ensures errs == map[] <==> other == map[] && !UsernameTaken(users, data.username) && !EmailTaken(users, data.email)
  {
    var named := if UsernameTaken(users, data.username) then AddMessage(other, "username", UniqueUsernameMessage) else other;
    var errs := if EmailTaken(users, data.email) then AddMessage(named, "email", UniqueEmailMessage) else named;
    assert "username" in named ==> "username" in errs;
    errs
  }

  /**
   * `RegisterSerializer.validate`: a taken e-mail is reported under
   * 'email', else differing passwords under 'password2'; data that passes
   * both checks is returned as it came.
   */
  function Validate(data: RegisterData, users: map<nat, Account>): (r: Validated)
    ensures r.Accepted? <==> !EmailTaken(users, data.email) && data.password == data.password2
    ensures r.Accepted? ==> r.data == data
    ensures r.Rejected? ==> r.field == "email" || r.field == "password2"
  {
    if EmailTaken(users, data.email) then Rejected("email", EmailTakenMessage)
    else if data.password != data.password2 then Rejected("password2", PasswordMismatchMessage)
    else Accepted(data)
  }

  /** The e-mail check comes first: when both checks fail only the e-mail error is reported. */
  lemma EmailCheckFirst(data: RegisterData, users: map<nat, Account>)
    requires EmailTaken(users, data.email)
    ensures Validate(data, users) == Rejected("email", EmailTakenMessage)
  {
  }

  /** With a free e-mail, a password mismatch is reported under 'password2'. */
  lemma MismatchReported(data: RegisterData, users: map<nat, Account>)
    requires !EmailTaken(users, data.email) && data.password != data.password2
    ensures Validate(data, users) == Rejected("password2", PasswordMismatchMessage)
  {
  }

  /**
   * `validate` runs only after every field passed, so its e-mail check never
   * fires: the unique validator has already refused a taken e-mail, and what
   * `validate` can still refuse is the password mismatch alone.
   */
  lemma ValidateAfterFields(data: RegisterData, users: map<nat, Account>, other: map<string, seq<string>>)
    requires FieldErrors(data, users, other) == map[]
    ensures Validate(data, users)
         == if data.password == data.password2 then Accepted(data) else Rejected("password2", PasswordMismatchMessage)
  {
  }

  /**
   * `RegisterSerializer.create`: drops `password2`, builds the user from the
   * rest, replaces the password by its hash (`set_password`) and saves the
   * row under the next id; a new user is not verified.
   */
  method Create(accounts: Accounts, data: RegisterData, hash: string -> string) returns (user: Account)
    requires accounts.Valid()
    modifies accounts
    ensures accounts.Valid()
    ensures user == Account(old(accounts.nextId), data.username, data.email, hash(data.password), false)
    ensures accounts.users == old(accounts.users)[user.id := user]
    ensures old(accounts.nextId) !in old(accounts.users)
    ensures accounts.codes == old(accounts.codes) && accounts.nextId == old(accounts.nextId) + 1
  {
    user := Account(accounts.nextId, data.username, data.email, data.password, false);
    user := user.(passwordHash := hash(data.password));
    accounts.users := accounts.users[user.id := user];
    accounts.nextId := accounts.nextId + 1;
  }

  /**
   * Once a user is stored, a second registration with its user name or its
   * e-mail is refused by the unique validators, and `validate` would refuse
   * the e-mail too.
   */
  lemma RegisteredLoginsTaken(users: map<nat, Account>, user: Account, data: RegisterData, other: map<string, seq<string>>)
    ensures var errs := FieldErrors(data, users[user.id := user], other);
      data.username == user.username ==> "username" in errs && UniqueUsernameMessage in errs["username"]
    ensures var errs := FieldErrors(data, users[user.id := user], other);
      data.email == user.email ==>
      && "email" in errs && UniqueEmailMessage in errs["email"]
      && Validate(data, users[user.id := user]) == Rejected("email", EmailTakenMessage)
  {
    assert user.id in users[user.id := user];
  }
}
