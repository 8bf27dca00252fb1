/**
 * The account directory (`users`): a map from username to account, with the
 * registration, login and session-restore decisions of the application.
 */
module Directory {
  import opened Wrappers
  import opened Items

  /** `{password, items}`; the password is stored and compared as plain text. */
  datatype Account = Account(password: string, items: seq<Item>)

  type Users = map<string, Account>

  /** The three rejections of the register form, in the order they are tested. */
  datatype RegisterError = MissingField | PasswordMismatch | DuplicateUsername

  /** The two rejections of the login form. */
  datatype LoginError = MissingCredentials | InvalidCredentials

  /**
   * Submitting the register form: every field must be non-empty, the two
   * passwords must agree and the username must be new; the new account has no
   * items. On success the directory gains exactly the one key `username`.
   */
  function Register(users: Users, username: string, password: string, confirm: string): (r: Result<Users, RegisterError>)
    ensures r == Err(MissingField) <==> username == [] || password == [] || confirm == []
    ensures r == Err(PasswordMismatch) <==>
      username != [] && password != [] && confirm != [] && password != confirm
    ensures r == Err(DuplicateUsername) <==>
      username != [] && password != [] && confirm != [] && password == confirm && username in users
    ensures r.Ok? ==>
      && username !in users
      && r.value.Keys == users.Keys + {username}
      && r.value[username] == Account(password, [])
      && forall u :: u in users ==> r.value[u] == users[u]
  {
    if username == [] || password == [] || confirm == [] then Err(MissingField)
    else if password != confirm then Err(PasswordMismatch)
    else if username in users then Err(DuplicateUsername)
    else Ok(users[username := Account(password, [])])
  }

  /**
   * Submitting the login form: succeeds, naming the user to make current,
   * exactly when both fields are non-empty and the stored password is equal to
   * the one entered.
   */
  function Login(users: Users, username: string, password: string): (r: Result<string, LoginError>)
    ensures r.Ok? <==>
      username != [] && password != [] && username in users && users[username].password == password
    ensures r.Ok? ==> r.value == username
    ensures r == Err(MissingCredentials) <==> username == [] || password == []
  {
    if username == [] || password == [] then Err(MissingCredentials)
    else if username in users && users[username].password == password then Ok(username)
    else Err(InvalidCredentials)
  }

  /** Replaces the item list of the existing account `name`, keeping its password. */
  function WithItems(users: Users, name: string, items: seq<Item>): (r: Users)
    requires name in users
    ensures r.Keys == users.Keys
    ensures r[name].password == users[name].password && r[name].items == items
    ensures forall u :: u in users && u != name ==> r[u] == users[u]
  {
    users[name := Account(users[name].password, items)]
  }

  /**
   * The session-restore effect: a stored username is adopted only when it is
   * non-empty and still names an account.
   */
  function RestoredUser(users: Users, stored: Option<string>): (r: Option<string>)
    ensures r.Some? <==> stored.Some? && stored.value != [] && stored.value in users
    ensures r.Some? ==> r == stored && r.value in users
  {
    if stored.Some? && stored.value != [] && stored.value in users then stored else None
  }

  /** Registering and then logging in with the same password succeeds. */
  lemma RegisterThenLogin(users: Users, username: string, password: string)
    requires Register(users, username, password, password).Ok?
    ensures Login(Register(users, username, password, password).value, username, password) == Ok(username)
  {
  }

  /** A wrong password for an existing account is always rejected. */
  lemma WrongPasswordRejected(users: Users, username: string, password: string)
    requires username in users && users[username].password != password
    ensures Login(users, username, password).Err?
  {
  }

  /** A registration never changes whether an existing user can log in. */
  lemma RegisterKeepsLogins(users: Users, username: string, password: string, confirm: string, other: string, guess: string)
    requires Register(users, username, password, confirm).Ok? && other in users
    ensures Login(Register(users, username, password, confirm).value, other, guess) == Login(users, other, guess)
  {
  }

  /** Changing a user's items never changes who can log in with what. */
  lemma WithItemsKeepsLogins(users: Users, name: string, items: seq<Item>, who: string, guess: string)
    requires name in users
    ensures Login(WithItems(users, name, items), who, guess) == Login(users, who, guess)
  {
  }

  // ---------------------------------------------------------------------------
  // The directory lookups as the source writes them. `users[name]` on a plain
  // JavaScript object also finds the properties every object inherits from
  // Object.prototype, and each of those is truthy; a name among them therefore
  // passes the source's existence tests without being a key of `users`.

  /** The property names of Object.prototype. */
  const InheritedNames: set<string> := {
    "constructor", "hasOwnProperty", "isPrototypeOf", "propertyIsEnumerable",
    "toLocaleString", "toString", "valueOf", "__proto__",
    "__defineGetter__", "__defineSetter__", "__lookupGetter__", "__lookupSetter__"
  }

  /** Truthiness of `users[name]` for a directory of account objects. */
  predicate LookupTruthy(users: Users, name: string)
  {
    name in users || name in InheritedNames
  }

  /** Registration with the source's duplicate test `users[username]`. */
  function RegisterAsWritten(users: Users, username: string, password: string, confirm: string): (r: Result<Users, RegisterError>)
    ensures r == Err(DuplicateUsername) <==>
      username != [] && password != [] && confirm != [] && password == confirm && LookupTruthy(users, username)
    ensures username !in InheritedNames ==> r == Register(users, username, password, confirm)
  {
    if username == [] || password == [] || confirm == [] then Err(MissingField)
    else if password != confirm then Err(PasswordMismatch)
    else if LookupTruthy(users, username) then Err(DuplicateUsername)
    else Ok(users[username := Account(password, [])])
  }

  /** The session-restore test `storedCurrentUser && users[storedCurrentUser]`. */
  function RestoredUserAsWritten(users: Users, stored: Option<string>): (r: Option<string>)
    ensures r.Some? <==> stored.Some? && stored.value != [] && LookupTruthy(users, stored.value)
    ensures stored.Some? && stored.value !in InheritedNames ==> r == RestoredUser(users, stored)
  {
    if stored.Some? && stored.value != [] && LookupTruthy(users, stored.value) then stored else None
  }

  /** As written, "constructor" can never be registered, though no account has that name. */
  lemma RegisterRejectsInheritedName(users: Users, password: string)
    requires "constructor" !in users && password != []
    ensures RegisterAsWritten(users, "constructor", password, password) == Err(DuplicateUsername)
    ensures Register(users, "constructor", password, password).Ok?
  {
  }

  /** As written, a stored "constructor" is restored as a session with no account behind it. */
  lemma RestoreAdoptsInheritedName(users: Users)
    requires "constructor" !in users
    ensures RestoredUserAsWritten(users, Some("constructor")) == Some("constructor")
    ensures RestoredUser(users, Some("constructor")) == None
  {
  }
}
