/** The `User` model: construction, the password setter and serialisation. */
module Accounts {
  import opened Wrappers
  import opened Json
  import opened Enums
  import opened Hex
  import opened Passwords
  import Tables
  import Seqs

  /** A user's columns; the id lives in the table row that stores it. */
  datatype User = User(email: string, username: string, passwordHash: string, role: Role)

  /** `User.PasswordException`, raised for a password the policy rejects. */
  datatype PasswordException = PasswordException

  /**
   * The `password` setter (`_set_password`): a rejected password raises and
   * the stored hash stays as it was; an accepted one replaces only the hash,
   * with one that checks against that password. `draw` is what `urandom(32)`
   * returned.
   */
  function SetPassword(kdf: Kdf, u: User, password: string, draw: seq<byte>): (r: Result<User, PasswordException>)
    ensures r.Failure? <==> |password| < MinPasswordLength
    ensures r.Success? ==> r.value.(passwordHash := u.passwordHash) == u
    ensures r.Success? ==> CheckPassword(kdf, r.value.passwordHash, password) == Success(true)
  {
    if !ValidatePassword(password) then Failure(PasswordException)
    else
      CheckOwnPassword(kdf, password, draw);
      Success(u.(passwordHash := HashPassword(kdf, password, Fresh(draw)).value))
  }

  /**
   * `User(email, username, password, role)`: the role defaults to USER, and
   * the constructor raises when the password is rejected.
   */
  function NewUser(kdf: Kdf, email: string, username: string, password: string,
                   role: Option<Role>, draw: seq<byte>): (r: Result<User, PasswordException>)
    ensures r.Failure? <==> |password| < MinPasswordLength
    ensures r.Success? ==> r.value.email == email && r.value.username == username
    ensures r.Success? ==> r.value.role == (if role.Some? then role.value else Role.User)
    ensures r.Success? ==> CheckPassword(kdf, r.value.passwordHash, password) == Success(true)
  {
    var chosen := role.GetOr(Role.User);
    match SetPassword(kdf, User.User(email, username, "", chosen), password, draw)
    case Failure(e) => Failure(e)
    case Success(u) => Success(u)
  }

  /** `User.serializable`. */
  const UserSerializable: seq<string> := ["username", "email", "role"]

  /** `getattr(user, key)` as the JSON provider renders it; a role renders as `str(role)`. */
  function UserAttr(u: User): string -> Json {
    k =>
      if k == "username" then JStr(u.username)
      else if k == "email" then JStr(u.email)
      else if k == "role" then JStr(RoleToString(u.role))
      else JNull
  }

  /**
   * A user as the API returns it: `serialize()` over `serializable`, each
   * name once and in that order.
   */
  function SerializeUser(u: User): (j: Json)
    ensures j.JObject? && Keys(j.fields) == UserSerializable
  {
    assert Seqs.Distinct(UserSerializable);
    JObject(Tables.Serialize(UserSerializable, UserAttr(u)))
  }

  /**
   * A serialised user has exactly the keys username, email and role, the role
   * as its display string, and never the password hash.
   */
  lemma SerializedUser(u: User)
    ensures SerializeUser(u).JObject?
    ensures Keys(SerializeUser(u).fields) == ["username", "email", "role"]
    ensures Field(SerializeUser(u), "username") == Some(JStr(u.username))
    ensures Field(SerializeUser(u), "email") == Some(JStr(u.email))
    ensures Field(SerializeUser(u), "role") == Some(JStr(RoleToString(u.role)))
    ensures Field(SerializeUser(u), "password_hash").None?
    ensures Truthy(SerializeUser(u))
  {
    assert Seqs.Distinct(UserSerializable);
    assert "username" in UserSerializable && "email" in UserSerializable && "role" in UserSerializable;
    assert "password_hash" !in UserSerializable;
  }
}
