/**
  The user store and the routes over it (app.py): registration, login, the
  admin-only user listing and the start-up seeding of an `admin` account.

  The store is the list of records the routes load from and save back to the
  users file; here it is the `users` field of a `UserStore`, which `Register`
  and `SeedDefaultAdmin` update in place the way the source appends to the
  loaded list and saves it. Login and the listing only read the list, so they
  are functions of it.
*/
module App {
  import opened Wrappers
  import opened Crypto
  import opened Config
  import opened Auth

  /** One entry of the users file. */
  datatype UserRecord = UserRecord(username: string, passwordHash: string, roles: seq<string>)

  /** An entry of the user listing: the record without its password hash. */
  datatype PublicUser = PublicUser(username: string, roles: seq<string>)

  /** The roles a newly registered user gets. */
  const DefaultRoles: seq<string> := ["user"]

  const AdminUsername: string := "admin"

  /** The role the admin-only routes require. */
  const AdminRole: string := "admin"

  /** The roles of the account seeded into an empty store. */
  const AdminRoles: seq<string> := ["user", AdminRole]

  /** The failures of the public routes, with their HTTP status and message. */
  datatype AppError = MissingFields | UserExists | InvalidCredentials
  {
    function Status(): (code: int)
    {
      match this
      case MissingFields => 400
      case UserExists => 409
      case InvalidCredentials => 401
    }

    function Message(): (text: string)
    {
      match this
      case MissingFields => "Username and password are required"
      case UserExists => "User already exists"
      case InvalidCredentials => "Invalid credentials"
    }
  }

  /** Python's `not field` for a request field that is absent or a string. */
  predicate Blank(field: Option<string>)
  {
    field.None? || field.value == []
  }

  /** `any(u['username'] == name for u in users)`. */
  predicate UsernameTaken(users: seq<UserRecord>, name: string)
  {
    exists i :: 0 <= i < |users| && users[i].username == name
  }

  /** No two records share a username. */
  predicate UniqueUsernames(users: seq<UserRecord>)
  {
    forall i, j :: 0 <= i < j < |users| ==> users[i].username != users[j].username
  }

  /** The reply of `register` (the username on success) and the store it leaves behind. */
  datatype RegisterStep = RegisterStep(reply: Result<string, AppError>, users: seq<UserRecord>)

  /**
    `register` on a store: blank fields give 400 and a taken username 409, both
    leaving the store as it was; otherwise exactly one record, with the hashed
    password and the default role, is appended after the untouched old ones.
  */
  function Registration(users: seq<UserRecord>, username: Option<string>, password: Option<string>,
                        hasher: Hasher, salt: string): (step: RegisterStep)
    ensures Blank(username) || Blank(password) ==> step == RegisterStep(Err(MissingFields), users)
    ensures (!Blank(username) && !Blank(password) && UsernameTaken(users, username.value))
              ==> step == RegisterStep(Err(UserExists), users)
    ensures step.reply.Ok? <==> !Blank(username) && !Blank(password) && !UsernameTaken(users, username.value)
    ensures step.reply.Ok? ==>
              && step.reply.value == username.value
              && |step.users| == |users| + 1
              && step.users[..|users|] == users
              && step.users[|users|] == UserRecord(username.value, hasher.hash(salt, password.value), DefaultRoles)
    ensures UniqueUsernames(users) ==> UniqueUsernames(step.users)
  {
    if Blank(username) || Blank(password) then RegisterStep(Err(MissingFields), users)
    else if UsernameTaken(users, username.value) then RegisterStep(Err(UserExists), users)
    else
      var newUser := UserRecord(username.value, hasher.hash(salt, password.value), DefaultRoles);
      RegisterStep(Ok(username.value), users + [newUser])
  }

  /** The store after the start-up block: an empty store gets the `admin` account, any other is left alone. */
  function Seeded(users: seq<UserRecord>, adminHash: string): (seeded: seq<UserRecord>)
    ensures users != [] ==> seeded == users
    ensures users == [] ==> |seeded| == 1 && seeded[0].username == AdminUsername
                            && seeded[0].passwordHash == adminHash && seeded[0].roles == AdminRoles
    ensures UniqueUsernames(users) ==> UniqueUsernames(seeded)
  {
    if users == [] then [UserRecord(AdminUsername, adminHash, AdminRoles)] else users
  }

  /** The list of user records, updated in place by registration and seeding. */
  class UserStore {
    var users: seq<UserRecord>

    /** The store as loaded from the users file. */
    constructor (loaded: seq<UserRecord>)
      ensures users == loaded
    {
      users := loaded;
    }

    /** `register`: the checks, then `users.append(new_user)`. */
    method Register(username: Option<string>, password: Option<string>, hasher: Hasher, salt: string)
      returns (reply: Result<string, AppError>)
      modifies this
      ensures RegisterStep(reply, users) == Registration(old(users), username, password, hasher, salt)
      ensures UniqueUsernames(old(users)) ==> UniqueUsernames(users)
    {
      if Blank(username) || Blank(password) {
        return Err(MissingFields);
      }
      if UsernameTaken(users, username.value) {
        return Err(UserExists);
      }
      var hashed := hasher.hash(salt, password.value);
      var newUser := UserRecord(username.value, hashed, DefaultRoles);
      users := users + [newUser];
      reply := Ok(username.value);
    }

    /** The start-up block: on an empty store, append the `admin` account; report whether it did. */
    method SeedDefaultAdmin(hasher: Hasher, salt: string, adminPassword: string) returns (created: bool)
      modifies this
      ensures created <==> old(users) == []
      ensures users == Seeded(old(users), hasher.hash(salt, adminPassword))
    {
      created := users == [];
      if created {
        var adminHash := hasher.hash(salt, adminPassword);
        users := users + [UserRecord(AdminUsername, adminHash, AdminRoles)];
      }
    }
  }

  /** `next((u for u in users if u['username'] == name), None)`: the first record with that name. */
  function FindUser(users: seq<UserRecord>, name: string): (found: Option<UserRecord>)
    ensures found.None? <==> !UsernameTaken(users, name)
    ensures found.Some? ==> exists i :: 0 <= i < |users| && users[i] == found.value
                                        && found.value.username == name && !UsernameTaken(users[..i], name)
  {
    if users == [] then None
    else if users[0].username == name then Some(users[0])
    else
      var found := FindUser(users[1..], name);
      assert found.Some? ==> UsernameTaken(users, name);
      if found.Some? then
        ghost var i :| 0 <= i < |users| - 1 && users[1..][i] == found.value
                       && found.value.username == name && !UsernameTaken(users[1..][..i], name);
        assert users[..i + 1] == [users[0]] + users[1..][..i];
        found
      else found
  }

  /**
    `login`: blank fields give 400; an unknown name and a wrong password give the
    same 401; otherwise the token issued for the first record with the name.
  */
  function Login(users: seq<UserRecord>, username: Option<string>, password: Option<string>, hasher: Hasher,
                 settings: Settings, codec: JwtCodec, iatClock: int, expClock: int): (reply: Result<string, AppError>)
    ensures reply == Err(MissingFields) <==> Blank(username) || Blank(password)
    ensures reply.Err? ==> reply.error != UserExists
    ensures (!Blank(username) && !Blank(password) && !UsernameTaken(users, username.value))
              ==> reply == Err(InvalidCredentials)
    ensures !Blank(username) && !Blank(password) ==>
              forall i :: 0 <= i < |users| && users[i].username == username.value && !UsernameTaken(users[..i], username.value) ==>
                && (reply.Ok? <==> hasher.check(users[i].passwordHash, password.value))
                && (reply.Ok? ==> reply.value == GenerateJwt(settings, codec, users[i].username, users[i].roles, iatClock, expClock))
  {
    if Blank(username) || Blank(password) then Err(MissingFields)
    else
      var user := FindUser(users, username.value);
      if user.None? || !hasher.check(user.value.passwordHash, password.value) then Err(InvalidCredentials)
      else Ok(GenerateJwt(settings, codec, user.value.username, user.value.roles, iatClock, expClock))
  }

  /** `[{"username": u["username"], "roles": u["roles"]} for u in users]`. */
  function PublicView(users: seq<UserRecord>): (view: seq<PublicUser>)
    ensures |view| == |users|
    ensures forall i :: 0 <= i < |users| ==> view[i] == PublicUser(users[i].username, users[i].roles)
  {
    if users == [] then [] else [PublicUser(users[0].username, users[0].roles)] + PublicView(users[1..])
  }

  /** The listing does not depend on the password hashes: stores that differ only in them list the same. */
  lemma PublicViewIgnoresHashes(a: seq<UserRecord>, b: seq<UserRecord>)
    requires |a| == |b|
    requires forall i :: 0 <= i < |a| ==> a[i].username == b[i].username && a[i].roles == b[i].roles
    ensures PublicView(a) == PublicView(b)
  {
  }

  /** `get_all_users` behind `roles_required(['admin'])`: the listing for admins, the guard's answer otherwise. */
  function GetAllUsers(users: seq<UserRecord>, settings: Settings, codec: JwtCodec, authorization: Option<string>, now: int)
    : (reply: Result<seq<PublicUser>, Outcome>)
    ensures reply.Ok? <==> TokenRequired(settings, codec, authorization, now).Admit?
                           && AdminRole in TokenRequired(settings, codec, authorization, now).ctx.userRoles
    ensures reply.Ok? ==> reply.value == PublicView(users)
    ensures reply.Err? ==> !reply.error.Admit?
    ensures reply.Err? ==> reply.error == RolesRequired([AdminRole], settings, codec, authorization, now)
  {
    var gate := RolesRequired([AdminRole], settings, codec, authorization, now);
    if gate.Admit? then Ok(PublicView(users)) else Err(gate)
  }

  /** How many records carry a given username. */
  function CountNamed(users: seq<UserRecord>, name: string): (n: nat)
    ensures n == 0 <==> !UsernameTaken(users, name)
    ensures UniqueUsernames(users) ==> n <= 1
  {
    if users == [] then 0
    else (if users[0].username == name then 1 else 0) + CountNamed(users[1..], name)
  }
}
