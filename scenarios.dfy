/**
  End-to-end properties of the service: a client registers, logs in, and
  presents the token it received in an `Authorization: Bearer <token>` header.
  Each lemma names, as hypotheses, the library behaviour it relies on.
*/
module Scenarios {
  import opened Wrappers
  import opened Crypto
  import opened Config
  import opened Auth
  import opened App

  /** The scheme word clients put before the token. */
  const Bearer: string := "Bearer"

  /** Registering an unused name and then logging in with the same password yields a token for that name. */
  lemma RegisterThenLogin(users: seq<UserRecord>, name: string, password: string, hasher: Hasher, salt: string,
                          settings: Settings, codec: JwtCodec, iatClock: int, expClock: int)
    requires Sound(hasher) && name != [] && password != []
    requires !UsernameTaken(users, name)
    ensures Registration(users, Some(name), Some(password), hasher, salt).reply == Ok(name)
    ensures Login(Registration(users, Some(name), Some(password), hasher, salt).users, Some(name), Some(password),
                  hasher, settings, codec, iatClock, expClock)
         == Ok(GenerateJwt(settings, codec, name, DefaultRoles, iatClock, expClock))
  {
  }

  /**
    After registering, a wrong password is refused with the very reply an
    unknown name gets, so the reply does not tell whether the name exists.
  */
  lemma WrongPasswordLooksLikeUnknownUser(users: seq<UserRecord>, name: string, password: string, guess: string,
                                          stranger: string, hasher: Hasher, salt: string,
                                          settings: Settings, codec: JwtCodec, iatClock: int, expClock: int)
    requires Discriminating(hasher) && name != [] && password != [] && guess != [] && stranger != []
    requires guess != password
    requires !UsernameTaken(users, name)
    ensures var after := Registration(users, Some(name), Some(password), hasher, salt).users;
      && !UsernameTaken(after, stranger) ==> Login(after, Some(stranger), Some(guess), hasher, settings, codec, iatClock, expClock) == Err(InvalidCredentials)
    ensures var after := Registration(users, Some(name), Some(password), hasher, salt).users;
      Login(after, Some(name), Some(guess), hasher, settings, codec, iatClock, expClock) == Err(InvalidCredentials)
  {
  }

  /** A record appended at the end adds one to its name's count. */
  lemma {:induction false} CountNamedAppend(users: seq<UserRecord>, record: UserRecord, name: string)
    ensures CountNamed(users + [record], name) == CountNamed(users, name) + (if record.username == name then 1 else 0)
  {
    if users != [] {
      assert (users + [record])[1..] == users[1..] + [record];
      CountNamedAppend(users[1..], record, name);
    }
  }

  /**
    Registering the same name twice: the second attempt is a 409, leaves the
    store as the first one left it, and the store holds exactly one record
    with that name.
  */
  lemma RegisterTwice(users: seq<UserRecord>, name: string, password1: string, password2: string,
                      hasher: Hasher, salt1: string, salt2: string)
    requires name != [] && password1 != [] && password2 != []
    requires !UsernameTaken(users, name)
    ensures var first := Registration(users, Some(name), Some(password1), hasher, salt1);
      var second := Registration(first.users, Some(name), Some(password2), hasher, salt2);
      && first.reply == Ok(name)
      && second == RegisterStep(Err(UserExists), first.users)
      && CountNamed(second.users, name) == 1
  {
    var first := Registration(users, Some(name), Some(password1), hasher, salt1);
    var record := first.users[|users|];
    assert first.users == users + [record];
    CountNamedAppend(users, record, name);
    assert UsernameTaken(first.users, name) by {
      assert first.users[|users|].username == name;
    }
  }

  /**
    A freshly registered user logs in and presents the token before it
    expires: the user-data route admits them with their name and the role
    `user`, and the admin panel answers 403.
  */
  lemma NewUserScenario(users: seq<UserRecord>, name: string, password: string, hasher: Hasher, salt: string,
                        settings: Settings, codec: JwtCodec, loginClock: int, now: int)
    requires Sound(hasher) && Compact(codec) && AcceptsUntilExpiry(codec) && name != [] && password != []
    requires !UsernameTaken(users, name)
    requires loginClock <= now < loginClock + TtlSeconds(settings)
    ensures var after := Registration(users, Some(name), Some(password), hasher, salt).users;
      var reply := Login(after, Some(name), Some(password), hasher, settings, codec, loginClock, loginClock);
      && reply.Ok?
      && TokenRequired(settings, codec, Some(Bearer + [' '] + reply.value), now) == Admit(AuthContext(name, DefaultRoles))
      && RolesRequired([AdminRole], settings, codec, Some(Bearer + [' '] + reply.value), now) == Deny(InsufficientPermissions)
  {
    RegisterThenLogin(users, name, password, hasher, salt, settings, codec, loginClock, loginClock);
    IssuedTokenAdmitted(settings, codec, Bearer, name, DefaultRoles, loginClock, loginClock, now);
    var token := GenerateJwt(settings, codec, name, DefaultRoles, loginClock, loginClock);
    var ctx := TokenRequired(settings, codec, Some(Bearer + [' '] + token), now).ctx;
    assert !(AdminRole in ctx.userRoles);
  }

  /** The seeded `admin` account logs in with the seeding password. */
  lemma SeededAdminLogsIn(hasher: Hasher, salt: string, adminPassword: string,
                          settings: Settings, codec: JwtCodec, iatClock: int, expClock: int)
    requires Sound(hasher) && adminPassword != []
    ensures Login(Seeded([], hasher.hash(salt, adminPassword)), Some(AdminUsername), Some(adminPassword),
                  hasher, settings, codec, iatClock, expClock)
         == Ok(GenerateJwt(settings, codec, AdminUsername, AdminRoles, iatClock, expClock))
  {
  }

  /**
    On an empty store, the seeded `admin` account logs in with the seeding
    password and its token opens the admin-only user listing, which lists
    exactly that account.
  */
  lemma SeededAdminScenario(hasher: Hasher, salt: string, adminPassword: string,
                            settings: Settings, codec: JwtCodec, loginClock: int, now: int)
    requires Sound(hasher) && Compact(codec) && AcceptsUntilExpiry(codec) && adminPassword != []
    requires loginClock <= now < loginClock + TtlSeconds(settings)
    ensures var store := Seeded([], hasher.hash(salt, adminPassword));
      var reply := Login(store, Some(AdminUsername), Some(adminPassword), hasher, settings, codec, loginClock, loginClock);
      && reply.Ok?
      && GetAllUsers(store, settings, codec, Some(Bearer + [' '] + reply.value), now) == Ok([PublicUser(AdminUsername, AdminRoles)])
  {
    var store := Seeded([], hasher.hash(salt, adminPassword));
    SeededAdminLogsIn(hasher, salt, adminPassword, settings, codec, loginClock, loginClock);
    var token := GenerateJwt(settings, codec, AdminUsername, AdminRoles, loginClock, loginClock);
    IssuedTokenAdmitted(settings, codec, Bearer, AdminUsername, AdminRoles, loginClock, loginClock, now);
    assert AdminRole in AdminRoles;
    assert PublicView(store) == [PublicUser(AdminUsername, AdminRoles)];
  }

  /**
    Roles are a snapshot taken at login: the token's answer depends only on the
    token and the clock, so a token issued with `admin` keeps opening the
    admin routes until it expires, whatever the store says by then.
  */
  lemma RolesAreSnapshot(later: seq<UserRecord>, name: string, roles: seq<string>,
                         settings: Settings, codec: JwtCodec, loginClock: int, now: int)
    requires Compact(codec) && AcceptsUntilExpiry(codec) && AdminRole in roles
    requires loginClock <= now < loginClock + TtlSeconds(settings)
    ensures var token := GenerateJwt(settings, codec, name, roles, loginClock, loginClock);
      GetAllUsers(later, settings, codec, Some(Bearer + [' '] + token), now) == Ok(PublicView(later))
  {
    IssuedTokenAdmitted(settings, codec, Bearer, name, roles, loginClock, loginClock, now);
  }

  /**
    Under the application's settings a token lives one hour: issued at clock
    `t`, it is accepted at `t + 3599` and refused as expired at `t + 3601`,
    by the guard and by every role gate.
  */
  lemma OneHourLifetime(secretKey: string, codec: JwtCodec, scheme: string, username: string, roles: seq<string>,
                        required: seq<string>, clock: int)
    requires Faithful(codec) && ' ' !in scheme
    ensures var settings := AppSettings(secretKey);
      var header := Some(scheme + [' '] + GenerateJwt(settings, codec, username, roles, clock, clock));
      && TokenRequired(settings, codec, header, clock + 3599) == Admit(AuthContext(username, roles))
      && TokenRequired(settings, codec, header, clock + 3601) == Deny(TokenExpired)
      && RolesRequired(required, settings, codec, header, clock + 3601) == Deny(TokenExpired)
  {
    var settings := AppSettings(secretKey);
    IssuedTokenAdmitted(settings, codec, scheme, username, roles, clock, clock, clock + 3599);
    IssuedTokenExpired(settings, codec, scheme, username, roles, required, clock, clock, clock + 3601);
  }
}
