/** The Admin collection and its two routes: POST /api/admin/create
    (server.js:248-284) and POST /api/admin/login (server.js:337-384).

    `bcrypt.hash` and `bcrypt.compare` are foreign and enter as function
    values; the random salt bcrypt draws is an explicit argument.  The
    store hands out ids from a counter, in place of MongoDB's ObjectId.
 */
module Admins {
  import opened Js
  import opened Models
  import opened Http
  import Auth

  /** `bcrypt.hash(password, cost)` with the salt it draws. */
  type Hasher = (string, nat, string) -> string

  /** `bcrypt.compare(password, digest)` */
  type Comparer = (string, string) -> bool

  /** Assumption: a password matches its own digest, whatever the cost and salt. */
  ghost predicate HashesMatch(hash: Hasher, compare: Comparer) {
    forall p, cost, salt :: compare(p, hash(p, cost, salt))
  }

  const BcryptCost: nat := 10

  /** `process.env.JWT_SECRET || 'secret'` */
  const LoginDefaultSecret: string := "secret"

  function LoginSecret(env: Option<string>): string {
    Or(env, LoginDefaultSecret)
  }

  /** `{ expiresIn: '24h' }`, in seconds. */
  const TokenLifetime: nat := 24 * 60 * 60

  const AdminExists: Reply := Msg(400, "Admin exists")
  const AdminCreated: Reply := Msg(201, "Admin created")
  const InvalidLogin: Reply := Msg(401, "Invalid login")

  /** The unique indexes on `username` and `email`, and distinct ids. */
  ghost predicate UniqueAccounts(admins: seq<Admin>) {
    forall a, b | 0 <= a < b < |admins| ::
      && admins[a].username != admins[b].username
      && admins[a].email != admins[b].email
      && admins[a].id != admins[b].id
  }

  ghost predicate IdsBelow(admins: seq<Admin>, nextId: nat) {
    forall k | 0 <= k < |admins| :: admins[k].id < nextId
  }

  /** `Admin.findOne({ username })`: the first account with that username. */
  function FindByUsername(admins: seq<Admin>, username: string): (r: Option<Admin>)
    ensures r.Some? ==> r.value in admins && r.value.username == username
    ensures r.None? <==> forall k | 0 <= k < |admins| :: admins[k].username != username
  {
    if admins == [] then None
    else if admins[0].username == username then Some(admins[0])
    else FindByUsername(admins[1..], username)
  }

  /** `Admin.findOne({ $or: [{ username }, { email }] })`: the first account
      holding the username or the email. */
  function FindByUsernameOrEmail(admins: seq<Admin>, username: string, email: string): (r: Option<Admin>)
    ensures r.Some? ==> r.value in admins && (r.value.username == username || r.value.email == email)
    ensures r.None? <==> forall k | 0 <= k < |admins| :: admins[k].username != username && admins[k].email != email
  {
    if admins == [] then None
    else if admins[0].username == username || admins[0].email == email then Some(admins[0])
    else FindByUsernameOrEmail(admins[1..], username, email)
  }

  /** The public projection returned on login. */
  function View(a: Admin): AdminView {
    AdminView(a.id, a.username, a.email, a.role)
  }

  /** The claims login signs. */
  function ClaimsOf(a: Admin): Claims {
    Claims(a.id, a.role, a.username)
  }

  /** The outcome of the create route: the reply and the collection after it. */
  datatype CreateOutcome = CreateOutcome(reply: Reply, admins: seq<Admin>, nextId: nat)

  function CreateAdminOutcome(admins: seq<Admin>, nextId: nat,
                              username: Option<string>, email: Option<string>, password: Option<string>,
                              hash: Hasher, salt: string): (r: CreateOutcome)
    ensures r.reply == MissingFields <==> !(Truthy(username) && Truthy(email) && Truthy(password))
    ensures r.reply == AdminExists <==>
      Truthy(username) && Truthy(email) && Truthy(password) &&
      exists k | 0 <= k < |admins| :: admins[k].username == username.value || admins[k].email == email.value
    ensures r.reply == AdminCreated <==>
      Truthy(username) && Truthy(email) && Truthy(password) &&
      forall k | 0 <= k < |admins| :: admins[k].username != username.value && admins[k].email != email.value
    ensures r.reply != AdminCreated ==> r.admins == admins && r.nextId == nextId
    ensures r.reply == AdminCreated ==>
      && r.admins == admins + [Admin(nextId, username.value, email.value, hash(password.value, BcryptCost, salt), DefaultRole)]
      && r.nextId == nextId + 1
    ensures r.reply in {MissingFields, AdminExists, AdminCreated}
    ensures UniqueAccounts(admins) && IdsBelow(admins, nextId) ==> UniqueAccounts(r.admins) && IdsBelow(r.admins, r.nextId)
  {
    if !(Truthy(username) && Truthy(email) && Truthy(password)) then
      CreateOutcome(MissingFields, admins, nextId)
    else if FindByUsernameOrEmail(admins, username.value, email.value).Some? then
      CreateOutcome(AdminExists, admins, nextId)
    else
      var digest := hash(password.value, BcryptCost, salt);
      CreateOutcome(AdminCreated, admins + [Admin(nextId, username.value, email.value, digest, DefaultRole)], nextId + 1)
  }

  /** The reply of the login route. */
  function LoginReply(admins: seq<Admin>, username: Option<string>, password: Option<string>,
                      compare: Comparer, sign: Auth.Signer, env: Option<string>, now: int): (r: Reply)
    ensures r.status == 200 <==>
      && username.Some? && FindByUsername(admins, username.value).Some? && password.Some?
      && compare(password.value, FindByUsername(admins, username.value).value.password)
    ensures r.status == 200 ==>
      var a := FindByUsername(admins, username.value).value;
      r == Reply(200, LoginSuccess("Login successful", sign(ClaimsOf(a), LoginSecret(env), TokenLifetime, now), View(a)))
    ensures r == ServerError <==>
      username.Some? && FindByUsername(admins, username.value).Some? && password.None?
    ensures r.status != 200 ==> r in {InvalidLogin, ServerError}
  {
    var found := if username.Some? then FindByUsername(admins, username.value) else None;
    if found.None? then InvalidLogin
    // bcrypt.compare(undefined, digest) throws; the catch sends 500.
    else if password.None? then ServerError
    else if !compare(password.value, found.value.password) then InvalidLogin
    else
      var a := found.value;
      Reply(200, LoginSuccess("Login successful", sign(ClaimsOf(a), LoginSecret(env), TokenLifetime, now), View(a)))
  }

  /** An unknown username and a wrong password get the same reply. */
  lemma LoginFailuresIndistinguishable(admins: seq<Admin>, u1: string, u2: string, p1: string, p2: string,
                                       compare: Comparer, sign: Auth.Signer, env: Option<string>, now: int)
    requires FindByUsername(admins, u1).None?
    requires FindByUsername(admins, u2).Some? && !compare(p2, FindByUsername(admins, u2).value.password)
    ensures LoginReply(admins, Some(u1), Some(p1), compare, sign, env, now)
         == LoginReply(admins, Some(u2), Some(p2), compare, sign, env, now)
         == InvalidLogin
  {
  }

  /** A request with no password gets 500 when the username exists and 401
      when it does not, so the reply tells the two apart. */
  lemma MissingPasswordRevealsUsername(admins: seq<Admin>, known: string, unknown: string,
                                       compare: Comparer, sign: Auth.Signer, env: Option<string>, now: int)
    requires FindByUsername(admins, known).Some? && FindByUsername(admins, unknown).None?
    ensures LoginReply(admins, Some(known), None, compare, sign, env, now) == ServerError
    ensures LoginReply(admins, Some(unknown), None, compare, sign, env, now) == InvalidLogin
  {
  }

  /** In a collection with unique usernames, appending an account with a new
      username makes it the one login finds. */
  lemma {:induction false} FindAppended(admins: seq<Admin>, a: Admin)
    requires forall k | 0 <= k < |admins| :: admins[k].username != a.username
    ensures FindByUsername(admins + [a], a.username) == Some(a)
  {
    if admins != [] {
      assert (admins + [a])[1..] == admins[1..] + [a];
      FindAppended(admins[1..], a);
    } else {
      assert admins + [a] == [a];
    }
  }

  /** An admin just created can log in with the password it was created with,
      and receives its own claims and projection. */
  lemma CreatedAdminCanLogIn(admins: seq<Admin>, nextId: nat, u: string, e: string, p: string,
                             hash: Hasher, salt: string, compare: Comparer,
                             sign: Auth.Signer, env: Option<string>, now: int)
    requires HashesMatch(hash, compare)
    requires CreateAdminOutcome(admins, nextId, Some(u), Some(e), Some(p), hash, salt).reply == AdminCreated
    ensures
      var after := CreateAdminOutcome(admins, nextId, Some(u), Some(e), Some(p), hash, salt).admins;
      var a := Admin(nextId, u, e, hash(p, BcryptCost, salt), DefaultRole);
      LoginReply(after, Some(u), Some(p), compare, sign, env, now)
        == Reply(200, LoginSuccess("Login successful", sign(ClaimsOf(a), LoginSecret(env), TokenLifetime, now),
                                   AdminView(nextId, u, e, DefaultRole)))
  {
    var a := Admin(nextId, u, e, hash(p, BcryptCost, salt), DefaultRole);
    FindAppended(admins, a);
  }

  /** The Admin collection. */
  class AdminStore {
    var admins: seq<Admin>
    var nextId: nat

    ghost predicate Valid()
      reads this
    {
      UniqueAccounts(admins) && IdsBelow(admins, nextId)
    }

    constructor ()
      ensures Valid() && admins == []
    {
      admins := [];
      nextId := 0;
    }

    /** `new Admin({ username, email, password }).save()`: the role takes its default. */
    method Insert(username: string, email: string, digest: string)
      modifies this
      ensures admins == old(admins) + [Admin(old(nextId), username, email, digest, DefaultRole)]
      ensures nextId == old(nextId) + 1
    {
      admins := admins + [Admin(nextId, username, email, digest, DefaultRole)];
      nextId := nextId + 1;
    }
  }

  /** The create handler. */
  method CreateAdmin(store: AdminStore, username: Option<string>, email: Option<string>, password: Option<string>,
                     hash: Hasher, salt: string) returns (reply: Reply)
    requires store.Valid()
    modifies store
    ensures store.Valid()
    ensures var r := CreateAdminOutcome(old(store.admins), old(store.nextId), username, email, password, hash, salt);
            reply == r.reply && store.admins == r.admins && store.nextId == r.nextId
  {
    if !Truthy(username) || !Truthy(email) || !Truthy(password) {
      return MissingFields;
    }
    var exist := FindByUsernameOrEmail(store.admins, username.value, email.value);
    if exist.Some? {
      return AdminExists;
    }
    var digest := hash(password.value, BcryptCost, salt);
    store.Insert(username.value, email.value, digest);
    reply := AdminCreated;
  }

  /** The login handler; it reads the collection and changes nothing. */
  method Login(store: AdminStore, username: Option<string>, password: Option<string>,
               compare: Comparer, sign: Auth.Signer, env: Option<string>, now: int) returns (reply: Reply)
    ensures reply == LoginReply(store.admins, username, password, compare, sign, env, now)
  {
    var admin := if username.Some? then FindByUsername(store.admins, username.value) else None;
    if admin.None? {
      return InvalidLogin;
    }
    if password.None? {
      return ServerError;
    }
    var ok := compare(password.value, admin.value.password);
    if !ok {
      return InvalidLogin;
    }
    var a := admin.value;
    var token := sign(ClaimsOf(a), LoginSecret(env), TokenLifetime, now);
    reply := Reply(200, LoginSuccess("Login successful", token, View(a)));
  }
}
