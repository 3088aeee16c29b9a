/** The mock session holder of the front end: one `user` slot that `login` and
    `signup` overwrite with a fabricated user and that `logout` clears. No
    backend is consulted, the password is never looked at, and the requested
    role is taken as given. */
module AuthContext {
  import opened JsValues

  /** `'user' | 'salon_owner'` */
  datatype Role = Customer | SalonOwner

  datatype User = User(id: string, name: string, email: string, avatar: Option<string>, role: Role)

  const AvatarSeedPrefix: string := "https://api.dicebear.com/7.x/avataaars/svg?seed="

  /** The user that `login(email, password, role)` installs. */
  function LoginUser(email: string, role: Role): (u: User)
    ensures u.id == "1" && u.email == email && u.role == role
    ensures u.name == "Salon Owner" <==> role == SalonOwner
    ensures u.name == "John Doe" <==> role == Customer
    ensures u.avatar.Some? && AvatarSeedPrefix <= u.avatar.value
    ensures u.avatar.value[|AvatarSeedPrefix|..] == email
  {
    User("1", if role == SalonOwner then "Salon Owner" else "John Doe", email,
         Some(AvatarSeedPrefix + email), role)
  }

  /** The user that `signup(name, email, password, role)` installs. */
  function SignupUser(name: string, email: string, role: Role): (u: User)
    ensures u.id == "1" && u.name == name && u.email == email && u.role == role
    ensures u.avatar.Some? && AvatarSeedPrefix <= u.avatar.value
    ensures u.avatar.value[|AvatarSeedPrefix|..] == name
  {
    User("1", name, email, Some(AvatarSeedPrefix + name), role)
  }

  /** The three operations the context exposes. */
  datatype Action =
    | Login(email: string, password: string, role: Role)
    | Signup(name: string, email: string, password: string, role: Role)
    | Logout

  /** The `user` slot after one operation. */
  function Apply(user: Option<User>, a: Action): Option<User>
  {
    match a
    case Login(email, _, role) => Some(LoginUser(email, role))
    case Signup(name, email, _, role) => Some(SignupUser(name, email, role))
    case Logout => None
  }

  /** The `user` slot after a sequence of operations. */
  function Run(user: Option<User>, acts: seq<Action>): Option<User>
    decreases |acts|
  {
    if acts == [] then user else Run(Apply(user, acts[0]), acts[1..])
  }

  /** No operation reads the previous state, and the password never matters. */
  lemma ApplyIgnoresStateAndPassword(u: Option<User>, v: Option<User>, a: Action, b: Action)
    requires || (a.Login? && b.Login? && a.email == b.email && a.role == b.role)
             || (a.Signup? && b.Signup? && a.name == b.name && a.email == b.email && a.role == b.role)
             || (a.Logout? && b.Logout?)
    ensures Apply(u, a) == Apply(v, b)
  {
  }

  /** The last call wins: after a non-empty sequence of operations the slot is
      what the last operation alone produces from no user. */
  lemma {:induction false} LastCallWins(u: Option<User>, acts: seq<Action>)
    requires acts != []
    ensures Run(u, acts) == Apply(None, acts[|acts| - 1])
    decreases |acts|
  {
    if |acts| > 1 {
      LastCallWins(Apply(u, acts[0]), acts[1..]);
    }
  }

  /** Someone is signed in after a sequence of operations iff the last one was
      a `login` or a `signup`, or there were none and someone already was. */
  lemma {:induction false} SignedInAfterRun(u: Option<User>, acts: seq<Action>)
    ensures Run(u, acts).Some? <==>
      (if acts == [] then u.Some? else !acts[|acts| - 1].Logout?)
  {
    if acts != [] {
      LastCallWins(u, acts);
    }
  }

  /** `signup` followed by `login` with the same address leaves that address signed in. */
  lemma SignupThenLogin(name: string, email: string, password: string, role: Role)
    ensures Run(None, [Signup(name, email, password, role), Login(email, password, role)])
              == Some(LoginUser(email, role))
  {
    LastCallWins(None, [Signup(name, email, password, role), Login(email, password, role)]);
  }

  /** The guard of the salon administration page: a signed-in salon owner. */
  predicate MayOpenSalonAdmin(user: Option<User>)
  {
    user.Some? && user.value.role == SalonOwner
  }

  lemma SalonAdminGuardAfter(u: Option<User>, a: Action)
    ensures MayOpenSalonAdmin(Apply(u, a)) <==> !a.Logout? && a.role == SalonOwner
  {
  }

  /** `AuthProvider`: the state cell behind the context. */
  class AuthProvider {
    var user: Option<User>

    constructor ()
      ensures user == None
    {
      user := None;
    }

    method Login(email: string, password: string, role: Role)
      modifies this
      ensures user == Some(LoginUser(email, role))
      ensures user == Apply(old(user), Action.Login(email, password, role))
    {
      user := Some(LoginUser(email, role));
    }

    method Signup(name: string, email: string, password: string, role: Role)
      modifies this
      ensures user == Some(SignupUser(name, email, role))
      ensures user == Apply(old(user), Action.Signup(name, email, password, role))
    {
      user := Some(SignupUser(name, email, role));
    }

    method Logout()
      modifies this
      ensures user == None
      ensures user == Apply(old(user), Action.Logout)
    {
      user := None;
    }
  }

  /** `useAuth()`: the provider's value, or the error thrown outside any provider. */
  function UseAuth(context: Option<AuthProvider>): (r: Result<AuthProvider>)
    ensures r.Err? <==> context.None?
    ensures r.Ok? ==> r.value == context.value
    ensures r.Err? ==> r.message == "useAuth must be used within an AuthProvider"
  {
    match context
    case None => Err("useAuth must be used within an AuthProvider")
    case Some(p) => Ok(p)
  }

  /** A session that signs up and then logs in, as a client of the provider sees it. */
  method SignupThenLoginSession(name: string, email: string, password: string, role: Role)
    returns (signedIn: Option<User>)
    ensures signedIn.Some? && signedIn.value.email == email && signedIn.value.role == role
  {
    var p := new AuthProvider();
    p.Signup(name, email, password, role);
    p.Login(email, password, role);
    signedIn := p.user;
  }
}
