/** Registration and login: usernames and emails stay unique, a rejected
    registration changes nothing, and granted authorities are the role names
    prefixed with "ROLE_". */
module Auth {
  import opened Domain

  datatype RegisterRequest = RegisterRequest(username: string, email: string, password: string, fullName: Option<string>)

  datatype LoginRequest = LoginRequest(username: string, password: string)

  /** The response of register and login; the token type is always
      "Bearer". */
  datatype AuthResponse = AuthResponse(token: string, tokenType: string, username: string, email: string, roles: set<Role>)

  /** The authority granted for a role. */
  function Authority(role: Role): (a: string)
    ensures |a| == 5 + |role.name| && a[..5] == "ROLE_" && a[5..] == role.name
  {
    "ROLE_" + role.name
  }

  /** The authorities granted for a set of roles. */
  function Authorities(roles: set<Role>): (a: set<string>)
    ensures forall role :: role in roles ==> Authority(role) in a
    ensures forall s :: s in a ==> |s| >= 5 && s[..5] == "ROLE_" && Role(s[5..]) in roles
  {
    set role | role in roles :: Authority(role)
  }

  /** Distinct roles give distinct authorities. */
  lemma AuthorityInjective(r1: Role, r2: Role)
    requires Authority(r1) == Authority(r2)
    ensures r1 == r2
  {
    assert r1.name == Authority(r1)[5..] == Authority(r2)[5..] == r2.name;
  }

  /** One authority per role: none is lost and none is merged. */
  lemma {:induction false} AuthoritiesCount(roles: set<Role>)
    ensures |Authorities(roles)| == |roles|
    decreases |roles|
  {
    if roles != {} {
      var role :| role in roles;
      var rest := roles - {role};
      AuthoritiesCount(rest);
      assert Authorities(roles) == Authorities(rest) + {Authority(role)};
      assert Authority(role) !in Authorities(rest);
    }
  }

  /** existsByUsername. */
  predicate UsernameTaken(users: seq<User>, username: string)
  {
    exists u :: u in users && u.username == username
  }

  /** existsByEmail. */
  predicate EmailTaken(users: seq<User>, email: string)
  {
    exists u :: u in users && u.email == email
  }

  /** findByUsername: the first user with that username. */
  function FindByUsername(users: seq<User>, username: string): (r: Option<User>)
    ensures r.None? <==> !UsernameTaken(users, username)
    ensures r.Some? ==> r.value in users && r.value.username == username
  {
    if users == [] then None
    else if users[0].username == username then Some(users[0])
    else
      assert forall u :: u in users[1..] ==> u in users;
      assert forall u :: u in users && u != users[0] ==> u in users[1..];
      FindByUsername(users[1..], username)
  }

  /** No two users share an id, a username or an email. */
  ghost predicate Distinct(users: seq<User>)
  {
    forall i, j :: 0 <= i < j < |users| ==>
      users[i].id != users[j].id && users[i].username != users[j].username && users[i].email != users[j].email
  }

  /** With unique usernames, the lookup finds the one user that has it. */
  lemma {:induction false} FindByUsernameUnique(users: seq<User>, k: nat)
    requires Distinct(users) && k < |users|
    ensures FindByUsername(users, users[k].username) == Some(users[k])
  {
    if k > 0 {
      assert users[0].username != users[k].username;
      assert Distinct(users[1..]) by {
        forall i, j | 0 <= i < j < |users[1..]|
          ensures users[1..][i].username != users[1..][j].username
        {
          assert users[1..][i] == users[i + 1] && users[1..][j] == users[j + 1];
        }
      }
      assert users[1..][k - 1] == users[k];
      FindByUsernameUnique(users[1..], k - 1);
    }
  }

  class AuthService {
    /** The user collection. */
    var users: seq<User>
    /** The mails handed to the mail sender. */
    var mails: seq<Mail>

    ghost predicate Valid()
      reads this
    {
      Distinct(users)
    }

    constructor ()
      ensures Valid() && users == [] && mails == []
    {
      users := [];
      mails := [];
    }

    /** register. The collaborators are given: `newId` is the id the store
        gives the new user, `encode` the password encoder, `defaultRoles` the
        roles a new user starts with, and `issue` the token generator over a
        username, a password and the granted authorities. */
    method Register(req: RegisterRequest, newId: Id, encode: string -> string, defaultRoles: set<Role>,
                    issue: (string, string, set<string>) -> string)
      returns (r: Result<AuthResponse>)
      requires Valid()
      requires FindUser(users, newId).None?
      modifies this
      ensures Valid()
      // The username check comes first; a rejection saves and mails nothing.
      ensures UsernameTaken(old(users), req.username) ==>
        r == Err(BadRequest("Username is already taken")) && users == old(users) && mails == old(mails)
      ensures !UsernameTaken(old(users), req.username) && EmailTaken(old(users), req.email) ==>
        r == Err(BadRequest("Email is already registered")) && users == old(users) && mails == old(mails)
      // Both checks passed: exactly one user is saved, holding the encoded
      // password, and a welcome mail goes out.
      ensures !UsernameTaken(old(users), req.username) && !EmailTaken(old(users), req.email) ==>
        var u := User(newId, req.username, req.email, encode(req.password), req.fullName, defaultRoles);
        && users == old(users) + [u]
        && FindByUsername(users, req.username) == Some(u)
        && mails == old(mails) + [WelcomeMail(req.email, req.fullName)]
      // Building the user details then refuses an empty username, after the
      // save and the mail.
      ensures r.Ok? <==>
        !UsernameTaken(old(users), req.username) && !EmailTaken(old(users), req.email) && req.username != ""
      ensures r.Err? && !UsernameTaken(old(users), req.username) && !EmailTaken(old(users), req.email) ==>
        r == Err(InvalidArgument("Cannot pass null or empty values to constructor"))
      // Success: the response describes the saved user.
      ensures r.Ok? ==>
        r.value == AuthResponse(issue(req.username, encode(req.password), Authorities(defaultRoles)),
                                "Bearer", req.username, req.email, defaultRoles)
    {
      if UsernameTaken(users, req.username) {
        return Err(BadRequest("Username is already taken"));
      }
      if EmailTaken(users, req.email) {
        return Err(BadRequest("Email is already registered"));
      }
      var user := User(newId, req.username, req.email, encode(req.password), req.fullName, defaultRoles);
      AppendKeepsDistinct(users, user);
      users := users + [user];
      FindByUsernameUnique(users, |users| - 1);
      mails := mails + [WelcomeMail(user.email, user.fullName)];
      if user.username == "" {
        return Err(InvalidArgument("Cannot pass null or empty values to constructor"));
      }
      var token := issue(user.username, user.password, Authorities(user.roles));
      r := Ok(AuthResponse(token, "Bearer", user.username, user.email, user.roles));
    }

    /** login. `authenticate` is the authentication manager's verdict on the
        credentials and `issue` the token generator for the authenticated
        principal. After a successful authentication the user is read by
        username, and a missing user is reported. */
    method Login(req: LoginRequest, authenticate: (string, string) -> bool, issue: string -> string)
      returns (r: Result<AuthResponse>)
      ensures !authenticate(req.username, req.password) ==> r == Err(BadCredentials)
      ensures authenticate(req.username, req.password) && !UsernameTaken(users, req.username) ==>
        r == Err(NotFound("User", "username", req.username))
      ensures r.Ok? <==> authenticate(req.username, req.password) && UsernameTaken(users, req.username)
      ensures r.Ok? ==>
        var u := FindByUsername(users, req.username).value;
        r.value == AuthResponse(issue(req.username), "Bearer", req.username, u.email, u.roles)
    {
      if !authenticate(req.username, req.password) {
        return Err(BadCredentials);
      }
      var token := issue(req.username);
      var found := FindByUsername(users, req.username);
      if found.None? {
        return Err(NotFound("User", "username", req.username));
      }
      var user := found.value;
      r := Ok(AuthResponse(token, "Bearer", user.username, user.email, user.roles));
    }
  }

  /** Adding a user whose id, username and email are all new keeps the
      collection distinct. */
  lemma AppendKeepsDistinct(users: seq<User>, u: User)
    requires Distinct(users)
    requires FindUser(users, u.id).None?
    requires !UsernameTaken(users, u.username) && !EmailTaken(users, u.email)
    ensures Distinct(users + [u])
  {
    var s := users + [u];
    forall i, j | 0 <= i < j < |s|
      ensures s[i].id != s[j].id && s[i].username != s[j].username && s[i].email != s[j].email
    {
      if j == |users| {
        assert s[i] == users[i] && users[i] in users;
      }
    }
  }
}
