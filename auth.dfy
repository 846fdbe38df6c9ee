/**
 * The three credential handlers of the auth service over the account
 * table: registration (POST /v1/user), login (POST /v1/login) and the
 * password change (POST /v1/authChange).
 *
 * Every handler answers with a Response: the HTTP status and either a
 * plain-text body or, for a successful login, the JSON body with the
 * token's claims. Where the source calls `res.send` or `res.json` without
 * `res.status`, Express's default status 200 is used.
 *
 * The salt, the clock and whether a store or library call throws are
 * supplied by the caller: they come from bcrypt, `Date` and the database
 * driver, none of which is modelled.
 */
module Auth {
  import opened Passwords
  import opened AccountStore
  import opened Tokens

  const DefaultStatus: nat := 200

  datatype Body =
    | Text(text: string)
    | LoginJson(message: string, token: Claims, redirectTo: string)

  datatype Response = Response(status: nat, body: Body)

  /** Where a handler's try block throws, if it does. LookupFault: the
      first findOne. CommitFault: the work after all guards have passed
      (hashing and insertOne in register, jwt.sign in login, hashing and
      updateOne in the password change). */
  datatype Fault = NoFault | LookupFault | CommitFault

  const RegisterFailed := Response(500, Text("Error creating user"))
  const Duplicate := Response(409, Text("Username or email already exists."))
  const Created := Response(201, Text("User created"))

  const LoginFailed := Response(500, Text("An error occurred during login"))
  const UnknownUser := Response(400, Text("Cannot find user"))
  const NotAllowed := Response(DefaultStatus, Text("Not Allowed"))

  const ChangeFailed := Response(500, Text("An error occurred while changing the password."))
  const UserNotFound := Response(DefaultStatus, Text("User not found."))
  const WrongOldPassword := Response(400, Text("Old password is incorrect."))
  const PasswordChanged := Response(DefaultStatus, Text("Password changed successfully."))

  /** The message of a successful login: the account's username between a
      fixed greeting and a fixed closing, so it can be read back. */
  function Welcome(username: string): (m: string)
    ensures |m| == 8 + |username| + 33
    ensures m[..8] == "Welcome "
    ensures m[8..8 + |username|] == username
    ensures m[8 + |username|..] == "!, You are logged in Successfuly "
  {
    "Welcome " + username + "!, You are logged in Successfuly "
  }

  /** The service and the `auth` collection it owns. */
  class AuthService {
    var accounts: seq<Account>

    ghost predicate Valid()
      reads this
    {
      TableInvariant(accounts)
    }

    constructor ()
      ensures Valid() && accounts == []
    {
      accounts := [];
    }

    /** POST /v1/user. */
    method Register(username: string, email: string, password: string, roles: seq<string>,
                    salt: Salt, nowMs: nat, fault: Fault) returns (r: Response)
      requires Valid()
      modifies this
      ensures Valid()
      ensures r.status != 201 ==> accounts == old(accounts)
      ensures fault == LookupFault ==> r == RegisterFailed
      ensures fault != LookupFault && AnyMatches(old(accounts), UsernameOrEmail(username, email)) ==>
                r == Duplicate
      ensures fault == CommitFault && !AnyMatches(old(accounts), UsernameOrEmail(username, email)) ==>
                r == RegisterFailed
      ensures fault == NoFault && !AnyMatches(old(accounts), UsernameOrEmail(username, email)) ==>
                r == Created &&
                accounts == old(accounts) + [Account(|old(accounts)|, username, email,
                                                     Hash(password, salt), roles, nowMs)]
      ensures r == Created ==>
                |accounts| == |old(accounts)| + 1 &&
                Compare(password, accounts[|old(accounts)|].password)
    {
      if fault == LookupFault {
        return RegisterFailed;
      }
      var existing := FindOne(accounts, UsernameOrEmail(username, email));
      if existing.Some? {
        return Duplicate;
      }
      if fault == CommitFault {
        return RegisterFailed;
      }
      var hashed := Hash(password, salt);
      var account := Account(|accounts|, username, email, hashed, roles, nowMs);
      AppendKeepsInvariant(accounts, account);
      accounts := accounts + [account];
      r := Created;
    }

    /** POST /v1/login. Reads the table and changes nothing. */
    method Login(username: string, password: string, nowMs: nat, fault: Fault) returns (r: Response)
      requires Valid()
      ensures fault == LookupFault ==> r == LoginFailed
      ensures fault != LookupFault && !AnyMatches(accounts, UsernameIs(username)) ==> r == UnknownUser
      ensures forall i :: fault != LookupFault && 0 <= i < |accounts| && accounts[i].username == username ==>
                && (!Compare(password, accounts[i].password) ==> r == NotAllowed)
                && (Compare(password, accounts[i].password) && fault == CommitFault ==> r == LoginFailed)
                && (Compare(password, accounts[i].password) && fault == NoFault ==>
                      r == Response(DefaultStatus, LoginJson(Welcome(username),
                                                              IssueClaims(accounts[i], nowMs),
                                                              RedirectFor(accounts[i].roles))))
      ensures r.body.LoginJson? ==>
                && fault == NoFault && r.status == DefaultStatus
                && exists i :: 0 <= i < |accounts| && accounts[i].username == username &&
                               Compare(password, accounts[i].password) &&
                               r.body.token == IssueClaims(accounts[i], nowMs)
    {
      if fault == LookupFault {
        return LoginFailed;
      }
      var found := FindOne(accounts, UsernameIs(username));
      if found.None? {
        return UnknownUser;
      }
      var user := accounts[found.value];
      forall i | 0 <= i < |accounts| && accounts[i].username == username
        ensures i == found.value
      {
        FindByUsernameIsUnique(accounts, username, i);
      }
      if Compare(password, user.password) {
        if fault == CommitFault {
          return LoginFailed;
        }
        var token := IssueClaims(user, nowMs);
        var redirectTo := RedirectFor(user.roles);
        r := Response(DefaultStatus, LoginJson(Welcome(user.username), token, redirectTo));
      } else {
        r := NotAllowed;
      }
    }

    /** POST /v1/authChange, for the account id taken from the verified
        token's claims. */
    method ChangePassword(userId: nat, oldPassword: string, newPassword: string,
                          salt: Salt, fault: Fault) returns (r: Response)
      requires Valid()
      modifies this
      ensures Valid()
      ensures r != PasswordChanged ==> accounts == old(accounts)
      ensures fault == LookupFault ==> r == ChangeFailed
      ensures fault != LookupFault && userId >= |old(accounts)| ==> r == UserNotFound
      ensures (fault != LookupFault && userId < |old(accounts)| &&
               !Compare(oldPassword, old(accounts)[userId].password)) ==>
                r == WrongOldPassword
      ensures (fault == CommitFault && userId < |old(accounts)| &&
               Compare(oldPassword, old(accounts)[userId].password)) ==>
                r == ChangeFailed
      ensures (fault == NoFault && userId < |old(accounts)| &&
               Compare(oldPassword, old(accounts)[userId].password)) ==>
                r == PasswordChanged &&
                accounts == old(accounts)[userId := old(accounts)[userId].(password := Hash(newPassword, salt))]
      ensures r == PasswordChanged ==>
                && |accounts| == |old(accounts)| && userId < |accounts|
                && Compare(newPassword, accounts[userId].password)
                && (oldPassword != newPassword ==> !Compare(oldPassword, accounts[userId].password))
                && accounts[userId].(password := old(accounts)[userId].password) == old(accounts)[userId]
                && forall j :: 0 <= j < |accounts| && j != userId ==> accounts[j] == old(accounts)[j]
    {
      if fault == LookupFault {
        return ChangeFailed;
      }
      FindByIdIsPosition(accounts, userId);
      var found := FindOne(accounts, IdIs(userId));
      if found.None? {
        return UserNotFound;
      }
      var user := accounts[found.value];
      if !Compare(oldPassword, user.password) {
        return WrongOldPassword;
      }
      if fault == CommitFault {
        return ChangeFailed;
      }
      var hashed := Hash(newPassword, salt);
      SetPasswordKeepsInvariant(accounts, found.value, hashed);
      accounts := accounts[found.value := user.(password := hashed)];
      r := PasswordChanged;
    }
  }

  /** A client of the three handlers: the registration, login and password
      change scenario for one nurse account, with the outcomes that follow
      from the handlers' contracts alone. */
  method NurseScenario()
  {
    var service := new AuthService();
    var r := service.Register("alice", "a@x.com", "p1", ["nurse"], "s1", 1000, NoFault);
    assert r == Created;
    assert service.accounts[0].username == "alice";
    r := service.Register("alice", "b@x.com", "p2", ["clerk"], "s2", 2000, NoFault);
    assert Selects(UsernameOrEmail("alice", "b@x.com"), service.accounts[0]);
    assert r == Duplicate;

    r := service.Login("alice", "wrong", 3000, NoFault);
    assert r == NotAllowed;
    r := service.Login("bob", "p1", 3000, NoFault);
    assert r == UnknownUser;
    r := service.Login("alice", "p1", 3500, NoFault);
    assert r.body.token.roles == ["nurse"] && r.body.token.exp == 3 + 7200;
    assert r.body.redirectTo == NurseHome;
    var id := r.body.token.id;

    r := service.ChangePassword(id, "wrong", "p3", "s3", NoFault);
    assert r == WrongOldPassword;
    r := service.ChangePassword(id, "p1", "p3", "s3", NoFault);
    assert r == PasswordChanged;
    r := service.Login("alice", "p1", 4000, NoFault);
    assert r == NotAllowed;
    r := service.Login("alice", "p3", 4000, NoFault);
    assert r.body.LoginJson?;
  }
}
