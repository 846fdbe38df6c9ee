/**
 * What a successful login hands back besides the message: the claims the
 * JWT carries and the role-based redirect.
 *
 * JWT encoding and signing are not modelled; a token is its claims
 * record. The issue time follows jsonwebtoken's default, the current
 * time in whole seconds, and `expiresIn: "2h"` adds two hours to it.
 */
module Tokens {
  import opened AccountStore

  /** `expiresIn: "2h"`, in seconds. */
  const TokenLifetime: nat := 2 * 60 * 60

  datatype Claims = Claims(
    id: nat,
    username: string,
    roles: seq<string>,
    iat: nat,
    exp: nat)

  /** The claims signed for an account at wall-clock time nowMs (ms). */
  function IssueClaims(a: Account, nowMs: nat): (c: Claims)
    ensures c.id == a.id && c.username == a.username && c.roles == a.roles
    ensures c.iat * 1000 <= nowMs < c.iat * 1000 + 1000
    ensures c.exp - c.iat == 7200
  {
    var iat := nowMs / 1000;
    Claims(a.id, a.username, a.roles, iat, iat + TokenLifetime)
  }

  const ClerkHome := "http://localhost:8080/v1/list/"
  const NurseHome := "http://localhost:8686/v1/rooms/"

  /** The role-to-destination table the login handler consults. */
  const RoleHomes: map<string, string> := map["clerk" := ClerkHome, "nurse" := NurseHome]

  /** redirectTo: chosen by the first role alone; an empty role list or an
      unknown first role yields the empty string. */
  function RedirectFor(roles: seq<string>): (url: string)
    ensures url == if |roles| > 0 && roles[0] in RoleHomes then RoleHomes[roles[0]] else ""
  {
    if |roles| > 0 && roles[0] == "clerk" then ClerkHome
    else if |roles| > 0 && roles[0] == "nurse" then NurseHome
    else ""
  }

}
