/** The preHandler hooks: `checkRequestJWT` (bearer-token authentication)
    and the role gate `checkUserRole(roles)`, and the order in which a route
    runs them. Token verification and the role gate are collaborators whose
    workings are not modelled; they are passed in as functions. */
module Auth {
  import opened Wrappers
  import opened Text
  import opened Schema
  import opened Http

  /** The decoded token payload `{ sub, role }`. */
  datatype Payload = Payload(sub: string, role: Role)

  /** `jwt.verify(token, secret)`: the payload, or None where it throws
      (bad signature, malformed or expired token). */
  type Verifier = (string, string) -> Option<Payload>

  /** `checkUserRole(roles)` applied to the attached user: None lets the
      request through, Some(reply) is the reply the gate sends. */
  type RoleGate = (Payload, seq<Role>) -> Option<Reply>

  const BearerPrefix: string := "Bearer "
  const MissingSecret: string := "JWT_SECRET must be set."

  /** `authHeader.substring(7)`; JavaScript clamps the index, so a shorter
      header gives the empty string. */
  function Token(header: string): (r: string)
    ensures |header| >= |BearerPrefix| ==> header == header[..|BearerPrefix|] + r
    ensures |header| < |BearerPrefix| ==> r == ""
  {
    if |header| >= |BearerPrefix| then header[|BearerPrefix|..] else ""
  }

  /** What checkRequestJWT decides. */
  datatype Decision =
    | Admit(payload: Payload)   // request.user set, the chain goes on
    | Refuse(reply: Reply)      // a reply is sent, the chain stops
    | Fail(message: string)     // the hook throws

  /** check-request-jwt.ts:13-31 as a function of the header, the
      configured secret and the verifier, in the source's order of checks:
      header, prefix, secret, verification. */
  function Authenticate(header: Option<string>, secret: Option<string>, verify: Verifier): (d: Decision)
    ensures d.Refuse? ==> d.reply == Unauthorized
    ensures d.Fail? ==> d.message == MissingSecret
    ensures d.Admit? <==>
      header.Some? && BearerPrefix <= header.value && Truthy(secret)
      && verify(header.value[|BearerPrefix|..], secret.value).Some?
    ensures d.Admit? ==> Some(d.payload) == verify(header.value[|BearerPrefix|..], secret.value)
  {
    StartsWithIsPrefix(header.GetOr(""), BearerPrefix);
    if !Truthy(header) || !StartsWith(header.value, BearerPrefix) then Refuse(Unauthorized)
    else if !Truthy(secret) then Fail(MissingSecret)
    else match verify(Token(header.value), secret.value)
      case None => Refuse(Unauthorized)
      case Some(p) => Admit(p)
  }

  /** No Authorization header: 401 `{error: 'Unauthorized'}`, whatever the
      secret and the verifier. */
  lemma MissingHeaderIsUnauthorized(secret: Option<string>, verify: Verifier)
    ensures Authenticate(None, secret, verify) == Refuse(Unauthorized)
  {
  }

  /** A header without the exact, case-sensitive `Bearer ` prefix is
      refused with 401, and that check comes before the secret's: it holds
      even when the secret is unset. */
  lemma WrongSchemeIsUnauthorized(header: string, secret: Option<string>, verify: Verifier)
    requires !(BearerPrefix <= header)
    ensures Authenticate(Some(header), secret, verify) == Refuse(Unauthorized)
  {
    StartsWithIsPrefix(header, BearerPrefix);
  }

  /** A different scheme, and the prefix in lower case. */
  lemma BasicAndLowerCaseBearerAreUnauthorized(secret: Option<string>, verify: Verifier)
    ensures Authenticate(Some("Basic xyz"), secret, verify) == Refuse(Unauthorized)
    ensures Authenticate(Some("bearer t"), secret, verify) == Refuse(Unauthorized)
  {
  }

  /** A well-formed header with no (or an empty) secret throws instead of
      replying. */
  lemma MissingSecretThrows(token: string, secret: Option<string>, verify: Verifier)
    requires !Truthy(secret)
    ensures Authenticate(Some(BearerPrefix + token), secret, verify) == Fail(MissingSecret)
  {
    StartsWithIsPrefix(BearerPrefix + token, BearerPrefix);
  }

  /** What is verified is exactly the header with `Bearer ` removed, and the
      decision is the verifier's: 401 on failure, the payload attached on
      success. */
  lemma VerifiedTokenIsSuffix(token: string, secret: string, verify: Verifier)
    requires secret != ""
    ensures Token(BearerPrefix + token) == token
    ensures Authenticate(Some(BearerPrefix + token), Some(secret), verify) ==
      match verify(token, secret)
      case None => Refuse(Unauthorized)
      case Some(p) => Admit(p)
  {
    assert (BearerPrefix + token)[|BearerPrefix|..] == token;
    StartsWithIsPrefix(BearerPrefix + token, BearerPrefix);
  }

  /** A request as the hooks see it: the Authorization header, and the user
      the JWT hook attaches. */
  class Request {
    const authorization: Option<string>
    var user: Option<Payload>

    constructor (authorization: Option<string>)
      ensures this.authorization == authorization && user == None
    {
      this.authorization := authorization;
      user := None;
    }
  }

  /** checkRequestJWT: decides as Authenticate does, and the only effect is
      that an admitted request gets `request.user` set to the payload. */
  method CheckRequestJwt(request: Request, secret: Option<string>, verify: Verifier) returns (d: Decision)
    modifies request
    ensures d == Authenticate(request.authorization, secret, verify)
    ensures request.user == if d.Admit? then Some(d.payload) else old(request.user)
  {
    var authHeader := request.authorization;
    if !Truthy(authHeader) || !StartsWith(authHeader.value, BearerPrefix) {
      return Refuse(Unauthorized);
    }
    var token := Token(authHeader.value);
    if !Truthy(secret) {
      return Fail(MissingSecret);
    }
    var payload := verify(token, secret.value);
    if payload.None? {
      return Refuse(Unauthorized);
    }
    request.user := payload;
    d := Admit(payload.value);
  }

  /** The hooks a route registers: none, the JWT hook, or the JWT hook
      followed by the role gate. */
  datatype Guard = Public | Authenticated | RoleRestricted(roles: seq<Role>)

  /** The result of running a route's hooks: go on to the handler, or stop
      with an outcome. */
  datatype Verdict = Proceed | Halt(outcome: Outcome)

  /** The preHandler chain of a route, in registration order. */
  function Guarded(header: Option<string>, secret: Option<string>, verify: Verifier,
                   checkUserRole: RoleGate, guard: Guard): (v: Verdict)
    ensures guard.Public? ==> v == Proceed
    ensures v.Proceed? && !guard.Public? ==> Authenticate(header, secret, verify).Admit?
    ensures v.Halt? && v.outcome.Thrown? ==> v.outcome.message == MissingSecret
    ensures !guard.Public? && Authenticate(header, secret, verify).Refuse? ==> v == Halt(Sent(Unauthorized))
    ensures !guard.Public? && Authenticate(header, secret, verify).Fail? ==> v == Halt(Thrown(MissingSecret))
    ensures guard.RoleRestricted? && Authenticate(header, secret, verify).Admit?
            && checkUserRole(Authenticate(header, secret, verify).payload, guard.roles).Some? ==>
      v == Halt(Sent(checkUserRole(Authenticate(header, secret, verify).payload, guard.roles).value))
  {
    if guard.Public? then Proceed
    else match Authenticate(header, secret, verify)
      case Refuse(r) => Halt(Sent(r))
      case Fail(m) => Halt(Thrown(m))
      case Admit(p) =>
        if guard.Authenticated? then Proceed
        else match checkUserRole(p, guard.roles)
          case None => Proceed
          case Some(r) => Halt(Sent(r))
  }

  /** The role gate runs only after the JWT hook admits the request: when
      authentication fails, no role gate can change the verdict, which is
      the JWT hook's. */
  lemma RoleGateRunsAfterAuthentication(header: Option<string>, secret: Option<string>, verify: Verifier,
                                        gate1: RoleGate, gate2: RoleGate, roles: seq<Role>)
    requires !Authenticate(header, secret, verify).Admit?
    ensures Guarded(header, secret, verify, gate1, RoleRestricted(roles)) ==
            Guarded(header, secret, verify, gate2, RoleRestricted(roles))
    ensures Guarded(header, secret, verify, gate1, RoleRestricted(roles)) ==
            Guarded(header, secret, verify, gate1, Authenticated)
  {
  }

  /** An authenticated-only route lets every admitted payload through,
      whatever its role. */
  lemma AuthenticatedHasNoRoleGate(header: Option<string>, secret: Option<string>, verify: Verifier, checkUserRole: RoleGate)
    requires Authenticate(header, secret, verify).Admit?
    ensures Guarded(header, secret, verify, checkUserRole, Authenticated) == Proceed
  {
  }

  /** A role-restricted route proceeds exactly when the JWT hook admits the
      request and the gate passes the attached payload. */
  lemma RoleRestrictedProceeds(header: Option<string>, secret: Option<string>, verify: Verifier,
                                checkUserRole: RoleGate, roles: seq<Role>)
    ensures Guarded(header, secret, verify, checkUserRole, RoleRestricted(roles)) == Proceed <==>
      Authenticate(header, secret, verify).Admit?
      && checkUserRole(Authenticate(header, secret, verify).payload, roles).None?
  {
  }

  /** Runs a route's hooks on a request; the JWT hook, when registered,
      attaches the user as CheckRequestJwt does. */
  method RunHooks(request: Request, secret: Option<string>, verify: Verifier,
                  checkUserRole: RoleGate, guard: Guard) returns (v: Verdict)
    modifies request
    ensures v == Guarded(request.authorization, secret, verify, checkUserRole, guard)
    ensures request.user ==
      if !guard.Public? && Authenticate(request.authorization, secret, verify).Admit?
      then Some(Authenticate(request.authorization, secret, verify).payload)
      else old(request.user)
  {
    if guard.Public? {
      return Proceed;
    }
    var d := CheckRequestJwt(request, secret, verify);
    match d
    case Refuse(r) => v := Halt(Sent(r));
    case Fail(m) => v := Halt(Thrown(m));
    case Admit(p) =>
      if guard.Authenticated? {
        v := Proceed;
      } else {
        var denied := checkUserRole(p, guard.roles);
        v := if denied.None? then Proceed else Halt(Sent(denied.value));
      }
  }
}
