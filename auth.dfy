/** Login and token verification (src/api/auth.rs). Password hashing, token
    signing and token verification are foreign libraries; they are the
    parameters `checkPassword`, `sign` and `verify`, each `None` where the
    library returns an error. The clock is the parameter `now`. */
module Auth {
  import opened Base
  import opened Text
  import opened Http

  /** The user row `get_user` finds by user name. */
  datatype User = User(id: I32, name: string, roleName: string, passwordHash: string)

  /** The claims signed into a token. */
  datatype Claims = Claims(sub: string, exp: int)

  /** The body of a successful login. */
  datatype Session = Session(token: string, name: string, role: string)

  /** Tokens expire one day after they are issued. */
  const TokenLifetime: int := 3600 * 24

  /** The `sub` claim a login issues: `"{id},{role_name}"`. */
  function LoginSub(id: int, role: string): string
  {
    FormatInt(id) + "," + role
  }

  /** `login`: unknown user 401 "Invalid username!", wrong password 401
      "Invalid password!", a hashing or signing error panics (`unwrap`), and
      otherwise 200 with a token over the claims `{sub: "{id},{role}", exp: now + 86400}`. */
  function Login(user: Option<User>, password: string,
                 checkPassword: (string, string) -> Option<bool>,
                 sign: Claims -> Option<string>, now: nat): (r: Reply<Session>)
    ensures user.None? ==> r == Plain(401, "Invalid username!")
    ensures user.Some? && checkPassword(password, user.value.passwordHash) == Some(false) ==>
              r == Plain(401, "Invalid password!")
    ensures r.Panicked? <==>
              user.Some? &&
              var ok := checkPassword(password, user.value.passwordHash);
              ok.None? ||
              (ok == Some(true) &&
               sign(Claims(LoginSub(user.value.id, user.value.roleName), now + TokenLifetime)).None?)
    ensures r.Reply? && r.http == 200 ==>
              user.Some? && checkPassword(password, user.value.passwordHash) == Some(true) &&
              var claims := Claims(LoginSub(user.value.id, user.value.roleName), now + TokenLifetime);
              sign(claims).Some? &&
              r.data == Some(Session(sign(claims).value, user.value.name, user.value.roleName))
    ensures user.Some? && checkPassword(password, user.value.passwordHash) == Some(true) ==>
              var claims := Claims(LoginSub(user.value.id, user.value.roleName), now + TokenLifetime);
              sign(claims).Some? ==>
                r == Reply(200, 200, "Token generated successfully.",
                           Some(Session(sign(claims).value, user.value.name, user.value.roleName)))
    ensures r.Reply? ==> r.http in {200, 401} && r.code == r.http
  {
    match user
    case None => Plain(401, "Invalid username!")
    case Some(u) =>
      match checkPassword(password, u.passwordHash)
      case None => Panicked
      case Some(false) => Plain(401, "Invalid password!")
      case Some(true) =>
        match sign(Claims(LoginSub(u.id, u.roleName), now + TokenLifetime))
        case None => Panicked
        case Some(token) =>
          Reply(200, 200, "Token generated successfully.", Some(Session(token, u.name, u.roleName)))
  }

  /** `verify_token`: an invalid token 401, a `sub` that is not three comma
      fields 500, a first field that is not an `i32` panics, and otherwise 200
      with that number as the room. */
  function VerifyToken(token: string, verify: string -> Option<string>): (r: Reply<int>)
    ensures verify(token).None? ==> r == Plain(401, InvalidToken)
    ensures verify(token).Some? && Count(verify(token).value, ',') != 2 ==> r == Plain(500, InvalidSub)
    ensures r.Reply? && r.http == 200 ==>
              verify(token).Some? && Count(verify(token).value, ',') == 2 &&
              r.data.Some? && ParseI32(Split(verify(token).value, ',')[0]) == Some(r.data.value)
    ensures r.Panicked? <==>
              verify(token).Some? && Count(verify(token).value, ',') == 2 &&
              ParseI32(Split(verify(token).value, ',')[0]).None?
    ensures verify(token).Some? && Count(verify(token).value, ',') == 2 &&
            ParseI32(Split(verify(token).value, ',')[0]).Some? ==>
              r == Reply(200, 200, "Token is valid.", Some(ParseI32(Split(verify(token).value, ',')[0]).value as int))
  {
    match verify(token)
    case None => Plain(401, InvalidToken)
    case Some(sub) =>
      SplitCount(sub, ',');
      var fields := Split(sub, ',');
      if |fields| != 3 then Plain(500, InvalidSub)
      else
        match ParseI32(fields[0])
        case None => Panicked
        case Some(room) => Reply(200, 200, "Token is valid.", Some(room))
  }

  /** A login `sub` has one comma more than its role name. */
  lemma LoginSubCommas(id: int, role: string)
    ensures Count(LoginSub(id, role), ',') == 1 + Count(role, ',')
  {
    assert LoginSub(id, role) == FormatInt(id) + ("," + role);
    CountAppend(FormatInt(id), "," + role, ',');
    CountAppend(",", role, ',');
    FormatIntHasNoComma(id);
  }

  /** A login `sub` splits into two more fields than its role name has commas. */
  lemma LoginSubFields(id: int, role: string)
    ensures |Split(LoginSub(id, role), ',')| == 2 + Count(role, ',')
  {
    LoginSubCommas(id, role);
    SplitCount(LoginSub(id, role), ',');
  }

  /** `verify_token` answers 500 to every token a login issued for a role
      name without commas. */
  lemma LoginTokenFailsVerify(token: string, verify: string -> Option<string>, id: I32, role: string)
    requires verify(token) == Some(LoginSub(id, role))
    requires Count(role, ',') == 0
    ensures VerifyToken(token, verify) == Plain(500, InvalidSub)
  {
    LoginSubCommas(id, role);
  }

  /** Every handler gate answers 500 to `Bearer <token>` when the token is one
      a login issued for a role name without commas. */
  lemma LoginTokenFailsGate(token: string, verify: string -> Option<string>, id: I32, role: string)
    requires token != [] && NoSpace(token) && VisibleAscii(token)
    requires verify(token) == Some(LoginSub(id, role))
    requires Count(role, ',') == 0
    ensures Authenticate(Some("Bearer " + token), verify) == Denied(500, InvalidSub)
  {
    BearerHeaderAccepted(token);
    LoginSubCommas(id, role);
  }

  /** When every token the verifier accepts carries a login `sub` of a role
      name without commas, no request whatsoever passes the gate. */
  lemma OnlyLoginTokensNeverGranted(header: Option<string>, verify: string -> Option<string>)
    requires forall t :: verify(t).Some? ==> Count(verify(t).value, ',') == 1
    ensures !Authenticate(header, verify).Granted?
  {
  }

  /** A three-field `sub` whose first field is a formatted user id verifies,
      and the room is that user id. */
  lemma RoomIsUserId(token: string, verify: string -> Option<string>, id: I32, rest: string)
    requires verify(token) == Some(FormatInt(id) + "," + rest)
    requires Count(rest, ',') == 1
    ensures VerifyToken(token, verify) == Reply(200, 200, "Token is valid.", Some(id))
  {
    var sub := LoginSub(id, rest);
    LoginSubCommas(id, rest);
    SplitCount(sub, ',');
    var s := FormatInt(id);
    FormatIntHasNoComma(id);
    assert s + [','] + rest == sub;
    SplitAround(s, rest, ',');
    SplitNoSep(s, ',');
    ParseFormat(id);
  }
}
