/** Replies and the request gate every protected handler runs first: read the
    `Authorization` header, take the bearer token, verify it, split its `sub`
    claim into "user id,role,..." fields and, per endpoint, check the role. */
module Http {
  import opened Base
  import opened Text

  /** What a handler sends back: the HTTP status, the `code` field of the JSON
      body (it differs from the status for deletes), the message and the
      optional `data` field. `Panicked` stands for an `unwrap()` that fails, which
      ends the handler without a reply of its own. */
  datatype Reply<D> = Reply(http: nat, code: nat, message: string, data: Option<D>) | Panicked

  /** A reply whose body code equals its status and that carries no data. */
  function Plain<D>(http: nat, message: string): Reply<D>
  {
    Reply(http, http, message, None)
  }

  const MissingHeader: string := "Authorization header missing"
  const MalformedHeader: string := "Invalid Authorization header format"
  const InvalidToken: string := "Invalid token"
  const InvalidSub: string := "Invalid sub format in token"
  const NotAllowed: string := "Unauthorized!"

  const Admin: string := "Admin"
  const Distributor: string := "Distributor"

  /** The gate's verdict: either the fields of the `sub` claim, or the reply
      that ends the request. */
  datatype Decision = Granted(fields: seq<string>) | Denied(http: nat, message: string)

  /** The bearer token, when the header text splits on white space into exactly
      "Bearer" and one more word. A header value that is not visible ASCII is
      read as "" and so has no token. */
  function TokenOf(header: Option<string>): (t: Option<string>)
    ensures t.Some? ==> header.Some? && t.value != [] && NoSpace(t.value)
  {
    match header
    case None => None
    case Some(v) =>
      var parts := Words(HeaderText(v));
      if |parts| == 2 && parts[0] == "Bearer" then Some(parts[1]) else None
  }

  /** The shared gate: missing header 401, malformed header 400, token rejected
      by the verifier 401, `sub` not of exactly three comma-separated fields 500.
      Passing it means the `sub` had exactly two commas, and the fields are the
      pieces of that `sub`. */
  function Authenticate(header: Option<string>, verify: string -> Option<string>): (d: Decision)
    ensures header.None? ==> d == Denied(401, MissingHeader)
    ensures header.Some? && TokenOf(header).None? ==> d == Denied(400, MalformedHeader)
    ensures TokenOf(header).Some? && verify(TokenOf(header).value).None? ==>
              d == Denied(401, InvalidToken)
    ensures TokenOf(header).Some? && verify(TokenOf(header).value).Some? ==>
              var sub := verify(TokenOf(header).value).value;
              (d.Granted? <==> Count(sub, ',') == 2) &&
              (d.Denied? ==> d == Denied(500, InvalidSub)) &&
              (d.Granted? ==> |d.fields| == 3 && Join(d.fields, ',') == sub)
    ensures d.Granted? ==> TokenOf(header).Some? && verify(TokenOf(header).value).Some?
  {
    if header.None? then Denied(401, MissingHeader)
    else
      match TokenOf(header)
      case None => Denied(400, MalformedHeader)
      case Some(token) =>
        match verify(token)
        case None => Denied(401, InvalidToken)
        case Some(sub) =>
          SplitCount(sub, ',');
          JoinSplit(sub, ',');
          var fields := Split(sub, ',');
          if |fields| != 3 then Denied(500, InvalidSub) else Granted(fields)
  }

  /** The role check after the gate: the second field must be an allowed role,
      or the request ends with 401. */
  function Admit(d: Decision, allowed: set<string>): (e: Decision)
    requires d.Granted? ==> |d.fields| == 3
    ensures e.Granted? <==> d.Granted? && d.fields[1] in allowed
    ensures e.Granted? ==> e == d
    ensures d.Denied? ==> e == d
    ensures d.Granted? && d.fields[1] !in allowed ==> e == Denied(401, NotAllowed)
  {
    if d.Granted? && d.fields[1] !in allowed then Denied(401, NotAllowed) else d
  }

  /** The reply that ends a denied request. */
  function Refusal<D>(d: Decision): Reply<D>
    requires d.Denied?
  {
    Plain(d.http, d.message)
  }

  /** A client sending `Bearer <token>` gets its token through. */
  lemma {:induction false} BearerHeaderAccepted(t: string)
    requires t != [] && NoSpace(t) && VisibleAscii(t)
    ensures TokenOf(Some("Bearer " + t)) == Some(t)
  {
    var v := "Bearer " + t;
    assert forall i | 0 <= i < |v| :: v[i] == '\t' || ' ' <= v[i] <= '~' by {
      forall i | 0 <= i < |v| ensures v[i] == '\t' || ' ' <= v[i] <= '~' {
        if i >= 7 { assert v[i] == t[i - 7]; }
      }
    }
    assert HeaderText(v) == v;
    BearerWords(t);
  }

  /** Any amount of white space around and between the two words is
      accepted: "Bearer" and the token, with blanks before, between (at
      least one) and after, give the token. */
  lemma BearerHeaderForms(p: string, q: string, r: string, t: string)
    requires Blank(p) && Blank(q) && q != [] && Blank(r)
    requires t != [] && NoSpace(t)
    requires VisibleAscii(p + "Bearer" + q + t + r)
    ensures TokenOf(Some(p + "Bearer" + q + t + r)) == Some(t)
  {
    var v := p + "Bearer" + q + t + r;
    assert HeaderText(v) == v;
    BearerSplit(p, q, r, t);
  }

  /** Conversely, a header that yields a token is visible ASCII of the form
      blanks, "Bearer", blanks (at least one), the token, blanks. */
  lemma TokenShape(v: string, t: string) returns (p: string, q: string, r: string)
    requires TokenOf(Some(v)) == Some(t)
    ensures VisibleAscii(v)
    ensures Blank(p) && Blank(q) && q != [] && Blank(r)
    ensures v == p + "Bearer" + q + t + r
  {
    assert HeaderText(v) == v;
    p, q, r := BearerShape(v, t);
  }

  /** A header value that is not visible ASCII is read as the empty string and
      so is rejected as malformed, whatever the verifier would say. */
  lemma NonTextHeaderMalformed(v: string, verify: string -> Option<string>)
    requires !VisibleAscii(v)
    ensures Authenticate(Some(v), verify) == Denied(400, MalformedHeader)
  {
    assert HeaderText(v) == "";
  }
}
