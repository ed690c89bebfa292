/** The decision logic of the three authentication routes of server.js:
    `/postEmail` issues a 4-digit code, `/postCode` trades a verifying code for
    a signed token, `/authMe` checks a bearer token against an email.

    Each handler is a function of the table, the parsed request fields and the
    answers of the collaborators it calls: `Math.random()` is a real in [0, 1),
    the mail service answers delivered or not, the clock is a time value in
    milliseconds, `jwt.sign` is a function from claims to token text and
    `jwt.verify` a function from token text to a decoded payload (None when it
    throws). A handler runs to completion before the next one starts. */
module AuthServer {
  import opened Wrappers
  import opened JsValues
  import opened IsoDates
  import opened UserStore

  const HourMs := 3_600_000

  /** A token expires `24 * 14` clock hours after it is issued. */
  const TokenLifetimeHours := 24 * 14

  const TokenLifetimeMs := TokenLifetimeHours * HourMs

  /** What a handler passes to `reply.send`, or returns. */
  datatype Body =
    | Message(message: string, statusCode: int)  // `{ message, statusCode }`
    | TokenBody(token: string)                   // `{ token }`
    | PlainText(text: string)
    | ReturnedStatus(status: int)                // `return reply.statusCode = n` yields the number n

  /** The HTTP status and body of a reply, or an exception that escapes the
      handler. */
  datatype Response = Sent(status: int, body: Body) | Threw(reason: string)

  /** The message handed to the mail service. */
  datatype Mail = Mail(to: string, recipientName: string, title: string, code: nat)

  /** The outcome of `/postEmail`: the table, the mail handed to the mail
      service (if any) and the reply. */
  datatype EmailStep = EmailStep(store: Table, mail: Option<Mail>, response: Response)

  /** The outcome of `/postCode`: the table and the reply. */
  datatype CodeStep = CodeStep(store: Table, response: Response)

  /** `Math.floor(1000 + Math.random() * 9000)` for a draw `random` in [0, 1). */
  function GenerateCode(random: real): (code: nat)
    requires 0.0 <= random < 1.0
    ensures 1000 <= code <= 9999
  {
    (1000.0 + random * 9000.0).Floor
  }

  /** POST /postEmail with body `{ email }`. With no usable email it answers
      `statusCode: 403` in the body. Otherwise it draws a code, writes it to the
      table, and then mails it; a failed delivery answers `statusCode: 500` but
      the code stays written. The reply's HTTP status is never set, so it is
      always 200. */
  function PostEmail(t: Table, email: Option<string>, random: real, delivered: bool): (r: EmailStep)
    requires 0.0 <= random < 1.0
    ensures r.response.Sent? && r.response.status == 200 && r.response.body.Message?
    ensures r.response.body.statusCode == 403 <==> !Truthy(FromOption(email))
    ensures r.response.body.statusCode == 403 ==> r.store == t && r.mail.None?
    ensures r.response.body.statusCode == 500 <==> Truthy(FromOption(email)) && !delivered
    ensures r.response.body.statusCode == 200 <==> Truthy(FromOption(email)) && delivered
    ensures Truthy(FromOption(email)) ==>
      && r.mail.Some? && r.mail.value.to == email.value
      && 1000 <= r.mail.value.code <= 9999
      && GetUser(r.store, email.value).Some?
      && GetUser(r.store, email.value).value.code == Integer(r.mail.value.code)
      && GetUser(r.store, email.value).value.token == (if Known(t, email.value) then Text("") else SqlNull)
      && (forall e :: e != email.value ==> GetUser(r.store, e) == GetUser(t, e))
    ensures UniqueEmails(t) ==> UniqueEmails(r.store)
  {
    if !Truthy(FromOption(email)) then
      EmailStep(t, None, Sent(200, Message("No valid email provided", 403)))
    else
      var code := GenerateCode(random);
      var t' := Written(t, InsertUserCode(t, email.value, code));
      var mail := Mail(email.value, "Spot Hunter", "Your SpotMaps Access Code", code);
      if delivered then EmailStep(t', Some(mail), Sent(200, Message("Code send to user email", 200)))
      else EmailStep(t', Some(mail), Sent(200, Message("Error sending email.", 500)))
  }

  /** The claims `jwt.sign` is given: the email and the expiry `Date`,
      represented by its time value in milliseconds. */
  datatype Claims = Claims(email: string, expirationDate: int)

  /** The fields `/authMe` reads from the payload `jwt.verify` returns. */
  datatype Payload = Payload(email: Value, expirationDate: Value)

  /** The payload a signed `Claims` decodes to. The token carries JSON, so the
      expiry `Date` comes back as its ISO 8601 text, not as a `Date`. */
  function PayloadOf(c: Claims): Payload {
    Payload(Str(c.email), Str(IsoText(c.expirationDate)))
  }

  /** POST /postCode with body `{ email, code }`. A missing email or code sets
      status 403; a code that fails `verifyCode` sets 401; a verifying code
      gets a token signed over the email and an expiry 336 hours ahead, which
      is stored for the email and returned. */
  function PostCode(t: Table, email: Option<string>, code: Value, nowMs: int, sign: Claims -> string): (r: CodeStep)
    ensures r.response.Sent?
    ensures !Truthy(FromOption(email)) || !Truthy(code) ==> r == CodeStep(t, Sent(403, ReturnedStatus(403)))
    ensures r.response.status == 200 <==> Truthy(FromOption(email)) && Truthy(code) && VerifyCode(t, email.value, code)
    ensures r.response.status == 401 <==> Truthy(FromOption(email)) && Truthy(code) && !VerifyCode(t, email.value, code)
    ensures r.response.status != 200 ==> r.store == t
    ensures r.response.status == 200 ==>
      var token := sign(Claims(email.value, nowMs + TokenLifetimeMs));
      && r.response.body == TokenBody(token)
      && (token != "" ==> GetUser(r.store, email.value) == Some(UserRow(email.value, Text(""), Text(token))))
      && (forall e :: e != email.value ==> GetUser(r.store, e) == GetUser(t, e))
    ensures UniqueEmails(t) ==> UniqueEmails(r.store)
  {
    if !Truthy(FromOption(email)) || !Truthy(code) then
      CodeStep(t, Sent(403, ReturnedStatus(403)))
    else if VerifyCode(t, email.value, code) then
      var token := sign(Claims(email.value, nowMs + TokenLifetimeMs));
      CodeStep(Written(t, InsertUserToken(t, email.value, token)), Sent(200, TokenBody(token)))
    else
      CodeStep(t, Sent(401, ReturnedStatus(401)))
  }

  /** `header.substring(7)`: what follows `Bearer `. */
  function BearerToken(header: string): (token: string)
    ensures |token| == if |header| <= 7 then 0 else |header| - 7
    ensures |header| > 7 ==> header == header[..7] + token
  {
    if |header| <= 7 then "" else header[7..]
  }

  /** The header the browser builds, `Bearer ${token}`, gives back the token. */
  lemma BearerTokenOfHeader(token: string)
    ensures BearerToken("Bearer " + token) == token
  {
    if token == "" {
      assert "Bearer " + token == "Bearer ";
    } else {
      assert ("Bearer " + token)[7..] == token;
    }
  }

  /** The rejection test of `/authMe`: the decoded email is missing or is not
      the body's email, the expiry is missing, or `expirationDate < new Date()`. */
  predicate RejectsToken(p: Payload, email: Option<string>, nowMs: int) {
    || !Truthy(p.email)
    || !StrictEquals(p.email, FromOption(email))
    || !Truthy(p.expirationDate)
    || LessThanDate(p.expirationDate, nowMs)
  }

  /** POST /authMe with body `{ email }` and an `Authorization: Bearer` header.
      A missing header sets 403 (the handler then goes on and fails on the
      missing header); a token `jwt.verify` refuses makes the handler throw;
      otherwise 401 or 200 by `RejectsToken`. The table is not consulted. */
  function AuthMe(authorization: Option<string>, email: Option<string>, verify: string -> Option<Payload>, nowMs: int): (r: Response)
    ensures r.Sent? ==> r.status in {200, 401, 403}
    ensures r.Sent? && r.status == 403 <==> !Truthy(FromOption(authorization))
    ensures r.Threw? <==> Truthy(FromOption(authorization)) && verify(BearerToken(authorization.value)).None?
    ensures Truthy(FromOption(authorization)) && verify(BearerToken(authorization.value)).Some? ==>
      var p := verify(BearerToken(authorization.value)).value;
      && r.Sent?
      && (r.status == 200 <==> email.Some? && email.value != "" && p.email == Str(email.value)
                               && Truthy(p.expirationDate) && !LessThanDate(p.expirationDate, nowMs))
      && (r.status != 200 ==> r.status == 401)
  {
    if !Truthy(FromOption(authorization)) then
      Sent(403, PlainText("Not Authorization Header provided."))
    else
      match verify(BearerToken(authorization.value))
      case None => Threw("JsonWebTokenError")
      case Some(p) =>
        if RejectsToken(p, email, nowMs) then Sent(401, PlainText("Token is invalid for provided email address."))
        else Sent(200, PlainText("Token is valid for provided email address."))
  }
}
