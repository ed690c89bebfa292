/** Properties of the authentication routes that relate several calls: the
    code issued by `/postEmail` is the one `/postCode` accepts, a token issued
    by `/postCode` is accepted by `/authMe`, and the two behaviours the routes
    have as written — a cleared code that accepts `"0"`, and an expiry test
    that never fires for the tokens the server issues. */
module AuthProperties {
  import opened Wrappers
  import opened JsValues
  import opened IsoDates
  import opened UserStore
  import opened AuthServer

  // ---------------------------------------------------------------------
  // /postEmail
  // ---------------------------------------------------------------------

  /** The code is written before the mail is sent, so whether the mail
      service delivers it changes the reply and nothing else: the table and
      the mail handed over are the same. */
  lemma DeliveryDoesNotAffectStore(t: Table, email: Option<string>, random: real)
    requires 0.0 <= random < 1.0
    ensures PostEmail(t, email, random, false).store == PostEmail(t, email, random, true).store
    ensures PostEmail(t, email, random, false).mail == PostEmail(t, email, random, true).mail
  {
  }

  /** Even after a failed delivery the drawn code is stored, and its decimal
      text verifies for the email. */
  lemma FailedDeliveryKeepsCode(t: Table, email: string, random: real)
    requires 0.0 <= random < 1.0 && email != ""
    ensures var step := PostEmail(t, Some(email), random, false);
            && step.response == Sent(200, Message("Error sending email.", 500))
            && VerifyCode(step.store, email, Str(IntegerText(GenerateCode(random))))
  {
    VerifyCodeText(t, email, GenerateCode(random));
  }

  /** Whatever the mail service answers, the decimal text of the drawn code
      verifies for the email afterwards. */
  lemma IssuedCodeVerifies(t: Table, email: string, random: real, delivered: bool)
    requires 0.0 <= random < 1.0 && email != ""
    ensures VerifyCode(PostEmail(t, Some(email), random, delivered).store, email, Str(IntegerText(GenerateCode(random))))
  {
    VerifyCodeText(t, email, GenerateCode(random));
  }

  /** Asking for a code for a user who already holds a token clears that
      token from the table and leaves the same number of rows. */
  lemma NewCodeClearsToken(t: Table, email: string, random: real, delivered: bool)
    requires 0.0 <= random < 1.0 && email != "" && Known(t, email)
    ensures var step := PostEmail(t, Some(email), random, delivered);
            && GetUser(step.store, email) == Some(UserRow(email, Integer(GenerateCode(random)), Text("")))
            && |step.store| == |t|
  {
  }

  // ---------------------------------------------------------------------
  // /authMe
  // ---------------------------------------------------------------------

  /** As written, `expirationDate < new Date()` is false for every payload the
      server signs, at every clock reading: the decoded expiry is a string that
      `Number` maps to NaN. */
  lemma ExpiryNeverFires(c: Claims, nowMs: int)
    ensures !LessThanDate(PayloadOf(c).expirationDate, nowMs)
  {
    IsoTextIsNaN(c.expirationDate);
    NaNIsNeverEarlier(PayloadOf(c).expirationDate, nowMs);
  }

  /** Hence `/authMe` rejects a payload the server signed exactly when the
      body does not name the same non-empty email. */
  lemma IssuedPayloadRejection(c: Claims, email: Option<string>, nowMs: int)
    ensures RejectsToken(PayloadOf(c), email, nowMs) <==> !(c.email != "" && email == Some(c.email))
  {
    var p := PayloadOf(c);
    ExpiryNeverFires(c, nowMs);
    assert p.email == Str(c.email);
    assert Truthy(p.expirationDate);
    assert StrictEquals(p.email, FromOption(email)) <==> email == Some(c.email);
  }

  /** A token the server issued is accepted by `/authMe` exactly when the
      body names the same non-empty email, however late it is presented. */
  lemma IssuedTokenAcceptance(c: Claims, header: string, email: Option<string>,
                              verify: string -> Option<Payload>, nowMs: int)
    requires header != "" && verify(BearerToken(header)) == Some(PayloadOf(c))
    ensures AuthMe(Some(header), email, verify, nowMs).Sent?
    ensures AuthMe(Some(header), email, verify, nowMs).status == 200
            <==> c.email != "" && email == Some(c.email)
  {
    IssuedPayloadRejection(c, email, nowMs);
  }

  /** The expiry test itself works for a numeric expiry: such a payload is
      refused once the clock has passed it and accepted before. */
  lemma NumericExpiryIsEnforced(email: string, expiry: real, header: string,
                                verify: string -> Option<Payload>, nowMs: int)
    requires header != "" && email != "" && expiry != 0.0
    requires verify(BearerToken(header)) == Some(Payload(Str(email), Num(expiry)))
    ensures AuthMe(Some(header), Some(email), verify, nowMs).Sent?
    ensures AuthMe(Some(header), Some(email), verify, nowMs).status == 401 <==> expiry < nowMs as real
  {
  }

  /** A token `jwt.verify` refuses never yields a reply of its own. */
  lemma RefusedTokenThrows(header: string, email: Option<string>, verify: string -> Option<Payload>, nowMs: int)
    requires header != "" && verify(BearerToken(header)).None?
    ensures AuthMe(Some(header), email, verify, nowMs).Threw?
  {
  }

  // ---------------------------------------------------------------------
  // The login flow end to end
  // ---------------------------------------------------------------------

  /** Request a code, submit its decimal text, present the token: `/postCode`
      answers with a token for the email and an expiry 336 hours after
      `issuedMs`, the table then holds that token with the code cleared, and
      `/authMe` accepts the token for the email at any later time. */
  lemma LoginFlow(t: Table, email: string, random: real, delivered: bool,
                  issuedMs: int, sign: Claims -> string, verify: string -> Option<Payload>, laterMs: int)
    requires 0.0 <= random < 1.0 && email != ""
    requires sign(Claims(email, issuedMs + TokenLifetimeMs)) != ""
    requires verify(sign(Claims(email, issuedMs + TokenLifetimeMs))) == Some(PayloadOf(Claims(email, issuedMs + TokenLifetimeMs)))
    ensures var code := GenerateCode(random);
            var t1 := PostEmail(t, Some(email), random, delivered).store;
            var step := PostCode(t1, Some(email), Str(IntegerText(code)), issuedMs, sign);
            var token := sign(Claims(email, issuedMs + TokenLifetimeMs));
            && step.response == Sent(200, TokenBody(token))
            && GetUser(step.store, email) == Some(UserRow(email, Text(""), Text(token)))
            && AuthMe(Some("Bearer " + token), Some(email), verify, laterMs) == Sent(200, PlainText("Token is valid for provided email address."))
  {
    var code := GenerateCode(random);
    var t1 := PostEmail(t, Some(email), random, delivered).store;
    IssuedCodeVerifies(t, email, random, delivered);
    var submitted := Str(IntegerText(code));
    assert Truthy(submitted);
    var step := PostCode(t1, Some(email), submitted, issuedMs, sign);
    assert step.response.status == 200;
    var c := Claims(email, issuedMs + TokenLifetimeMs);
    var token := sign(c);
    BearerTokenOfHeader(token);
    IssuedTokenAcceptance(c, "Bearer " + token, Some(email), verify, laterMs);
  }

  /** A submitted code other than the one drawn is refused with 401 and the
      table is left as `/postEmail` wrote it. */
  lemma WrongCodeRefused(t: Table, email: string, random: real, delivered: bool,
                         guess: nat, nowMs: int, sign: Claims -> string)
    requires 0.0 <= random < 1.0 && email != "" && guess != GenerateCode(random)
    ensures var t1 := PostEmail(t, Some(email), random, delivered).store;
            PostCode(t1, Some(email), Str(IntegerText(guess)), nowMs, sign) == CodeStep(t1, Sent(401, ReturnedStatus(401)))
  {
    var t1 := PostEmail(t, Some(email), random, delivered).store;
    NumberOfIntegerText(guess);
    VerifyAfterInsertCode(t, email, GenerateCode(random), Str(IntegerText(guess)));
    assert Truthy(Str(IntegerText(guess)));
  }

  /** As written, once a token has been issued the stored code is `''`,
      `Number('')` is 0, and the submitted code `"0"` earns a fresh token
      without any mail having been read, while the code that was mailed is
      refused. */
  lemma {:induction false} ZeroCodeAfterLogin(t: Table, email: string, token: string,
                                              nowMs: int, sign: Claims -> string)
    requires email != "" && token != "" && Known(t, email)
    ensures var t1 := Written(t, InsertUserToken(t, email, token));
            var step := PostCode(t1, Some(email), Str("0"), nowMs, sign);
            step.response == Sent(200, TokenBody(sign(Claims(email, nowMs + TokenLifetimeMs))))
  {
    var t1 := Written(t, InsertUserToken(t, email, token));
    ZeroText();
    VerifyAfterInsertToken(t, email, token, Str("0"));
    assert Truthy(Str("0"));
  }

  /** The mailed code stops working once it has been traded for a token. */
  lemma UsedCodeRefused(t: Table, email: string, random: real, delivered: bool,
                        issuedMs: int, sign: Claims -> string, laterMs: int)
    requires 0.0 <= random < 1.0 && email != ""
    requires sign(Claims(email, issuedMs + TokenLifetimeMs)) != ""
    ensures var code := GenerateCode(random);
            var t1 := PostEmail(t, Some(email), random, delivered).store;
            var t2 := PostCode(t1, Some(email), Str(IntegerText(code)), issuedMs, sign).store;
            PostCode(t2, Some(email), Str(IntegerText(code)), laterMs, sign).response == Sent(401, ReturnedStatus(401))
  {
    var code := GenerateCode(random);
    var t1 := PostEmail(t, Some(email), random, delivered).store;
    VerifyCodeText(t, email, code);
    var token := sign(Claims(email, issuedMs + TokenLifetimeMs));
    NumberOfIntegerText(code);
    VerifyAfterInsertToken(t1, email, token, Str(IntegerText(code)));
    assert Truthy(Str(IntegerText(code)));
  }
}
