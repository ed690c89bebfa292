/** The Users table of src/sqlite.js and the four operations the server calls
    on it: `getUser`, `insertUserCode`, `verifyCode` and `insertUserToken`.

    The table is a sequence of rows in insertion order. Its schema does not
    make `email` unique: a lookup returns the first matching row and an UPDATE
    rewrites every matching row, so "at most one row per email" is a property
    the operations keep, not one the storage enforces. */
module UserStore {
  import opened Wrappers
  import opened JsValues

  /** A column value as SQLite returns it. The `code` column has INTEGER
      affinity, so the text `'1234'` written by an UPDATE is stored as the
      integer 1234, while the empty text `''` stays text. */
  datatype Cell = SqlNull | Integer(i: int) | Text(t: string)

  /** One row of the Users table (its autoincrement id is not modelled). */
  datatype UserRow = UserRow(email: string, code: Cell, token: Cell)

  type Table = seq<UserRow>

  /** The `Error` values the write operations return instead of writing. */
  datatype StoreError = NoEmailOrCode | NoEmailOrToken | NoUserFound

  /** The index of the first row for `email`, or `|t|` when there is none. */
  function FirstIndex(t: Table, email: string): (k: nat)
    ensures k <= |t|
    ensures k < |t| ==> t[k].email == email
    ensures forall i :: 0 <= i < k ==> t[i].email != email
    decreases |t|
  {
    if t == [] then 0
    else if t[0].email == email then 0
    else 1 + FirstIndex(t[1..], email)
  }

  /** `getUser(email)`: the first row whose email is `email`, if any. */
  function GetUser(t: Table, email: string): (r: Option<UserRow>)
    ensures r.None? <==> forall i :: 0 <= i < |t| ==> t[i].email != email
    ensures r.Some? ==> r.value.email == email && r.value in t
  {
    var k := FirstIndex(t, email);
    if k < |t| then Some(t[k]) else None
  }

  predicate Known(t: Table, email: string) {
    GetUser(t, email).Some?
  }

  /** No two rows share an email. */
  predicate UniqueEmails(t: Table) {
    forall i, j :: 0 <= i < j < |t| ==> t[i].email != t[j].email
  }

  /** `UPDATE Users SET code = .., token = .. WHERE email = ..`: every row for
      `email` gets the new cells, every other row is kept. */
  function UpdateWhere(t: Table, email: string, code: Cell, token: Cell): (r: Table)
    ensures |r| == |t|
    ensures forall i :: 0 <= i < |t| ==> r[i].email == t[i].email
    ensures forall i :: 0 <= i < |t| && t[i].email != email ==> r[i] == t[i]
    ensures forall i :: 0 <= i < |t| && t[i].email == email ==> r[i] == UserRow(email, code, token)
  {
    seq(|t|, i requires 0 <= i < |t| =>
      if t[i].email == email then UserRow(email, code, token) else t[i])
  }

  /** Lookups of any email but the one an UPDATE targets see the same row as
      before, and the target's lookup sees the rewritten row. */
  lemma UpdateWhereLookups(t: Table, email: string, code: Cell, token: Cell)
    requires Known(t, email)
    ensures GetUser(UpdateWhere(t, email, code, token), email) == Some(UserRow(email, code, token))
    ensures forall e :: e != email ==> GetUser(UpdateWhere(t, email, code, token), e) == GetUser(t, e)
  {
    var r := UpdateWhere(t, email, code, token);
    forall e | e != email
      ensures GetUser(r, e) == GetUser(t, e)
    {
      FirstIndexSameEmails(t, r, e);
    }
    FirstIndexSameEmails(t, r, email);
  }

  /** `FirstIndex` depends on the emails of the rows only. */
  lemma FirstIndexSameEmails(t: Table, r: Table, e: string)
    requires |r| == |t|
    requires forall i :: 0 <= i < |t| ==> r[i].email == t[i].email
    ensures FirstIndex(r, e) == FirstIndex(t, e)
  {
  }

  /** An appended row is found only when no earlier row has its email. */
  lemma AppendLookups(t: Table, row: UserRow)
    requires !Known(t, row.email)
    ensures GetUser(t + [row], row.email) == Some(row)
    ensures forall e :: e != row.email ==> GetUser(t + [row], e) == GetUser(t, e)
  {
    var r := t + [row];
    assert r[|t|] == row;
    assert r[..|t|] == t;
    forall e | e != row.email
      ensures GetUser(r, e) == GetUser(t, e)
    {
      FirstIndexSameEmails(t, r[..|t|], e);
    }
  }

  /** `insertUserCode(email, code)`: rejects an empty email or a zero code;
      otherwise overwrites the code and clears the token of an existing user,
      or appends a new row whose token is NULL. */
  function InsertUserCode(t: Table, email: string, code: int): (r: Result<Table, StoreError>)
    ensures r.Failure? <==> email == "" || code == 0
    ensures r.Failure? ==> r.error == NoEmailOrCode
    ensures r.Success? ==>
      GetUser(r.value, email) == Some(UserRow(email, Integer(code), if Known(t, email) then Text("") else SqlNull))
    ensures r.Success? ==> forall e :: e != email ==> GetUser(r.value, e) == GetUser(t, e)
    ensures r.Success? && Known(t, email) ==>
      |r.value| == |t| && forall i :: 0 <= i < |t| && t[i].email != email ==> r.value[i] == t[i]
    ensures r.Success? && !Known(t, email) ==> |r.value| == |t| + 1 && r.value[..|t|] == t
    ensures r.Success? && UniqueEmails(t) ==> UniqueEmails(r.value)
  {
    if email == "" || code == 0 then Failure(NoEmailOrCode)
    else if Known(t, email) then
      UpdateWhereLookups(t, email, Integer(code), Text(""));
      Success(UpdateWhere(t, email, Integer(code), Text("")))
    else
      var row := UserRow(email, Integer(code), SqlNull);
      AppendLookups(t, row);
      assert (t + [row])[..|t|] == t;
      Success(t + [row])
  }

  /** `insertUserToken(email, token)`: rejects an empty email or token and an
      unknown email; otherwise clears the code (to the empty text) and stores
      the token on the user's row. */
  function InsertUserToken(t: Table, email: string, token: string): (r: Result<Table, StoreError>)
    ensures r.Failure? <==> email == "" || token == "" || !Known(t, email)
    ensures r.Failure? ==> r.error == (if email == "" || token == "" then NoEmailOrToken else NoUserFound)
    ensures r.Success? ==> GetUser(r.value, email) == Some(UserRow(email, Text(""), Text(token)))
    ensures r.Success? ==> forall e :: e != email ==> GetUser(r.value, e) == GetUser(t, e)
    ensures r.Success? ==>
      |r.value| == |t| && forall i :: 0 <= i < |t| && t[i].email != email ==> r.value[i] == t[i]
    ensures r.Success? && UniqueEmails(t) ==> UniqueEmails(r.value)
  {
    if email == "" || token == "" then Failure(NoEmailOrToken)
    else if Known(t, email) then
      UpdateWhereLookups(t, email, Text(""), Text(token));
      Success(UpdateWhere(t, email, Text(""), Text(token)))
    else Failure(NoUserFound)
  }

  /** `Number(cell)` for a value read back from the table: NULL is 0 and the
      cleared code `''` is 0 as well. */
  function CellToNumber(c: Cell): (n: Number)
    ensures c == SqlNull || c == Text("") ==> n == Finite(0.0)
  {
    match c
    case SqlNull => Finite(0.0)
    case Integer(i) => Finite(i as real)
    case Text(s) => StringToNumber(s)
  }

  /** `verifyCode(email, code)`: a user exists and `Number(user.code) ===
      Number(code)`. It only reads the table. */
  function VerifyCode(t: Table, email: string, code: Value): (ok: bool)
    ensures ok ==> Known(t, email) && ToNumber(code) != NaN
  {
    match GetUser(t, email)
    case None => false
    case Some(user) => NumberEquals(CellToNumber(user.code), ToNumber(code))
  }

  /** The table a write leaves behind: the new table, or the old one when the
      operation returned an error instead of writing. */
  function Written(t: Table, r: Result<Table, StoreError>): Table {
    match r
    case Success(t') => t'
    case Failure(_) => t
  }

  // ---------------------------------------------------------------------
  // Sequences of writes
  // ---------------------------------------------------------------------

  /** One write call the server makes on the store. */
  datatype StoreCall = CodeCall(email: string, code: int) | TokenCall(email: string, token: string)

  function Apply(t: Table, call: StoreCall): Table {
    match call
    case CodeCall(e, c) => Written(t, InsertUserCode(t, e, c))
    case TokenCall(e, k) => Written(t, InsertUserToken(t, e, k))
  }

  function Run(t: Table, calls: seq<StoreCall>): Table
    decreases |calls|
  {
    if calls == [] then t else Run(Apply(t, calls[0]), calls[1..])
  }

  /** Starting from a table with one row per email, any sequence of
      `insertUserCode` and `insertUserToken` calls keeps one row per email,
      because a row is appended only when `getUser` finds none. */
  lemma {:induction false} RunKeepsUniqueEmails(t: Table, calls: seq<StoreCall>)
    requires UniqueEmails(t)
    ensures UniqueEmails(Run(t, calls))
    decreases |calls|
  {
    if calls != [] {
      RunKeepsUniqueEmails(Apply(t, calls[0]), calls[1..]);
    }
  }

  /** A sequence of calls never removes a user: every email that had a row
      still has one. */
  lemma {:induction false} RunKeepsUsers(t: Table, calls: seq<StoreCall>, email: string)
    requires Known(t, email)
    ensures Known(Run(t, calls), email)
    decreases |calls|
  {
    if calls != [] {
      var t' := Apply(t, calls[0]);
      assert Known(t', email) by {
        if calls[0].email != email {
          assert GetUser(t', email) == GetUser(t, email);
        }
      }
      RunKeepsUsers(t', calls[1..], email);
    }
  }

  // ---------------------------------------------------------------------
  // Round trips between the writes and verifyCode
  // ---------------------------------------------------------------------

  /** After `insertUserCode(email, code)` succeeds, `verifyCode(email, x)`
      holds exactly for the submitted values `x` that `Number` maps to `code`. */
  lemma VerifyAfterInsertCode(t: Table, email: string, code: int, x: Value)
    requires email != "" && code != 0
    ensures VerifyCode(Written(t, InsertUserCode(t, email, code)), email, x)
            <==> ToNumber(x) == Finite(code as real)
  {
  }

  /** In particular the decimal text of the code, as a browser number field
      submits it, verifies. */
  lemma VerifyCodeText(t: Table, email: string, code: nat)
    requires email != "" && code != 0
    ensures VerifyCode(Written(t, InsertUserCode(t, email, code)), email, Str(IntegerText(code)))
  {
    var x := Str(IntegerText(code));
    NumberOfIntegerText(code);
    assert ToNumber(x) == Finite(code as real);
    VerifyAfterInsertCode(t, email, code, x);
  }

  /** After `insertUserToken` clears the code to `''`, `verifyCode` holds
      exactly for the submitted values that `Number` maps to 0: every code of
      the issued range is refused, but `"0"` (or `" "`, `"0x0"`, `"0.0"`) is
      accepted. */
  lemma VerifyAfterInsertToken(t: Table, email: string, token: string, x: Value)
    requires email != "" && token != "" && Known(t, email)
    ensures VerifyCode(Written(t, InsertUserToken(t, email, token)), email, x)
            <==> ToNumber(x) == Finite(0.0)
  {
    var t2 := Written(t, InsertUserToken(t, email, token));
    assert GetUser(t2, email) == Some(UserRow(email, Text(""), Text(token)));
    EmptyTextIsZero();
    assert CellToNumber(Text("")) == Finite(0.0);
  }

  /** A code written by `insertUserCode` stops verifying once a token has
      been stored for the same email, and `"0"` starts to. */
  lemma ClearedCodeAcceptsZero(t: Table, email: string, code: nat, token: string)
    requires email != "" && code != 0 && token != ""
    ensures var t1 := Written(t, InsertUserCode(t, email, code));
            var t2 := Written(t1, InsertUserToken(t1, email, token));
            VerifyCode(t1, email, Str(IntegerText(code)))
            && !VerifyCode(t2, email, Str(IntegerText(code)))
            && VerifyCode(t2, email, Str("0"))
  {
    var t1 := Written(t, InsertUserCode(t, email, code));
    VerifyCodeText(t, email, code);
    assert Known(t1, email);
    NumberOfIntegerText(code);
    VerifyAfterInsertToken(t1, email, token, Str(IntegerText(code)));
    ZeroText();
    VerifyAfterInsertToken(t1, email, token, Str("0"));
  }
}
