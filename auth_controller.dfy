/** The session issuer of `controllers/authController.js`: the `refresh_tokens`
    table with rows {id, user_id, token, expires_at} and the five handlers
    `register`, `login`, `refresh`, `logout` and `forgotPassword`, over the
    `users` table of `UserModel`. */
module AuthController {
  import opened Wrappers
  import opened Seqs
  import opened JsText
  import opened UserModel

  /** A row of `refresh_tokens`; `id` is the table's auto-increment key. */
  datatype TokenRow = TokenRow(id: nat, userId: string, token: string, expiresAt: int)

  /** The claims of a signed access token (`signAccess(payload)`); the signature,
      secret and expiry are not modelled. `role` is absent when the payload has none. */
  datatype AccessToken = AccessToken(id: string, role: Option<string>)

  /** A JSON response body, or the reason phrase `sendStatus` sends. */
  datatype Body =
    | Message(msg: string)
    | Session(accessToken: AccessToken, user: PublicUser)
    | AccessOnly(accessToken: AccessToken)
    | StatusText

  /** What a response does to the `refreshToken` cookie. */
  datatype CookieEffect = KeepCookie | SetRefreshCookie(token: string) | ClearCookie

  datatype Response = Response(status: nat, body: Body, cookie: CookieEffect)

  const FarmerRole := "farmer"

  /** Length in hex digits of `crypto.randomBytes(64).toString('hex')`. */
  const TokenHexDigits: nat := 128

  /** The `serial`-th refresh token `signRefresh` hands out. The random generator is
      modelled as a fresh-value oracle: a counter written as 128 hex digits, so that
      no two calls ever yield the same token. */
  function MintToken(serial: nat): (t: string)
    ensures |t| >= TokenHexDigits
    ensures forall k :: 0 <= k < |t| ==> IsLowerHexDigit(t[k])
    ensures FromBase(t, 16) == serial
  {
    PaddedDigitsValue(serial, 16, TokenHexDigits);
    var digits := ToBase(serial, 16);
    var t := PadStart(digits, TokenHexDigits, '0');
    assert forall k :: |t| - |digits| <= k < |t| ==> t[k] == digits[k - (|t| - |digits|)];
    t
  }

  lemma MintTokenInjective(a: nat, b: nat)
    requires MintToken(a) == MintToken(b)
    ensures a == b
  {
    assert FromBase(MintToken(a), 16) == a;
  }

  /** `if (!refreshToken)`: a missing cookie and an empty one are both falsy. */
  predicate Presented(cookie: Option<string>) {
    cookie.Some? && cookie.value != ""
  }

  /** Two rows that share neither their id nor their token. */
  predicate Apart(a: TokenRow, b: TokenRow) {
    a.id != b.id && a.token != b.token
  }

  /** No two rows share an id or a token. */
  predicate RowsDistinct(rows: seq<TokenRow>) {
    forall i, j :: 0 <= i < j < |rows| ==> Apart(rows[i], rows[j])
  }

  /** `rows[0]` of `SELECT * FROM refresh_tokens WHERE token = ?`. */
  function FirstByToken(rows: seq<TokenRow>, token: string): (r: Option<TokenRow>)
    ensures r.None? <==> forall k :: 0 <= k < |rows| ==> rows[k].token != token
    ensures r.Some? ==> r.value in rows && r.value.token == token
  {
    if rows == [] then None
    else if rows[0].token == token then Some(rows[0])
    else FirstByToken(rows[1..], token)
  }

  /** `DELETE FROM refresh_tokens WHERE ...`: every copy of a row that satisfies
      `keep` stays and every other row goes; `DeleteWhereAppend` and
      `DeleteWhereSingle` fix the order of what stays. */
  function DeleteWhere(rows: seq<TokenRow>, keep: TokenRow -> bool): (r: seq<TokenRow>)
    ensures |r| == Count(rows, keep)
    ensures forall k :: 0 <= k < |r| ==> r[k] in rows && keep(r[k])
    ensures forall k :: 0 <= k < |rows| && keep(rows[k]) ==> rows[k] in r
    ensures forall x :: multiset(r)[x] == if keep(x) then multiset(rows)[x] else 0
    ensures RowsDistinct(rows) ==> RowsDistinct(r)
  {
    FilterMultiset(rows, keep);
    if RowsDistinct(rows) then
      FilterPairwise(rows, keep, Apart);
      Filter(rows, keep)
    else
      Filter(rows, keep)
  }

  /** Deleting from two stretches of the table deletes from each, so the rows
      that stay keep their relative order. */
  lemma DeleteWhereAppend(a: seq<TokenRow>, b: seq<TokenRow>, keep: TokenRow -> bool)
    ensures DeleteWhere(a + b, keep) == DeleteWhere(a, keep) + DeleteWhere(b, keep)
  {
    FilterAppend(a, b, keep);
  }

  /** A single row stays exactly when it satisfies `keep`. */
  lemma DeleteWhereSingle(row: TokenRow, keep: TokenRow -> bool)
    ensures DeleteWhere([row], keep) == if keep(row) then [row] else []
  {
    assert [row][1..] == [];
  }

  function IdIsNot(id: nat): TokenRow -> bool {
    (row: TokenRow) => row.id != id
  }

  function TokenIsNot(token: string): TokenRow -> bool {
    (row: TokenRow) => row.token != token
  }

  /** `DELETE FROM refresh_tokens WHERE id = ?`. Ids are unique in the table, so
      deleting the id of a stored row removes exactly that one row. */
  function DeleteById(rows: seq<TokenRow>, id: nat): (r: seq<TokenRow>)
    ensures RowsDistinct(rows) && (exists k :: 0 <= k < |rows| && rows[k].id == id) ==> |r| == |rows| - 1
  {
    if RowsDistinct(rows) && (exists k :: 0 <= k < |rows| && rows[k].id == id) then
      UniqueIdLeavesRest(rows, id);
      DeleteWhere(rows, IdIsNot(id))
    else
      DeleteWhere(rows, IdIsNot(id))
  }

  /** In a table of distinct rows, all rows but the one holding `id` have another id. */
  lemma {:induction false} UniqueIdLeavesRest(rows: seq<TokenRow>, id: nat)
    requires RowsDistinct(rows)
    requires exists k :: 0 <= k < |rows| && rows[k].id == id
    ensures Count(rows, IdIsNot(id)) == |rows| - 1
  {
    var rest := rows[1..];
    assert RowsDistinct(rest) by {
      forall a, b | 0 <= a < b < |rest|
        ensures Apart(rest[a], rest[b])
      {
        assert rest[a] == rows[a + 1] && rest[b] == rows[b + 1];
      }
    }
    if rows[0].id == id {
      forall k | 0 <= k < |rest|
        ensures IdIsNot(id)(rest[k])
      {
        assert Apart(rows[0], rows[k + 1]);
      }
    } else {
      var k :| 0 <= k < |rows| && rows[k].id == id;
      assert rest[k - 1].id == id;
      UniqueIdLeavesRest(rest, id);
    }
  }

  /** `DELETE FROM refresh_tokens WHERE token = ?`: every row with that token goes,
      so the token is found no more. */
  function DeleteByToken(rows: seq<TokenRow>, token: string): (r: seq<TokenRow>)
    ensures FirstByToken(r, token).None?
  {
    DeleteWhere(rows, TokenIsNot(token))
  }

  /** Deleting by token a second time deletes nothing more: `logout` is idempotent. */
  lemma DeleteByTokenIdempotent(rows: seq<TokenRow>, token: string)
    ensures DeleteByToken(DeleteByToken(rows, token), token) == DeleteByToken(rows, token)
  {
    FilterIdempotent(rows, TokenIsNot(token));
  }

  /** Rotation consumes the token: once the row found for `token` is deleted by its
      id and a row with another token is inserted, `token` is found no more. */
  lemma RotationConsumes(rows: seq<TokenRow>, token: string, next: TokenRow)
    requires RowsDistinct(rows)
    requires FirstByToken(rows, token).Some?
    requires next.token != token
    ensures FirstByToken(DeleteById(rows, FirstByToken(rows, token).value.id) + [next], token).None?
  {
    var stored := FirstByToken(rows, token).value;
    var rest := DeleteById(rows, stored.id);
    forall k | 0 <= k < |rest|
      ensures rest[k].token != token
    {
      var i :| 0 <= i < |rows| && rows[i] == rest[k];
      var j :| 0 <= j < |rows| && rows[j] == stored;
      assert i != j;
    }
  }

  /** The session issuer: the `users` table, the `refresh_tokens` table, the
      table's next auto-increment id and the token oracle's counter. */
  class AuthService {
    const users: UserTable
    var tokens: seq<TokenRow>
    var nextRowId: nat
    var minted: nat

    /** Emails are unique (`register` refuses a taken one), row ids and tokens are
        distinct, ids come from the auto-increment counter and every stored token
        was minted from a serial below the oracle's counter. */
    ghost predicate Valid()
      reads this, users
    {
      && EmailsUnique(users.rows)
      && RowsDistinct(tokens)
      && (forall k :: 0 <= k < |tokens| ==> tokens[k].id < nextRowId && FromBase(tokens[k].token, 16) < minted)
    }

    constructor (users: UserTable)
      requires EmailsUnique(users.rows)
      ensures this.users == users && tokens == [] && nextRowId == 0 && minted == 0
      ensures Valid()
    {
      this.users := users;
      tokens := [];
      nextRowId := 0;
      minted := 0;
    }

    /** `signRefresh()`: a token never handed out before. */
    method SignRefresh() returns (token: string)
      requires Valid()
      modifies this`minted
      ensures Valid()
      ensures token == MintToken(old(minted)) && minted == old(minted) + 1
      ensures FromBase(token, 16) == old(minted)
    {
      token := MintToken(minted);
      minted := minted + 1;
    }

    /** `INSERT INTO refresh_tokens (user_id, token, expires_at) VALUES (?, ?, DATE_ADD(NOW(), INTERVAL ?))`
        with the time and the interval as `now` and `ttl`. */
    method InsertToken(userId: string, token: string, now: int, ttl: int)
      requires Valid()
      requires FromBase(token, 16) < minted
      requires FirstByToken(tokens, token).None?
      modifies this`tokens, this`nextRowId
      ensures Valid()
      ensures tokens == old(tokens) + [TokenRow(old(nextRowId), userId, token, now + ttl)]
      ensures nextRowId == old(nextRowId) + 1
    {
      tokens := tokens + [TokenRow(nextRowId, userId, token, now + ttl)];
      nextRowId := nextRowId + 1;
    }

    /** Minting a token and inserting it for `userId` keeps the invariant. */
    method Issue(userId: string, now: int, ttl: int) returns (token: string)
      requires Valid()
      modifies this`tokens, this`nextRowId, this`minted
      ensures Valid()
      ensures token == MintToken(old(minted)) && minted == old(minted) + 1
      ensures tokens == old(tokens) + [TokenRow(old(nextRowId), userId, token, now + ttl)]
      ensures nextRowId == old(nextRowId) + 1
      ensures forall k :: 0 <= k < |old(tokens)| ==> old(tokens)[k].token != token
    {
      token := SignRefresh();
      InsertToken(userId, token, now, ttl);
    }

    /** `POST /register`. `userId` stands for `USR_${Date.now()}`, `now` and `ttl`
        for the database clock and `REFRESH_EXPIRES_IN`. */
    method Register(name: string, email: string, password: string, userId: string, now: int, ttl: int)
      returns (r: Response)
      requires Valid()
      modifies this, users
      ensures Valid()
      ensures old(users.FindByEmail(email)).Some? ==>
        && r == Response(409, Message("Email exists"), KeepCookie)
        && unchanged(this) && unchanged(users)
      ensures old(users.FindByEmail(email)).None? ==>
        && users.rows == old(users.rows) + [UserRow(userId, name, email, Hash(password), FarmerRole)]
        && tokens == old(tokens) + [TokenRow(old(nextRowId), userId, MintToken(old(minted)), now + ttl)]
        && nextRowId == old(nextRowId) + 1 && minted == old(minted) + 1
        && r == Response(200, Session(AccessToken(userId, Some(FarmerRole)), PublicUser(userId, name, email, FarmerRole)),
                         SetRefreshCookie(MintToken(old(minted))))
    {
      if users.FindByEmail(email).Some? {
        return Response(409, Message("Email exists"), KeepCookie);
      }
      var user := users.Create(userId, name, email, password, FarmerRole);
      assert EmailsUnique(users.rows) by {
        forall k | 0 <= k < |old(users.rows)|
          ensures old(users.rows)[k].email != email
        {
        }
      }
      var accessToken := AccessToken(user.id, Some(user.role));
      var refreshToken := Issue(user.id, now, ttl);
      r := Response(200, Session(accessToken, user), SetRefreshCookie(refreshToken));
    }

    /** `POST /forgot-password`: reads the users table only. */
    method ForgotPassword(email: string) returns (r: Response)
      ensures users.FindByEmail(email).None? ==>
        r == Response(404, Message("No account found with this email address"), KeepCookie)
      ensures users.FindByEmail(email).Some? ==>
        r == Response(200, Message("Password reset instructions sent to your email"), KeepCookie)
    {
      var user := users.FindByEmail(email);
      if user.None? {
        return Response(404, Message("No account found with this email address"), KeepCookie);
      }
      r := Response(200, Message("Password reset instructions sent to your email"), KeepCookie);
    }

    /** `POST /login`. */
    method Login(email: string, password: string, now: int, ttl: int) returns (r: Response)
      requires Valid()
      modifies this
      ensures Valid()
      ensures var u := old(users.FindByEmail(email));
        (u.None? || !Compare(password, u.value.passwordHash)) ==>
          && r == Response(401, Message("Invalid credentials"), KeepCookie)
          && unchanged(this)
      ensures var u := old(users.FindByEmail(email));
        (u.Some? && Compare(password, u.value.passwordHash)) ==>
          && tokens == old(tokens) + [TokenRow(old(nextRowId), u.value.id, MintToken(old(minted)), now + ttl)]
          && nextRowId == old(nextRowId) + 1 && minted == old(minted) + 1
          && r == Response(200, Session(AccessToken(u.value.id, Some(u.value.role)), Public(u.value)),
                           SetRefreshCookie(MintToken(old(minted))))
    {
      var user := users.FindByEmail(email);
      if user.None? || !Compare(password, user.value.passwordHash) {
        return Response(401, Message("Invalid credentials"), KeepCookie);
      }
      var u := user.value;
      var accessToken := AccessToken(u.id, Some(u.role));
      var refreshToken := Issue(u.id, now, ttl);
      r := Response(200, Session(accessToken, PublicUser(u.id, u.name, u.email, u.role)), SetRefreshCookie(refreshToken));
    }

    /** `POST /refresh`: rotates the presented refresh token. The access token it
        mints carries the user id only, without a role. */
    method Refresh(cookie: Option<string>, now: int, ttl: int) returns (r: Response)
      requires Valid()
      modifies this
      ensures Valid()
      ensures !Presented(cookie) ==> r == Response(401, StatusText, KeepCookie) && unchanged(this)
      ensures Presented(cookie) ==>
        var stored := FirstByToken(old(tokens), cookie.value);
        (stored.None? || stored.value.expiresAt < now) ==>
          r == Response(403, StatusText, KeepCookie) && unchanged(this)
      ensures Presented(cookie) ==>
        var stored := FirstByToken(old(tokens), cookie.value);
        (stored.Some? && now <= stored.value.expiresAt) ==>
          && tokens == DeleteById(old(tokens), stored.value.id)
                       + [TokenRow(old(nextRowId), stored.value.userId, MintToken(old(minted)), now + ttl)]
          && nextRowId == old(nextRowId) + 1 && minted == old(minted) + 1
          && r == Response(200, AccessOnly(AccessToken(stored.value.userId, None)), SetRefreshCookie(MintToken(old(minted))))
      ensures r.status == 200 ==> r.cookie.token != cookie.value && FirstByToken(tokens, cookie.value).None?
    {
      if !Presented(cookie) {
        return Response(401, StatusText, KeepCookie);
      }
      var refreshToken := cookie.value;
      var stored := FirstByToken(tokens, refreshToken);
      if stored.None? || stored.value.expiresAt < now {
        return Response(403, StatusText, KeepCookie);
      }
      var row := stored.value;
      ghost var before := tokens;
      tokens := DeleteById(tokens, row.id);
      var accessToken := AccessToken(row.userId, None);
      var newRefresh := Issue(row.userId, now, ttl);
      RotationConsumes(before, refreshToken, TokenRow(old(nextRowId), row.userId, newRefresh, now + ttl));
      r := Response(200, AccessOnly(accessToken), SetRefreshCookie(newRefresh));
    }

    /** `POST /logout`: deletes the presented token's rows, if any, and always
        answers 204 with the cookie cleared. */
    method Logout(cookie: Option<string>) returns (r: Response)
      requires Valid()
      modifies this`tokens
      ensures Valid()
      ensures tokens == if Presented(cookie) then DeleteByToken(old(tokens), cookie.value) else old(tokens)
      ensures r == Response(204, StatusText, ClearCookie)
    {
      if Presented(cookie) {
        tokens := DeleteByToken(tokens, cookie.value);
      }
      r := Response(204, StatusText, ClearCookie);
    }

    // ---------- session lifecycles ----------

    /** Registering an email twice: whatever the first call did, the second is
        refused with 409. */
    method RegisterTwice(name: string, email: string, password: string, id1: string, id2: string, now: int, ttl: int)
      returns (first: Response, second: Response)
      requires Valid()
      modifies this, users
      ensures Valid()
      ensures old(users.FindByEmail(email)).None? ==> first.status == 200 && first.body.Session? && first.body.user.role == FarmerRole
      ensures second == Response(409, Message("Email exists"), KeepCookie)
    {
      ghost var before := users.rows;
      first := Register(name, email, password, id1, now, ttl);
      if first.status == 200 {
        FindAfterInsert(before, id1, name, email, password, FarmerRole);
      }
      second := Register(name, email, password, id2, now, ttl);
    }

    /** Presenting a refresh token a second time, after it was rotated, is
        refused with 403: refresh tokens are single-use. */
    method RefreshReplay(cookie: Option<string>, now: int, ttl: int) returns (first: Response, second: Response)
      requires Valid()
      modifies this
      ensures Valid()
      ensures first.status == 200 ==> second.status == 403
      ensures first.status != 200 ==> second == first
    {
      first := Refresh(cookie, now, ttl);
      second := Refresh(cookie, now, ttl);
    }

    /** After `logout`, the token it was given no longer refreshes. */
    method LogoutThenRefresh(cookie: Option<string>, now: int, ttl: int) returns (out: Response, again: Response)
      requires Valid()
      modifies this
      ensures Valid()
      ensures out.status == 204
      ensures again.status == (if Presented(cookie) then 403 else 401)
      ensures tokens == if Presented(cookie) then DeleteByToken(old(tokens), cookie.value) else old(tokens)
    {
      out := Logout(cookie);
      again := Refresh(cookie, now, ttl);
    }

    /** Logging out twice with the same cookie leaves the table as logging out once. */
    method LogoutTwice(cookie: Option<string>) returns (first: Response, second: Response)
      requires Valid()
      modifies this`tokens
      ensures Valid()
      ensures first == second == Response(204, StatusText, ClearCookie)
      ensures tokens == if Presented(cookie) then DeleteByToken(old(tokens), cookie.value) else old(tokens)
    {
      first := Logout(cookie);
      second := Logout(cookie);
      if Presented(cookie) {
        DeleteByTokenIdempotent(old(tokens), cookie.value);
      }
    }
  }
}
