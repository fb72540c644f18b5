/** The credential table of `models/User.js`: the `users` table with its rows
    {id, name, email, password_hash, role}, insertion by `create`, lookup by
    `findByEmail` and password checking by `compare`. */
module UserModel {
  import opened Wrappers

  /** The bcrypt cost factor `create` hashes with. */
  const BcryptCost: nat := 12

  /** A bcrypt hash. The model keeps bcrypt's one observable property, that a hash
      identifies the password it was made from (an injective function); its salt,
      its one-wayness and its 72-byte input limit are not modelled. */
  datatype PasswordHash = Bcrypt(cost: nat, secret: string)

  /** A row of the `users` table. */
  datatype UserRow = UserRow(id: string, name: string, email: string, passwordHash: PasswordHash, role: string)

  /** The user record handed to clients: a row without its password hash. */
  datatype PublicUser = PublicUser(id: string, name: string, email: string, role: string)

  function Public(u: UserRow): (p: PublicUser)
    ensures p.id == u.id && p.name == u.name && p.email == u.email && p.role == u.role
  {
    PublicUser(u.id, u.name, u.email, u.role)
  }

  /** `bcrypt.hash(password, 12)`. */
  function Hash(password: string): (h: PasswordHash)
    ensures h.cost == BcryptCost
  {
    Bcrypt(BcryptCost, password)
  }

  /** `User.compare(pwd, hash)`: bcrypt re-hashes `pwd` with the cost recorded in
      `hash` and compares; true exactly when `hash` was produced from `pwd`. */
  function Compare(pwd: string, hash: PasswordHash): (ok: bool)
    ensures ok <==> hash == Bcrypt(hash.cost, pwd)
  {
    hash.secret == pwd
  }

  /** A hash made by `create` accepts its own password and no other. */
  lemma CompareHash(pwd: string, other: string)
    ensures Compare(pwd, Hash(pwd))
    ensures other != pwd ==> !Compare(other, Hash(pwd))
  {
  }

  /** `rows[0]` of `SELECT * FROM users WHERE email = ?`: the first row, in table
      order, whose email is `email`, or `None` (JavaScript's `undefined`). */
  function FirstByEmail(rows: seq<UserRow>, email: string): (r: Option<UserRow>)
    ensures r.None? <==> forall k :: 0 <= k < |rows| ==> rows[k].email != email
    ensures r.Some? ==> exists k :: 0 <= k < |rows| && rows[k] == r.value && r.value.email == email &&
                                    forall j :: 0 <= j < k ==> rows[j].email != email
  {
    if rows == [] then None
    else if rows[0].email == email then Some(rows[0])
    else
      var r := FirstByEmail(rows[1..], email);
      assert r.Some? ==> exists k :: 0 <= k < |rows[1..]| && rows[1..][k] == r.value && r.value.email == email &&
                                     forall j :: 0 <= j < k ==> rows[1..][j].email != email;
      assert r.Some? ==> exists k :: 1 <= k < |rows| && rows[k] == r.value && r.value.email == email &&
                                     forall j :: 1 <= j < k ==> rows[j].email != email;
      r
  }

  /** No two rows share an email. */
  ghost predicate EmailsUnique(rows: seq<UserRow>) {
    forall i, j :: 0 <= i < j < |rows| ==> rows[i].email != rows[j].email
  }

  /** After inserting a row for an email the table did not hold, looking that email
      up finds the new row, whose hash accepts the password it was created with. */
  lemma {:induction false} FindAfterInsert(rows: seq<UserRow>, id: string, name: string, email: string, pwd: string, role: string)
    requires FirstByEmail(rows, email).None?
    ensures FirstByEmail(rows + [UserRow(id, name, email, Hash(pwd), role)], email)
            == Some(UserRow(id, name, email, Hash(pwd), role))
    ensures Compare(pwd, FirstByEmail(rows + [UserRow(id, name, email, Hash(pwd), role)], email).value.passwordHash)
  {
    var row := UserRow(id, name, email, Hash(pwd), role);
    if rows == [] {
      assert rows + [row] == [row];
    } else {
      assert (rows + [row])[1..] == rows[1..] + [row];
      FindAfterInsert(rows[1..], id, name, email, pwd, role);
    }
  }

  /** Inserting a row leaves the lookup of every other email as it was. */
  lemma {:induction false} FindOtherAfterInsert(rows: seq<UserRow>, row: UserRow, email: string)
    requires row.email != email
    ensures FirstByEmail(rows + [row], email) == FirstByEmail(rows, email)
  {
    if rows == [] {
      assert rows + [row] == [row];
    } else {
      assert (rows + [row])[1..] == rows[1..] + [row];
      FindOtherAfterInsert(rows[1..], row, email);
    }
  }

  /** The `users` table. */
  class UserTable {
    var rows: seq<UserRow>

    constructor ()
      ensures rows == []
    {
      rows := [];
    }

    /** `User.findByEmail(email)`. */
    function FindByEmail(email: string): (r: Option<UserRow>)
      reads this
      ensures r.None? <==> forall k :: 0 <= k < |rows| ==> rows[k].email != email
      ensures r.Some? ==> r.value in rows && r.value.email == email
    {
      FirstByEmail(rows, email)
    }

    /** `User.create`: inserts a row holding the bcrypt hash of `password` (never
        the password itself) and returns the row without its hash. */
    method Create(id: string, name: string, email: string, password: string, role: string) returns (user: PublicUser)
      modifies this
      ensures rows == old(rows) + [UserRow(id, name, email, Hash(password), role)]
      ensures user == PublicUser(id, name, email, role)
    {
      var passwordHash := Hash(password);
      rows := rows + [UserRow(id, name, email, passwordHash, role)];
      user := PublicUser(id, name, email, role);
    }
  }
}
