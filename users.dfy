/** The user handlers (create, update, delete, get by id, list) over the
    users table. Each mutating handler is first a function from the table and
    the validated request to the new table and the reply (`Step`); the class
    UserStore holds the table as mutable state and its methods are proved
    to perform exactly those steps. Password hashing is a parameter. */
module Users {
  import opened Wrappers
  import opened Text
  import opened Ordering
  import opened Schema
  import opened Http
  import opened Validation

  /** argon2 `hash(password)`. */
  type Hasher = string -> string

  /** A handler's effect: the table after the request and the reply. */
  datatype Step = Step(table: UserTable, reply: Reply)

  // ---------------------------------------------------------------- create

  /** POST /users (create-user.ts:25-41): one new row under the id the
      database generates, with the password hashed, replying 201 with that
      id. */
  function InsertUser(table: UserTable, user: NewUser, newId: UserId, hash: Hasher): (s: Step)
    requires newId !in table
    ensures s.reply == Reply(201, UserIdBody(newId))
    ensures s.table.Keys == table.Keys + {newId} && |s.table| == |table| + 1
    ensures forall k | k in table :: s.table[k] == table[k]
    ensures s.table[newId] == UserRow(user.name, user.email, hash(user.password), user.role)
  {
    Step(table[newId := UserRow(user.name, user.email, hash(user.password), user.role)],
         Reply(201, UserIdBody(newId)))
  }

  // ---------------------------------------------------------------- update

  /** The `updateData` object of update-user.ts:40-44. */
  function UpdateSet(body: UserPatch, hash: Hasher): UserPatch
  {
    UserPatch(
      if Truthy(body.name) then body.name else None,
      if Truthy(body.email) then body.email else None,
      if Truthy(body.password) then Some(hash(body.password.value)) else None,
      body.role)
  }

  /** A field enters the update set only when present and truthy (an empty
      string counts as absent); a provided password enters hashed; the role
      enters exactly when given. */
  lemma UpdateSetFields(body: UserPatch, hash: Hasher)
    ensures UpdateSet(body, hash).name.Some? <==> body.name.Some? && body.name.value != ""
    ensures UpdateSet(body, hash).email.Some? <==> body.email.Some? && body.email.value != ""
    ensures UpdateSet(body, hash).password.Some? <==> body.password.Some? && body.password.value != ""
    ensures UpdateSet(body, hash).name.Some? ==> UpdateSet(body, hash).name == body.name
    ensures UpdateSet(body, hash).email.Some? ==> UpdateSet(body, hash).email == body.email
    ensures UpdateSet(body, hash).password.Some? ==>
      UpdateSet(body, hash).password == Some(hash(body.password.value))
    ensures UpdateSet(body, hash).role == body.role
  {
  }

  /** After validation a present name or password is never empty, so the
      truthiness test can only drop an empty email (whose syntax check is
      abstract here). */
  lemma ValidatedNameAndPasswordSurvive(input: UpdateUserInput, isEmail: Format, hash: Hasher)
    requires ValidateUpdateUser(input, isEmail).Some?
    ensures UpdateSet(ValidateUpdateUser(input, isEmail).value, hash).name == input.name
    ensures UpdateSet(ValidateUpdateUser(input, isEmail).value, hash).password.Some? == input.password.Some?
  {
  }

  /** Builds `updateData` field by field, as update-user.ts:40-44 does. */
  method BuildUpdateData(body: UserPatch, hash: Hasher) returns (updateData: UserPatch)
    ensures updateData == UpdateSet(body, hash)
  {
    updateData := UserPatch(None, None, None, None);
    if Truthy(body.name) {
      updateData := updateData.(name := body.name);
    }
    if Truthy(body.email) {
      updateData := updateData.(email := body.email);
    }
    if Truthy(body.password) {
      updateData := updateData.(password := Some(hash(body.password.value)));
    }
    if body.role.Some? {
      updateData := updateData.(role := body.role);
    }
  }

  /** `.set(updateData)` on one row: the columns in the set take its values,
      the others keep theirs. */
  function Merge(row: UserRow, d: UserPatch): UserRow
  {
    UserRow(d.name.GetOr(row.name), d.email.GetOr(row.email), d.password.GetOr(row.password), d.role.GetOr(row.role))
  }

  /** PUT /users/:id (update-user.ts:36-57). */
  function UpdateUser(table: UserTable, id: UserId, body: UserPatch, hash: Hasher): (s: Step)
    ensures s.table.Keys == table.Keys
    ensures forall k | k in table && k != id :: s.table[k] == table[k]
    ensures id in table ==> s.reply == UserUpdated && s.table[id] == Merge(table[id], UpdateSet(body, hash))
    ensures id !in table ==> s.reply == UserNotFound && s.table == table
  {
    if id in table then Step(table[id := Merge(table[id], UpdateSet(body, hash))], UserUpdated)
    else Step(table, UserNotFound)
  }

  /** Column by column: a truthy field replaces the stored value (the
      password by its hash); an absent or empty one leaves it; an absent
      role leaves the stored role and a given one replaces it. */
  lemma UpdateChangesOnlyGivenFields(table: UserTable, id: UserId, body: UserPatch, hash: Hasher)
    requires id in table
    ensures var row := UpdateUser(table, id, body, hash).table[id];
      && row.name == (if Truthy(body.name) then body.name.value else table[id].name)
      && row.email == (if Truthy(body.email) then body.email.value else table[id].email)
      && row.password == (if Truthy(body.password) then hash(body.password.value) else table[id].password)
      && row.role == (if body.role.Some? then body.role.value else table[id].role)
  {
  }

  /** An empty body changes nothing and still reports success. */
  lemma EmptyUpdateChangesNothing(table: UserTable, id: UserId, hash: Hasher)
    requires id in table
    ensures UpdateUser(table, id, UserPatch(None, None, None, None), hash) == Step(table, UserUpdated)
  {
    assert Merge(table[id], UserPatch(None, None, None, None)) == table[id];
  }

  /** Repeating an update without a password leaves the table as the first
      one left it. */
  lemma UpdateWithoutPasswordIsIdempotent(table: UserTable, id: UserId, body: UserPatch, hash: Hasher)
    requires body.password.None?
    ensures var once := UpdateUser(table, id, body, hash);
      UpdateUser(once.table, id, body, hash).table == once.table
  {
  }

  // ---------------------------------------------------------------- delete

  /** DELETE /users/:id (delete-user.ts:30-43). */
  function DeleteUser(table: UserTable, id: UserId): (s: Step)
    ensures s.table == table - {id}
    ensures s.reply == if id in table then UserDeleted else UserNotFound
  {
    if id in table then Step(table - {id}, UserDeleted)
    else Step(table, UserNotFound)
  }

  /** Deleting removes exactly one row and no other. */
  lemma DeleteRemovesOnlyThatRow(table: UserTable, id: UserId)
    requires id in table
    ensures var s := DeleteUser(table, id);
      id !in s.table && |s.table| == |table| - 1
      && forall k | k in table && k != id :: k in s.table && s.table[k] == table[k]
  {
  }

  /** A second delete of the same id finds nothing and changes nothing. */
  lemma DeleteTwiceIsNotFound(table: UserTable, id: UserId)
    ensures var once := DeleteUser(table, id);
      DeleteUser(once.table, id) == Step(once.table, UserNotFound)
  {
  }

  // ---------------------------------------------------------------- reads

  /** GET /users/:id (get-user-by-id.ts:34-52): the row's public columns,
      or 404. */
  function GetUserById(table: UserTable, id: UserId): (r: Reply)
    ensures r.status == 200 <==> id in table
    ensures id in table ==>
      && r.body.UserBody? && r.body.user.id == id
      && r.body.user.name == table[id].name && r.body.user.email == table[id].email
      && r.body.user.role == table[id].role
    ensures id !in table ==> r == UserNotFound
  {
    if id in table then Reply(200, UserBody(Project(id, table[id]))) else UserNotFound
  }

  /** The public columns of the rows listed in `ids` that match the search,
      in the order of `ids`. */
  function Listing(table: UserTable, ids: seq<UserId>, search: Option<string>): (r: seq<PublicUser>)
    requires forall i | 0 <= i < |ids| :: ids[i] in table
    requires forall i, j | 0 <= i < j < |ids| :: Below(ids[i], ids[j])
    ensures forall u | u in r :: u.id in ids && u == Project(u.id, table[u.id]) && Matches(u.name, search)
    ensures forall i | 0 <= i < |ids| && Matches(table[ids[i]].name, search) :: Project(ids[i], table[ids[i]]) in r
    ensures forall i, j | 0 <= i < j < |r| :: Below(r[i].id, r[j].id)
  {
    if ids == [] then []
    else
      var rest := Listing(table, ids[1..], search);
      assert forall u | u in rest :: u.id in ids[1..];
      if Matches(table[ids[0]].name, search) then [Project(ids[0], table[ids[0]])] + rest else rest
  }

  /** GET /users (get-users.ts:34-48): every user whose name matches the
      search, each once, without the password. The table is listed in
      ascending id order; the query itself fixes no order. */
  function GetUsers(table: UserTable, search: Option<string>): (r: seq<PublicUser>)
    ensures forall u | u in r :: u.id in table && u == Project(u.id, table[u.id]) && Matches(u.name, search)
    ensures forall id | id in table && Matches(table[id].name, search) :: Project(id, table[id]) in r
    ensures forall i, j | 0 <= i < j < |r| :: r[i].id != r[j].id
  {
    var ids := SortedKeys(table.Keys);
    BelowIsIrreflexive();
    assert forall id | id in table :: id in ids;
    Listing(table, ids, search)
  }

  /** Without a search (or with an empty one) the listing holds every user. */
  lemma GetUsersWithoutSearchListsEveryone(table: UserTable, search: Option<string>)
    requires !Truthy(search)
    ensures forall id | id in table :: Project(id, table[id]) in GetUsers(table, search)
  {
  }

  /** Two tables that differ only in their stored passwords. */
  predicate SameButPasswords(t1: UserTable, t2: UserTable)
  {
    t1.Keys == t2.Keys && forall k | k in t1 :: Project(k, t1[k]) == Project(k, t2[k])
  }

  lemma {:induction false} ListingIgnoresPasswords(t1: UserTable, t2: UserTable, ids: seq<UserId>, search: Option<string>)
    requires SameButPasswords(t1, t2)
    requires forall i | 0 <= i < |ids| :: ids[i] in t1
    requires forall i, j | 0 <= i < j < |ids| :: Below(ids[i], ids[j])
    ensures Listing(t1, ids, search) == Listing(t2, ids, search)
  {
    if ids != [] {
      ListingIgnoresPasswords(t1, t2, ids[1..], search);
      assert Project(ids[0], t1[ids[0]]) == Project(ids[0], t2[ids[0]]);
    }
  }

  /** Nothing the reads return depends on a stored password: the replies
      never carry it. */
  lemma ReadsIgnorePasswords(t1: UserTable, t2: UserTable, id: UserId, search: Option<string>)
    requires SameButPasswords(t1, t2)
    ensures GetUsers(t1, search) == GetUsers(t2, search)
    ensures GetUserById(t1, id) == GetUserById(t2, id)
  {
    var ids := SortedKeys(t1.Keys);
    assert forall id | id in t2 :: id in ids;
    ListingIgnoresPasswords(t1, t2, ids, search);
  }

  // ---------------------------------------------------------------- across handlers

  /** A created user reads back with exactly the name, email and role given. */
  lemma CreateThenGet(table: UserTable, user: NewUser, newId: UserId, hash: Hasher)
    requires newId !in table
    ensures GetUserById(InsertUser(table, user, newId, hash).table, newId) ==
      Reply(200, UserBody(PublicUser(newId, user.name, user.email, user.role)))
  {
  }

  /** After a delete the id is no longer found. */
  lemma DeleteThenGet(table: UserTable, id: UserId)
    ensures GetUserById(DeleteUser(table, id).table, id) == UserNotFound
  {
  }

  // ---------------------------------------------------------------- state

  /** The users table as the handlers change it in place. */
  class UserStore {
    var rows: UserTable

    constructor (rows: UserTable)
      ensures this.rows == rows
    {
      this.rows := rows;
    }

    /** create-user.ts:28-40: hash, insert, reply with the new id. */
    method Create(user: NewUser, newId: UserId, hash: Hasher) returns (reply: Reply)
      requires newId !in rows
      modifies this
      ensures Step(rows, reply) == InsertUser(old(rows), user, newId, hash)
    {
      var hashedPassword := hash(user.password);
      rows := rows[newId := UserRow(user.name, user.email, hashedPassword, user.role)];
      reply := Reply(201, UserIdBody(newId));
    }

    /** update-user.ts:37-56: build the update set, update the row with that
      id if there is one, reply 404 otherwise. */
    method Update(id: UserId, body: UserPatch, hash: Hasher) returns (reply: Reply)
      modifies this
      ensures Step(rows, reply) == UpdateUser(old(rows), id, body, hash)
    {
      var updateData := BuildUpdateData(body, hash);
      if id !in rows {
        return UserNotFound;
      }
      rows := rows[id := Merge(rows[id], updateData)];
      reply := UserUpdated;
    }

    /** delete-user.ts:31-42: delete the row with that id, 404 if none. */
    method Delete(id: UserId) returns (reply: Reply)
      modifies this
      ensures Step(rows, reply) == DeleteUser(old(rows), id)
    {
      if id !in rows {
        return UserNotFound;
      }
      rows := rows - {id};
      reply := UserDeleted;
    }
  }
}
