/**
 * `UserRepository` over an in-memory `user` table and its auto-increment
 * counter. A PDOException is a `fault` parameter carrying the driver's
 * message: `save` and `update` have no `try`, so it escapes as `Failure`; the
 * finders catch it and throw an `\Exception` with a message of their own.
 *
 * A user is a value record: the model assumes a fresh `User` starts as the
 * record `blank` and that its constructor assigns the properties named by the
 * keys of the array it is given.
 */
module UserStore {
  import opened Wrappers
  import opened Php

  type Array = seq<(Key, Value)>

  /** The properties of a `User` the repository and the controller read or write. */
  datatype User = User(
    id: Option<int>,
    username: string,
    email: string,
    password: string,
    roles: Array,
    emailToken: Option<string>,
    isVerified: bool,
    createdAt: Option<string>,
    verifiedAt: Option<string>,
    avatar: string)

  /** A row of `user`: `role` holds JSON text, `is_verified` is 0 or 1. */
  datatype UserRow = UserRow(
    id: int,
    username: string,
    email: string,
    passwordHash: string,
    role: string,
    emailToken: Option<string>,
    isVerified: int,
    createdAt: Option<string>,
    verifiedAt: Option<string>)

  /** The table and the next auto-increment value of `id_user`. */
  datatype Users = Users(rows: seq<UserRow>, nextId: int)

  /** User ids are below the counter and never repeat. */
  ghost predicate Consistent(t: Users) {
    (forall i :: 0 <= i < |t.rows| ==> t.rows[i].id < t.nextId)
    && (forall i, j :: 0 <= i < j < |t.rows| ==> t.rows[i].id != t.rows[j].id)
  }

  /** The roles every user falls back to: `['ROLE_USER']`. */
  const DefaultRoles: Array := [(IntKey(0), Str("ROLE_USER"))]

  /** `(int)$user->getIsVerified()` */
  function VerifiedFlag(b: bool): (r: int)
    ensures r == 0 || r == 1
    ensures (r != 0) == b
  {
    if b then 1 else 0
  }

  // ---------------------------------------------------------------------------
  // save, update

  /** The row `save` inserts; `verified_at` is not in the column list and stays NULL. */
  function SavedRow(id: int, u: User, jsonEncode: Value -> string): UserRow {
    UserRow(id, u.username, u.email, u.password, jsonEncode(Arr(u.roles)), u.emailToken,
            VerifiedFlag(u.isVerified), u.createdAt, None)
  }

  /** `save($user)`: the new table and the outcome. */
  function SaveResult(t: Users, u: User, jsonEncode: Value -> string, fault: Option<string>)
    : (r: (Users, Result<bool, string>))
    ensures r.1.Failure? <==> fault.Some?
    ensures r.1.Failure? ==> r.0 == t && r.1.error == fault.value
    ensures r.1.Success? ==> r.1.value && r.0.nextId == t.nextId + 1
                             && r.0.rows == t.rows + [SavedRow(t.nextId, u, jsonEncode)]
  {
    if fault.Some? then (t, Failure(fault.value))
    else (Users(t.rows + [SavedRow(t.nextId, u, jsonEncode)], t.nextId + 1), Success(true))
  }

  /** The seven columns `update` sets; `id_user` and `created_at` are kept. */
  function Rewritten(r: UserRow, u: User, jsonEncode: Value -> string): UserRow {
    r.(username := u.username, email := u.email, role := jsonEncode(Arr(u.roles)),
       isVerified := VerifiedFlag(u.isVerified), emailToken := u.emailToken,
       verifiedAt := u.verifiedAt, passwordHash := u.password)
  }

  /** `UPDATE user SET ... WHERE id_user = ?`: a null id matches no row. */
  function UpdatedRows(rows: seq<UserRow>, u: User, jsonEncode: Value -> string): (r: seq<UserRow>)
    ensures |r| == |rows|
    ensures forall i :: 0 <= i < |rows| ==>
              r[i] == if u.id == Some(rows[i].id) then Rewritten(rows[i], u, jsonEncode) else rows[i]
  {
    if |rows| == 0 then []
    else
      var first := if u.id == Some(rows[0].id) then Rewritten(rows[0], u, jsonEncode) else rows[0];
      [first] + UpdatedRows(rows[1..], u, jsonEncode)
  }

  /** `update($user)`: the new table and the outcome. */
  function UpdateResult(t: Users, u: User, jsonEncode: Value -> string, fault: Option<string>)
    : (Users, Result<bool, string>)
  {
    if fault.Some? then (t, Failure(fault.value))
    else (Users(UpdatedRows(t.rows, u, jsonEncode), t.nextId), Success(true))
  }

  // ---------------------------------------------------------------------------
  // The finders

  /** The first row a `WHERE` condition selects (the queries have no ORDER BY; table order is taken). */
  function FirstWhere(rows: seq<UserRow>, selects: UserRow -> bool): (r: Option<UserRow>)
    ensures r.Some? ==> r.value in rows && selects(r.value)
    ensures r.None? <==> forall i :: 0 <= i < |rows| ==> !selects(rows[i])
  {
    if |rows| == 0 then None
    else if selects(rows[0]) then Some(rows[0])
    else FirstWhere(rows[1..], selects)
  }

  function HasToken(token: string): UserRow -> bool {
    (r: UserRow) => r.emailToken == Some(token)
  }

  function HasEmail(email: string): UserRow -> bool {
    (r: UserRow) => r.email == email
  }

  function HasUsername(username: string): UserRow -> bool {
    (r: UserRow) => r.username == username
  }

  /** `json_decode($data['role'], true)`, replaced by `['ROLE_USER']` when it is not an array. */
  function DecodedRoles(role: string, jsonDecode: string -> Value): Array {
    match jsonDecode(role)
    case Arr(e) => e
    case _ => DefaultRoles
  }

  /**
   * The user a finder builds from a row: `new User($userData)` with username,
   * email, password, email token and `(bool)is_verified`, then `setId`, the
   * verification date, and the decoded roles. `created_at` is not read back.
   */
  function FromRow(r: UserRow, blank: User, verifiedAt: Option<string>, jsonDecode: string -> Value): User {
    blank.(id := Some(r.id), username := r.username, email := r.email, password := r.passwordHash,
           emailToken := r.emailToken, isVerified := r.isVerified != 0, verifiedAt := verifiedAt,
           roles := DecodedRoles(r.role, jsonDecode))
  }

  /** `isset($data['verified_at'])` keeps the stored date; otherwise the fresh user's value stays. */
  function StoredVerifiedAt(r: UserRow, blank: User): Option<string> {
    if r.verifiedAt.Some? then r.verifiedAt else blank.verifiedAt
  }

  /** `findUserByToken($token)` at the formatted time `now`. */
  function ByToken(t: Users, token: string, now: string, blank: User, jsonDecode: string -> Value, fault: Option<string>)
    : (r: Result<User, string>)
    ensures r == Failure("Utilisateur non trouvé")
            <==> fault.None? && forall i :: 0 <= i < |t.rows| ==> t.rows[i].emailToken != Some(token)
    ensures fault.Some? ==> r == Failure("Erreur lors de la récupération de l'utilisateur")
    ensures r.Success? ==> r.value.verifiedAt == Some(now) && r.value.emailToken == Some(token)
  {
    if fault.Some? then Failure("Erreur lors de la récupération de l'utilisateur")
    else match FirstWhere(t.rows, HasToken(token))
      case None => Failure("Utilisateur non trouvé")
      case Some(r) => Success(FromRow(r, blank, Some(now), jsonDecode))
  }

  /** `findUserByEmail($email)` and `findUserByUsername($username)`, which differ only in the column. */
  function ByColumn(t: Users, selects: UserRow -> bool, blank: User, jsonDecode: string -> Value, fault: Option<string>)
    : (r: Result<Option<User>, string>)
    ensures r == Success(None) <==> fault.None? && forall i :: 0 <= i < |t.rows| ==> !selects(t.rows[i])
    ensures r.Failure? <==> fault.Some?
    ensures r.Failure? ==> r.error == "Une erreur est survenue lors de la recherche de l'utilisateur"
  {
    if fault.Some? then Failure("Une erreur est survenue lors de la recherche de l'utilisateur")
    else match FirstWhere(t.rows, selects)
      case None => Success(None)
      case Some(r) => Success(Some(FromRow(r, blank, StoredVerifiedAt(r, blank), jsonDecode)))
  }

  // ---------------------------------------------------------------------------
  // The repository

  class UserRepository {
    var rows: seq<UserRow>
    var nextId: int

    function State(): Users
      reads this
    {
      Users(rows, nextId)
    }

    constructor(t: Users)
      ensures State() == t
    {
      rows, nextId := t.rows, t.nextId;
    }

    /** `save($user)`: one INSERT. */
    method Save(user: User, jsonEncode: Value -> string, fault: Option<string>) returns (result: Result<bool, string>)
      modifies this
      ensures (State(), result) == SaveResult(old(State()), user, jsonEncode, fault)
    {
      if fault.Some? {
        return Failure(fault.value);
      }
      rows := rows + [SavedRow(nextId, user, jsonEncode)];
      nextId := nextId + 1;
      return Success(true);
    }

    /** `update($user)`: the UPDATE visits every row and rewrites those with the user's id. */
    method Update(user: User, jsonEncode: Value -> string, fault: Option<string>) returns (result: Result<bool, string>)
      modifies this
      ensures (State(), result) == UpdateResult(old(State()), user, jsonEncode, fault)
    {
      if fault.Some? {
        return Failure(fault.value);
      }
      for i := 0 to |rows|
        invariant |rows| == |old(rows)| && nextId == old(nextId)
        invariant forall j :: 0 <= j < i ==>
                    rows[j] == if user.id == Some(old(rows)[j].id) then Rewritten(old(rows)[j], user, jsonEncode) else old(rows)[j]
        invariant rows[i..] == old(rows)[i..]
      {
        assert rows[i] == old(rows)[i] by {
          assert rows[i..][0] == old(rows)[i..][0];
        }
        if user.id == Some(rows[i].id) {
          rows := rows[i := Rewritten(rows[i], user, jsonEncode)];
        }
        assert rows[i + 1..] == old(rows)[i + 1..] by {
          assert rows[i + 1..] == rows[i..][1..];
          assert old(rows)[i + 1..] == old(rows)[i..][1..];
        }
      }
      assert rows == UpdatedRows(old(rows), user, jsonEncode);
      return Success(true);
    }

    /** The first row a condition selects, scanned in table order. */
    method Select(selects: UserRow -> bool) returns (found: Option<UserRow>)
      ensures found == FirstWhere(rows, selects)
    {
      var i := 0;
      while i < |rows|
        invariant i <= |rows|
        invariant FirstWhere(rows, selects) == FirstWhere(rows[i..], selects)
      {
        if selects(rows[i]) {
          return Some(rows[i]);
        }
        assert rows[i..][1..] == rows[i + 1..];
        i := i + 1;
      }
      return None;
    }

    /** `findUserByToken($token)`: the user, or the exception that escapes. */
    method FindUserByToken(token: string, now: string, blank: User, jsonDecode: string -> Value, fault: Option<string>)
      returns (result: Result<User, string>)
      ensures result == ByToken(State(), token, now, blank, jsonDecode, fault)
    {
      if fault.Some? {
        return Failure("Erreur lors de la récupération de l'utilisateur");
      }
      var data := Select(HasToken(token));
      if data.None? {
        return Failure("Utilisateur non trouvé");
      }
      var user := FromRow(data.value, blank, Some(now), jsonDecode);
      return Success(user);
    }

    /** `findUserByEmail($email)`. */
    method FindUserByEmail(email: string, blank: User, jsonDecode: string -> Value, fault: Option<string>)
      returns (result: Result<Option<User>, string>)
      ensures result == ByColumn(State(), HasEmail(email), blank, jsonDecode, fault)
    {
      result := Find(HasEmail(email), blank, jsonDecode, fault);
    }

    /** `findUserByUsername($username)`. */
    method FindUserByUsername(username: string, blank: User, jsonDecode: string -> Value, fault: Option<string>)
      returns (result: Result<Option<User>, string>)
      ensures result == ByColumn(State(), HasUsername(username), blank, jsonDecode, fault)
    {
      result := Find(HasUsername(username), blank, jsonDecode, fault);
    }

    /** The body the two finders share. */
    method Find(selects: UserRow -> bool, blank: User, jsonDecode: string -> Value, fault: Option<string>)
      returns (result: Result<Option<User>, string>)
      ensures result == ByColumn(State(), selects, blank, jsonDecode, fault)
    {
      if fault.Some? {
        return Failure("Une erreur est survenue lors de la recherche de l'utilisateur");
      }
      var data := Select(selects);
      if data.None? {
        return Success(None);
      }
      var user := FromRow(data.value, blank, StoredVerifiedAt(data.value, blank), jsonDecode);
      return Success(Some(user));
    }
  }

  // ---------------------------------------------------------------------------
  // Properties

  /** A stored role that is not JSON for an array gives the roles `['ROLE_USER']`. */
  lemma RolesFallback(r: UserRow, blank: User, verifiedAt: Option<string>, jsonDecode: string -> Value)
    ensures !jsonDecode(r.role).Arr? ==> FromRow(r, blank, verifiedAt, jsonDecode).roles == DefaultRoles
    ensures jsonDecode(r.role).Arr? ==> FromRow(r, blank, verifiedAt, jsonDecode).roles == jsonDecode(r.role).entries
  {
  }

  /** Saving keeps ids unique and below the counter. */
  lemma SavePreservesConsistent(t: Users, u: User, jsonEncode: Value -> string, fault: Option<string>)
    requires Consistent(t)
    ensures Consistent(SaveResult(t, u, jsonEncode, fault).0)
  {
  }

  /** Updating changes no id, so it keeps the table consistent. */
  lemma UpdatePreservesConsistent(t: Users, u: User, jsonEncode: Value -> string, fault: Option<string>)
    requires Consistent(t)
    ensures Consistent(UpdateResult(t, u, jsonEncode, fault).0)
  {
  }

  /**
   * `update` overwrites the seven columns of the rows with the user's id and
   * leaves every other row, and the id and creation date of every row, alone.
   */
  lemma UpdateOnlyItsRow(t: Users, u: User, jsonEncode: Value -> string, i: nat)
    requires i < |t.rows|
    ensures var r := UpdateResult(t, u, jsonEncode, None).0.rows[i];
            && r.id == t.rows[i].id && r.createdAt == t.rows[i].createdAt
            && (u.id != Some(t.rows[i].id) ==> r == t.rows[i])
            && (u.id == Some(t.rows[i].id) ==>
                  r.username == u.username && r.email == u.email && r.passwordHash == u.password
                  && r.role == jsonEncode(Arr(u.roles)) && r.emailToken == u.emailToken
                  && (r.isVerified == 1 <==> u.isVerified) && r.verifiedAt == u.verifiedAt)
  {
  }

  /** Running the same update twice writes nothing new. */
  lemma {:induction false} UpdateIdempotent(rows: seq<UserRow>, u: User, jsonEncode: Value -> string)
    ensures UpdatedRows(UpdatedRows(rows, u, jsonEncode), u, jsonEncode) == UpdatedRows(rows, u, jsonEncode)
  {
    var once := UpdatedRows(rows, u, jsonEncode);
    var twice := UpdatedRows(once, u, jsonEncode);
    forall i | 0 <= i < |rows| ensures twice[i] == once[i] {
      if u.id == Some(rows[i].id) {
        assert once[i].id == rows[i].id;
      }
    }
  }

  /** A first match stays first when rows are appended after it. */
  lemma {:induction false} FirstWhereAppend(rows: seq<UserRow>, more: seq<UserRow>, selects: UserRow -> bool)
    ensures FirstWhere(rows, selects).Some? ==> FirstWhere(rows + more, selects) == FirstWhere(rows, selects)
    ensures FirstWhere(rows, selects).None? ==> FirstWhere(rows + more, selects) == FirstWhere(more, selects)
  {
    if |rows| == 0 {
      assert rows + more == more;
    } else {
      assert (rows + more)[1..] == rows[1..] + more;
      FirstWhereAppend(rows[1..], more, selects);
    }
  }

  /**
   * A saved user whose email no earlier row has is found again by email with
   * the new id and the saved fields; its roles come back unchanged whenever the
   * JSON decoder inverts the encoder on them.
   */
  lemma SaveThenFindByEmail(t: Users, u: User, blank: User, jsonEncode: Value -> string, jsonDecode: string -> Value)
    requires forall i :: 0 <= i < |t.rows| ==> t.rows[i].email != u.email
    requires jsonDecode(jsonEncode(Arr(u.roles))) == Arr(u.roles)
    ensures var found := ByColumn(SaveResult(t, u, jsonEncode, None).0, HasEmail(u.email), blank, jsonDecode, None);
            && found.Success? && found.value.Some?
            && found.value.value.id == Some(t.nextId)
            && found.value.value.username == u.username && found.value.value.email == u.email
            && found.value.value.password == u.password && found.value.value.emailToken == u.emailToken
            && found.value.value.isVerified == u.isVerified && found.value.value.roles == u.roles
  {
    var row := SavedRow(t.nextId, u, jsonEncode);
    assert FirstWhere(t.rows, HasEmail(u.email)).None?;
    FirstWhereAppend(t.rows, [row], HasEmail(u.email));
    assert FirstWhere([row], HasEmail(u.email)) == Some(row);
  }

  /** A failed save or update leaves the table as it was. */
  lemma FaultChangesNothing(t: Users, u: User, jsonEncode: Value -> string, message: string)
    ensures SaveResult(t, u, jsonEncode, Some(message)) == (t, Failure(message))
    ensures UpdateResult(t, u, jsonEncode, Some(message)) == (t, Failure(message))
  {
  }
}
