/**
 * The decision ladders of `UserController`: `register` sanitizes the JSON
 * body, builds a user with a fresh e-mail token and saves it; `login` finds
 * the user by e-mail, checks the password and the verification flag, and
 * issues a token; `verifyEmail` finds the user by its e-mail token, clears
 * the token and marks the user verified. The user table and the static key
 * of `JWTServices` are the state they change; `random_bytes`,
 * `password_hash`, `password_verify`, `strip_tags`, the JSON functions and
 * the clock are parameters.
 */
module UserApi {
  import opened Wrappers
  import opened Php
  import opened ByteStrings
  import opened TokenCodec
  import opened JwtServices
  import SecurityUtils
  import opened UserStore
  import opened Responses

  /**
   * What the actions depend on besides the request and the state: the token
   * primitives, `$_ENV['JWT_SECRET_KEY']`, `time()` and its 'Y-m-d H:i:s'
   * text, the JSON functions, `strip_tags` and the UTF-8 test of
   * `htmlspecialchars`, the 32 bytes `random_bytes(32)` returns, the two
   * password functions, the `User` a constructor starts from, the message of
   * a PDOException raised by a finder, and that of one raised by `save` or
   * `update`.
   */
  datatype UserServices = UserServices(
    prims: Primitives,
    env: Option<Bytes>,
    now: int,
    nowText: string,
    jsonDecode: string -> Value,
    jsonEncode: Value -> string,
    stripTags: string -> string,
    validUtf8: string -> bool,
    randomBytes: Bytes,
    passwordHash: string -> string,
    passwordVerify: (string, string) -> bool,
    blank: User,
    readFault: Option<string>,
    writeFault: Option<string>)

  const TypeError := "TypeError"
  const BadCredentials := "Identifiants incorrects"
  const NotVerified := "Veuillez vérifier votre email avant de vous connecter"
  const TokenMissing := "Erreur lors de l génération du token de vérification"

  /** The request body after `SecurityUtils::sanitizeRequestData`. */
  function Cleaned(data: seq<(Key, Value)>, s: UserServices): Value {
    Arr(SecurityUtils.Sanitized(data, s.stripTags, s.validUtf8))
  }

  /** `json_decode` never repeats a key in an array it builds. */
  ghost predicate DecodesToArrays(body: string, s: UserServices) {
    s.jsonDecode(body).Arr? ==> UniqueKeys(s.jsonDecode(body).entries)
  }

  /** A generated token's text in a JSON string (its bytes are ASCII). */
  function Text(b: Bytes): (r: string)
    ensures |r| == |b|
    ensures forall i :: 0 <= i < |b| ==> r[i] as int == b[i]
  {
    seq(|b|, i requires 0 <= i < |b| => b[i] as char)
  }

  // ---------------------------------------------------------------------------
  // validateUniqueUserData

  /** The rows a value of the request selects; a value that is not a string is taken to select none. */
  function UsernameIs(v: Value): UserRow -> bool {
    if v.Str? then HasUsername(v.s) else (r: UserRow) => false
  }

  function EmailIs(v: Value): UserRow -> bool {
    if v.Str? then HasEmail(v.s) else (r: UserRow) => false
  }

  /** Whether the username is looked up: it is non-empty and not identical to the current user's. */
  predicate ChecksUsername(data: Value, current: Option<User>) {
    !Empty(Index(data, "username")) && (current.None? || Index(data, "username") != Str(current.value.username))
  }

  /** Whether the e-mail is looked up, under the same rule. */
  predicate ChecksEmail(data: Value, current: Option<User>) {
    !Empty(Index(data, "email")) && (current.None? || Index(data, "email") != Str(current.value.email))
  }

  /**
   * `validateUniqueUserData($data, $currentUser)`: the flags it computes are
   * dropped, so only an exception escaping a lookup can end it.
   */
  function Validation(t: Users, data: Value, current: Option<User>, s: UserServices): (r: Result<(), string>)
    ensures r.Failure? <==> (ChecksUsername(data, current) || ChecksEmail(data, current)) && s.readFault.Some?
    ensures r.Failure? ==> r.error == "Une erreur est survenue lors de la recherche de l'utilisateur"
  {
    var byName := if ChecksUsername(data, current)
                  then ByColumn(t, UsernameIs(Index(data, "username")), s.blank, s.jsonDecode, s.readFault)
                  else Success(None);
    if byName.Failure? then Failure(byName.error)
    else
      var byEmail := if ChecksEmail(data, current)
                     then ByColumn(t, EmailIs(Index(data, "email")), s.blank, s.jsonDecode, s.readFault)
                     else Success(None);
      if byEmail.Failure? then Failure(byEmail.error) else Success(())
  }

  // ---------------------------------------------------------------------------
  // register

  /**
   * `new User($userData)` from the sanitized body, the password hash and the
   * e-mail token. The properties are typed strings: any other value raises a
   * TypeError (`None`).
   */
  function NewUser(clean: Value, hash: string, token: string, blank: User): (r: Option<User>)
    ensures r.Some? ==> r.value.password == hash && r.value.emailToken == Some(token)
    ensures r.Some? && !Isset(clean, "avatar") ==> r.value.avatar == "avatar_par_defaut.png"
    ensures r.Some? && !Isset(clean, "username") ==> r.value.username == ""
    ensures r.Some? && !Isset(clean, "email") ==> r.value.email == ""
    ensures r.Some? <==> Coalesce(clean, "username", Str("")).Str? && Coalesce(clean, "email", Str("")).Str?
                         && Coalesce(clean, "avatar", Str("avatar_par_defaut.png")).Str?
  {
    var username := Coalesce(clean, "username", Str(""));
    var email := Coalesce(clean, "email", Str(""));
    var avatar := Coalesce(clean, "avatar", Str("avatar_par_defaut.png"));
    if username.Str? && email.Str? && avatar.Str? then
      Some(blank.(username := username.s, email := email.s, password := hash, avatar := avatar.s,
                  emailToken := Some(token)))
    else None
  }

  /** `!$user->getEmailToken()`: null, "" and "0" are falsy. */
  predicate Falsy(token: Option<string>) {
    token.None? || Empty(Str(token.value))
  }

  function Registered(clean: Value, jsonEncode: Value -> string): Response {
    Json(200, [(StrKey("success"), Bool(true)),
               (StrKey("message"), Str("Inscription réussie ! Veuillez vérifier vos email." + jsonEncode(clean)))])
  }

  /** The user `register` saves, once built: validated, dated, saved, then its token checked. */
  function Enrolled(t: Users, clean: Value, user: User, s: UserServices): (Users, Response) {
    match Validation(t, clean, Some(user), s)
    case Failure(e) => (t, Fail(400, e))
    case Success(_) =>
      var (t', saved) := SaveResult(t, user.(createdAt := Some(s.nowText)), s.jsonEncode, s.writeFault);
      if saved.Failure? then (t', Fail(400, saved.error))
      else if !saved.value then (t', Fail(400, "erreur lors de la sauvegarde"))
      else if Falsy(user.emailToken) then (t', Fail(400, TokenMissing))
      else (t', Registered(clean, s.jsonEncode))
  }

  /** `register()` on the body `body`: the table and the response afterwards. */
  function RegisterOutcome(t: Users, body: string, s: UserServices): (Users, Response) {
    var data := s.jsonDecode(body);
    if Empty(data) then (t, Fail(400, "JSON invalide"))
    else if !data.Arr? then (t, Uncaught(TypeError))
    else
      var clean := Cleaned(data.entries, s);
      var password := Index(clean, "password");
      if !password.Str? then (t, Uncaught(TypeError))
      else match NewUser(clean, s.passwordHash(password.s), Bin2Hex(s.randomBytes), s.blank)
        case None => (t, Uncaught(TypeError))
        case Some(user) => Enrolled(t, clean, user, s)
  }

  // ---------------------------------------------------------------------------
  // login

  /** `$user->getId()` as a JSON value. */
  function IdValue(id: Option<int>): Value {
    match id
    case Some(n) => Int(n)
    case None => Null
  }

  /** The payload `login` signs: `['id' => ..., 'email' => ..., 'role' => ...]`. */
  function ClaimsOf(user: User): (c: seq<(Key, Value)>)
    ensures Keys(c) == [StrKey("id"), StrKey("email"), StrKey("role")]
  {
    [(StrKey("id"), IdValue(user.id)), (StrKey("email"), Str(user.email)), (StrKey("role"), Arr(user.roles))]
  }

  function LoggedIn(token: Bytes, user: User): Response {
    Json(200, [(StrKey("success"), Bool(true)), (StrKey("token"), Str(Text(token))),
               (StrKey("user"), Arr([(StrKey("id"), IdValue(user.id)), (StrKey("email"), Str(user.email)),
                                     (StrKey("username"), Str(user.username)), (StrKey("role"), Arr(user.roles))]))])
  }

  /** The checks of `login` once the user is found, then `generate`: the static key and the response. */
  function Admitted(key: Option<Bytes>, password: Value, user: User, s: UserServices): (Option<Bytes>, Response) {
    if !password.Str? then (key, Uncaught(TypeError))
    else if !s.passwordVerify(password.s, user.password) then (key, Fail(401, BadCredentials))
    else if !user.isVerified then (key, Fail(401, NotVerified))
    else Granted(key, user, s)
  }

  /** `generate` on the user's claims and the success response: the static key and the response. */
  function Granted(key: Option<Bytes>, user: User, s: UserServices): (Option<Bytes>, Response) {
    var (key', fails) := InitKeyStep(key, s.env);
    if fails then (key', Fail(401, KeyMissing))
    else (key', LoggedIn(Issue(s.prims, key'.value, ClaimsOf(user), s.now), user))
  }

  /** `login()` on the body `body`: the static key of `JWTServices` and the response afterwards. */
  function LoginOutcome(t: Users, key: Option<Bytes>, body: string, s: UserServices): (Option<Bytes>, Response) {
    var data := s.jsonDecode(body);
    if Empty(data) then (key, Fail(401, "Données invalides"))
    else if !data.Arr? then (key, Uncaught(TypeError))
    else
      var clean := Cleaned(data.entries, s);
      if Empty(Index(clean, "email")) || Empty(Index(clean, "password")) then (key, Fail(401, "Email et mot de passe requis"))
      else match ByColumn(t, EmailIs(Index(clean, "email")), s.blank, s.jsonDecode, s.readFault)
        case Failure(e) => (key, Fail(401, e))
        case Success(None) => (key, Fail(401, BadCredentials))
        case Success(Some(user)) => Admitted(key, Index(clean, "password"), user, s)
  }

  // ---------------------------------------------------------------------------
  // verifyEmail

  /** The user `verifyEmail` writes back: token cleared, verified. */
  function Confirmed(user: User): User {
    user.(emailToken := None, isVerified := true)
  }

  /** `verifyEmail()` with `$_GET['token']` = `token`: the table and the response afterwards. */
  function VerifyEmailOutcome(t: Users, token: Option<string>, s: UserServices): (Users, Response) {
    if Falsy(token) then (t, Fail(400, "Token manquant!"))
    else match ByToken(t, token.value, s.nowText, s.blank, s.jsonDecode, s.readFault)
      case Failure(e) => (t, Fail(400, e))
      case Success(user) =>
        var (t', updated) := UpdateResult(t, Confirmed(user), s.jsonEncode, s.writeFault);
        if updated.Failure? then (t', Fail(400, updated.error))
        else if !updated.value then (t', Fail(400, "erreur lors de la mise a jour"))
        else (t', Json(200, [(StrKey("success"), Bool(true)), (StrKey("message"), Str("Email vérifié avec succès!"))]))
  }

  // ---------------------------------------------------------------------------
  // The controller

  class UserController {
    const repository: UserRepository

    constructor(repository: UserRepository)
      ensures this.repository == repository
    {
      this.repository := repository;
    }

    /** `validateUniqueUserData($data, $currentUser)`: reads the table, changes nothing. */
    method ValidateUniqueUserData(data: Value, current: Option<User>, s: UserServices) returns (result: Result<(), string>)
      ensures result == Validation(repository.State(), data, current, s)
    {
      var usernameExists := false;
      var emailExists := false;
      if ChecksUsername(data, current) {
        var existing;
        var username := Index(data, "username");
        if username.Str? {
          existing := repository.FindUserByUsername(username.s, s.blank, s.jsonDecode, s.readFault);
        } else {
          existing := repository.Find(UsernameIs(username), s.blank, s.jsonDecode, s.readFault);
        }
        if existing.Failure? {
          return Failure(existing.error);
        }
        usernameExists := existing.value.Some?;
      }
      if ChecksEmail(data, current) {
        var existing;
        var email := Index(data, "email");
        if email.Str? {
          existing := repository.FindUserByEmail(email.s, s.blank, s.jsonDecode, s.readFault);
        } else {
          existing := repository.Find(EmailIs(email), s.blank, s.jsonDecode, s.readFault);
        }
        if existing.Failure? {
          return Failure(existing.error);
        }
        emailExists := existing.value.Some?;
      }
      return Success(());
    }

    /** `register()` on the body `body`. */
    method Register(body: string, s: UserServices) returns (response: Response)
      requires DecodesToArrays(body, s)
      modifies repository
      ensures (repository.State(), response) == RegisterOutcome(old(repository.State()), body, s)
    {
      var data := s.jsonDecode(body);
      if Empty(data) {
        return Fail(400, "JSON invalide");
      }
      if !data.Arr? {
        return Uncaught(TypeError);
      }
      var sanitized := SecurityUtils.SanitizeRequestData(data.entries, s.stripTags, s.validUtf8);
      var clean := Arr(sanitized);
      var emailToken := Bin2Hex(s.randomBytes);
      var password := Index(clean, "password");
      if !password.Str? {
        return Uncaught(TypeError);
      }
      var user := NewUser(clean, s.passwordHash(password.s), emailToken, s.blank);
      if user.None? {
        return Uncaught(TypeError);
      }
      var valid := ValidateUniqueUserData(clean, user, s);
      if valid.Failure? {
        return Fail(400, valid.error);
      }
      var dated := user.value.(createdAt := Some(s.nowText));
      var saved := repository.Save(dated, s.jsonEncode, s.writeFault);
      if saved.Failure? {
        return Fail(400, saved.error);
      }
      if !saved.value {
        return Fail(400, "erreur lors de la sauvegarde");
      }
      if Falsy(dated.emailToken) {
        return Fail(400, TokenMissing);
      }
      return Registered(clean, s.jsonEncode);
    }

    /** `login()` on the body `body`; `jwt` holds the static state of `JWTServices`. */
    method Login(body: string, jwt: JWTServices, s: UserServices) returns (response: Response)
      requires DecodesToArrays(body, s)
      modifies jwt
      ensures (jwt.key, response) == LoginOutcome(repository.State(), old(jwt.key), body, s)
    {
      var data := s.jsonDecode(body);
      if Empty(data) {
        return Fail(401, "Données invalides");
      }
      if !data.Arr? {
        return Uncaught(TypeError);
      }
      var sanitized := SecurityUtils.SanitizeRequestData(data.entries, s.stripTags, s.validUtf8);
      var clean := Arr(sanitized);
      if Empty(Index(clean, "email")) || Empty(Index(clean, "password")) {
        return Fail(401, "Email et mot de passe requis");
      }
      var found;
      var email := Index(clean, "email");
      if email.Str? {
        found := repository.FindUserByEmail(email.s, s.blank, s.jsonDecode, s.readFault);
      } else {
        found := repository.Find(EmailIs(email), s.blank, s.jsonDecode, s.readFault);
      }
      if found.Failure? {
        return Fail(401, found.error);
      }
      if found.value.None? {
        return Fail(401, BadCredentials);
      }
      response := Admit(Index(clean, "password"), found.value.value, jwt, s);
    }

    /** The part of `login()` after the user is found. */
    method Admit(password: Value, user: User, jwt: JWTServices, s: UserServices) returns (response: Response)
      modifies jwt
      ensures (jwt.key, response) == Admitted(old(jwt.key), password, user, s)
    {
      if !password.Str? {
        return Uncaught(TypeError);
      }
      if !s.passwordVerify(password.s, user.password) {
        return Fail(401, BadCredentials);
      }
      if !user.isVerified {
        return Fail(401, NotVerified);
      }
      response := Grant(user, jwt, s);
    }

    /** `generate` on the user's claims, then the success response. */
    method Grant(user: User, jwt: JWTServices, s: UserServices) returns (response: Response)
      modifies jwt
      ensures (jwt.key, response) == Granted(old(jwt.key), user, s)
    {
      var token := jwt.Generate(s.prims, s.env, s.now, ClaimsOf(user));
      if token.Failure? {
        return Fail(401, token.error);
      }
      return LoggedIn(token.value, user);
    }

    /** `verifyEmail()` with `$_GET['token']` = `token`. */
    method VerifyEmail(token: Option<string>, s: UserServices) returns (response: Response)
      modifies repository
      ensures (repository.State(), response) == VerifyEmailOutcome(old(repository.State()), token, s)
    {
      if Falsy(token) {
        return Fail(400, "Token manquant!");
      }
      var user := repository.FindUserByToken(token.value, s.nowText, s.blank, s.jsonDecode, s.readFault);
      if user.Failure? {
        return Fail(400, user.error);
      }
      var confirmed := user.value;
      confirmed := confirmed.(emailToken := None);
      confirmed := confirmed.(isVerified := true);
      var updated := repository.Update(confirmed, s.jsonEncode, s.writeFault);
      if updated.Failure? {
        return Fail(400, updated.error);
      }
      if !updated.value {
        return Fail(400, "erreur lors de la mise a jour");
      }
      return Json(200, [(StrKey("success"), Bool(true)), (StrKey("message"), Str("Email vérifié avec succès!"))]);
    }
  }

  // ---------------------------------------------------------------------------
  // Properties of register

  /**
   * `register` hands `validateUniqueUserData` the user it built from the same
   * data, so neither lookup runs and validation always passes.
   */
  lemma RegisterSkipsLookups(t: Users, clean: Value, hash: string, token: string, s: UserServices)
    requires NewUser(clean, hash, token, s.blank).Some?
    ensures var user := NewUser(clean, hash, token, s.blank).value;
            !ChecksUsername(clean, Some(user)) && !ChecksEmail(clean, Some(user))
            && Validation(t, clean, Some(user), s) == Success(())
  {
  }

  /**
   * The answer of `register` does not depend on the table: a username or an
   * e-mail that is already taken is never refused.
   */
  lemma RegisterIgnoresExistingUsers(t1: Users, t2: Users, body: string, s: UserServices)
    ensures RegisterOutcome(t1, body, s).1 == RegisterOutcome(t2, body, s).1
  {
    var data := s.jsonDecode(body);
    if !Empty(data) && data.Arr? {
      var clean := Cleaned(data.entries, s);
      var password := Index(clean, "password");
      if password.Str? {
        var user := NewUser(clean, s.passwordHash(password.s), Bin2Hex(s.randomBytes), s.blank);
        if user.Some? {
          RegisterSkipsLookups(t1, clean, s.passwordHash(password.s), Bin2Hex(s.randomBytes), s);
          RegisterSkipsLookups(t2, clean, s.passwordHash(password.s), Bin2Hex(s.randomBytes), s);
        }
      }
    }
  }

  /** `bin2hex(random_bytes(32))` is 64 hex digits, so it is never falsy. */
  lemma EmailTokenShape(s: UserServices)
    requires |s.randomBytes| == 32
    ensures var token := Bin2Hex(s.randomBytes);
            |token| == 64 && (forall i :: 0 <= i < 64 ==> IsLowerHex(token[i])) && !Falsy(Some(token))
  {
  }

  /**
   * A 200 from `register` means one new row: the next id, the sanitized
   * username and e-mail (or ""), the hash of the sanitized password, the
   * fresh token, the creation time, and the defaults of a new user.
   */
  lemma RegisterSaves(t: Users, body: string, s: UserServices)
    requires RegisterOutcome(t, body, s).1.Json? && RegisterOutcome(t, body, s).1.status == 200
    ensures s.jsonDecode(body).Arr?
    ensures var clean := Cleaned(s.jsonDecode(body).entries, s);
            var t' := RegisterOutcome(t, body, s).0;
            && Index(clean, "password").Str?
            && Coalesce(clean, "username", Str("")).Str? && Coalesce(clean, "email", Str("")).Str?
            && t'.nextId == t.nextId + 1
            && t'.rows == t.rows + [UserRow(t.nextId, Coalesce(clean, "username", Str("")).s,
                                            Coalesce(clean, "email", Str("")).s,
                                            s.passwordHash(Index(clean, "password").s),
                                            s.jsonEncode(Arr(s.blank.roles)), Some(Bin2Hex(s.randomBytes)),
                                            VerifiedFlag(s.blank.isVerified), Some(s.nowText), None)]
    ensures RegisterOutcome(t, body, s).1 == Registered(Cleaned(s.jsonDecode(body).entries, s), s.jsonEncode)
  {
    var data := s.jsonDecode(body);
    var clean := Cleaned(data.entries, s);
    var password := Index(clean, "password");
    var token := Bin2Hex(s.randomBytes);
    var user := NewUser(clean, s.passwordHash(password.s), token, s.blank);
    RegisterSkipsLookups(t, clean, s.passwordHash(password.s), token, s);
  }

  /** Past validation, `register` writes exactly when it answers 200: a failed INSERT writes nothing. */
  lemma EnrolledWritesOnlyOnSuccess(t: Users, clean: Value, user: User, s: UserServices)
    requires !Falsy(user.emailToken)
    ensures var (t', r) := Enrolled(t, clean, user, s);
            && r.Json? && (r.status == 200 || r.status == 400)
            && ((r.status == 200) <==> t' != t)
  {
    match Validation(t, clean, Some(user), s)
    case Failure(e) =>
    case Success(_) =>
      var (t', saved) := SaveResult(t, user.(createdAt := Some(s.nowText)), s.jsonEncode, s.writeFault);
      assert saved.Success? ==> t'.nextId != t.nextId;
  }

  /**
   * Once the token has its 32 random bytes, `register` answers 200, 400 or a
   * TypeError, and it writes to the table exactly when it answers 200: the
   * token check after the INSERT never fires.
   */
  lemma RegisterWritesOnlyOnSuccess(t: Users, body: string, s: UserServices)
    requires |s.randomBytes| == 32
    ensures var (t', r) := RegisterOutcome(t, body, s);
            && (r.Json? ==> r.status == 200 || r.status == 400)
            && ((r.Json? && r.status == 200) <==> t' != t)
  {
    EmailTokenShape(s);
    var data := s.jsonDecode(body);
    if !Empty(data) && data.Arr? {
      var clean := Cleaned(data.entries, s);
      var password := Index(clean, "password");
      if password.Str? {
        var user := NewUser(clean, s.passwordHash(password.s), Bin2Hex(s.randomBytes), s.blank);
        if user.Some? {
          EnrolledWritesOnlyOnSuccess(t, clean, user.value, s);
        }
      }
    }
  }

  // ---------------------------------------------------------------------------
  // Properties of login

  /** Every answer of `login` that is not a 200 is a 401, and it leaves the static key alone unless `generate` ran. */
  lemma LoginAnswers(t: Users, key: Option<Bytes>, body: string, s: UserServices)
    ensures var (key', r) := LoginOutcome(t, key, body, s);
            && (r.Json? ==> r.status == 200 || r.status == 401)
            && (key' != key ==> (r == Fail(401, KeyMissing) || (r.Json? && r.status == 200)))
  {
    var data := s.jsonDecode(body);
    if !Empty(data) && data.Arr? {
      var clean := Cleaned(data.entries, s);
      if !Empty(Index(clean, "email")) && !Empty(Index(clean, "password")) {
        var found := ByColumn(t, EmailIs(Index(clean, "email")), s.blank, s.jsonDecode, s.readFault);
        if found.Success? && found.value.Some? {
          AdmittedAnswers(key, Index(clean, "password"), found.value.value, s);
        }
      }
    }
  }

  /** The same, once the user is found. */
  lemma AdmittedAnswers(key: Option<Bytes>, password: Value, user: User, s: UserServices)
    ensures var (key', r) := Admitted(key, password, user, s);
            && (r.Json? ==> r.status == 200 || r.status == 401)
            && (key' != key ==> (r == Fail(401, KeyMissing) || (r.Json? && r.status == 200)))
  {
  }

  /**
   * The checks that follow the lookup: an unknown e-mail and a wrong password
   * give the same answer, and a right password on an unverified account is
   * refused with its own message.
   */
  lemma LoginRefusesAfterLookup(t: Users, key: Option<Bytes>, body: string, s: UserServices, email: string, password: string)
    requires s.jsonDecode(body).Arr? && s.readFault.None?
    requires Index(Cleaned(s.jsonDecode(body).entries, s), "email") == Str(email) && !Empty(Str(email))
    requires Index(Cleaned(s.jsonDecode(body).entries, s), "password") == Str(password) && !Empty(Str(password))
    ensures (forall i :: 0 <= i < |t.rows| ==> t.rows[i].email != email)
            ==> LoginOutcome(t, key, body, s) == (key, Fail(401, BadCredentials))
    ensures var found := FirstWhere(t.rows, HasEmail(email));
            found.Some? && !s.passwordVerify(password, found.value.passwordHash)
            ==> LoginOutcome(t, key, body, s) == (key, Fail(401, BadCredentials))
    ensures var found := FirstWhere(t.rows, HasEmail(email));
            found.Some? && s.passwordVerify(password, found.value.passwordHash) && found.value.isVerified == 0
            ==> LoginOutcome(t, key, body, s) == (key, Fail(401, NotVerified))
  {
  }

  /**
   * A 200 from `login` means: a non-empty string e-mail and password, a first
   * row with that e-mail whose hash the password matches and which is
   * verified, and a token that `generate` signed over exactly the claims
   * {id, email, role} of that user.
   */
  lemma LoginSucceeds(t: Users, key: Option<Bytes>, body: string, s: UserServices) returns (row: UserRow, user: User)
    requires LoginOutcome(t, key, body, s).1.Json? && LoginOutcome(t, key, body, s).1.status == 200
    ensures s.jsonDecode(body).Arr?
    ensures var clean := Cleaned(s.jsonDecode(body).entries, s);
            && Index(clean, "email").Str? && Index(clean, "password").Str?
            && !Empty(Index(clean, "email")) && !Empty(Index(clean, "password"))
            && FirstWhere(t.rows, HasEmail(Index(clean, "email").s)) == Some(row)
            && s.passwordVerify(Index(clean, "password").s, row.passwordHash)
    ensures row.isVerified != 0
    ensures user == FromRow(row, s.blank, StoredVerifiedAt(row, s.blank), s.jsonDecode) && user.id == Some(row.id)
    ensures var key' := InitKeyStep(key, s.env).0;
            && !InitKeyStep(key, s.env).1 && key'.Some?
            && LoginOutcome(t, key, body, s) == (key', LoggedIn(Issue(s.prims, key'.value, ClaimsOf(user), s.now), user))
  {
    var clean := Cleaned(s.jsonDecode(body).entries, s);
    var email := Index(clean, "email");
    var found := ByColumn(t, EmailIs(email), s.blank, s.jsonDecode, s.readFault);
    user := found.value.value;
    row := FirstWhere(t.rows, EmailIs(email)).value;
  }

  /**
   * The token `login` hands out verifies, under the same key and until it
   * expires, to the user's id, e-mail and roles plus the expiry, provided
   * `json_decode` reads back what `json_encode` wrote.
   */
  lemma LoginTokenVerifies(prims: Primitives, key: Bytes, user: User, issuedAt: int, now: int)
    requires now <= issuedAt + Lifetime
    requires prims.jsonDecode(prims.jsonEncode(Arr(Claims(ClaimsOf(user), issuedAt)))) == Arr(Claims(ClaimsOf(user), issuedAt))
    ensures var v := VerifyWithKey(prims, key, Issue(prims, key, ClaimsOf(user), issuedAt), now);
            && v.Valid?
            && Index(v.claims, "id") == IdValue(user.id)
            && Index(v.claims, "email") == Str(user.email)
            && Index(v.claims, "role") == Arr(user.roles)
            && Index(v.claims, "exp") == Int(issuedAt + Lifetime)
  {
    VerifyIssued(prims, key, ClaimsOf(user), issuedAt, now);
    ClaimsOfLookup(user, issuedAt);
  }

  /** The signed claims of a login hold the user's id, e-mail and roles, and the expiry. */
  lemma ClaimsOfLookup(user: User, issuedAt: int)
    ensures var cl := Claims(ClaimsOf(user), issuedAt);
            && Lookup(cl, StrKey("id")) == Some(IdValue(user.id))
            && Lookup(cl, StrKey("email")) == Some(Str(user.email))
            && Lookup(cl, StrKey("role")) == Some(Arr(user.roles))
            && Lookup(cl, StrKey("exp")) == Some(Int(issuedAt + Lifetime))
  {
    var c := ClaimsOf(user);
    assert Find(c, StrKey("id")) == Some(0);
    assert Find(c, StrKey("email")) == Some(1) by {
      assert c[1..][0].0 == StrKey("email");
    }
    assert Find(c, StrKey("role")) == Some(2) by {
      assert c[1..][1..][0].0 == StrKey("role");
      assert Find(c[1..], StrKey("role")) == Some(1);
    }
  }

  // ---------------------------------------------------------------------------
  // Properties of verifyEmail

  /** The position of the row `FirstWhere` picks. */
  lemma {:induction false} FirstWhereAt(rows: seq<UserRow>, selects: UserRow -> bool) returns (k: nat)
    requires FirstWhere(rows, selects).Some?
    ensures k < |rows| && FirstWhere(rows, selects) == Some(rows[k]) && selects(rows[k])
    ensures forall i :: 0 <= i < k ==> !selects(rows[i])
  {
    if selects(rows[0]) {
      k := 0;
    } else {
      var j := FirstWhereAt(rows[1..], selects);
      k := j + 1;
    }
  }

  /** `verifyEmail` answers 200 or 400, never lets an exception escape, and writes only when it answers 200. */
  lemma VerifyEmailAnswers(t: Users, token: Option<string>, s: UserServices)
    ensures var (t', r) := VerifyEmailOutcome(t, token, s);
            && r.Json? && (r.status == 200 || r.status == 400)
            && (r.status == 200 || t' == t)
            && (Falsy(token) ==> r == Fail(400, "Token manquant!"))
  {
  }

  /** Writing back the confirmed user of row `k` rewrites that row only, ids being unique. */
  lemma ConfirmRewritesRow(t: Users, k: nat, s: UserServices)
    requires Consistent(t) && k < |t.rows|
    ensures var rows := UpdatedRows(t.rows, Confirmed(FromRow(t.rows[k], s.blank, Some(s.nowText), s.jsonDecode)), s.jsonEncode);
            && |rows| == |t.rows|
            && rows[k] == t.rows[k].(emailToken := None, isVerified := 1, verifiedAt := Some(s.nowText),
                                     role := s.jsonEncode(Arr(DecodedRoles(t.rows[k].role, s.jsonDecode))))
            && forall i :: 0 <= i < |t.rows| && i != k ==> rows[i] == t.rows[i]
  {
    var user := Confirmed(FromRow(t.rows[k], s.blank, Some(s.nowText), s.jsonDecode));
    var rows := UpdatedRows(t.rows, user, s.jsonEncode);
    assert rows[k] == Rewritten(t.rows[k], user, s.jsonEncode);
    forall i | 0 <= i < |t.rows| && i != k ensures rows[i] == t.rows[i] {
      assert t.rows[i].id != t.rows[k].id;
    }
  }

  /**
   * A 200 from `verifyEmail` rewrites exactly the first row holding the token:
   * its token is cleared, it is marked verified at the current time, and its
   * roles are written back in their decoded form; every other row stays.
   */
  lemma VerifyEmailConfirms(t: Users, token: Option<string>, s: UserServices) returns (k: nat)
    requires Consistent(t)
    requires VerifyEmailOutcome(t, token, s).1.Json? && VerifyEmailOutcome(t, token, s).1.status == 200
    ensures token.Some? && !Falsy(token)
    ensures k < |t.rows| && t.rows[k].emailToken == token
    ensures forall i :: 0 <= i < k ==> t.rows[i].emailToken != token
    ensures var t' := VerifyEmailOutcome(t, token, s).0;
            && t'.nextId == t.nextId && |t'.rows| == |t.rows|
            && t'.rows[k] == t.rows[k].(emailToken := None, isVerified := 1, verifiedAt := Some(s.nowText),
                                        role := s.jsonEncode(Arr(DecodedRoles(t.rows[k].role, s.jsonDecode))))
            && forall i :: 0 <= i < |t.rows| && i != k ==> t'.rows[i] == t.rows[i]
  {
    k := FirstWhereAt(t.rows, HasToken(token.value));
    var user := FromRow(t.rows[k], s.blank, Some(s.nowText), s.jsonDecode);
    assert ByToken(t, token.value, s.nowText, s.blank, s.jsonDecode, s.readFault) == Success(user);
    assert VerifyEmailOutcome(t, token, s).0 == Users(UpdatedRows(t.rows, Confirmed(user), s.jsonEncode), t.nextId);
    ConfirmRewritesRow(t, k, s);
  }

  /**
   * The e-mailed link works: after a 200 from `register`, `verifyEmail` with
   * the new token answers 200 and marks the new row verified, unless an
   * older row holds the same token or the database fails.
   */
  lemma RegisteredTokenVerifies(t: Users, body: string, s: UserServices)
    requires |s.randomBytes| == 32 && s.readFault.None? && s.writeFault.None?
    requires forall i :: 0 <= i < |t.rows| ==> t.rows[i].emailToken != Some(Bin2Hex(s.randomBytes))
    requires RegisterOutcome(t, body, s).1.Json? && RegisterOutcome(t, body, s).1.status == 200
    ensures var t' := RegisterOutcome(t, body, s).0;
            var (t'', r) := VerifyEmailOutcome(t', Some(Bin2Hex(s.randomBytes)), s);
            && r.Json? && r.status == 200
            && |t''.rows| == |t.rows| + 1
            && t''.rows[|t.rows|].id == t.nextId
            && t''.rows[|t.rows|].isVerified == 1 && t''.rows[|t.rows|].emailToken == None
  {
    var token := Bin2Hex(s.randomBytes);
    EmailTokenShape(s);
    RegisterSaves(t, body, s);
    var t' := RegisterOutcome(t, body, s).0;
    var row := t'.rows[|t.rows|];
    assert t'.rows == t.rows + [row];
    FirstWhereAppend(t.rows, [row], HasToken(token));
    assert FirstWhere(t'.rows, HasToken(token)) == Some(row);
    var user := Confirmed(FromRow(row, s.blank, Some(s.nowText), s.jsonDecode));
    assert VerifyEmailOutcome(t', Some(token), s).0 == Users(UpdatedRows(t'.rows, user, s.jsonEncode), t'.nextId);
    var rows := UpdatedRows(t'.rows, user, s.jsonEncode);
    assert rows[|t.rows|] == Rewritten(row, user, s.jsonEncode);
  }
}
