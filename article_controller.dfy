/**
 * The decision ladders of `ArticleController`: `create` authenticates with
 * the bearer token, validates the JSON body, builds the article and stores
 * it; `uploadImage` checks the upload, moves the file and records its path
 * as the article's cover. The static key of `JWTServices` and the
 * repository's tables are the state they change; the filesystem answers,
 * `time()`, `uniqid()` and the JSON functions are parameters.
 */
module ArticleApi {
  import opened Wrappers
  import opened Php
  import opened PhpNumeric
  import opened ByteStrings
  import opened TokenCodec
  import opened JwtServices
  import opened ArticleModel
  import opened ArticleStore
  import opened Responses

  // ---------------------------------------------------------------------------
  // The bearer token

  /** "Bearer " */
  const Bearer: Bytes := [66, 101, 97, 114, 101, 114, 32]

  /** `str_replace('Bearer ', '', $s)`: every occurrence is removed, scanning left to right. */
  function WithoutBearer(s: Bytes): (r: Bytes)
    ensures |r| <= |s|
    decreases |s|
  {
    if |s| >= |Bearer| && s[..|Bearer|] == Bearer then WithoutBearer(s[|Bearer|..])
    else if |s| == 0 then []
    else [s[0]] + WithoutBearer(s[1..])
  }

  /** `s` holds "Bearer " at position `i`. */
  predicate BearerAt(s: Bytes, i: int) {
    0 <= i && i + |Bearer| <= |s| && s[i..i + |Bearer|] == Bearer
  }

  /** `JWTServices::verify($token)` under the static key `key`: the key afterwards and the verdict. */
  function Verified(key: Option<Bytes>, token: Bytes, prims: Primitives, env: Option<Bytes>, now: int)
    : (r: (Option<Bytes>, Verdict))
    ensures r.0 == InitKeyStep(key, env).0
    ensures InitKeyStep(key, env).1 ==> r.1 == Invalid
    ensures !InitKeyStep(key, env).1 ==> r.0.Some? && r.1 == VerifyWithKey(prims, r.0.value, token, now)
  {
    var (k, fails) := InitKeyStep(key, env);
    if fails then (k, Invalid) else (k, VerifyWithKey(prims, k.value, token, now))
  }

  // ---------------------------------------------------------------------------
  // create

  /** The raw body of `php://input` and `$_SERVER['HTTP_AUTHORIZATION']`, if set. */
  datatype CreateRequest = CreateRequest(body: string, authorization: Option<Bytes>)

  /**
   * What `create` depends on besides the request and the state: the token
   * primitives, `$_ENV['JWT_SECRET_KEY']`, `time()` and its 'Y-m-d H:i:s'
   * text, `json_decode($s, true)`, `json_encode`, and which statement of
   * `ArticleRepository::create` raises a PDOException, if one does.
   */
  datatype CreateServices = CreateServices(
    prims: Primitives,
    env: Option<Bytes>,
    now: int,
    nowText: string,
    jsonDecode: string -> Value,
    jsonEncode: Value -> string,
    fault: Option<nat>)

  const CreateFailed := "Une erreur est survenue lors de la création de l'article"

  /** The array `create` hands to `new Article`. */
  function NewArticleData(data: Value, userId: Value, nowText: string): seq<(Key, Value)> {
    [(StrKey("title"), Index(data, "title")),
     (StrKey("content"), Index(data, "content")),
     (StrKey("introduction"), Coalesce(data, "introduction", Str(""))),
     (StrKey("cover_image"), Null),
     (StrKey("id_user"), userId),
     (StrKey("published_at"), Str(nowText)),
     (StrKey("created_at"), Str(nowText))]
  }

  /** `generateSlug()` at time `now` on properties `a`. */
  function Slugged(a: ArticleFields, now: int): ArticleFields {
    match NewSlug(a.title, now)
    case Some(s) => a.(slug := Some(s))
    case None => a
  }

  /**
   * The tags step: a non-empty `tags` field goes through `json_decode`, which
   * takes only a string, and the article keeps the result only when it is an array.
   */
  function WithTags(a: ArticleFields, v: Value, jsonDecode: string -> Value): (r: Result<ArticleFields, string>)
    ensures r.Failure? <==> !Empty(v) && !v.Str?
    ensures r.Success? && r.value != a ==> v.Str? && jsonDecode(v.s).Arr? && r.value == a.(tags := Some(jsonDecode(v.s).entries))
  {
    if Empty(v) then Success(a)
    else if !v.Str? then Failure(TypeError)
    else match jsonDecode(v.s)
      case Arr(e) => Success(a.(tags := Some(e)))
      case _ => Success(a)
  }

  function Created(id: int): Response {
    Json(201, [(StrKey("success"), Bool(true)), (StrKey("message"), Str("Article créé avec succès")),
               (StrKey("articleId"), Int(id))])
  }

  /**
   * The article `create` builds from the constructor's array `fields` and the
   * request's `tags`: hydrated, slugged, then tagged; or the Error that escapes.
   */
  function Built(fields: seq<(Key, Value)>, tags: Value, s: CreateServices): Result<ArticleFields, string> {
    var (a, error) := Hydrated(Blank, fields, s.jsonDecode);
    if error.Some? then Failure(error.value)
    else WithTags(Slugged(a, s.now), tags, s.jsonDecode)
  }

  /** `$this->articleRepository->create($article)` and the response it leads to. */
  function Stored(t: Tables, b: ArticleFields, s: CreateServices): (Tables, Response) {
    var (t', _, r) := CreateResult(t, b, s.now, s.nowText, s.jsonEncode, s.fault);
    match r
    case Failure(e) => (t', Uncaught(e))
    case Success(None) => (t', Detailed(500, CreateFailed, "Erreur lors de la création de l'article"))
    case Success(Some(id)) => (t', Created(id))
  }

  /** `create()` once the token carried the user id `userId`: the tables afterwards and the response. */
  function Persisted(t: Tables, data: Value, userId: Value, s: CreateServices): (Tables, Response) {
    if Empty(Index(data, "title")) || Empty(Index(data, "content")) then (t, Fail(400, "Titre et contenu requis"))
    else match Built(NewArticleData(data, userId, s.nowText), Index(data, "tags"), s)
      case Failure(e) => (t, Uncaught(e))
      case Success(b) => Stored(t, b, s)
  }

  /**
   * The token check of `create()` on the header `authorization`: the static key
   * afterwards, and the user id or the response that ends the request.
   */
  function Authenticated(key: Option<Bytes>, authorization: Bytes, s: CreateServices): (Option<Bytes>, Result<Value, Response>) {
    var (key', verdict) := Verified(key, WithoutBearer(authorization), s.prims, s.env, s.now);
    match verdict
    case Raises(e) => (key', Failure(Uncaught(e)))
    case Invalid => (key', Failure(Fail(401, "Token invalide")))
    case Valid(claims) =>
      if !Isset(claims, "id") then (key', Failure(Fail(401, "Token invalide")))
      else (key', Success(Index(claims, "id")))
  }

  /** `create()`: the tables, the static key of `JWTServices` and the response afterwards. */
  function CreateOutcome(t: Tables, key: Option<Bytes>, req: CreateRequest, s: CreateServices)
    : (Tables, Option<Bytes>, Response)
  {
    if req.authorization.None? then (t, key, Fail(401, "Token non fourni"))
    else
      var (key', auth) := Authenticated(key, req.authorization.value, s);
      match auth
      case Failure(response) => (t, key', response)
      case Success(userId) =>
        var (t', r) := Persisted(t, s.jsonDecode(req.body), userId, s);
        (t', key', r)
  }

  // ---------------------------------------------------------------------------
  // uploadImage

  /** The entry `$_FILES['image']`. */
  datatype Upload = Upload(error: int, mime: string, size: int, name: string)

  /** `$_SERVER['HTTP_AUTHORIZATION']` and `$_FILES['image']`, if set. */
  datatype UploadRequest = UploadRequest(authorization: Option<Bytes>, image: Option<Upload>)

  /**
   * The filesystem's answers: whether the upload directory exists, whether
   * `mkdir` creates it, whether it is writable, whether `move_uploaded_file` succeeds.
   */
  datatype Filesystem = Filesystem(dirExists: bool, mkdirSucceeds: bool, writable: bool, moveSucceeds: bool)

  /**
   * The suffix `uniqid` appends, the JSON functions, whether `getById` meets a
   * PDOException, and which statement of `update` raises one, if any.
   */
  datatype UploadServices = UploadServices(
    uniqid: string,
    jsonDecode: string -> Value,
    jsonEncode: Value -> string,
    readFails: bool,
    fault: Option<nat>)

  const AllowedTypes: seq<string> := ["image/jpeg", "image/png", "image/webp"]

  /** 5 MB */
  const MaxFileSize: int := 5 * 1024 * 1024

  const UploadFailed := "Erreur lors de l'upload de l'image"

  /** The text after the last `c`, if `s` contains one. */
  function AfterLast(s: string, c: char): (r: Option<string>)
    ensures r.Some? ==> |r.value| < |s| && s[|s| - |r.value| - 1] == c && s[|s| - |r.value|..] == r.value
    ensures r.Some? ==> c !in r.value
    ensures r.None? ==> c !in s
  {
    if |s| == 0 then None
    else if s[|s| - 1] == c then Some([])
    else match AfterLast(s[..|s| - 1], c)
      case None => None
      case Some(x) =>
        assert s == s[..|s| - 1] + [s[|s| - 1]];
        Some(x + [s[|s| - 1]])
  }

  /** `pathinfo($name, PATHINFO_EXTENSION)`: what follows the last '.' of the base name, or "". */
  function Extension(name: string): (r: string)
    ensures '.' !in r && '/' !in r
  {
    var base := match AfterLast(name, '/') case Some(b) => b case None => name;
    match AfterLast(base, '.') case Some(e) => e case None => ""
  }

  /** `uniqid('article_' . $id . '_') . '.' . $extension` */
  function FileName(id: int, uniqid: string, name: string): string {
    "article_" + IntToString(id) + "_" + uniqid + "." + Extension(name)
  }

  /** The path recorded as the cover and returned to the client. */
  function ImagePath(fileName: string): string {
    "/uploads/articles/" + fileName
  }

  function Uploaded(path: string): Response {
    Json(200, [(StrKey("success"), Bool(true)), (StrKey("message"), Str("Image uploadée avec succès")),
               (StrKey("path"), Str(path))])
  }

  /** The checks before the file is moved: the name it will be moved under, or the response that ends the request. */
  function UploadChecks(id: int, req: UploadRequest, fs: Filesystem, s: UploadServices): Result<string, Response> {
    if req.authorization.None? then Failure(Fail(401, "Token non fourni"))
    else if req.image.None? || req.image.value.error != 0 then Failure(Fail(400, "Image non fournie ou invalide"))
    else if req.image.value.mime !in AllowedTypes then Failure(Fail(400, "Format d'image non supporté"))
    else if !fs.dirExists && !fs.mkdirSucceeds then Failure(Detailed(500, UploadFailed, "Impossible de créer le dossier d'upload"))
    else if !fs.writable then Failure(Detailed(500, UploadFailed, "Le dossier d'upload n'est pas accessible en écriture"))
    else if req.image.value.size > MaxFileSize then Failure(Detailed(500, UploadFailed, "La taille du fichier ne doit pas dépasser 5MB"))
    else if !fs.moveSucceeds then Failure(Detailed(500, UploadFailed, "Erreur lors du déplacement du fichier"))
    else Success(FileName(id, s.uniqid, req.image.value.name))
  }

  /** After the move: look the article up, set its cover to the new path and update it. */
  function CoverAttached(t: Tables, id: int, fileName: string, s: UploadServices): (Tables, Response) {
    match ById(t, id, s.jsonDecode, s.readFails)
    case Failure(e) => (t, Uncaught(e))
    case Success(None) => (t, Detailed(500, UploadFailed, "Article non trouvé"))
    case Success(Some(a)) =>
      var (t', r) := UpdateResult(t, a.(coverImage := Some(ImagePath(fileName))), s.jsonEncode, s.fault);
      match r
      case Failure(e) => (t', Uncaught(e))
      case Success(false) => (t', Detailed(500, UploadFailed, "Erreur lors de la mise à jour de l'article"))
      case Success(true) => (t', Uploaded(ImagePath(fileName)))
  }

  /**
   * `uploadImage($id)`: the tables afterwards, the name under which the file
   * was moved into the upload directory (if it was), and the response.
   */
  function UploadOutcome(t: Tables, id: int, req: UploadRequest, fs: Filesystem, s: UploadServices)
    : (Tables, Option<string>, Response)
  {
    match UploadChecks(id, req, fs, s)
    case Failure(response) => (t, None, response)
    case Success(fileName) =>
      var (t', r) := CoverAttached(t, id, fileName, s);
      (t', Some(fileName), r)
  }

  // ---------------------------------------------------------------------------
  // The controller

  class ArticleController {
    const repository: ArticleRepository

    constructor(repository: ArticleRepository)
      ensures this.repository == repository
    {
      this.repository := repository;
    }

    /** `create()`; `jwt` holds the static state of `JWTServices`. */
    method Create(request: CreateRequest, jwt: JWTServices, s: CreateServices) returns (response: Response)
      modifies repository, jwt
      ensures (repository.State(), jwt.key, response)
              == CreateOutcome(old(repository.State()), old(jwt.key), request, s)
    {
      var data := s.jsonDecode(request.body);
      if request.authorization.None? {
        return Fail(401, "Token non fourni");
      }
      var token := WithoutBearer(request.authorization.value);
      var payload := jwt.Verify(s.prims, s.env, s.now, token);
      assert (jwt.key, payload) == Verified(old(jwt.key), token, s.prims, s.env, s.now);
      assert jwt.key == Authenticated(old(jwt.key), request.authorization.value, s).0;
      if payload.Raises? {
        return Uncaught(payload.error);
      }
      if payload.Invalid? || !Isset(payload.claims, "id") {
        return Fail(401, "Token invalide");
      }
      response := Persist(data, Index(payload.claims, "id"), s);
    }

    /** The part of `create()` after authentication. */
    method Persist(data: Value, userId: Value, s: CreateServices) returns (response: Response)
      modifies repository
      ensures (repository.State(), response) == Persisted(old(repository.State()), data, userId, s)
    {
      if Empty(Index(data, "title")) || Empty(Index(data, "content")) {
        return Fail(400, "Titre et contenu requis");
      }
      var article, error := Build(NewArticleData(data, userId, s.nowText), Index(data, "tags"), s);
      if error.Some? {
        return Uncaught(error.value);
      }
      var articleId := repository.Create(article, s.now, s.nowText, s.jsonEncode, s.fault);
      match articleId {
        case Failure(e) => return Uncaught(e);
        case Success(None) => return Detailed(500, CreateFailed, "Erreur lors de la création de l'article");
        case Success(Some(id)) => return Created(id);
      }
    }

    /** `new Article([...])`, `generateSlug()`, then the tags. */
    method Build(fields: seq<(Key, Value)>, tags: Value, s: CreateServices) returns (article: Article, error: Option<string>)
      ensures fresh(article)
      ensures match Built(fields, tags, s)
              case Success(b) => error == None && article.Fields() == b
              case Failure(e) => error == Some(e)
    {
      article := new Article([], s.jsonDecode);
      error := article.Hydrate(fields, s.jsonDecode);
      if error.Some? {
        return;
      }
      article.GenerateSlug(s.now);
      if !Empty(tags) {
        if !tags.Str? {
          return article, Some(TypeError);
        }
        var decoded := s.jsonDecode(tags.s);
        if decoded.Arr? {
          var _ := article.Set(Tags, decoded, s.jsonDecode);
        }
      }
    }

    /** `uploadImage($id)`: the response and the name the file was moved under, if it was. */
    method UploadImage(id: int, request: UploadRequest, fs: Filesystem, s: UploadServices)
      returns (response: Response, moved: Option<string>)
      modifies repository
      ensures (repository.State(), moved, response) == UploadOutcome(old(repository.State()), id, request, fs, s)
    {
      moved := None;
      if request.authorization.None? {
        return Fail(401, "Token non fourni"), moved;
      }
      if request.image.None? || request.image.value.error != 0 {
        return Fail(400, "Image non fournie ou invalide"), moved;
      }
      var image := request.image.value;
      if image.mime !in AllowedTypes {
        return Fail(400, "Format d'image non supporté"), moved;
      }
      if !fs.dirExists && !fs.mkdirSucceeds {
        return Detailed(500, UploadFailed, "Impossible de créer le dossier d'upload"), moved;
      }
      if !fs.writable {
        return Detailed(500, UploadFailed, "Le dossier d'upload n'est pas accessible en écriture"), moved;
      }
      if image.size > MaxFileSize {
        return Detailed(500, UploadFailed, "La taille du fichier ne doit pas dépasser 5MB"), moved;
      }
      var fileName := "article_" + IntToString(id) + "_" + s.uniqid + "." + Extension(image.name);
      if !fs.moveSucceeds {
        return Detailed(500, UploadFailed, "Erreur lors du déplacement du fichier"), moved;
      }
      moved := Some(fileName);
      response := AttachCover(id, fileName, s);
    }

    /** The part of `uploadImage($id)` after the move. */
    method AttachCover(id: int, fileName: string, s: UploadServices) returns (response: Response)
      modifies repository
      ensures (repository.State(), response) == CoverAttached(old(repository.State()), id, fileName, s)
    {
      var article, error := repository.GetById(id, s.jsonDecode, s.readFails);
      if error.Some? {
        return Uncaught(error.value);
      }
      if article == null {
        return Detailed(500, UploadFailed, "Article non trouvé");
      }
      var imagePath := "/uploads/articles/" + fileName;
      var _ := article.Set(CoverImage, Str(imagePath), s.jsonDecode);
      var success := repository.Update(article, s.jsonEncode, s.fault);
      match success {
        case Failure(e) => return Uncaught(e);
        case Success(false) => return Detailed(500, UploadFailed, "Erreur lors de la mise à jour de l'article");
        case Success(true) => return Uploaded(imagePath);
      }
    }
  }

  // ---------------------------------------------------------------------------
  // Properties of the bearer token

  /** A text holding no "Bearer " goes through `str_replace` unchanged. */
  lemma {:induction false} NoBearerUnchanged(t: Bytes)
    requires forall i :: !BearerAt(t, i)
    ensures WithoutBearer(t) == t
    decreases |t|
  {
    if |t| > 0 {
      assert !BearerAt(t, 0);
      forall i ensures !BearerAt(t[1..], i) {
        if BearerAt(t[1..], i) {
          assert t[1..][i..i + |Bearer|] == t[i + 1..i + 1 + |Bearer|];
          assert BearerAt(t, i + 1);
        }
      }
      NoBearerUnchanged(t[1..]);
    }
  }

  /** "Bearer " followed by a token that does not contain it yields the token. */
  lemma BearerStripped(t: Bytes)
    requires forall i :: !BearerAt(t, i)
    ensures WithoutBearer(Bearer + t) == t
  {
    assert (Bearer + t)[..|Bearer|] == Bearer;
    assert (Bearer + t)[|Bearer|..] == t;
    NoBearerUnchanged(t);
  }

  // ---------------------------------------------------------------------------
  // Properties of create

  /** Without an Authorization header the answer is 401 and nothing changes, not even the key. */
  lemma CreateNeedsHeader(t: Tables, key: Option<Bytes>, req: CreateRequest, s: CreateServices)
    requires req.authorization.None?
    ensures CreateOutcome(t, key, req, s) == (t, key, Fail(401, "Token non fourni"))
  {
  }

  /**
   * Authentication comes before validation: while the token check fails, the
   * body is not looked at, nothing is stored, and the answer is a 401 (or the
   * Error `verify` let through).
   */
  lemma TokenCheckedBeforeBody(t: Tables, key: Option<Bytes>, req: CreateRequest, s: CreateServices, otherBody: string)
    requires req.authorization.Some? && Authenticated(key, req.authorization.value, s).1.Failure?
    ensures CreateOutcome(t, key, req, s) == CreateOutcome(t, key, req.(body := otherBody), s)
    ensures var (t', _, r) := CreateOutcome(t, key, req, s);
            t' == t && (r.Uncaught? || (r.Json? && r.status == 401 && ErrorOf(r) == Some("Token invalide")))
  {
  }

  /** An authenticated request whose title or content is empty gets 400 and stores nothing. */
  lemma ValidationAfterAuthentication(t: Tables, key: Option<Bytes>, req: CreateRequest, s: CreateServices)
    requires req.authorization.Some? && Authenticated(key, req.authorization.value, s).1.Success?
    requires var data := s.jsonDecode(req.body); Empty(Index(data, "title")) || Empty(Index(data, "content"))
    ensures var (t', _, r) := CreateOutcome(t, key, req, s);
            t' == t && r == Fail(400, "Titre et contenu requis")
  {
  }

  /** Storing the built article: a 201 with the next id and a new row, or the rows of both tables unchanged. */
  lemma StoredOnlyOnSuccess(t: Tables, b: ArticleFields, s: CreateServices)
    ensures var (t', r) := Stored(t, b, s);
            (r == Created(t.nextId) && t'.nextId == t.nextId + 1) || (t'.articles == t.articles && t'.links == t.links && !(r.Json? && r.status == 201))
  {
    CreateAllOrNothing(t, b, s.now, s.nowText, s.jsonEncode, s.fault);
  }

  lemma PersistedOnlyOnSuccess(t: Tables, data: Value, userId: Value, s: CreateServices)
    ensures var (t', r) := Persisted(t, data, userId, s);
            (r == Created(t.nextId) && t'.nextId == t.nextId + 1) || (t'.articles == t.articles && t'.links == t.links && !(r.Json? && r.status == 201))
  {
    var built := Built(NewArticleData(data, userId, s.nowText), Index(data, "tags"), s);
    if built.Success? {
      StoredOnlyOnSuccess(t, built.value, s);
    }
  }

  /** Only a 201 changes the rows, and it reports the id the new row got. */
  lemma CreateStoresOnlyOnSuccess(t: Tables, key: Option<Bytes>, req: CreateRequest, s: CreateServices)
    ensures var (t', _, r) := CreateOutcome(t, key, req, s);
            (r == Created(t.nextId) && t'.nextId == t.nextId + 1) || (t'.articles == t.articles && t'.links == t.links && !(r.Json? && r.status == 201))
  {
    if req.authorization.Some? && Authenticated(key, req.authorization.value, s).1.Success? {
      PersistedOnlyOnSuccess(t, s.jsonDecode(req.body), Authenticated(key, req.authorization.value, s).1.value, s);
    }
  }

  /** One setter call of `hydrate` on the entry at `k`. */
  lemma HydrateEntry(a: ArticleFields, d: seq<(Key, Value)>, k: nat, f: Field, jsonDecode: string -> Value)
    requires k < |d| && d[k].0 == StrKey(PropertyName(f)) && Assign(a, f, d[k].1, jsonDecode).Success?
    ensures Hydrated(a, d[k..], jsonDecode) == Hydrated(Assign(a, f, d[k].1, jsonDecode).value, d[k + 1..], jsonDecode)
  {
    SetterForProperty(f, PropertyName(f));
    assert d[k..][0] == d[k];
    assert d[k..][1..] == d[k + 1..];
  }

  /** Leading entries the setters accept, then one a setter rejects: `hydrate` throws. */
  lemma HydrateRejectedAfter(d: seq<(Key, Value)>, fs: seq<Field>, states: seq<ArticleFields>, f: Field,
                             jsonDecode: string -> Value)
    requires |fs| < |d| && |states| == |fs| + 1
    requires forall i :: 0 <= i < |fs| ==> d[i].0 == StrKey(PropertyName(fs[i]))
    requires forall i :: 0 <= i < |fs| ==> Assign(states[i], fs[i], d[i].1, jsonDecode) == Success(states[i + 1])
    requires d[|fs|].0 == StrKey(PropertyName(f)) && Assign(states[|fs|], f, d[|fs|].1, jsonDecode).Failure?
    ensures Hydrated(states[0], d, jsonDecode).1.Some?
  {
    HydrateAccepted(d, fs, states, jsonDecode);
    HydrateRejected(states[|fs|], d, |fs|, f, jsonDecode);
  }

  /** The constructor's array of `create` when the body's fields have the types the setters take. */
  function TypedArticleData(title: string, content: string, introduction: string, userId: int, nowText: string)
    : seq<(Key, Value)>
  {
    [(StrKey("title"), Str(title)),
     (StrKey("content"), Str(content)),
     (StrKey("introduction"), Str(introduction)),
     (StrKey("cover_image"), Null),
     (StrKey("id_user"), Int(userId)),
     (StrKey("published_at"), Str(nowText)),
     (StrKey("created_at"), Str(nowText))]
  }

  /** With string title, content and introduction and an int user id, the new article holds exactly them. */
  lemma TypedArticleHydrated(title: string, content: string, introduction: string, userId: int, nowText: string,
                             jsonDecode: string -> Value)
    ensures Hydrated(Blank, TypedArticleData(title, content, introduction, userId, nowText), jsonDecode)
            == (Blank.(title := Some(title), content := Some(content), introduction := Some(introduction),
                       idUser := Some(userId), publishedAt := Some(nowText), createdAt := Some(nowText)), None)
  {
    var d := TypedArticleData(title, content, introduction, userId, nowText);
    var a1 := Blank.(title := Some(title));
    var a2 := a1.(content := Some(content));
    var a3 := a2.(introduction := Some(introduction));
    var a5 := a3.(idUser := Some(userId));
    var a6 := a5.(publishedAt := Some(nowText));
    var states := [Blank, a1, a2, a3, a3, a5, a6, a6.(createdAt := Some(nowText))];
    HydrateAccepted(d, [Title, Content, Introduction, CoverImage, IdUser, PublishedAt, CreatedAt], states, jsonDecode);
    assert d[7..] == [];
  }

  /**
   * `hydrate` over leading entries each naming a setter that accepts its value:
   * the properties pass through `states`, one setter call at a time, and
   * `hydrate` goes on with the rest of the array.
   */
  lemma {:induction false} HydrateAccepted(d: seq<(Key, Value)>, fs: seq<Field>, states: seq<ArticleFields>,
                                           jsonDecode: string -> Value)
    requires |fs| <= |d| && |states| == |fs| + 1
    requires forall i :: 0 <= i < |fs| ==> d[i].0 == StrKey(PropertyName(fs[i]))
    requires forall i :: 0 <= i < |fs| ==> Assign(states[i], fs[i], d[i].1, jsonDecode) == Success(states[i + 1])
    ensures Hydrated(states[0], d, jsonDecode) == Hydrated(states[|fs|], d[|fs|..], jsonDecode)
    decreases |fs|
  {
    if |fs| == 0 {
      assert d[0..] == d;
    } else {
      assert d[0..] == d;
      assert d[0].0 == StrKey(PropertyName(fs[0]));
      assert Assign(states[0], fs[0], d[0].1, jsonDecode) == Success(states[1]);
      HydrateEntry(states[0], d, 0, fs[0], jsonDecode);
      var rest := d[1..];
      HydrateAccepted(rest, fs[1..], states[1..], jsonDecode);
      assert rest[|fs| - 1..] == d[|fs|..];
      assert states[1..][|fs| - 1] == states[|fs|];
    }
  }

  /** A setter that rejects its value stops `hydrate` with that Error. */
  lemma HydrateRejected(a: ArticleFields, d: seq<(Key, Value)>, k: nat, f: Field, jsonDecode: string -> Value)
    requires k < |d| && d[k].0 == StrKey(PropertyName(f)) && Assign(a, f, d[k].1, jsonDecode).Failure?
    ensures Hydrated(a, d[k..], jsonDecode) == (a, Some(Assign(a, f, d[k].1, jsonDecode).error))
  {
    SetterForProperty(f, PropertyName(f));
    assert d[k..][0] == d[k];
  }

  /** A title that is not a string reaches `setTitle(string)` and raises a TypeError. */
  lemma NonStringTitleEscapes(t: Tables, key: Option<Bytes>, req: CreateRequest, s: CreateServices)
    requires req.authorization.Some? && Authenticated(key, req.authorization.value, s).1.Success?
    requires var data := s.jsonDecode(req.body);
             !Empty(Index(data, "title")) && !Empty(Index(data, "content")) && !Index(data, "title").Str?
    ensures var (t', _, r) := CreateOutcome(t, key, req, s);
            t' == t && r == Uncaught(TypeError)
  {
    var data := s.jsonDecode(req.body);
    var d := NewArticleData(data, Authenticated(key, req.authorization.value, s).1.value, s.nowText);
    SetterForProperty(Title, "title");
    assert d[0].0 == StrKey("title") && d[0].1 == Index(data, "title");
  }

  /** The properties `new Article` sets from a body whose fields have the setters' types. */
  function TypedArticle(title: string, content: string, introduction: string, userId: int, nowText: string): ArticleFields {
    Blank.(title := Some(title), content := Some(content), introduction := Some(introduction),
           idUser := Some(userId), publishedAt := Some(nowText), createdAt := Some(nowText))
  }

  /**
   * `new Article` on the array of `create` throws nothing only for a string
   * title, content and introduction and an int (or null) user id, and then
   * holds exactly them.
   */
  lemma HydratedFromTypedFields(data: Value, userId: Value, nowText: string, jsonDecode: string -> Value)
    requires Hydrated(Blank, NewArticleData(data, userId, nowText), jsonDecode).1.None?
    ensures Index(data, "title").Str? && Index(data, "content").Str? && (userId.Int? || userId.Null?)
    ensures Coalesce(data, "introduction", Str("")).Str?
    ensures userId.Int? ==>
              Hydrated(Blank, NewArticleData(data, userId, nowText), jsonDecode).0
              == TypedArticle(Index(data, "title").s, Index(data, "content").s,
                              Coalesce(data, "introduction", Str("")).s, userId.n, nowText)
  {
    var d := NewArticleData(data, userId, nowText);
    HydratedEntries(d, Index(data, "title"), Index(data, "content"), Coalesce(data, "introduction", Str("")),
                    userId, nowText, jsonDecode);
  }

  lemma HydratedEntries(d: seq<(Key, Value)>, title: Value, content: Value, intro: Value, userId: Value,
                        nowText: string, jsonDecode: string -> Value)
    requires |d| == 7 && intro != Null
    requires d[0] == (StrKey("title"), title) && d[1] == (StrKey("content"), content)
    requires d[2] == (StrKey("introduction"), intro) && d[3] == (StrKey("cover_image"), Null)
    requires d[4] == (StrKey("id_user"), userId) && d[5] == (StrKey("published_at"), Str(nowText))
    requires d[6] == (StrKey("created_at"), Str(nowText))
    ensures Hydrated(Blank, d, jsonDecode).1.None? ==> title.Str? && content.Str? && intro.Str? && (userId.Int? || userId.Null?)
    ensures userId.Int? && Hydrated(Blank, d, jsonDecode).1.None? ==>
              Hydrated(Blank, d, jsonDecode).0 == TypedArticle(title.s, content.s, intro.s, userId.n, nowText)
  {
    if !title.Str? {
      HydrateRejectedAfter(d, [], [Blank], Title, jsonDecode);
    } else if !content.Str? {
      var a1 := Blank.(title := Some(title.s));
      HydrateRejectedAfter(d, [Title], [Blank, a1], Content, jsonDecode);
    } else if !intro.Str? {
      var a1 := Blank.(title := Some(title.s));
      var a2 := a1.(content := Some(content.s));
      HydrateRejectedAfter(d, [Title, Content], [Blank, a1, a2], Introduction, jsonDecode);
    } else if !(userId.Int? || userId.Null?) {
      var a1 := Blank.(title := Some(title.s));
      var a2 := a1.(content := Some(content.s));
      var a3 := a2.(introduction := Some(intro.s));
      HydrateRejectedAfter(d, [Title, Content, Introduction, CoverImage], [Blank, a1, a2, a3, a3], IdUser, jsonDecode);
    } else if userId.Int? {
      assert d == TypedArticleData(title.s, content.s, intro.s, userId.n, nowText);
      TypedArticleHydrated(title.s, content.s, intro.s, userId.n, nowText, jsonDecode);
    }
  }

  /** What `create` builds: the typed fields of the body, slugged, then tagged. */
  lemma BuiltFromTypedFields(data: Value, userId: Value, s: CreateServices)
    requires userId != Null
    requires Built(NewArticleData(data, userId, s.nowText), Index(data, "tags"), s).Success?
    ensures Index(data, "title").Str? && Index(data, "content").Str? && userId.Int?
    ensures Coalesce(data, "introduction", Str("")).Str?
    ensures Built(NewArticleData(data, userId, s.nowText), Index(data, "tags"), s).value
            == WithTags(Slugged(TypedArticle(Index(data, "title").s, Index(data, "content").s,
                                             Coalesce(data, "introduction", Str("")).s, userId.n, s.nowText), s.now),
                        Index(data, "tags"), s.jsonDecode).value
  {
    HydratedFromTypedFields(data, userId, s.nowText, s.jsonDecode);
  }

  /** A 201 from storing `b`: the tables gained exactly the row built from `b`. */
  lemma StoredCreated(t: Tables, b: ArticleFields, s: CreateServices)
    requires Consistent(t) && Stored(t, b, s).1 == Created(t.nextId)
    ensures b.title.Some? && b.slug.Some? && b.content.Some?
    ensures var t' := Stored(t, b, s).0;
            Consistent(t') && t'.articles == t.articles + [InsertedRow(t.nextId, SlugFilled(b, s.now), s.nowText, s.jsonEncode)]
  {
    CreatedRowFound(t, b, s.now, s.nowText, s.jsonEncode, s.fault);
  }

  /** A 201 comes from storing the article built from the body. */
  lemma PersistedIsStored(t: Tables, data: Value, userId: Value, s: CreateServices)
    requires Persisted(t, data, userId, s).1 == Created(t.nextId)
    ensures var built := Built(NewArticleData(data, userId, s.nowText), Index(data, "tags"), s);
            built.Success? && Persisted(t, data, userId, s) == Stored(t, built.value, s)
  {
  }

  /** The article `create` builds from a body whose fields hydrate: typed, slugged, then tagged. */
  lemma BuiltArticle(data: Value, userId: Value, s: CreateServices)
    requires userId != Null && !Empty(Index(data, "title"))
    requires Built(NewArticleData(data, userId, s.nowText), Index(data, "tags"), s).Success?
    ensures var b := Built(NewArticleData(data, userId, s.nowText), Index(data, "tags"), s).value;
            var tags := Index(data, "tags");
            && Index(data, "title").Str? && b.title == Some(Index(data, "title").s)
            && Index(data, "content").Str? && b.content == Some(Index(data, "content").s)
            && Coalesce(data, "introduction", Str("")).Str?
            && b.introduction == Some(Coalesce(data, "introduction", Str("")).s)
            && b.coverImage == None && b.publishedAt == Some(s.nowText)
            && userId.Int? && b.idUser == Some(userId.n)
            && b.slug == Some(BaseSlug(Index(data, "title").s) + "-" + LastFour(IntToString(s.now)))
            && SlugFilled(b, s.now) == b
            && ((b.tags.Some? && b.tags.value != []) <==>
                  !Empty(tags) && tags.Str? && s.jsonDecode(tags.s).Arr? && s.jsonDecode(tags.s).entries != [])
  {
    BuiltFromTypedFields(data, userId, s);
    var title := Index(data, "title").s;
    var a := TypedArticle(title, Index(data, "content").s, Coalesce(data, "introduction", Str("")).s, userId.n, s.nowText);
    SluggedTyped(a, s.now);
    TaggedOnlyInTags(Slugged(a, s.now), Index(data, "tags"), s.jsonDecode);
  }

  /** On an article without tags, the tags step changes at most the tags, and sets a non-empty list exactly for a non-empty decoded array. */
  lemma TaggedOnlyInTags(a: ArticleFields, v: Value, jsonDecode: string -> Value)
    requires a.tags.None? && WithTags(a, v, jsonDecode).Success?
    ensures var b := WithTags(a, v, jsonDecode).value;
            && b == a.(tags := b.tags)
            && ((b.tags.Some? && b.tags.value != []) <==>
                  !Empty(v) && v.Str? && jsonDecode(v.s).Arr? && jsonDecode(v.s).entries != [])
  {
  }

  /** `generateSlug()` on a non-empty title fills the slug, with a dash after the base, and nothing else. */
  lemma SluggedTyped(a: ArticleFields, now: int)
    requires a.title.Some? && !Empty(Str(a.title.value))
    ensures var slug := BaseSlug(a.title.value) + "-" + LastFour(IntToString(now));
            && Slugged(a, now) == a.(slug := Some(slug))
            && !Empty(Str(slug))
  {
    var slug := BaseSlug(a.title.value) + "-" + LastFour(IntToString(now));
    assert slug[|BaseSlug(a.title.value)|] == '-';
  }

  /** The row a 201 stored for the body `data` and the token's user id `userId`. */
  lemma PersistedCreated(t: Tables, data: Value, userId: Value, s: CreateServices)
    requires Consistent(t) && userId != Null
    requires Persisted(t, data, userId, s).1 == Created(t.nextId)
    ensures var t' := Persisted(t, data, userId, s).0;
            |t'.articles| == |t.articles| + 1 &&
            var row := t'.articles[|t.articles|];
            var tags := Index(data, "tags");
            && t'.articles[..|t.articles|] == t.articles
            && row.id == t.nextId && Consistent(t')
            && Index(data, "title").Str? && row.title == Index(data, "title").s
            && Index(data, "content").Str? && row.content == Index(data, "content").s
            && Coalesce(data, "introduction", Str("")).Str?
            && row.introduction == Some(Coalesce(data, "introduction", Str("")).s)
            && row.coverImage == None && row.publishedAt == Some(s.nowText)
            && userId.Int? && row.idUser == Some(userId.n)
            && row.slug == BaseSlug(row.title) + "-" + LastFour(IntToString(s.now))
            && (row.tags.Some? <==> !Empty(tags) && tags.Str? && s.jsonDecode(tags.s).Arr?
                                    && s.jsonDecode(tags.s).entries != [])
  {
    var b := Built(NewArticleData(data, userId, s.nowText), Index(data, "tags"), s).value;
    PersistedIsStored(t, data, userId, s);
    BuiltArticle(data, userId, s);
    StoredCreated(t, b, s);
    var row := InsertedRow(t.nextId, b, s.nowText, s.jsonEncode);
    assert (t.articles + [row])[..|t.articles|] == t.articles;
  }

  /**
   * A 201 comes only past the token check, with a non-null user id, and is
   * then the answer of storing the body for that user (`PersistedCreated`
   * says what the stored row holds).
   */
  lemma CreatedAfterAuthentication(t: Tables, key: Option<Bytes>, req: CreateRequest, s: CreateServices)
    requires CreateOutcome(t, key, req, s).2 == Created(t.nextId)
    ensures req.authorization.Some? && Authenticated(key, req.authorization.value, s).1.Success?
    ensures var (key', auth) := Authenticated(key, req.authorization.value, s);
            var (t', r) := Persisted(t, s.jsonDecode(req.body), auth.value, s);
            auth.value != Null && CreateOutcome(t, key, req, s) == (t', key', r)
  {
    if req.authorization.Some? {
      var auth := Authenticated(key, req.authorization.value, s).1;
      if auth.Success? {
        AuthenticatedUser(key, req.authorization.value, s);
        AuthenticatedOutcome(t, key, req, s);
      } else {
        TokenCheckedBeforeBody(t, key, req, s, req.body);
      }
    }
  }

  /** Past the token check, `create()` is the rest of the action on the body and the user id. */
  lemma AuthenticatedOutcome(t: Tables, key: Option<Bytes>, req: CreateRequest, s: CreateServices)
    requires req.authorization.Some? && Authenticated(key, req.authorization.value, s).1.Success?
    ensures var (key', auth) := Authenticated(key, req.authorization.value, s);
            var (t', r) := Persisted(t, s.jsonDecode(req.body), auth.value, s);
            CreateOutcome(t, key, req, s) == (t', key', r)
  {
  }

  /** The user id the token check hands on is never null. */
  lemma AuthenticatedUser(key: Option<Bytes>, authorization: Bytes, s: CreateServices)
    ensures Authenticated(key, authorization, s).1.Success? ==> Authenticated(key, authorization, s).1.value != Null
  {
  }

  // ---------------------------------------------------------------------------
  // Properties of uploadImage

  /** Only the presence of the Authorization header is checked: its value never matters. */
  lemma UploadIgnoresToken(t: Tables, id: int, req: UploadRequest, fs: Filesystem, s: UploadServices, other: Bytes)
    requires req.authorization.Some?
    ensures UploadOutcome(t, id, req, fs, s) == UploadOutcome(t, id, req.(authorization := Some(other)), fs, s)
  {
    assert UploadChecks(id, req, fs, s) == UploadChecks(id, req.(authorization := Some(other)), fs, s);
  }

  /**
   * The file is moved as soon as the checks pass, before the article is looked
   * up: a missing article still leaves the file in place and answers 500.
   */
  lemma MovedBeforeLookup(t: Tables, id: int, req: UploadRequest, fs: Filesystem, s: UploadServices)
    ensures var (_, moved, _) := UploadOutcome(t, id, req, fs, s);
            moved.Some? <==> UploadChecks(id, req, fs, s).Success?
    ensures UploadChecks(id, req, fs, s).Success? && ById(t, id, s.jsonDecode, s.readFails) == Success(None) ==>
              UploadOutcome(t, id, req, fs, s)
              == (t, Some(FileName(id, s.uniqid, req.image.value.name)), Detailed(500, UploadFailed, "Article non trouvé"))
  {
    if UploadChecks(id, req, fs, s).Success? {
      var fileName := UploadChecks(id, req, fs, s).value;
      assert fileName == FileName(id, s.uniqid, req.image.value.name);
      UploadAfterChecks(t, id, req, fs, s);
      if ById(t, id, s.jsonDecode, s.readFails) == Success(None) {
        CoverOfMissingArticle(t, id, fileName, s);
      }
    } else {
      ChecksRejectWithError(t, id, req, fs, s);
    }
  }

  /** A missing article leaves the tables as they were and answers 500. */
  lemma CoverOfMissingArticle(t: Tables, id: int, fileName: string, s: UploadServices)
    requires ById(t, id, s.jsonDecode, s.readFails) == Success(None)
    ensures CoverAttached(t, id, fileName, s) == (t, Detailed(500, UploadFailed, "Article non trouvé"))
  {
  }

  /** The ladder's rejections, in order: 401, 400 for the file, 400 for its type, 500 for its size. */
  lemma UploadRejections(t: Tables, id: int, req: UploadRequest, fs: Filesystem, s: UploadServices)
    ensures req.authorization.Some? && (req.image.None? || req.image.value.error != 0) ==>
              UploadOutcome(t, id, req, fs, s) == (t, None, Fail(400, "Image non fournie ou invalide"))
    ensures req.authorization.Some? && req.image.Some? && req.image.value.error == 0
            && req.image.value.mime !in AllowedTypes ==>
              UploadOutcome(t, id, req, fs, s) == (t, None, Fail(400, "Format d'image non supporté"))
    ensures var r := UploadOutcome(t, id, req, fs, s).2;
            req.image.Some? && req.image.value.size > MaxFileSize ==> r.Json? && r.status != 200
  {
  }

  /** The article's id survives hydration when no later key names `id_article`. */
  lemma {:induction false} HydratedKeepsId(a: ArticleFields, data: seq<(Key, Value)>, jsonDecode: string -> Value)
    requires forall i :: 0 <= i < |data| && data[i].0.StrKey? ==> Lower(data[i].0.s) != "id_article"
    ensures Hydrated(a, data, jsonDecode).0.idArticle == a.idArticle
    decreases |data|
  {
    if |data| > 0 && data[0].0.StrKey? {
      var f := SetterFor(data[0].0.s);
      if f.Some? {
        assert f.value != IdArticle;
        var next := Assign(a, f.value, data[0].1, jsonDecode);
        if next.Success? {
          HydratedKeepsId(next.value, data[1..], jsonDecode);
        }
      } else {
        HydratedKeepsId(a, data[1..], jsonDecode);
      }
    }
  }

  /** An article loaded from a row carries that row's id. */
  lemma LoadedId(row: Row, t: Tables, jsonDecode: string -> Value)
    requires Loaded(row, t, jsonDecode).Success?
    ensures Loaded(row, t, jsonDecode).value.idArticle == Some(row.id)
  {
    var d := RowData(row, Joined(CategoryIds(t.links, row.id), t.categoryIds));
    SetterForProperty(IdArticle, "id_article");
    assert d[0] == (StrKey("id_article"), Int(row.id));
    var a1 := Blank.(idArticle := Some(row.id));
    forall i | 0 <= i < |d[1..]| && d[1..][i].0.StrKey?
      ensures Lower(d[1..][i].0.s) != "id_article"
    {
      var k := d[1..][i].0.s;
      if |k| == 10 {
        assert Lower(k)[0] == LowerChar(k[0]);
      }
    }
    HydratedKeepsId(a1, d[1..], jsonDecode);
  }

  /** Every rejection before the move answers with an error status. */
  lemma ChecksRejectWithError(t: Tables, id: int, req: UploadRequest, fs: Filesystem, s: UploadServices)
    ensures var c := UploadChecks(id, req, fs, s);
            c.Failure? ==> c.error.Json? && c.error.status in {400, 401, 500}
                           && UploadOutcome(t, id, req, fs, s) == (t, None, c.error)
  {
  }

  /** Once the checks pass, the outcome is the move followed by attaching the cover. */
  lemma UploadAfterChecks(t: Tables, id: int, req: UploadRequest, fs: Filesystem, s: UploadServices)
    requires UploadChecks(id, req, fs, s).Success?
    ensures var fileName := UploadChecks(id, req, fs, s).value;
            var (t', r) := CoverAttached(t, id, fileName, s);
            UploadOutcome(t, id, req, fs, s) == (t', Some(fileName), r)
  {
  }

  /**
   * A 200 after the move sets the cover of the article with that id to the
   * file's path, and changes no other article.
   */
  lemma CoverAttachedSets(t: Tables, id: int, fileName: string, s: UploadServices)
    requires CoverAttached(t, id, fileName, s).1.Json? && CoverAttached(t, id, fileName, s).1.status == 200
    ensures var (t', r) := CoverAttached(t, id, fileName, s);
            && r == Uploaded(ImagePath(fileName))
            && |t'.articles| == |t.articles|
            && forall i :: 0 <= i < |t.articles| ==>
                 (t.articles[i].id == id ==> t'.articles[i].coverImage == Some(ImagePath(fileName)))
                 && (t.articles[i].id != id ==> t'.articles[i] == t.articles[i])
  {
    var row := FirstRow(t.articles, IdIs(id)).value;
    LoadedId(row, t, s.jsonDecode);
    var a := ById(t, id, s.jsonDecode, s.readFails).value.value;
    UpdateOnlyItsRow(t, a.(coverImage := Some(ImagePath(fileName))), s.jsonEncode, s.fault);
  }

  /**
   * A 200 writes back the whole loaded article, not just its cover: the id row
   * is rewritten from the article hydrated out of it, and the article's links
   * are replaced by the ids the categories JOIN gave, so a link to a missing
   * category, or one holding no integer, is dropped; other articles keep their links.
   */
  lemma CoverAttachedRewrites(t: Tables, id: int, fileName: string, s: UploadServices)
    requires CoverAttached(t, id, fileName, s).1.Json? && CoverAttached(t, id, fileName, s).1.status == 200
    ensures FirstRow(t.articles, IdIs(id)).Some?
    ensures var row := FirstRow(t.articles, IdIs(id)).value;
            && Loaded(row, t, s.jsonDecode).Success?
            && var a := Loaded(row, t, s.jsonDecode).value.(coverImage := Some(ImagePath(fileName)));
               && a.title.Some? && a.slug.Some? && a.content.Some?
               && var t' := CoverAttached(t, id, fileName, s).0;
                  && |t'.articles| == |t.articles|
                  && (forall i :: 0 <= i < |t.articles| && t.articles[i].id == id ==>
                        t'.articles[i] == Rewritten(t.articles[i], a, s.jsonEncode))
                  && CategoryIds(t'.links, id) == Joined(CategoryIds(t.links, id), t.categoryIds)
                  && (forall j :: j != id ==> CategoryIds(t'.links, j) == CategoryIds(t.links, j))
  {
    var row := FirstRow(t.articles, IdIs(id)).value;
    LoadedId(row, t, s.jsonDecode);
    LoadedCategories(row, t, s.jsonDecode);
    var a := Loaded(row, t, s.jsonDecode).value.(coverImage := Some(ImagePath(fileName)));
    assert a.idArticle == Some(id);
    UpdateReplacesLinks(t, a, s.jsonEncode, s.fault);
  }

  /**
   * After a 200 the article links only integer ids of existing categories: a
   * string link is converted or dropped, and a link to a missing category is gone.
   */
  lemma CoverDropsUnknownLinks(t: Tables, id: int, fileName: string, s: UploadServices)
    requires CoverAttached(t, id, fileName, s).1.Json? && CoverAttached(t, id, fileName, s).1.status == 200
    ensures var t' := CoverAttached(t, id, fileName, s).0;
            forall x :: x in CategoryIds(t'.links, id) ==> x.Int? && x.n in t.categoryIds
  {
    CoverAttachedRewrites(t, id, fileName, s);
    JoinedMembers(CategoryIds(t.links, id), t.categoryIds);
  }

  /**
   * A 200 comes only once every check passed and the file was moved under its
   * generated name; it is then the answer of attaching that cover
   * (`CoverAttachedSets` says what the update changed).
   */
  lemma UploadSetsCover(t: Tables, id: int, req: UploadRequest, fs: Filesystem, s: UploadServices)
    requires UploadOutcome(t, id, req, fs, s).2.Json? && UploadOutcome(t, id, req, fs, s).2.status == 200
    ensures req.authorization.Some? && req.image.Some?
    ensures UploadChecks(id, req, fs, s) == Success(FileName(id, s.uniqid, req.image.value.name))
    ensures var fileName := FileName(id, s.uniqid, req.image.value.name);
            var (t', r) := CoverAttached(t, id, fileName, s);
            UploadOutcome(t, id, req, fs, s) == (t', Some(fileName), r) && r.Json? && r.status == 200
  {
    var checks := UploadChecks(id, req, fs, s);
    ChecksRejectWithError(t, id, req, fs, s);
    if checks.Success? {
      UploadAfterChecks(t, id, req, fs, s);
    }
  }

  /** Only a 200 changes the tables. */
  lemma UploadStoresOnlyOnSuccess(t: Tables, id: int, req: UploadRequest, fs: Filesystem, s: UploadServices)
    ensures var (t', _, r) := UploadOutcome(t, id, req, fs, s);
            t' == t || (r.Json? && r.status == 200)
  {
    if UploadChecks(id, req, fs, s).Success? {
      var fileName := UploadChecks(id, req, fs, s).value;
      var found := ById(t, id, s.jsonDecode, s.readFails);
      if found.Success? && found.value.Some? {
        UpdateAllOrNothing(t, found.value.value.(coverImage := Some(ImagePath(fileName))), s.jsonEncode, s.fault);
      }
    }
  }

  /** The stored file name: the article id, the unique part, and an extension free of '.' and '/'. */
  lemma FileNameShape(id: int, uniqid: string, name: string)
    ensures var f := FileName(id, uniqid, name);
            var prefix := "article_" + IntToString(id) + "_" + uniqid + ".";
            |f| >= |prefix| && f[..|prefix|] == prefix && '.' !in f[|prefix|..] && '/' !in f[|prefix|..]
  {
    var prefix := "article_" + IntToString(id) + "_" + uniqid + ".";
    assert FileName(id, uniqid, name) == prefix + Extension(name);
    assert (prefix + Extension(name))[|prefix|..] == Extension(name);
  }
}
