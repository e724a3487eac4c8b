/**
 * The `Article` entity: eleven typed properties, filled by `hydrate` through
 * the setter whose name matches each key (method names are case-insensitive),
 * read back by `toArray`, and a slug derived from the title. The file declares
 * `strict_types`, so a setter given a value of the wrong type throws a
 * TypeError, and `created_at`, `title`, `slug` and `content` start
 * uninitialized (`None` here).
 */
module ArticleModel {
  import opened Wrappers
  import opened Php
  import opened PhpNumeric

  type Array = seq<(Key, Value)>

  /** The eleven properties, in declaration order. */
  datatype Field =
    | IdArticle | CoverImage | PublishedAt | CreatedAt | Title | Slug
    | Content | Introduction | IdUser | Categories | Tags

  /** A snapshot of an article's properties. */
  datatype ArticleFields = ArticleFields(
    idArticle: Option<int>,
    coverImage: Option<string>,
    publishedAt: Option<string>,
    createdAt: Option<string>,
    title: Option<string>,
    slug: Option<string>,
    content: Option<string>,
    introduction: Option<string>,
    idUser: Option<int>,
    categories: Option<Array>,
    tags: Option<Array>)

  /** A freshly constructed article before `hydrate` runs. */
  const Blank := ArticleFields(None, None, None, None, None, None, None, None, None, None, None)

  const TypeError := "TypeError"

  function PropertyName(f: Field): string {
    match f
    case IdArticle => "id_article"
    case CoverImage => "cover_image"
    case PublishedAt => "published_at"
    case CreatedAt => "created_at"
    case Title => "title"
    case Slug => "slug"
    case Content => "content"
    case Introduction => "introduction"
    case IdUser => "id_user"
    case Categories => "categories"
    case Tags => "tags"
  }

  function LowerChar(c: char): char {
    if 'A' <= c <= 'Z' then (c as int + 32) as char else c
  }

  /** ASCII lower case, as PHP compares method names and as `strtolower` works. */
  function Lower(s: string): (r: string)
    ensures |r| == |s|
    ensures forall i :: 0 <= i < |r| ==> !('A' <= r[i] <= 'Z')
    ensures forall i :: 0 <= i < |s| ==> r[i] == s[i] || ('A' <= s[i] <= 'Z' && r[i] as int == s[i] as int + 32)
  {
    seq(|s|, i requires 0 <= i < |s| => LowerChar(s[i]))
  }

  /**
   * `method_exists($this, 'set' . ucfirst($key))`: the setter named after the
   * key, ignoring case. Every setter is `set` followed by its property's name.
   */
  function SetterFor(key: string): (r: Option<Field>)
    ensures r.Some? ==> PropertyName(r.value) == Lower(key)
    ensures r.None? ==> forall f: Field :: PropertyName(f) != Lower(key)
  {
    var k := Lower(key);
    if k == "id_article" then Some(IdArticle)
    else if k == "cover_image" then Some(CoverImage)
    else if k == "published_at" then Some(PublishedAt)
    else if k == "created_at" then Some(CreatedAt)
    else if k == "title" then Some(Title)
    else if k == "slug" then Some(Slug)
    else if k == "content" then Some(Content)
    else if k == "introduction" then Some(Introduction)
    else if k == "id_user" then Some(IdUser)
    else if k == "categories" then Some(Categories)
    else if k == "tags" then Some(Tags)
    else None
  }

  // ---------------------------------------------------------------------------
  // Parameter and property types under strict_types

  /** A `?int` parameter. */
  function AsNullableInt(v: Value): Result<Option<int>, string> {
    match v
    case Null => Success(None)
    case Int(n) => Success(Some(n))
    case _ => Failure(TypeError)
  }

  /** A `?string` parameter. */
  function AsNullableString(v: Value): Result<Option<string>, string> {
    match v
    case Null => Success(None)
    case Str(s) => Success(Some(s))
    case _ => Failure(TypeError)
  }

  /** A `string` parameter: null is rejected too. */
  function AsString(v: Value): Result<Option<string>, string> {
    match v
    case Str(s) => Success(Some(s))
    case _ => Failure(TypeError)
  }

  /** A `?array` parameter, or an assignment to a `?array` property. */
  function AsNullableArray(v: Value): Result<Option<Array>, string> {
    match v
    case Null => Success(None)
    case Arr(e) => Success(Some(e))
    case _ => Failure(TypeError)
  }

  /**
   * `setTags($tags)`: a string is decoded with `json_decode($tags, true)`
   * (null when it is not JSON); whatever results, or the argument itself,
   * is assigned to the `?array` property.
   */
  function TagsValue(v: Value, jsonDecode: string -> Value): Result<Option<Array>, string> {
    match v
    case Str(s) => AsNullableArray(jsonDecode(s))
    case _ => AsNullableArray(v)
  }

  /** `$this->set<Field>($v)`: the new properties, or the TypeError. */
  function Assign(a: ArticleFields, f: Field, v: Value, jsonDecode: string -> Value): Result<ArticleFields, string> {
    match f
    case IdArticle => var x :- AsNullableInt(v); Success(a.(idArticle := x))
    case CoverImage => var x :- AsNullableString(v); Success(a.(coverImage := x))
    case PublishedAt => var x :- AsNullableString(v); Success(a.(publishedAt := x))
    case CreatedAt => var x :- AsString(v); Success(a.(createdAt := x))
    case Title => var x :- AsString(v); Success(a.(title := x))
    case Slug => var x :- AsString(v); Success(a.(slug := x))
    case Content => var x :- AsString(v); Success(a.(content := x))
    case Introduction => var x :- AsNullableString(v); Success(a.(introduction := x))
    case IdUser => var x :- AsNullableInt(v); Success(a.(idUser := x))
    case Categories => var x :- AsNullableArray(v); Success(a.(categories := x))
    case Tags => var x :- TagsValue(v, jsonDecode); Success(a.(tags := x))
  }

  /**
   * `hydrate($data)` from properties `a`: the properties afterwards and the
   * TypeError that stopped it, if any. Assignments made before the error stay.
   * An int key is a TypeError too: `ucfirst` takes a string.
   */
  function Hydrated(a: ArticleFields, data: Array, jsonDecode: string -> Value): (ArticleFields, Option<string>)
    decreases |data|
  {
    if |data| == 0 then (a, None)
    else
      match data[0].0
      case IntKey(_) => (a, Some(TypeError))
      case StrKey(k) =>
        match SetterFor(k)
        case None => Hydrated(a, data[1..], jsonDecode)
        case Some(f) =>
          match Assign(a, f, data[0].1, jsonDecode)
          case Failure(e) => (a, Some(e))
          case Success(a') => Hydrated(a', data[1..], jsonDecode)
  }

  // ---------------------------------------------------------------------------
  // toArray

  function IntOrNull(x: Option<int>): Value {
    if x.Some? then Int(x.value) else Null
  }

  function StrOrNull(x: Option<string>): Value {
    if x.Some? then Str(x.value) else Null
  }

  function ArrOrNull(x: Option<Array>): Value {
    if x.Some? then Arr(x.value) else Null
  }

  function Uninitialized(property: string): string {
    "Typed property App\\model\\Article::$" + property + " must not be accessed before initialization"
  }

  /**
   * `toArray()`: the eleven properties under their names; reading the first
   * uninitialized one (in the order the array lists them) throws an Error.
   */
  function ToArray(a: ArticleFields): (r: Result<Array, string>)
    ensures r.Success? <==> a.createdAt.Some? && a.title.Some? && a.slug.Some? && a.content.Some?
    ensures r.Success? ==> |r.value| == 11 && UniqueKeys(r.value)
  {
    if a.createdAt.None? then Failure(Uninitialized("created_at"))
    else if a.title.None? then Failure(Uninitialized("title"))
    else if a.slug.None? then Failure(Uninitialized("slug"))
    else if a.content.None? then Failure(Uninitialized("content"))
    else Success([
      (StrKey("id_article"), IntOrNull(a.idArticle)),
      (StrKey("cover_image"), StrOrNull(a.coverImage)),
      (StrKey("published_at"), StrOrNull(a.publishedAt)),
      (StrKey("created_at"), Str(a.createdAt.value)),
      (StrKey("title"), Str(a.title.value)),
      (StrKey("slug"), Str(a.slug.value)),
      (StrKey("introduction"), StrOrNull(a.introduction)),
      (StrKey("content"), Str(a.content.value)),
      (StrKey("id_user"), IntOrNull(a.idUser)),
      (StrKey("categories"), ArrOrNull(a.categories)),
      (StrKey("tags"), ArrOrNull(a.tags))])
  }

  // ---------------------------------------------------------------------------
  // generateSlug

  predicate IsSlugChar(c: char) {
    'a' <= c <= 'z' || '0' <= c <= '9'
  }

  /** `preg_replace('/[^a-z0-9]+/', '-', $s)`: each maximal run of other characters becomes one '-'. */
  function CollapseRuns(s: string): (r: string)
    ensures forall i :: 0 <= i < |r| ==> IsSlugChar(r[i]) || r[i] == '-'
    ensures |s| > 0 && IsSlugChar(s[0]) ==> |r| > 0 && r[0] == s[0]
  {
    if |s| == 0 then []
    else if IsSlugChar(s[0]) then [s[0]] + CollapseRuns(s[1..])
    else if |s| > 1 && !IsSlugChar(s[1]) then CollapseRuns(s[1..])
    else "-" + CollapseRuns(s[1..])
  }

  /** `trim($s, '-')` */
  function TrimDashes(s: string): (r: string)
    ensures |r| > 0 ==> r[0] != '-' && r[|r| - 1] != '-'
    ensures |r| <= |s|
  {
    if |s| > 0 && s[0] == '-' then TrimDashes(s[1..])
    else if |s| > 0 && s[|s| - 1] == '-' then TrimDashes(s[..|s| - 1])
    else s
  }

  /** What `trim` keeps is a slice of its input. */
  lemma {:induction false} TrimDashesSlice(s: string) returns (i: nat, j: nat)
    ensures i <= j <= |s| && TrimDashes(s) == s[i..j]
    decreases |s|
  {
    if |s| > 0 && s[0] == '-' {
      var i', j' := TrimDashesSlice(s[1..]);
      i, j := i' + 1, j' + 1;
      assert s[1..][i'..j'] == s[i..j];
    } else if |s| > 0 && s[|s| - 1] == '-' {
      i, j := TrimDashesSlice(s[..|s| - 1]);
      assert s[..|s| - 1][i..j] == s[i..j];
    } else {
      i, j := 0, |s|;
      assert s == s[0..|s|];
    }
  }

  /** The part of the slug derived from the title. */
  function BaseSlug(title: string): string {
    TrimDashes(CollapseRuns(Lower(title)))
  }

  /** `substr($s, -4)`: the last four characters, or all of a shorter string. */
  function LastFour(s: string): (r: string)
    ensures |r| == if |s| < 4 then |s| else 4
    ensures r == s[|s| - |r|..]
    ensures AllDigits(s) ==> AllDigits(r)
  {
    if |s| <= 4 then s else s[|s| - 4..]
  }

  /**
   * `generateSlug()` at time `now`: a new slug unless `empty($this->title)`
   * (uninitialized, "" or "0"), in which case nothing changes.
   */
  function NewSlug(title: Option<string>, now: int): Option<string> {
    if title.None? || Empty(Str(title.value)) then None
    else Some(BaseSlug(title.value) + "-" + LastFour(IntToString(now)))
  }

  /** A slug shape: lower-case letters, digits and single inner dashes. */
  predicate SlugShaped(s: string) {
    (forall i :: 0 <= i < |s| ==> IsSlugChar(s[i]) || s[i] == '-')
    && (forall i :: 0 <= i < |s| - 1 ==> !(s[i] == '-' && s[i + 1] == '-'))
    && (|s| > 0 ==> s[0] != '-' && s[|s| - 1] != '-')
  }

  // ---------------------------------------------------------------------------
  // The entity

  class Article {
    var idArticle: Option<int>
    var coverImage: Option<string>
    var publishedAt: Option<string>
    var createdAt: Option<string>
    var title: Option<string>
    var slug: Option<string>
    var content: Option<string>
    var introduction: Option<string>
    var idUser: Option<int>
    var categories: Option<Array>
    var tags: Option<Array>

    function Fields(): ArticleFields
      reads this
    {
      ArticleFields(idArticle, coverImage, publishedAt, createdAt, title, slug,
                    content, introduction, idUser, categories, tags)
    }

    method SetFields(a: ArticleFields)
      modifies this
      ensures Fields() == a
    {
      idArticle, coverImage, publishedAt, createdAt := a.idArticle, a.coverImage, a.publishedAt, a.createdAt;
      title, slug, content, introduction := a.title, a.slug, a.content, a.introduction;
      idUser, categories, tags := a.idUser, a.categories, a.tags;
    }

    /** `new Article($data)`; a TypeError it raises is `Hydrated(Blank, data, jsonDecode).1`. */
    constructor(data: Array, jsonDecode: string -> Value)
      ensures Fields() == Hydrated(Blank, data, jsonDecode).0
    {
      idArticle, coverImage, publishedAt, createdAt := None, None, None, None;
      title, slug, content, introduction := None, None, None, None;
      idUser, categories, tags := None, None, None;
      new;
      var _ := Hydrate(data, jsonDecode);
    }

    /** `$this->$method($value)` for the setter of `f`. */
    method Set(f: Field, v: Value, jsonDecode: string -> Value) returns (error: Option<string>)
      modifies this
      ensures match Assign(old(Fields()), f, v, jsonDecode)
              case Success(a) => Fields() == a && error == None
              case Failure(e) => Fields() == old(Fields()) && error == Some(e)
    {
      match Assign(Fields(), f, v, jsonDecode)
      case Success(a) =>
        SetFields(a);
        error := None;
      case Failure(e) =>
        error := Some(e);
    }

    /** `hydrate($data)`: one setter call per recognised key, in order, until one throws. */
    method Hydrate(data: Array, jsonDecode: string -> Value) returns (error: Option<string>)
      modifies this
      ensures (Fields(), error) == Hydrated(old(Fields()), data, jsonDecode)
    {
      var i := 0;
      while i < |data|
        invariant 0 <= i <= |data|
        invariant Hydrated(old(Fields()), data, jsonDecode) == Hydrated(Fields(), data[i..], jsonDecode)
      {
        assert data[i..][1..] == data[i + 1..];
        var key := data[i].0;
        if key.IntKey? {
          return Some(TypeError);
        }
        var setter := SetterFor(key.s);
        if setter.Some? {
          error := Set(setter.value, data[i].1, jsonDecode);
          if error.Some? {
            return;
          }
        }
        i := i + 1;
      }
      error := None;
    }

    /** `generateSlug()` with `time()` = `now`: only the slug may change. */
    method GenerateSlug(now: int)
      modifies this
      ensures NewSlug(old(title), now).Some? ==> Fields() == old(Fields()).(slug := NewSlug(old(title), now))
      ensures NewSlug(old(title), now).None? ==> Fields() == old(Fields())
    {
      if title.Some? && !Empty(Str(title.value)) {
        slug := Some(BaseSlug(title.value) + "-" + LastFour(IntToString(now)));
      }
    }
  }

  // ---------------------------------------------------------------------------
  // Properties

  /** A key without upper-case letters is its own lower case. */
  lemma LowerOfLowerCase(s: string)
    requires forall i :: 0 <= i < |s| ==> !('A' <= s[i] <= 'Z')
    ensures Lower(s) == s
  {
  }

  /** Each property's own name selects its setter, in any letter case. */
  lemma SetterForProperty(f: Field, key: string)
    requires Lower(key) == PropertyName(f)
    ensures SetterFor(key) == Some(f)
  {
  }

  /** The properties in the order `toArray()` lists them. */
  const ListOrder: seq<Field> := [IdArticle, CoverImage, PublishedAt, CreatedAt, Title, Slug,
                                  Introduction, Content, IdUser, Categories, Tags]

  /** `hydrate(toArray())` restores every property, from any starting state. */
  lemma HydrateToArray(a: ArticleFields, start: ArticleFields, jsonDecode: string -> Value)
    requires ToArray(a).Success?
    ensures Hydrated(start, ToArray(a).value, jsonDecode) == (a, None)
  {
    var row := ToArray(a).value;
    assert forall k :: 0 <= k < 11 ==> row[k] == (StrKey(PropertyName(ListOrder[k])), FieldValue(a, ListOrder[k]));
    assert row[0..] == row;
    HydrateFrom(start, a, row, 0, jsonDecode);
    assert CopyFirst(start, a, 11) == a;
  }

  /** `start` with the first n properties of `ListOrder` taken from `a`. */
  function CopyFirst(start: ArticleFields, a: ArticleFields, n: nat): ArticleFields {
    ArticleFields(
      if n > 0 then a.idArticle else start.idArticle,
      if n > 1 then a.coverImage else start.coverImage,
      if n > 2 then a.publishedAt else start.publishedAt,
      if n > 3 then a.createdAt else start.createdAt,
      if n > 4 then a.title else start.title,
      if n > 5 then a.slug else start.slug,
      if n > 7 then a.content else start.content,
      if n > 6 then a.introduction else start.introduction,
      if n > 8 then a.idUser else start.idUser,
      if n > 9 then a.categories else start.categories,
      if n > 10 then a.tags else start.tags)
  }

  lemma CopyNext(start: ArticleFields, a: ArticleFields, n: nat)
    requires n < 11
    ensures CopyField(CopyFirst(start, a, n), a, ListOrder[n]) == CopyFirst(start, a, n + 1)
  {
    if n == 0 { assert ListOrder[0] == IdArticle; }
    else if n == 1 { assert ListOrder[1] == CoverImage; }
    else if n == 2 { assert ListOrder[2] == PublishedAt; }
    else if n == 3 { assert ListOrder[3] == CreatedAt; }
    else if n == 4 { assert ListOrder[4] == Title; }
    else if n == 5 { assert ListOrder[5] == Slug; }
    else if n == 6 { assert ListOrder[6] == Introduction; }
    else if n == 7 { assert ListOrder[7] == Content; }
    else if n == 8 { assert ListOrder[8] == IdUser; }
    else if n == 9 { assert ListOrder[9] == Categories; }
    else { assert ListOrder[10] == Tags; }
  }

  lemma {:induction false} HydrateFrom(start: ArticleFields, a: ArticleFields, row: Array, n: nat, jsonDecode: string -> Value)
    requires a.createdAt.Some? && a.title.Some? && a.slug.Some? && a.content.Some?
    requires |row| == 11 && n <= 11
    requires forall k :: 0 <= k < 11 ==> row[k] == (StrKey(PropertyName(ListOrder[k])), FieldValue(a, ListOrder[k]))
    ensures Hydrated(CopyFirst(start, a, n), row[n..], jsonDecode) == (CopyFirst(start, a, 11), None)
    decreases 11 - n
  {
    if n < 11 {
      var b := HydrateStep(CopyFirst(start, a, n), a, row, n, ListOrder[n], jsonDecode);
      CopyNext(start, a, n);
      HydrateFrom(start, a, row, n + 1, jsonDecode);
    } else {
      assert row[n..] == [];
    }
  }

  /** The value `toArray()` lists for a property. */
  function FieldValue(a: ArticleFields, f: Field): Value {
    match f
    case IdArticle => IntOrNull(a.idArticle)
    case CoverImage => StrOrNull(a.coverImage)
    case PublishedAt => StrOrNull(a.publishedAt)
    case CreatedAt => StrOrNull(a.createdAt)
    case Title => StrOrNull(a.title)
    case Slug => StrOrNull(a.slug)
    case Content => StrOrNull(a.content)
    case Introduction => StrOrNull(a.introduction)
    case IdUser => IntOrNull(a.idUser)
    case Categories => ArrOrNull(a.categories)
    case Tags => ArrOrNull(a.tags)
  }

  /** `b` with property `f` taken from `a`. */
  function CopyField(b: ArticleFields, a: ArticleFields, f: Field): ArticleFields {
    match f
    case IdArticle => b.(idArticle := a.idArticle)
    case CoverImage => b.(coverImage := a.coverImage)
    case PublishedAt => b.(publishedAt := a.publishedAt)
    case CreatedAt => b.(createdAt := a.createdAt)
    case Title => b.(title := a.title)
    case Slug => b.(slug := a.slug)
    case Content => b.(content := a.content)
    case Introduction => b.(introduction := a.introduction)
    case IdUser => b.(idUser := a.idUser)
    case Categories => b.(categories := a.categories)
    case Tags => b.(tags := a.tags)
  }

  /** One entry of `hydrate(toArray())`: the property's own name and value, which its setter accepts. */
  lemma HydrateStep(b: ArticleFields, a: ArticleFields, row: Array, k: nat, f: Field, jsonDecode: string -> Value)
    returns (b': ArticleFields)
    requires a.createdAt.Some? && a.title.Some? && a.slug.Some? && a.content.Some?
    requires k < |row| && row[k] == (StrKey(PropertyName(f)), FieldValue(a, f))
    ensures b' == CopyField(b, a, f)
    ensures Hydrated(b, row[k..], jsonDecode) == Hydrated(b', row[k + 1..], jsonDecode)
  {
    b' := CopyField(b, a, f);
    assert row[k..][1..] == row[k + 1..];
    LowerOfLowerCase(PropertyName(f));
    assert Assign(b, f, row[k].1, jsonDecode) == Success(b');
  }

  /** `hydrate` over two arrays in turn: the second starts where the first stopped, unless the first threw. */
  lemma {:induction false} HydratedAppend(a: ArticleFields, x: Array, y: Array, jsonDecode: string -> Value)
    ensures Hydrated(a, x, jsonDecode).1.None? ==>
              Hydrated(a, x + y, jsonDecode) == Hydrated(Hydrated(a, x, jsonDecode).0, y, jsonDecode)
    ensures Hydrated(a, x, jsonDecode).1.Some? ==> Hydrated(a, x + y, jsonDecode) == Hydrated(a, x, jsonDecode)
    decreases |x|
  {
    if |x| == 0 {
      assert x + y == y;
    } else {
      assert (x + y)[0] == x[0];
      assert (x + y)[1..] == x[1..] + y;
      match x[0].0
      case IntKey(_) =>
      case StrKey(k) =>
        match SetterFor(k)
        case None => HydratedAppend(a, x[1..], y, jsonDecode);
        case Some(f) =>
          match Assign(a, f, x[0].1, jsonDecode)
          case Failure(_) =>
          case Success(a') => HydratedAppend(a', x[1..], y, jsonDecode);
    }
  }

  /** Keys that name no setter are skipped and change nothing. */
  lemma {:induction false} UnknownKeysIgnored(a: ArticleFields, data: Array, jsonDecode: string -> Value)
    requires forall i :: 0 <= i < |data| ==> data[i].0.StrKey? && SetterFor(data[i].0.s).None?
    ensures Hydrated(a, data, jsonDecode) == (a, None)
  {
    if |data| > 0 {
      UnknownKeysIgnored(a, data[1..], jsonDecode);
    }
  }

  /** A title as a non-string, e.g. an int from a form, stops `hydrate` and keeps the old title. */
  lemma TitleMustBeString(a: ArticleFields, v: Value, jsonDecode: string -> Value)
    requires !v.Str?
    ensures Hydrated(a, [(StrKey("title"), v)], jsonDecode) == (a, Some(TypeError))
  {
  }

  /** JSON text given to `setTags` is decoded; text that decodes to a scalar is a TypeError. */
  lemma TagsDecoded(a: ArticleFields, s: string, jsonDecode: string -> Value)
    ensures jsonDecode(s).Arr? ==> Assign(a, Tags, Str(s), jsonDecode) == Success(a.(tags := Some(jsonDecode(s).entries)))
    ensures jsonDecode(s).Null? ==> Assign(a, Tags, Str(s), jsonDecode) == Success(a.(tags := None))
    ensures !jsonDecode(s).Arr? && !jsonDecode(s).Null? ==> Assign(a, Tags, Str(s), jsonDecode).Failure?
  {
  }

  /** `preg_replace` output never holds "--" and never has a dash followed by a dash. */
  lemma {:induction false} CollapseNoDoubleDash(s: string)
    ensures forall i :: 0 <= i < |CollapseRuns(s)| - 1 ==> !(CollapseRuns(s)[i] == '-' && CollapseRuns(s)[i + 1] == '-')
  {
    if |s| > 0 {
      CollapseNoDoubleDash(s[1..]);
      var r := CollapseRuns(s[1..]);
      if !IsSlugChar(s[0]) && !(|s| > 1 && !IsSlugChar(s[1])) {
        if |s| > 1 {
          assert IsSlugChar(s[1]) && r[0] == s[1];
        }
      }
    }
  }

  /** The title-derived part of a slug is slug-shaped. */
  lemma BaseSlugShaped(title: string)
    ensures SlugShaped(BaseSlug(title))
  {
    var c := CollapseRuns(Lower(title));
    CollapseNoDoubleDash(Lower(title));
    var r := TrimDashes(c);
    var i, j := TrimDashesSlice(c);
    assert forall k :: 0 <= k < |r| ==> r[k] == c[i + k];
  }

  /** A slug-shaped string is its own base slug: the derivation is idempotent. */
  lemma BaseSlugIdempotent(title: string)
    ensures BaseSlug(BaseSlug(title)) == BaseSlug(title)
  {
    BaseSlugShaped(title);
    ShapedIsFixed(BaseSlug(title));
  }

  lemma ShapedIsFixed(s: string)
    requires SlugShaped(s)
    ensures BaseSlug(s) == s
  {
    LowerOfLowerCase(s);
    CollapseShaped(s);
  }

  lemma {:induction false} CollapseShaped(s: string)
    requires forall i :: 0 <= i < |s| ==> IsSlugChar(s[i]) || s[i] == '-'
    requires forall i :: 0 <= i < |s| - 1 ==> !(s[i] == '-' && s[i + 1] == '-')
    ensures CollapseRuns(s) == s
  {
    if |s| > 0 {
      CollapseShaped(s[1..]);
      if !IsSlugChar(s[0]) && |s| > 1 {
        assert s[1] != '-';
      }
    }
  }

  /** A title PHP finds empty leaves the slug alone; any other title replaces it. */
  lemma SlugOnlyForTitle(title: Option<string>, now: int)
    ensures NewSlug(title, now).None? <==> title.None? || title.value == "" || title.value == "0"
  {
  }

  /** The generated slug is the base slug, '-', and the last (up to) four digits of the timestamp. */
  lemma SlugSuffix(title: string, now: nat)
    requires title != "" && title != "0"
    ensures NewSlug(Some(title), now) == Some(BaseSlug(title) + "-" + LastFour(NatToString(now)))
    ensures 1 <= |LastFour(NatToString(now))| <= 4 && AllDigits(LastFour(NatToString(now)))
  {
  }
}
