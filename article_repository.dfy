/**
 * `ArticleRepository` over in-memory tables: the `article` table, the
 * `articles_categories` link table and the auto-increment counter of
 * `article`. A PDOException is modelled by a `fault` parameter naming which
 * executed statement raises it (statements numbered from 0 in the order the
 * call executes them); the repository catches it, rolls the transaction back
 * and answers null or false. An Error (a TypeError, or reading an
 * uninitialized typed property) is not an `\Exception`: it escapes as
 * `Failure`, before any statement has run.
 */
module ArticleStore {
  import opened Wrappers
  import opened Php
  import opened PhpNumeric
  import opened ArticleModel

  /** A row of `article`, with the column types the getters bind. */
  datatype Row = Row(
    id: int,
    coverImage: Option<string>,
    publishedAt: Option<string>,
    createdAt: string,
    title: string,
    slug: string,
    introduction: Option<string>,
    content: string,
    idUser: Option<int>,
    tags: Option<string>)

  /** A row of `articles_categories`; `article` is null when `update` ran on an article without an id. */
  datatype Link = Link(article: Option<int>, category: Value)

  /**
   * The tables and the next auto-increment value of `article`; `categoryIds`
   * holds the primary keys of table `categories`, which the core only reads.
   */
  datatype Tables = Tables(articles: seq<Row>, links: seq<Link>, nextId: int, categoryIds: set<int>)

  /** Article ids are below the counter and never repeat. */
  ghost predicate Consistent(t: Tables) {
    (forall i :: 0 <= i < |t.articles| ==> t.articles[i].id < t.nextId)
    && (forall i, j :: 0 <= i < j < |t.articles| ==> t.articles[i].id != t.articles[j].id)
  }

  // ---------------------------------------------------------------------------
  // Column values

  /** `getTags() ? json_encode(getTags()) : null`: an empty or null array stores null. */
  function TagsColumn(tags: Option<Array>, jsonEncode: Value -> string): (r: Option<string>)
    ensures r.None? <==> tags.None? || tags.value == []
  {
    if tags.Some? && tags.value != [] then Some(jsonEncode(Arr(tags.value))) else None
  }

  /** The values of an array, in order (what `foreach ($a as $v)` visits). */
  function Values(a: Array): (r: seq<Value>)
    ensures |r| == |a| && forall i :: 0 <= i < |a| ==> r[i] == a[i].1
  {
    seq(|a|, i requires 0 <= i < |a| => a[i].1)
  }

  /** A list: the values under the keys 0, 1, 2, ... */
  function ListOf(vs: seq<Value>): (r: Array)
    ensures Values(r) == vs
    ensures forall i :: 0 <= i < |r| ==> r[i].0 == IntKey(i)
  {
    seq(|vs|, i requires 0 <= i < |vs| => (IntKey(i), vs[i]))
  }

  /** One inserted link row per category, in the order of the array. */
  function LinkRows(id: Option<int>, categories: Array): (r: seq<Link>)
    ensures |r| == |categories|
    ensures forall i :: 0 <= i < |r| ==> r[i] == Link(id, categories[i].1)
  {
    seq(|categories|, i requires 0 <= i < |categories| => Link(id, categories[i].1))
  }

  /** The category values linked to article `id`, in link-table order: the link side of the categories JOIN. */
  function CategoryIds(links: seq<Link>, id: int): (r: seq<Value>)
    ensures forall v :: v in r <==> Link(Some(id), v) in links
  {
    if |links| == 0 then []
    else
      var rest := CategoryIds(links[1..], id);
      assert links == [links[0]] + links[1..];
      if links[0].article == Some(id) then [links[0].category] + rest else rest
  }

  /**
   * The INT that column `articles_categories.id_categories` holds for a bound
   * category: an integer, or a non-empty string of decimal digits; None for
   * any other value.
   */
  function ColumnInt(v: Value): Option<int> {
    match v
    case Int(n) => Some(n)
    case Str(s) => if |s| > 0 && AllDigits(s) then Some(DigitsValue(s)) else None
    case _ => None
  }

  /**
   * `SELECT c.* FROM categories c JOIN articles_categories ac ON c.id_categories = ac.id_categories`
   * mapped to `$category['id_categories']`: per linked value, in link-table order,
   * the integer id it holds when table `categories` has a row with that id.
   */
  function Joined(linked: seq<Value>, known: set<int>): (r: seq<Value>)
    ensures |r| <= |linked|
  {
    if |linked| == 0 then []
    else
      var rest := Joined(linked[1..], known);
      match ColumnInt(linked[0])
      case Some(c) => if c in known then [Int(c)] + rest else rest
      case None => rest
  }

  /** `DELETE FROM articles_categories WHERE id_article = :article_id`; `= NULL` matches no row. */
  function Unlinked(links: seq<Link>, id: Option<int>): (r: seq<Link>)
    ensures forall l :: l in r <==> l in links && !(id.Some? && l.article == id)
  {
    if |links| == 0 then []
    else
      var rest := Unlinked(links[1..], id);
      assert links == [links[0]] + links[1..];
      if id.Some? && links[0].article == id then rest else [links[0]] + rest
  }

  // ---------------------------------------------------------------------------
  // create

  /** `if (empty($article->getSlug())) $article->generateSlug();` on an initialized slug. */
  function SlugFilled(a: ArticleFields, now: int): ArticleFields
    requires a.slug.Some?
  {
    if Empty(Str(a.slug.value)) && NewSlug(a.title, now).Some? then a.(slug := NewSlug(a.title, now)) else a
  }

  /** The row `create` inserts; `created_at` is the column default, `createdAt`. */
  function InsertedRow(id: int, a: ArticleFields, createdAt: string, jsonEncode: Value -> string): Row
    requires a.title.Some? && a.slug.Some? && a.content.Some?
  {
    Row(id, a.coverImage, a.publishedAt, createdAt, a.title.value, a.slug.value,
        a.introduction, a.content.value, a.idUser, TagsColumn(a.tags, jsonEncode))
  }

  /** The categories `create` links: none unless `getCategories()` is a non-empty array. */
  function CreateCategories(a: ArticleFields): Array {
    if a.categories.Some? then a.categories.value else []
  }

  /**
   * `create($article)` at time `now`: the tables afterwards, the article afterwards
   * (its slug may have been generated) and the returned id, null, or the escaping Error.
   */
  function CreateResult(t: Tables, a: ArticleFields, now: int, createdAt: string,
                        jsonEncode: Value -> string, fault: Option<nat>)
    : (Tables, ArticleFields, Result<Option<int>, string>)
  {
    if a.slug.None? then (t, a, Failure(Uninitialized("slug")))
    else
      var b := SlugFilled(a, now);
      if b.title.None? then (t, b, Failure(Uninitialized("title")))
      else if b.content.None? then (t, b, Failure(Uninitialized("content")))
      else
        var (t', r) := Inserted(t, b, createdAt, jsonEncode, fault);
        (t', b, r)
  }

  /**
   * The statements of `create` once the article is complete: the row, then one
   * link per category; a PDOException in any of them rolls the rows of both
   * tables back. The auto-increment value the row INSERT took stays taken: a
   * rollback does not return it, so the next article gets the one after it.
   */
  function Inserted(t: Tables, b: ArticleFields, createdAt: string, jsonEncode: Value -> string, fault: Option<nat>)
    : (Tables, Result<Option<int>, string>)
    requires b.title.Some? && b.slug.Some? && b.content.Some?
  {
    var id := t.nextId;
    var added := LinkRows(Some(id), CreateCategories(b));
    if fault == Some(0) then (t, Success(None))
    else if fault.Some? && fault.value <= |added| then (t.(nextId := id + 1), Success(None))
    else (t.(articles := t.articles + [InsertedRow(id, b, createdAt, jsonEncode)], links := t.links + added, nextId := id + 1),
          Success(Some(id)))
  }

  // ---------------------------------------------------------------------------
  // update

  /** The seven content columns rewritten from the article; id, owner and creation time stay. */
  function Rewritten(r: Row, a: ArticleFields, jsonEncode: Value -> string): Row
    requires a.title.Some? && a.slug.Some? && a.content.Some?
  {
    r.(coverImage := a.coverImage, title := a.title.value, slug := a.slug.value,
       introduction := a.introduction, content := a.content.value,
       publishedAt := a.publishedAt, tags := TagsColumn(a.tags, jsonEncode))
  }

  /** `UPDATE article SET ... WHERE id_article = :id`. */
  function UpdatedRows(rows: seq<Row>, a: ArticleFields, jsonEncode: Value -> string): (r: seq<Row>)
    requires a.title.Some? && a.slug.Some? && a.content.Some?
    ensures |r| == |rows|
  {
    seq(|rows|, i requires 0 <= i < |rows| =>
      if a.idArticle == Some(rows[i].id) then Rewritten(rows[i], a, jsonEncode) else rows[i])
  }

  /** How many statements `update` executes: the UPDATE, then the DELETE and one INSERT per category. */
  function UpdateStatements(a: ArticleFields): nat {
    if a.categories.Some? then 2 + |a.categories.value| else 1
  }

  /** `update($article)`: the tables afterwards and the returned flag, or the escaping Error. */
  function UpdateResult(t: Tables, a: ArticleFields, jsonEncode: Value -> string, fault: Option<nat>)
    : (Tables, Result<bool, string>)
  {
    if a.title.None? then (t, Failure(Uninitialized("title")))
    else if a.slug.None? then (t, Failure(Uninitialized("slug")))
    else if a.content.None? then (t, Failure(Uninitialized("content")))
    else if fault.Some? && fault.value < UpdateStatements(a) then (t, Success(false))
    else
      var links := if a.categories.Some?
                   then Unlinked(t.links, a.idArticle) + LinkRows(a.idArticle, a.categories.value)
                   else t.links;
      (t.(articles := UpdatedRows(t.articles, a, jsonEncode), links := links), Success(true))
  }

  // ---------------------------------------------------------------------------
  // getById, getBySlug

  /** The condition of `getById` (`a.id_article = :id`) or of `getBySlug` (`a.slug = :slug`). */
  datatype Selector = IdIs(id: int) | SlugIs(slug: string)

  predicate Selects(k: Selector, r: Row) {
    match k
    case IdIs(id) => r.id == id
    case SlugIs(slug) => r.slug == slug
  }

  /** The first row the condition selects (the queries have no ORDER BY; table order is taken). */
  function FirstRow(rows: seq<Row>, k: Selector): (r: Option<Row>)
    ensures r.Some? ==> r.value in rows && Selects(k, r.value)
    ensures r.None? <==> forall i :: 0 <= i < |rows| ==> !Selects(k, rows[i])
  {
    if |rows| == 0 then None
    else if Selects(k, rows[0]) then Some(rows[0])
    else FirstRow(rows[1..], k)
  }

  function IntOrNullValue(x: Option<int>): Value {
    if x.Some? then Int(x.value) else Null
  }

  function StrOrNullValue(x: Option<string>): Value {
    if x.Some? then Str(x.value) else Null
  }

  /** The columns of a fetched row, as `PDO::FETCH_ASSOC` gives them, before `categories` is added. */
  function Columns(r: Row): Array {
    [(StrKey("id_article"), Int(r.id)),
     (StrKey("cover_image"), StrOrNullValue(r.coverImage)),
     (StrKey("published_at"), StrOrNullValue(r.publishedAt)),
     (StrKey("created_at"), Str(r.createdAt)),
     (StrKey("title"), Str(r.title)),
     (StrKey("slug"), Str(r.slug)),
     (StrKey("introduction"), StrOrNullValue(r.introduction)),
     (StrKey("content"), Str(r.content)),
     (StrKey("id_user"), IntOrNullValue(r.idUser)),
     (StrKey("tags"), StrOrNullValue(r.tags))]
  }

  /** `$articleData` with `$articleData['categories']` appended: the array given to `new Article`. */
  function RowData(r: Row, categories: seq<Value>): Array {
    Columns(r) + [(StrKey("categories"), Arr(ListOf(categories)))]
  }

  /** `new Article($articleData)` for a fetched row: its properties, or the TypeError hydration raised. */
  function Loaded(r: Row, t: Tables, jsonDecode: string -> Value): Result<ArticleFields, string> {
    var (a, error) := Hydrated(Blank, RowData(r, Joined(CategoryIds(t.links, r.id), t.categoryIds)), jsonDecode);
    if error.Some? then Failure(error.value) else Success(a)
  }

  /** `getById($id)`; `failed` is a PDOException in either query, answered with null. */
  function ById(t: Tables, id: int, jsonDecode: string -> Value, failed: bool): (r: Result<Option<ArticleFields>, string>)
    ensures r == Success(None) <==> failed || forall i :: 0 <= i < |t.articles| ==> t.articles[i].id != id
  {
    if failed then Success(None)
    else match FirstRow(t.articles, IdIs(id))
      case None => Success(None)
      case Some(row) =>
        var a :- Loaded(row, t, jsonDecode);
        Success(Some(a))
  }

  /** `getBySlug($slug)`; the categories are those of the found row's id. */
  function BySlug(t: Tables, slug: string, jsonDecode: string -> Value, failed: bool): (r: Result<Option<ArticleFields>, string>)
    ensures r == Success(None) <==> failed || forall i :: 0 <= i < |t.articles| ==> t.articles[i].slug != slug
  {
    if failed then Success(None)
    else match FirstRow(t.articles, SlugIs(slug))
      case None => Success(None)
      case Some(row) =>
        var a :- Loaded(row, t, jsonDecode);
        Success(Some(a))
  }

  // ---------------------------------------------------------------------------
  // getAll

  /** `"{$v}"`: PHP's string conversion; floats are printed by `floatText`. */
  function Interpolated(v: Value, floatText: real -> string): string {
    match v
    case Null => ""
    case Bool(b) => if b then "1" else ""
    case Int(n) => IntToString(n)
    case Float(r) => floatText(r)
    case Str(s) => s
    case Arr(_) => "Array"
  }

  /** The four filters `getAll` knows, in the order it tests them. */
  datatype FilterKind = ByCategory | ByAuthor | ByDate | ByTags

  const FilterOrder: seq<FilterKind> := [ByCategory, ByAuthor, ByDate, ByTags]

  /** The position of a filter in `FilterOrder`. */
  function Position(k: FilterKind): nat {
    match k
    case ByCategory => 0
    case ByAuthor => 1
    case ByDate => 2
    case ByTags => 3
  }

  /** The key of `$filters` each filter reads. */
  function FilterName(k: FilterKind): string {
    match k
    case ByCategory => "category"
    case ByAuthor => "author"
    case ByDate => "date"
    case ByTags => "tags"
  }

  /** One active filter: its WHERE condition and the parameter it binds. */
  datatype Filter = Filter(kind: FilterKind, condition: string, param: string, value: Value)

  /** The filter a non-empty `$filters[name]` adds. */
  function FilterFor(k: FilterKind, v: Value, jsonEncode: Value -> string, floatText: real -> string): (f: Filter)
    ensures f.kind == k
  {
    match k
    case ByCategory => Filter(k, "ac.id_categories = :category_id", "category_id", v)
    case ByAuthor => Filter(k, "u.username LIKE :author", "author", Str("%" + Interpolated(v, floatText) + "%"))
    case ByDate => Filter(k, "DATE(a.published_at) = :date", "date", v)
    case ByTags => Filter(k, "JSON_CONTAINS(a.tags, :tags)", "tags", Str(jsonEncode(v)))
  }

  /** The filters `getAll` applies, from position `k` of `FilterOrder` on. */
  function ActiveFrom(filters: Value, k: nat, jsonEncode: Value -> string, floatText: real -> string): (r: seq<Filter>)
    requires k <= |FilterOrder|
    decreases |FilterOrder| - k
  {
    if k == |FilterOrder| then []
    else
      var v := Index(filters, FilterName(FilterOrder[k]));
      var rest := ActiveFrom(filters, k + 1, jsonEncode, floatText);
      if Empty(v) then rest else [FilterFor(FilterOrder[k], v, jsonEncode, floatText)] + rest
  }

  function Active(filters: Value, jsonEncode: Value -> string, floatText: real -> string): seq<Filter> {
    ActiveFrom(filters, 0, jsonEncode, floatText)
  }

  /** `implode($sep, $parts)` */
  function Join(parts: seq<string>, sep: string): string {
    if |parts| == 0 then ""
    else if |parts| == 1 then parts[0]
    else parts[0] + sep + Join(parts[1..], sep)
  }

  function Conditions(fs: seq<Filter>): (r: seq<string>)
    ensures |r| == |fs| && forall i :: 0 <= i < |fs| ==> r[i] == fs[i].condition
  {
    seq(|fs|, i requires 0 <= i < |fs| => fs[i].condition)
  }

  /** The WHERE clause shared by the count query and the page query. */
  function WhereClause(fs: seq<Filter>): string {
    if fs == [] then "" else "WHERE " + Join(Conditions(fs), " AND ")
  }

  /** What the two statements of `getAll` are built from. */
  datatype Query = Query(joinsCategories: bool, where: string, params: seq<(string, Value)>, limit: int, offset: int)

  function Params(fs: seq<Filter>): (r: seq<(string, Value)>)
    ensures |r| == |fs| && forall i :: 0 <= i < |fs| ==> r[i] == (fs[i].param, fs[i].value)
  {
    seq(|fs|, i requires 0 <= i < |fs| => (fs[i].param, fs[i].value))
  }

  function GetAllQuery(page: int, perPage: int, filters: Value, jsonEncode: Value -> string, floatText: real -> string): Query {
    var fs := Active(filters, jsonEncode, floatText);
    Query(!Empty(Index(filters, "category")), WhereClause(fs), Params(fs), perPage, (page - 1) * perPage)
  }

  /** The fetched rows turned into articles, in order, or the first TypeError. */
  function LoadAll(rows: seq<Row>, t: Tables, jsonDecode: string -> Value): (r: Result<seq<ArticleFields>, string>)
    ensures r.Success? ==> |r.value| == |rows|
  {
    if |rows| == 0 then Success([])
    else
      var init :- LoadAll(rows[..|rows| - 1], t, jsonDecode);
      var last :- Loaded(rows[|rows| - 1], t, jsonDecode);
      Success(init + [last])
  }

  /**
   * `getAll($page, $perPage, $filters)`: `run` executes the built statements and
   * answers the page of rows and the count, or None for a PDOException, which
   * gives `['articles' => [], 'total' => 0]`.
   */
  function GetAllResult(t: Tables, page: int, perPage: int, filters: Value, jsonEncode: Value -> string,
                        floatText: real -> string, run: Query -> Option<(seq<Row>, int)>,
                        jsonDecode: string -> Value): Result<(seq<ArticleFields>, int), string>
  {
    match run(GetAllQuery(page, perPage, filters, jsonEncode, floatText))
    case None => Success(([], 0))
    case Some((rows, total)) =>
      var articles :- LoadAll(rows, t, jsonDecode);
      Success((articles, total))
  }

  // ---------------------------------------------------------------------------
  // The repository

  class ArticleRepository {
    var articles: seq<Row>
    var links: seq<Link>
    var nextId: int
    var categoryIds: set<int>

    function State(): Tables
      reads this
    {
      Tables(articles, links, nextId, categoryIds)
    }

    constructor(t: Tables)
      ensures State() == t
    {
      articles, links, nextId, categoryIds := t.articles, t.links, t.nextId, t.categoryIds;
    }

    /**
     * `rollBack()` to a snapshot taken at `beginTransaction()`: the rows of both
     * tables come back, the auto-increment counter does not.
     */
    method RollBack(saved: Tables)
      modifies this
      ensures articles == saved.articles && links == saved.links
      ensures nextId == old(nextId) && categoryIds == old(categoryIds)
    {
      articles, links := saved.articles, saved.links;
    }

    /** `create($article)` at time `now`; a rolled-back insert keeps its id taken. */
    method Create(article: Article, now: int, createdAt: string, jsonEncode: Value -> string, fault: Option<nat>)
      returns (result: Result<Option<int>, string>)
      modifies this, article
      ensures (State(), article.Fields(), result)
              == CreateResult(old(State()), old(article.Fields()), now, createdAt, jsonEncode, fault)
    {
      if article.slug.None? {
        return Failure(Uninitialized("slug"));
      }
      if Empty(Str(article.slug.value)) {
        article.GenerateSlug(now);
      }
      if article.title.None? {
        return Failure(Uninitialized("title"));
      }
      if article.content.None? {
        return Failure(Uninitialized("content"));
      }
      var b := article.Fields();
      assert b == SlugFilled(old(article.Fields()), now);
      result := Insert(b, createdAt, jsonEncode, fault);
    }

    /** The inserts of `create` inside their transaction. */
    method Insert(b: ArticleFields, createdAt: string, jsonEncode: Value -> string, fault: Option<nat>)
      returns (result: Result<Option<int>, string>)
      requires b.title.Some? && b.slug.Some? && b.content.Some?
      modifies this
      ensures (State(), result) == Inserted(old(State()), b, createdAt, jsonEncode, fault)
    {
      var saved := State();
      var id := nextId;
      if fault == Some(0) {
        return Success(None);
      }
      articles := articles + [InsertedRow(id, b, createdAt, jsonEncode)];
      nextId := id + 1;
      var inserted := InsertLinks(Some(id), CreateCategories(b), fault, 1);
      if !inserted {
        RollBack(saved);
        return Success(None);
      }
      return Success(Some(id));
    }

    /**
     * One `INSERT INTO articles_categories` per category, in order; the statement
     * for category `i` is number `first + i`. False when one of them raises.
     */
    method InsertLinks(id: Option<int>, categories: Array, fault: Option<nat>, first: nat) returns (ok: bool)
      modifies this
      ensures articles == old(articles) && nextId == old(nextId) && categoryIds == old(categoryIds)
      ensures ok <==> !(fault.Some? && first <= fault.value < first + |categories|)
      ensures ok ==> links == old(links) + LinkRows(id, categories)
    {
      for i := 0 to |categories|
        invariant articles == old(articles) && nextId == old(nextId) && categoryIds == old(categoryIds)
        invariant links == old(links) + LinkRows(id, categories)[..i]
        invariant !(fault.Some? && first <= fault.value < first + i)
      {
        if fault == Some(first + i) {
          return false;
        }
        assert LinkRows(id, categories)[..i + 1] == LinkRows(id, categories)[..i] + [Link(id, categories[i].1)];
        links := links + [Link(id, categories[i].1)];
      }
      assert LinkRows(id, categories)[..|categories|] == LinkRows(id, categories);
      return true;
    }

    /** `update($article)`. */
    method Update(article: Article, jsonEncode: Value -> string, fault: Option<nat>)
      returns (result: Result<bool, string>)
      modifies this
      ensures (State(), result) == UpdateResult(old(State()), article.Fields(), jsonEncode, fault)
    {
      var a := article.Fields();
      if a.title.None? {
        return Failure(Uninitialized("title"));
      }
      if a.slug.None? {
        return Failure(Uninitialized("slug"));
      }
      if a.content.None? {
        return Failure(Uninitialized("content"));
      }
      var saved := State();
      if fault == Some(0) {
        return Success(false);
      }
      articles := UpdatedRows(articles, a, jsonEncode);
      if a.categories.Some? {
        if fault == Some(1) {
          RollBack(saved);
          return Success(false);
        }
        links := Unlinked(links, a.idArticle);
        var inserted := InsertLinks(a.idArticle, a.categories.value, fault, 2);
        if !inserted {
          RollBack(saved);
          return Success(false);
        }
      }
      return Success(true);
    }

    /** Hydrates a fresh article from a fetched row, as `new Article($articleData)` does. */
    method Load(row: Row, jsonDecode: string -> Value) returns (article: Article, error: Option<string>)
      ensures fresh(article)
      ensures match Loaded(row, State(), jsonDecode)
              case Success(a) => error == None && article.Fields() == a
              case Failure(e) => error == Some(e)
    {
      article := new Article([], jsonDecode);
      assert article.Fields() == Blank;
      error := article.Hydrate(RowData(row, Joined(CategoryIds(links, row.id), categoryIds)), jsonDecode);
    }

    /** `getById($id)`: null, the hydrated article, or the TypeError that escapes. */
    method GetById(id: int, jsonDecode: string -> Value, failed: bool) returns (article: Article?, error: Option<string>)
      ensures match ById(State(), id, jsonDecode, failed)
              case Success(None) => article == null && error == None
              case Success(Some(a)) => article != null && fresh(article) && article.Fields() == a && error == None
              case Failure(e) => error == Some(e)
    {
      if failed {
        return null, None;
      }
      var found := FirstRow(articles, IdIs(id));
      if found.None? {
        return null, None;
      }
      var loaded, e := Load(found.value, jsonDecode);
      if e.Some? {
        return null, e;
      }
      return loaded, None;
    }

    /** `getBySlug($slug)`. */
    method GetBySlug(slug: string, jsonDecode: string -> Value, failed: bool) returns (article: Article?, error: Option<string>)
      ensures match BySlug(State(), slug, jsonDecode, failed)
              case Success(None) => article == null && error == None
              case Success(Some(a)) => article != null && fresh(article) && article.Fields() == a && error == None
              case Failure(e) => error == Some(e)
    {
      if failed {
        return null, None;
      }
      var found := FirstRow(articles, SlugIs(slug));
      if found.None? {
        return null, None;
      }
      var loaded, e := Load(found.value, jsonDecode);
      if e.Some? {
        return null, e;
      }
      return loaded, None;
    }

    /** The filter-building part of `getAll`: conditions and parameters appended in a fixed order. */
    method BuildQuery(page: int, perPage: int, filters: Value, jsonEncode: Value -> string, floatText: real -> string)
      returns (q: Query)
      ensures q == GetAllQuery(page, perPage, filters, jsonEncode, floatText)
    {
      var offset := (page - 1) * perPage;
      var found: seq<Filter> := [];
      var k := |FilterOrder|;
      while k > 0
        invariant 0 <= k <= |FilterOrder|
        invariant found == ActiveFrom(filters, k, jsonEncode, floatText)
      {
        k := k - 1;
        var v := Index(filters, FilterName(FilterOrder[k]));
        if !Empty(v) {
          found := [FilterFor(FilterOrder[k], v, jsonEncode, floatText)] + found;
        }
      }
      var whereClause := if found != [] then "WHERE " + Join(Conditions(found), " AND ") else "";
      q := Query(!Empty(Index(filters, "category")), whereClause, Params(found), perPage, offset);
    }

    /** `getAll($page, $perPage, $filters)`: one hydrated article per fetched row. */
    method GetAll(page: int, perPage: int, filters: Value, jsonEncode: Value -> string, floatText: real -> string,
                  run: Query -> Option<(seq<Row>, int)>, jsonDecode: string -> Value)
      returns (list: seq<Article>, total: int, error: Option<string>)
      ensures match GetAllResult(State(), page, perPage, filters, jsonEncode, floatText, run, jsonDecode)
              case Success((fields, n)) =>
                error == None && total == n && |list| == |fields|
                && forall j :: 0 <= j < |list| ==> list[j].Fields() == fields[j]
              case Failure(e) => error == Some(e)
    {
      var q := BuildQuery(page, perPage, filters, jsonEncode, floatText);
      var fetched := run(q);
      if fetched.None? {
        return [], 0, None;
      }
      var (rows, count) := fetched.value;
      list, error := LoadRows(rows, jsonDecode);
      total := if error.None? then count else 0;
    }

    /** The loop of `getAll`: `new Article($articleData)` for each fetched row, in order. */
    method LoadRows(rows: seq<Row>, jsonDecode: string -> Value) returns (list: seq<Article>, error: Option<string>)
      ensures match LoadAll(rows, State(), jsonDecode)
              case Success(fields) =>
                error == None && |list| == |fields| && forall j :: 0 <= j < |list| ==> list[j].Fields() == fields[j]
              case Failure(e) => error == Some(e)
    {
      list := [];
      for i := 0 to |rows|
        invariant LoadAll(rows[..i], State(), jsonDecode).Success?
        invariant |list| == i
        invariant forall j :: 0 <= j < i ==> list[j].Fields() == LoadAll(rows[..i], State(), jsonDecode).value[j]
      {
        assert rows[..i + 1][..i] == rows[..i];
        var article, e := Load(rows[i], jsonDecode);
        if e.Some? {
          LoadAllFails(rows, i, State(), jsonDecode);
          return [], e;
        }
        list := list + [article];
      }
      assert rows[..|rows|] == rows;
      return list, None;
    }
  }

  /** A row that fails to load makes every longer prefix fail with the first error. */
  lemma {:induction false} LoadAllFails(rows: seq<Row>, i: nat, t: Tables, jsonDecode: string -> Value)
    requires i < |rows| && LoadAll(rows[..i], t, jsonDecode).Success?
    requires Loaded(rows[i], t, jsonDecode).Failure?
    ensures LoadAll(rows, t, jsonDecode) == Failure(Loaded(rows[i], t, jsonDecode).error)
    decreases |rows| - i
  {
    if i + 1 == |rows| {
      assert rows[..|rows| - 1] == rows[..i];
    } else {
      var init := rows[..|rows| - 1];
      assert init[..i] == rows[..i] && init[i] == rows[i];
      LoadAllFails(init, i, t, jsonDecode);
    }
  }

  // ---------------------------------------------------------------------------
  // Properties of the link table

  lemma {:induction false} CategoryIdsAppend(x: seq<Link>, y: seq<Link>, id: int)
    ensures CategoryIds(x + y, id) == CategoryIds(x, id) + CategoryIds(y, id)
  {
    if |x| == 0 {
      assert x + y == y;
    } else {
      assert (x + y)[0] == x[0] && (x + y)[1..] == x[1..] + y;
      CategoryIdsAppend(x[1..], y, id);
    }
  }

  /** The rows inserted for a category array list exactly its values under their article. */
  lemma {:induction false} CategoryIdsOfLinkRows(k: Option<int>, categories: Array, id: int)
    ensures CategoryIds(LinkRows(k, categories), id) == if k == Some(id) then Values(categories) else []
  {
    if |categories| > 0 {
      assert LinkRows(k, categories)[1..] == LinkRows(k, categories[1..]);
      CategoryIdsOfLinkRows(k, categories[1..], id);
      assert Values(categories) == [categories[0].1] + Values(categories[1..]);
    }
  }

  /** The DELETE removes all of one article's links and keeps every other article's, in order. */
  lemma {:induction false} CategoryIdsUnlinked(links: seq<Link>, k: int, id: int)
    ensures CategoryIds(Unlinked(links, Some(k)), id) == if id == k then [] else CategoryIds(links, id)
  {
    if |links| > 0 {
      CategoryIdsUnlinked(links[1..], k, id);
      var rest := Unlinked(links[1..], Some(k));
      if links[0].article != Some(k) {
        var u := [links[0]] + rest;
        assert u[0] == links[0] && u[1..] == rest;
      }
    }
  }

  lemma {:induction false} CategoryIdsNone(links: seq<Link>, id: int)
    requires forall i :: 0 <= i < |links| ==> links[i].article != Some(id)
    ensures CategoryIds(links, id) == []
  {
    if |links| > 0 {
      CategoryIdsNone(links[1..], id);
    }
  }

  lemma {:induction false} FirstWithIdAppend(rows: seq<Row>, row: Row)
    requires forall i :: 0 <= i < |rows| ==> rows[i].id != row.id
    ensures FirstRow(rows + [row], IdIs(row.id)) == Some(row)
  {
    if |rows| == 0 {
      assert rows + [row] == [row];
    } else {
      assert (rows + [row])[0] == rows[0] && (rows + [row])[1..] == rows[1..] + [row];
      FirstWithIdAppend(rows[1..], row);
    }
  }

  // ---------------------------------------------------------------------------
  // Properties of create

  /**
   * All or nothing: unless `create` returns the new id, both tables hold the rows
   * they held before. Only a row INSERT that ran takes an id: an Error before the
   * transaction, or a failing row INSERT, leaves the counter too; a failing link
   * INSERT leaves it one further on.
   */
  lemma CreateAllOrNothing(t: Tables, a: ArticleFields, now: int, createdAt: string,
                           jsonEncode: Value -> string, fault: Option<nat>)
    ensures var (t', _, r) := CreateResult(t, a, now, createdAt, jsonEncode, fault);
            (r == Success(Some(t.nextId)) && t'.nextId == t.nextId + 1)
            || (t'.articles == t.articles && t'.links == t.links)
    ensures var (t', _, r) := CreateResult(t, a, now, createdAt, jsonEncode, fault);
            r.Failure? ==> t' == t
    ensures var (t', _, r) := CreateResult(t, a, now, createdAt, jsonEncode, fault);
            r == Success(None) ==> t'.nextId == (if fault == Some(0) then t.nextId else t.nextId + 1)
    ensures var (t', _, r) := CreateResult(t, a, now, createdAt, jsonEncode, fault);
            a.slug.Some? && a.title.Some? && a.content.Some? && fault == Some(0) ==> r == Success(None) && t' == t
  {
  }

  /**
   * A successful `create` stores one new row, under a fresh id that `getById`
   * then finds, with the article's title, slug, content and tags column.
   */
  lemma CreatedRowFound(t: Tables, a: ArticleFields, now: int, createdAt: string,
                        jsonEncode: Value -> string, fault: Option<nat>)
    requires Consistent(t)
    ensures var (t', b, r) := CreateResult(t, a, now, createdAt, jsonEncode, fault);
            r.Success? && r.value.Some? ==>
              Consistent(t')
              && (forall i :: 0 <= i < |t.articles| ==> t.articles[i].id != r.value.value)
              && |t'.articles| == |t.articles| + 1 && t'.articles[..|t.articles|] == t.articles
              && FirstRow(t'.articles, IdIs(r.value.value)) == Some(t'.articles[|t.articles|])
              && t'.articles[|t.articles|].title == b.title.value
              && t'.articles[|t.articles|].slug == b.slug.value
              && t'.articles[|t.articles|].content == b.content.value
              && t'.articles[|t.articles|].idUser == b.idUser
              && (t'.articles[|t.articles|].tags.None? <==> b.tags.None? || b.tags.value == [])
  {
    var (t', b, r) := CreateResult(t, a, now, createdAt, jsonEncode, fault);
    if r.Success? && r.value.Some? {
      var row := InsertedRow(t.nextId, b, createdAt, jsonEncode);
      CreatedAppends(t, a, now, createdAt, jsonEncode, fault);
      FirstWithIdAppend(t.articles, row);
    }
  }

  /**
   * A successful `create` links the new id to each category of the article,
   * in order, and to nothing when the categories are null or empty.
   */
  lemma CreatedLinks(t: Tables, a: ArticleFields, now: int, createdAt: string,
                     jsonEncode: Value -> string, fault: Option<nat>)
    requires forall i :: 0 <= i < |t.links| ==> t.links[i].article != Some(t.nextId)
    ensures var (t', b, r) := CreateResult(t, a, now, createdAt, jsonEncode, fault);
            r.Success? && r.value.Some? ==>
              CategoryIds(t'.links, r.value.value) == (if b.categories.Some? then Values(b.categories.value) else [])
              && forall id :: id != r.value.value ==> CategoryIds(t'.links, id) == CategoryIds(t.links, id)
  {
    var (t', b, r) := CreateResult(t, a, now, createdAt, jsonEncode, fault);
    if r.Success? && r.value.Some? {
      var id := t.nextId;
      var added := LinkRows(Some(id), CreateCategories(b));
      CreatedAppends(t, a, now, createdAt, jsonEncode, fault);
      CategoryIdsAppend(t.links, added, id);
      CategoryIdsOfLinkRows(Some(id), CreateCategories(b), id);
      CategoryIdsNone(t.links, id);
      forall other | other != id
        ensures CategoryIds(t'.links, other) == CategoryIds(t.links, other)
      {
        CategoryIdsAppend(t.links, added, other);
        CategoryIdsOfLinkRows(Some(id), CreateCategories(b), other);
      }
    }
  }

  /** A successful `create` returns the counter's id, appends its row and one link per category. */
  lemma CreatedAppends(t: Tables, a: ArticleFields, now: int, createdAt: string,
                       jsonEncode: Value -> string, fault: Option<nat>)
    ensures var (t', b, r) := CreateResult(t, a, now, createdAt, jsonEncode, fault);
            r.Success? && r.value.Some? ==>
              && r.value.value == t.nextId && t'.nextId == t.nextId + 1 && t'.categoryIds == t.categoryIds
              && b.title.Some? && b.slug.Some? && b.content.Some?
              && t'.articles == t.articles + [InsertedRow(t.nextId, b, createdAt, jsonEncode)]
              && t'.links == t.links + LinkRows(Some(t.nextId), CreateCategories(b))
  {
  }

  /**
   * `create` generates a slug only for an empty one: a non-empty slug leaves the
   * article untouched, and otherwise only the slug may change, to the title's.
   */
  lemma CreateSlug(t: Tables, a: ArticleFields, now: int, createdAt: string,
                   jsonEncode: Value -> string, fault: Option<nat>)
    requires a.slug.Some?
    ensures var b := CreateResult(t, a, now, createdAt, jsonEncode, fault).1;
            && (!Empty(Str(a.slug.value)) ==> b == a)
            && (Empty(Str(a.slug.value)) && a.title.Some? && !Empty(Str(a.title.value)) ==>
                  b == a.(slug := Some(BaseSlug(a.title.value) + "-" + LastFour(IntToString(now)))))
            && (Empty(Str(a.slug.value)) && (a.title.None? || Empty(Str(a.title.value))) ==> b == a)
  {
  }

  // ---------------------------------------------------------------------------
  // Properties of update

  /** All or nothing: unless `update` answers true, both tables are as they were. */
  lemma UpdateAllOrNothing(t: Tables, a: ArticleFields, jsonEncode: Value -> string, fault: Option<nat>)
    ensures var (t', r) := UpdateResult(t, a, jsonEncode, fault);
            r != Success(true) ==> t' == t
    ensures var (t', r) := UpdateResult(t, a, jsonEncode, fault);
            r == Success(true) <==> a.title.Some? && a.slug.Some? && a.content.Some?
                                     && !(fault.Some? && fault.value < UpdateStatements(a))
  {
  }

  /**
   * `update` rewrites the content columns of the row with the article's id and
   * no other row; it never changes a row's id, owner or creation time.
   */
  lemma UpdateOnlyItsRow(t: Tables, a: ArticleFields, jsonEncode: Value -> string, fault: Option<nat>)
    ensures var (t', r) := UpdateResult(t, a, jsonEncode, fault);
            r == Success(true) ==>
              |t'.articles| == |t.articles| && t'.nextId == t.nextId
              && (Consistent(t) ==> Consistent(t'))
              && forall i :: 0 <= i < |t.articles| ==>
                   var (old_, new_) := (t.articles[i], t'.articles[i]);
                   && new_.id == old_.id && new_.idUser == old_.idUser && new_.createdAt == old_.createdAt
                   && (a.idArticle != Some(old_.id) ==> new_ == old_)
                   && (a.idArticle == Some(old_.id) ==>
                         new_.title == a.title.value && new_.slug == a.slug.value && new_.content == a.content.value
                         && new_.coverImage == a.coverImage && new_.introduction == a.introduction
                         && new_.publishedAt == a.publishedAt
                         && (new_.tags.None? <==> a.tags.None? || a.tags.value == []))
  {
  }

  /** With an id that no row has, `update` changes no row and still answers true. */
  lemma UpdateUnknownIdSucceeds(t: Tables, a: ArticleFields, jsonEncode: Value -> string)
    requires a.title.Some? && a.slug.Some? && a.content.Some?
    requires forall i :: 0 <= i < |t.articles| ==> a.idArticle != Some(t.articles[i].id)
    ensures UpdateResult(t, a, jsonEncode, None).1 == Success(true)
    ensures UpdateResult(t, a, jsonEncode, None).0.articles == t.articles
  {
    assert UpdatedRows(t.articles, a, jsonEncode) == t.articles;
  }

  /**
   * A non-null category array replaces the article's links by exactly that list
   * (an empty array clears them); other articles keep theirs; null categories
   * leave the link table alone.
   */
  lemma UpdateReplacesLinks(t: Tables, a: ArticleFields, jsonEncode: Value -> string, fault: Option<nat>)
    ensures var (t', r) := UpdateResult(t, a, jsonEncode, fault);
            r == Success(true) && a.categories.None? ==> t'.links == t.links
    ensures var (t', r) := UpdateResult(t, a, jsonEncode, fault);
            r == Success(true) && a.categories.Some? && a.idArticle.Some? ==>
              CategoryIds(t'.links, a.idArticle.value) == Values(a.categories.value)
              && forall id :: id != a.idArticle.value ==> CategoryIds(t'.links, id) == CategoryIds(t.links, id)
  {
    var (t', r) := UpdateResult(t, a, jsonEncode, fault);
    if r == Success(true) && a.categories.Some? && a.idArticle.Some? {
      var k := a.idArticle.value;
      var added := LinkRows(a.idArticle, a.categories.value);
      assert t'.links == Unlinked(t.links, Some(k)) + added;
      CategoryIdsAppend(Unlinked(t.links, Some(k)), added, k);
      CategoryIdsUnlinked(t.links, k, k);
      CategoryIdsOfLinkRows(a.idArticle, a.categories.value, k);
      forall id | id != k
        ensures CategoryIds(t'.links, id) == CategoryIds(t.links, id)
      {
        CategoryIdsAppend(Unlinked(t.links, Some(k)), added, id);
        CategoryIdsUnlinked(t.links, k, id);
        CategoryIdsOfLinkRows(a.idArticle, a.categories.value, id);
      }
    }
  }

  // ---------------------------------------------------------------------------
  // Properties of the finders

  /** A `categories` entry at the end of a hydrated array sets the categories, unless an earlier entry threw. */
  lemma HydratedCategoriesLast(x: Array, categories: Array, jsonDecode: string -> Value)
    ensures var h := Hydrated(Blank, x + [(StrKey("categories"), Arr(categories))], jsonDecode);
            h.1.None? ==> h.0.categories == Some(categories)
  {
    var entry := (StrKey("categories"), Arr(categories));
    HydratedAppend(Blank, x, [entry], jsonDecode);
    LowerOfLowerCase("categories");
    SetterForProperty(Categories, "categories");
    assert [entry][1..] == [];
  }

  /**
   * A loaded article's categories are the ids the categories JOIN gives for its
   * row, as a list: no column of the row can override them.
   */
  lemma LoadedCategories(row: Row, t: Tables, jsonDecode: string -> Value)
    ensures Loaded(row, t, jsonDecode).Success? ==>
              Loaded(row, t, jsonDecode).value.categories
              == Some(ListOf(Joined(CategoryIds(t.links, row.id), t.categoryIds)))
  {
    HydratedCategoriesLast(Columns(row), ListOf(Joined(CategoryIds(t.links, row.id), t.categoryIds)), jsonDecode);
  }

  /**
   * The JOIN yields integers only, and yields category `c` exactly when `c` is a
   * row of `categories` and some linked value holds `c`.
   */
  lemma {:induction false} JoinedMembers(linked: seq<Value>, known: set<int>)
    ensures forall x :: x in Joined(linked, known) ==> x.Int?
    ensures forall c :: Int(c) in Joined(linked, known) <==>
                          c in known && exists v :: v in linked && ColumnInt(v) == Some(c)
  {
    if |linked| > 0 {
      JoinedMembers(linked[1..], known);
      assert forall v :: v in linked <==> v == linked[0] || v in linked[1..];
    }
  }

  /** Linked integers that all name existing categories come back unchanged and in order. */
  lemma {:induction false} JoinedKnownInts(linked: seq<Value>, known: set<int>)
    requires forall i :: 0 <= i < |linked| ==> linked[i].Int? && linked[i].n in known
    ensures Joined(linked, known) == linked
  {
    if |linked| > 0 {
      JoinedKnownInts(linked[1..], known);
    }
  }

  /**
   * What `getById` finds after a successful `create`: the created row, whose
   * categories are the given ones that name an existing category (as integers);
   * when every given category is such an integer, exactly the given list.
   */
  lemma CreateThenGetById(t: Tables, a: ArticleFields, now: int, createdAt: string,
                          jsonEncode: Value -> string, fault: Option<nat>, jsonDecode: string -> Value)
    requires Consistent(t)
    requires forall i :: 0 <= i < |t.links| ==> t.links[i].article != Some(t.nextId)
    ensures var (t', b, r) := CreateResult(t, a, now, createdAt, jsonEncode, fault);
            r.Success? && r.value.Some? && ById(t', r.value.value, jsonDecode, false).Success? ==>
              var found := ById(t', r.value.value, jsonDecode, false).value;
              var given := if b.categories.Some? then Values(b.categories.value) else [];
              found.Some?
              && found.value.categories == Some(ListOf(Joined(given, t.categoryIds)))
              && ((forall i :: 0 <= i < |given| ==> given[i].Int? && given[i].n in t.categoryIds) ==>
                    found.value.categories == Some(ListOf(given)))
  {
    var (t', b, r) := CreateResult(t, a, now, createdAt, jsonEncode, fault);
    if r.Success? && r.value.Some? {
      CreatedAppends(t, a, now, createdAt, jsonEncode, fault);
      CreatedRowFound(t, a, now, createdAt, jsonEncode, fault);
      CreatedLinks(t, a, now, createdAt, jsonEncode, fault);
      var row := t'.articles[|t.articles|];
      var given := if b.categories.Some? then Values(b.categories.value) else [];
      assert t'.categoryIds == t.categoryIds && row.id == r.value.value;
      assert CategoryIds(t'.links, row.id) == given;
      LoadedCategories(row, t', jsonDecode);
      if forall i :: 0 <= i < |given| ==> given[i].Int? && given[i].n in t.categoryIds {
        JoinedKnownInts(given, t.categoryIds);
      }
    }
  }

  // ---------------------------------------------------------------------------
  // Properties of getAll

  lemma PositionInOrder(k: nat)
    requires k < |FilterOrder|
    ensures Position(FilterOrder[k]) == k
  {
    if k == 0 {
    } else if k == 1 {
    } else if k == 2 {
    } else {
      assert k == 3;
    }
  }

  /** Each filter at position `k` or later comes from a non-empty value of its own key. */
  lemma {:induction false} ActiveFromEntries(filters: Value, k: nat, jsonEncode: Value -> string, floatText: real -> string)
    requires k <= |FilterOrder|
    ensures forall f :: f in ActiveFrom(filters, k, jsonEncode, floatText) ==>
              k <= Position(f.kind) && !Empty(Index(filters, FilterName(f.kind)))
              && f == FilterFor(f.kind, Index(filters, FilterName(f.kind)), jsonEncode, floatText)
    decreases |FilterOrder| - k
  {
    if k < |FilterOrder| {
      ActiveFromEntries(filters, k + 1, jsonEncode, floatText);
      PositionInOrder(k);
    }
  }

  /** Filters listed in the order of `FilterOrder`, each kind at most once. */
  predicate InFilterOrder(fs: seq<Filter>) {
    forall i, j :: 0 <= i < j < |fs| ==> Position(fs[i].kind) < Position(fs[j].kind)
  }

  /** Filters all at position `k` of `FilterOrder` or later. */
  predicate FromPosition(fs: seq<Filter>, k: nat) {
    forall i :: 0 <= i < |fs| ==> k <= Position(fs[i].kind)
  }

  lemma {:induction false} ActiveFromAfter(filters: Value, k: nat, jsonEncode: Value -> string, floatText: real -> string)
    requires k <= |FilterOrder|
    ensures FromPosition(ActiveFrom(filters, k, jsonEncode, floatText), k)
    decreases |FilterOrder| - k
  {
    if k < |FilterOrder| {
      ActiveFromAfter(filters, k + 1, jsonEncode, floatText);
      PositionInOrder(k);
      var v := Index(filters, FilterName(FilterOrder[k]));
      var rest := ActiveFrom(filters, k + 1, jsonEncode, floatText);
      if !Empty(v) {
        var r := [FilterFor(FilterOrder[k], v, jsonEncode, floatText)] + rest;
        assert ActiveFrom(filters, k, jsonEncode, floatText) == r;
        assert r[0].kind == FilterOrder[k];
        assert forall i :: 1 <= i < |r| ==> r[i] == rest[i - 1];
      } else {
        assert ActiveFrom(filters, k, jsonEncode, floatText) == rest;
      }
    }
  }

  lemma {:induction false} ActiveFromSorted(filters: Value, k: nat, jsonEncode: Value -> string, floatText: real -> string)
    requires k <= |FilterOrder|
    ensures InFilterOrder(ActiveFrom(filters, k, jsonEncode, floatText))
    decreases |FilterOrder| - k
  {
    if k < |FilterOrder| {
      ActiveFromSorted(filters, k + 1, jsonEncode, floatText);
      ActiveFromAfter(filters, k + 1, jsonEncode, floatText);
      PositionInOrder(k);
      var v := Index(filters, FilterName(FilterOrder[k]));
      var rest := ActiveFrom(filters, k + 1, jsonEncode, floatText);
      if !Empty(v) {
        var r := [FilterFor(FilterOrder[k], v, jsonEncode, floatText)] + rest;
        assert ActiveFrom(filters, k, jsonEncode, floatText) == r;
        assert r[0].kind == FilterOrder[k];
        forall i, j | 0 <= i < j < |r| ensures Position(r[i].kind) < Position(r[j].kind) {
          assert r[j] == rest[j - 1];
          if i > 0 {
            assert r[i] == rest[i - 1];
          }
        }
      } else {
        assert ActiveFrom(filters, k, jsonEncode, floatText) == rest;
      }
    }
  }

  /** Every non-empty filter value at position `k` or later has its filter. */
  lemma {:induction false} ActiveFromComplete(filters: Value, k: nat, n: nat, jsonEncode: Value -> string, floatText: real -> string)
    requires k <= n < |FilterOrder| && !Empty(Index(filters, FilterName(FilterOrder[n])))
    ensures exists f :: f in ActiveFrom(filters, k, jsonEncode, floatText) && f.kind == FilterOrder[n]
    decreases |FilterOrder| - k
  {
    if k < n {
      ActiveFromComplete(filters, k + 1, n, jsonEncode, floatText);
      var f :| f in ActiveFrom(filters, k + 1, jsonEncode, floatText) && f.kind == FilterOrder[n];
      var v := Index(filters, FilterName(FilterOrder[k]));
      if !Empty(v) {
        assert f in [FilterFor(FilterOrder[k], v, jsonEncode, floatText)] + ActiveFrom(filters, k + 1, jsonEncode, floatText);
      } else {
        assert ActiveFrom(filters, k, jsonEncode, floatText) == ActiveFrom(filters, k + 1, jsonEncode, floatText);
      }
    } else {
      var first := FilterFor(FilterOrder[k], Index(filters, FilterName(FilterOrder[k])), jsonEncode, floatText);
      assert first in ActiveFrom(filters, k, jsonEncode, floatText);
    }
  }

  /**
   * The filters of `getAll`: exactly one per non-empty filter value, in the order
   * category, author, date, tags; the WHERE clause is present exactly when one is.
   */
  lemma GetAllFilters(filters: Value, jsonEncode: Value -> string, floatText: real -> string)
    ensures var fs := Active(filters, jsonEncode, floatText);
            && InFilterOrder(fs)
            && (forall k: FilterKind :: (exists f :: f in fs && f.kind == k) <==> !Empty(Index(filters, FilterName(k))))
            && (forall f :: f in fs ==> f == FilterFor(f.kind, Index(filters, FilterName(f.kind)), jsonEncode, floatText))
  {
    ActiveFromSorted(filters, 0, jsonEncode, floatText);
    ActiveFromEntries(filters, 0, jsonEncode, floatText);
    forall k: FilterKind | !Empty(Index(filters, FilterName(k)))
      ensures exists f :: f in Active(filters, jsonEncode, floatText) && f.kind == k
    {
      PositionInOrder(Position(k));
      ActiveFromComplete(filters, 0, Position(k), jsonEncode, floatText);
    }
  }

  /** The WHERE clause is present exactly when some filter value is not empty. */
  lemma WhereIffFilter(page: int, perPage: int, filters: Value, jsonEncode: Value -> string, floatText: real -> string)
    ensures GetAllQuery(page, perPage, filters, jsonEncode, floatText).where == ""
            <==> forall k: FilterKind :: Empty(Index(filters, FilterName(k)))
  {
    GetAllFilters(filters, jsonEncode, floatText);
    var fs := Active(filters, jsonEncode, floatText);
    if fs != [] {
      assert fs[0] in fs;
      assert WhereClause(fs) == "WHERE " + Join(Conditions(fs), " AND ");
    }
  }

  /** The author filter is a substring match: its parameter is the name between two '%'. */
  lemma AuthorIsContains(filters: Value, s: string, jsonEncode: Value -> string, floatText: real -> string)
    requires Index(filters, "author") == Str(s) && !Empty(Str(s))
    ensures Filter(ByAuthor, "u.username LIKE :author", "author", Str("%" + s + "%")) in Active(filters, jsonEncode, floatText)
  {
    ActiveFromEntries(filters, 0, jsonEncode, floatText);
    assert FilterOrder[1] == ByAuthor;
    ActiveFromComplete(filters, 0, 1, jsonEncode, floatText);
  }

  /** A failing statement gives an empty page and a zero total; otherwise one article per row. */
  lemma GetAllShape(t: Tables, page: int, perPage: int, filters: Value, jsonEncode: Value -> string,
                    floatText: real -> string, run: Query -> Option<(seq<Row>, int)>, jsonDecode: string -> Value)
    ensures var q := GetAllQuery(page, perPage, filters, jsonEncode, floatText);
            var r := GetAllResult(t, page, perPage, filters, jsonEncode, floatText, run, jsonDecode);
            && (run(q).None? ==> r == Success(([], 0)))
            && (run(q).Some? && r.Success? ==> |r.value.0| == |run(q).value.0| && r.value.1 == run(q).value.1)
            && q.offset == (page - 1) * perPage && q.limit == perPage
  {
  }
}
