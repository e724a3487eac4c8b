/**
 * `Router::dispatch`: looks up the bucket of the request's HTTP method, tries
 * each registered path as the regular expression `#^path$#` in registration
 * order, and on the first match instantiates the controller and calls the
 * action with the named captures, numeric ones converted to numbers. With no
 * match it throws "Route not found for METHOD URI".
 *
 * The regular-expression engine is a parameter (`Matcher`). The code reads the
 * handler as `$routeInfo['className']` / `$routeInfo['methodName']` although
 * the resolver stores a positional pair; `DispatchOutcomeAsWritten` models that
 * and `DispatchOutcome` (used by `Router.Dispatch`) the positional reading.
 */
module Router {
  import opened Wrappers
  import opened Php
  import opened PhpNumeric
  import opened RouteResolver
  import Csrf

  /** `preg_match($pattern, $uri, $matches)`: the `$matches` array when it matches. */
  type Matcher = (string, string) -> Option<seq<(Key, string)>>

  datatype Outcome =
    | Invoked(controllerClass: string, action: string, args: seq<Value>)
    | RouteNotFound(message: string)  // an Exception: the front controller catches it
    | Fatal(error: string)            // an Error: nothing catches it
    | CsrfRejected                    // the guarded dispatch's 403: no handler runs

  /** `'#^' . $pattern . '$#'` */
  function Delimited(path: string): string {
    "#^" + path + "$#"
  }

  function NotFound(verb: string, uri: string): Outcome {
    RouteNotFound("Route not found for " + verb + " " + uri)
  }

  // ---------------------------------------------------------------------------
  // Parameters

  /** `is_numeric($p) ? (is_float($p * 1) ? (float)$p : (int)$p) : $p` */
  function Coerce(param: string): (v: Value)
    ensures IsNumeric(param) <==> v.Int? || v.Float?
    ensures !IsNumeric(param) ==> v == Str(param)
  {
    match ParseNumeric(param)
    case None => Str(param)
    case Some(IntNum(n)) => Int(n)
    case Some(FloatNum(r)) => Float(r)
  }

  /** `array_filter($matches, 'is_string', ARRAY_FILTER_USE_KEY)`: the named groups, in order. */
  function NamedValues(matches: seq<(Key, string)>): (r: seq<string>)
    ensures |r| <= |matches|
    ensures forall s :: s in r <==> exists i :: 0 <= i < |matches| && matches[i].0.StrKey? && matches[i].1 == s
  {
    if |matches| == 0 then []
    else
      var rest := NamedValues(matches[1..]);
      assert forall i :: 1 <= i < |matches| ==> matches[i] == matches[1..][i - 1];
      if matches[0].0.StrKey? then [matches[0].1] + rest else rest
  }

  /** One entry contributes its value exactly when its key is a string. */
  lemma NamedValuesOne(m: (Key, string))
    ensures NamedValues([m]) == (if m.0.StrKey? then [m.1] else [])
  {
    assert [m][1..] == [];
  }

  /** The filter works entry by entry: it keeps the order and the multiplicity of the named values. */
  lemma {:induction false} NamedValuesAppend(a: seq<(Key, string)>, b: seq<(Key, string)>)
    ensures NamedValues(a + b) == NamedValues(a) + NamedValues(b)
  {
    if |a| == 0 {
      assert a + b == b;
    } else {
      assert (a + b)[1..] == a[1..] + b;
      NamedValuesAppend(a[1..], b);
    }
  }

  /** `array_values(array_map(..., $params))` */
  function Args(matches: seq<(Key, string)>): (args: seq<Value>)
    ensures |args| == |NamedValues(matches)|
    ensures forall i :: 0 <= i < |args| ==> (args[i].Int? || args[i].Float? <==> IsNumeric(NamedValues(matches)[i]))
    ensures forall i :: 0 <= i < |args| && !IsNumeric(NamedValues(matches)[i]) ==> args[i] == Str(NamedValues(matches)[i])
  {
    var named := NamedValues(matches);
    seq(|named|, i requires 0 <= i < |named| => Coerce(named[i]))
  }

  /** A decimal integer in the 64-bit range comes back as that int. */
  lemma CoerceIntToString(n: int)
    requires IntMin <= n <= IntMax
    ensures Coerce(IntToString(n)) == Int(n)
  {
    if n >= 0 {
      DigitStringIsInt(NatToString(n));
    } else {
      var ds := NatToString(-n);
      assert IntToString(n) == "-" + ds;
      calc {
        ParseNumeric("-" + ds);
      == { NegativeDigitString(ds); }
        Signed(Some((DigitsValue(ds) as real, true)), true);
      == { assert DigitsValue(ds) == -n; }
        Signed(Some(((-n) as real, true)), true);
      == { NegatedInt(-n); }
        Some(IntNum(n));
      }
    }
  }

  /** A capture with no digit at all is passed on as the string itself. */
  lemma CoerceWithoutDigits(param: string)
    requires forall i :: 0 <= i < |param| ==> !IsDigit(param[i])
    ensures Coerce(param) == Str(param)
  {
    NoDigitNotNumeric(param);
  }

  /** Without named groups the action is called with no argument. */
  lemma {:induction false} NoNamedGroupNoArgs(matches: seq<(Key, string)>)
    requires forall i :: 0 <= i < |matches| ==> matches[i].0.IntKey?
    ensures NamedValues(matches) == [] && Args(matches) == []
  {
    if |matches| > 0 {
      NoNamedGroupNoArgs(matches[1..]);
    }
  }

  // ---------------------------------------------------------------------------
  // Matching and the handler

  /** The position of the first path of the bucket whose pattern matches the URI. */
  function FirstMatch(bucket: seq<(string, Value)>, uri: string, matcher: Matcher): (r: Option<nat>)
    ensures r.Some? ==> r.value < |bucket| && matcher(Delimited(bucket[r.value].0), uri).Some?
    ensures r.Some? ==> forall j :: 0 <= j < r.value ==> matcher(Delimited(bucket[j].0), uri).None?
    ensures r.None? ==> forall j :: 0 <= j < |bucket| ==> matcher(Delimited(bucket[j].0), uri).None?
  {
    if |bucket| == 0 then None
    else if matcher(Delimited(bucket[0].0), uri).Some? then Some(0)
    else match FirstMatch(bucket[1..], uri, matcher)
      case None => None
      case Some(i) => Some(i + 1)
  }

  /** As written: `$routeInfo['className']` and `$routeInfo['methodName']`. */
  function HandlerAsWritten(routeInfo: Value): Option<(string, string)> {
    match (Index(routeInfo, "className"), Index(routeInfo, "methodName"))
    case (Str(c), Str(m)) => Some((c, m))
    case _ => None
  }

  /** Corrected: `$routeInfo[0]` and `$routeInfo[1]`, as the resolver stores them. */
  function Handler(routeInfo: Value): Option<(string, string)> {
    match (IndexKey(routeInfo, IntKey(0)), IndexKey(routeInfo, IntKey(1)))
    case (Str(c), Str(m)) => Some((c, m))
    case _ => None
  }

  /** `new $controllerClass()` then `$controller->$action(...$args)`; a null name is an Error. */
  function Invoke(handler: Option<(string, string)>, matches: seq<(Key, string)>): Outcome {
    match handler
    case None => Fatal("Class name must be a valid object or a string")
    case Some((c, m)) => Invoked(c, m, Args(matches))
  }

  /**
   * `$this->routes[$method]` for a method with no bucket is null: `foreach`
   * warns and runs no iteration, so the request falls through to the throw.
   */
  function Bucket(routes: Table, verb: string): seq<(string, Value)> {
    Lookup(routes, verb).GetOr([])
  }

  function DispatchOutcomeAsWritten(routes: Table, uri: string, verb: string, matcher: Matcher): Outcome {
    var bucket := Bucket(routes, verb);
    match FirstMatch(bucket, uri, matcher)
    case None => NotFound(verb, uri)
    case Some(i) => Invoke(HandlerAsWritten(bucket[i].1), matcher(Delimited(bucket[i].0), uri).value)
  }

  function DispatchOutcome(routes: Table, uri: string, verb: string, matcher: Matcher): Outcome {
    var bucket := Bucket(routes, verb);
    match FirstMatch(bucket, uri, matcher)
    case None => NotFound(verb, uri)
    case Some(i) => Invoke(Handler(bucket[i].1), matcher(Delimited(bucket[i].0), uri).value)
  }

  class Router {
    var routes: Table

    /** `$this->routes = RouteResolver::getRoutes()` */
    constructor(files: seq<ControllerFile>)
      ensures routes == RoutesOf(files)
    {
      var resolved := GetRoutes(files);
      routes := resolved;
    }

    /** `dispatch($uri, $method)`: first match wins, with an early return. */
    method Dispatch(uri: string, verb: string, matcher: Matcher) returns (o: Outcome)
      ensures o == DispatchOutcome(routes, uri, verb, matcher)
    {
      var bucket := Bucket(routes, verb);
      var i := 0;
      while i < |bucket|
        invariant 0 <= i <= |bucket|
        invariant forall j :: 0 <= j < i ==> matcher(Delimited(bucket[j].0), uri).None?
      {
        var matches := matcher(Delimited(bucket[i].0), uri);
        if matches.Some? {
          o := Invoke(Handler(bucket[i].1), matches.value);
          return;
        }
        i := i + 1;
      }
      o := NotFound(verb, uri);
    }

    /** Corrected dispatch: the CSRF check before the route lookup. */
    method GuardedDispatch(uri: string, verb: string, matcher: Matcher, header: Option<string>, secret: Option<string>)
      returns (o: Outcome)
      ensures o == GuardedOutcome(routes, uri, verb, matcher, header, secret)
    {
      if NeedsCsrf(uri, verb) && !Csrf.VerifyToken(header, secret) {
        return CsrfRejected;
      }
      o := Dispatch(uri, verb, matcher);
    }
  }

  // ---------------------------------------------------------------------------
  // Properties

  /** The exception is thrown exactly when no path of the method's bucket matches. */
  lemma NotFoundExactly(routes: Table, uri: string, verb: string, matcher: Matcher)
    ensures DispatchOutcome(routes, uri, verb, matcher).RouteNotFound?
        <==> forall j :: 0 <= j < |Bucket(routes, verb)| ==> matcher(Delimited(Bucket(routes, verb)[j].0), uri).None?
    ensures DispatchOutcome(routes, uri, verb, matcher).RouteNotFound? ==>
            DispatchOutcome(routes, uri, verb, matcher) == RouteNotFound("Route not found for " + verb + " " + uri)
  {
    var bucket := Bucket(routes, verb);
    if FirstMatch(bucket, uri, matcher).Some? {
      var i := FirstMatch(bucket, uri, matcher).value;
      assert matcher(Delimited(bucket[i].0), uri).Some?;
    }
  }

  /** A method nobody registered always ends in the exception. */
  lemma UnknownMethodNotFound(routes: Table, uri: string, verb: string, matcher: Matcher)
    requires Lookup(routes, verb).None?
    ensures DispatchOutcome(routes, uri, verb, matcher) == NotFound(verb, uri)
    ensures DispatchOutcomeAsWritten(routes, uri, verb, matcher) == NotFound(verb, uri)
  {
  }

  /**
   * As written, no request to a table the resolver builds reaches a controller:
   * whenever the positional reading would invoke an action, the named reading
   * stops with an Error instead; otherwise both throw the same exception.
   */
  lemma AsWrittenNeverInvokes(files: seq<ControllerFile>, uri: string, verb: string, matcher: Matcher)
    ensures !DispatchOutcomeAsWritten(RoutesOf(files), uri, verb, matcher).Invoked?
    ensures DispatchOutcomeAsWritten(RoutesOf(files), uri, verb, matcher).Fatal?
        <==> DispatchOutcome(RoutesOf(files), uri, verb, matcher).Invoked?
    ensures DispatchOutcome(RoutesOf(files), uri, verb, matcher).RouteNotFound? ==>
            DispatchOutcomeAsWritten(RoutesOf(files), uri, verb, matcher) == DispatchOutcome(RoutesOf(files), uri, verb, matcher)
  {
    var t := RoutesOf(files);
    RoutesWellFormed(files);
    var bucket := Bucket(t, verb);
    match FirstMatch(bucket, uri, matcher) {
      case None =>
      case Some(i) =>
        assert Lookup(t, verb).Some?;
        var k :| 0 <= k < |t| && t[k] == (verb, bucket);
        PairHandlers(bucket[i].1);
    }
  }

  /** On a positional pair the named reading finds nothing and the positional one finds both names. */
  lemma PairHandlers(v: Value)
    requires IsPair(v)
    ensures HandlerAsWritten(v).None?
    ensures Handler(v) == Some((v.entries[0].1.s, v.entries[1].1.s))
  {
    assert Lookup(v.entries, StrKey("className")).None?;
    assert Find(v.entries, IntKey(0)) == Some(0);
    assert Find(v.entries, IntKey(1)) == Some(1) by {
      assert v.entries[1..][0].0 == IntKey(1);
    }
  }

  // ---------------------------------------------------------------------------
  // The resolver's own paths

  /** A path whose regex is itself: no metacharacter, and every '{' opens a letter, not a quantifier. */
  predicate Plain(p: string) {
    forall i :: 0 <= i < |p| ==> PlainAt(p, i)
  }

  predicate IsLetter(c: char) {
    ('a' <= c <= 'z') || ('A' <= c <= 'Z')
  }

  predicate PlainAt(p: string, i: nat)
    requires i < |p|
  {
    IsLetter(p[i]) || ('0' <= p[i] <= '9') || p[i] == '/' || p[i] == '-' || p[i] == '_' || p[i] == '}'
    || (p[i] == '{' && i + 1 < |p| && IsLetter(p[i + 1]))
  }

  /**
   * PCRE on `#^p$#` for a plain p: it matches p itself, or p followed by one
   * final newline (`$` without the D modifier), and reports only group 0.
   */
  ghost predicate LiteralOnPlain(matcher: Matcher) {
    forall p, uri :: Plain(p) ==>
      matcher(Delimited(p), uri) == if uri == p || uri == p + "\n" then Some([(IntKey(0), p)]) else None
  }

  /** Every Route attribute path of every controller file is plain. */
  predicate AllPathsPlain(files: seq<ControllerFile>) {
    forall f, j, k :: 0 <= f < |files| && 0 <= j < |files[f].methods| && 0 <= k < |files[f].methods[j].attrs| ==>
      Plain(files[f].methods[j].attrs[k].path)
  }

  lemma {:induction false} MethodRegsPlain(className: string, ms: seq<MethodDecl>)
    requires forall j, k :: 0 <= j < |ms| && 0 <= k < |ms[j].attrs| ==> Plain(ms[j].attrs[k].path)
    ensures forall i :: 0 <= i < |MethodRegs(className, ms)| ==> Plain(MethodRegs(className, ms)[i].path)
  {
    if |ms| > 0 {
      MethodRegsPlain(className, ms[..|ms| - 1]);
      var m := ms[|ms| - 1];
      assert forall k :: 0 <= k < |m.attrs| ==> Plain(AttrRegs(className, m.name, m.attrs)[k].path);
    }
  }

  lemma {:induction false} RegsPlain(files: seq<ControllerFile>)
    requires AllPathsPlain(files)
    ensures forall i :: 0 <= i < |Regs(files)| ==> Plain(Regs(files)[i].path)
  {
    if |files| > 0 {
      var init := files[..|files| - 1];
      assert AllPathsPlain(init) by {
        forall f, j, k | 0 <= f < |init| && 0 <= j < |init[f].methods| && 0 <= k < |init[f].methods[j].attrs|
          ensures Plain(init[f].methods[j].attrs[k].path)
        {
          assert init[f] == files[f];
        }
      }
      RegsPlain(init);
      var file := files[|files| - 1];
      if Globbed(file.fileName) {
        MethodRegsPlain(ClassName(file.fileName), file.methods);
      }
    }
  }

  /** Every path key of every bucket is plain. */
  ghost predicate KeysPlain(t: Table) {
    forall i, j :: 0 <= i < |t| && 0 <= j < |t[i].1| ==> Plain(t[i].1[j].0)
  }

  lemma {:induction false} FoldKeysPlain(rs: seq<Registration>)
    requires forall i :: 0 <= i < |rs| ==> Plain(rs[i].path)
    ensures KeysPlain(Fold(rs))
  {
    if |rs| > 0 {
      var t := Fold(rs[..|rs| - 1]);
      var r := rs[|rs| - 1];
      FoldKeysPlain(rs[..|rs| - 1]);
      var bucket := Lookup(t, r.verb).GetOr([]);
      if Lookup(t, r.verb).Some? {
        var i :| 0 <= i < |t| && t[i] == (r.verb, bucket);
      }
      var nb := Put(bucket, r.path, r.entry);
      assert forall j :: 0 <= j < |nb| ==> Plain(nb[j].0);
    }
  }

  /**
   * With the resolver's plain paths, a request for a registered (method, path)
   * invokes the action of the last registration of that pair, with no argument.
   */
  lemma CorrectedInvokesRegisteredHandler(files: seq<ControllerFile>, verb: string, path: string,
                                          className: string, action: string, matcher: Matcher)
    requires AllPathsPlain(files) && LiteralOnPlain(matcher)
    requires LastFor(Regs(files), verb, path) == Some(Entry(className, action))
    ensures DispatchOutcome(RoutesOf(files), path, verb, matcher) == Invoked(className, action, [])
  {
    FoldLastWins(Regs(files), verb, path);
    RoutesWellFormed(files);
    RegsPlain(files);
    FoldKeysPlain(Regs(files));
    RegisteredPathMatches(RoutesOf(files), verb, path, matcher);
    PairHandlers(Entry(className, action));
    NoNamedGroupNoArgs([(IntKey(0), path)]);
  }

  /** In a well-formed table of plain paths, a registered path is the first to match itself. */
  lemma RegisteredPathMatches(t: Table, verb: string, path: string, matcher: Matcher)
    requires WellFormed(t) && KeysPlain(t) && LiteralOnPlain(matcher)
    requires Route(t, verb, path).Some?
    ensures DispatchOutcome(t, path, verb, matcher) == Invoke(Handler(Route(t, verb, path).value), [(IntKey(0), path)])
  {
    var bucket := Bucket(t, verb);
    var b :| 0 <= b < |t| && t[b] == (verb, bucket);
    var k := Find(bucket, path).value;
    assert bucket[k].1 == Route(t, verb, path).value;
    assert Plain(t[b].1[k].0);
    forall j | 0 <= j < k
      ensures matcher(Delimited(bucket[j].0), path).None?
    {
      assert Plain(t[b].1[j].0);
      PlainMismatch(matcher, bucket[j].0, path);
    }
    assert matcher(Delimited(path), path) == Some([(IntKey(0), path)]);
    assert FirstMatch(bucket, path, matcher) == Some(k);
  }

  /** A plain pattern matches no other plain URI. */
  lemma PlainMismatch(matcher: Matcher, q: string, uri: string)
    requires LiteralOnPlain(matcher) && Plain(q) && Plain(uri) && q != uri
    ensures matcher(Delimited(q), uri).None?
  {
    if |uri| > 0 {
      assert PlainAt(uri, |uri| - 1);
      assert (q + "\n")[|q|] == '\n';
    }
    assert uri != q + "\n";
  }

  // ---------------------------------------------------------------------------
  // Path parameters

  /**
   * As written, no path parameter ever reaches an action: the resolver keys
   * the table by the attribute's path as is, and a plain path has no group for
   * PCRE to capture (`{id}` is not a quantifier, so it matches the text `{id}`).
   * A dispatched request carries no argument, and its URI is a registered path
   * itself, possibly with one final newline.
   */
  lemma PlainRoutesPassNoArgs(files: seq<ControllerFile>, uri: string, verb: string, matcher: Matcher)
    requires AllPathsPlain(files) && LiteralOnPlain(matcher)
    ensures var o := DispatchOutcome(RoutesOf(files), uri, verb, matcher);
            o.Invoked? ==> o.args == []
    ensures var o := DispatchOutcome(RoutesOf(files), uri, verb, matcher);
            var bucket := Bucket(RoutesOf(files), verb);
            o.Invoked? ==> exists j :: 0 <= j < |bucket| && (uri == bucket[j].0 || uri == bucket[j].0 + "\n")
  {
    var t := RoutesOf(files);
    RoutesWellFormed(files);
    RegsPlain(files);
    FoldKeysPlain(Regs(files));
    var bucket := Bucket(t, verb);
    match FirstMatch(bucket, uri, matcher) {
      case None =>
      case Some(i) =>
        assert Lookup(t, verb).Some?;
        var b :| 0 <= b < |t| && t[b] == (verb, bucket);
        assert Plain(t[b].1[i].0);
        NoNamedGroupNoArgs([(IntKey(0), bucket[i].0)]);
    }
  }

  /** The upload route's pattern does not match a URI that carries an actual id. */
  lemma IdUriMissesBraceRoute(matcher: Matcher)
    requires LiteralOnPlain(matcher)
    ensures matcher(Delimited("/api/articles/{id}/image"), "/api/articles/5/image").None?
  {
    var q := "/api/articles/{id}/image";
    var uri := "/api/articles/5/image";
    assert forall i :: 0 <= i < |q| ==> PlainAt(q, i);
    assert forall i :: 0 <= i < |uri| ==> PlainAt(uri, i);
    assert q[14] != uri[14];
    PlainMismatch(matcher, q, uri);
  }

  /**
   * Corrected: a route whose pattern names its parameter, as in
   * `/api/articles/(?P<id>\d+)/image`, hands the captured integer to the action.
   * PCRE reports a named group under its name and again under its number.
   */
  lemma NamedGroupPassesId(routes: Table, uri: string, verb: string, matcher: Matcher, n: int,
                           className: string, action: string)
    requires IntMin <= n <= IntMax
    requires var bucket := Bucket(routes, verb);
             var i := FirstMatch(bucket, uri, matcher);
             && i.Some?
             && Handler(bucket[i.value].1) == Some((className, action))
             && matcher(Delimited(bucket[i.value].0), uri)
                == Some([(IntKey(0), uri), (StrKey("id"), IntToString(n)), (IntKey(1), IntToString(n))])
    ensures DispatchOutcome(routes, uri, verb, matcher) == Invoked(className, action, [Int(n)])
  {
    IdCaptureArgs(uri, n);
  }

  /** The whole match, the named `id` group and its numbered copy give the one argument `Int(n)`. */
  lemma IdCaptureArgs(uri: string, n: int)
    requires IntMin <= n <= IntMax
    ensures Args([(IntKey(0), uri), (StrKey("id"), IntToString(n)), (IntKey(1), IntToString(n))]) == [Int(n)]
  {
    var matches := [(IntKey(0), uri), (StrKey("id"), IntToString(n)), (IntKey(1), IntToString(n))];
    IdCaptureValues(uri, IntToString(n));
    CoerceIntToString(n);
    assert Args(matches)[0] == Coerce(IntToString(n));
  }

  /** Of the whole match, a named group and its numbered copy, only the named group's value is kept. */
  lemma IdCaptureValues(uri: string, v: string)
    ensures NamedValues([(IntKey(0), uri), (StrKey("id"), v), (IntKey(1), v)]) == [v]
  {
    var (m0, m1, m2) := ((IntKey(0), uri), (StrKey("id"), v), (IntKey(1), v));
    assert [m0, m1, m2] == [m0] + ([m1] + [m2]);
    NamedValuesAppend([m0], [m1] + [m2]);
    NamedValuesAppend([m1], [m2]);
    NamedValuesOne(m0);
    NamedValuesOne(m1);
    NamedValuesOne(m2);
  }

  // ---------------------------------------------------------------------------
  // CSRF

  /** The HTTP methods that change state. */
  const Mutating: set<string> := {"POST", "PUT", "DELETE", "PATCH"}

  /** The paths a client calls before it can hold a token. */
  const CsrfExempt: set<string> := {"/api/login", "/api/register"}

  /** Whether a request must carry the CSRF secret. */
  predicate NeedsCsrf(uri: string, verb: string) {
    verb in Mutating && uri !in CsrfExempt
  }

  /**
   * As written, dispatch never consults `CSRFMiddleware::verifyToken`: a
   * state-changing request for a registered path reaches its action whatever
   * its `X-CSRF-Token` header, even one the check rejects.
   */
  lemma UnverifiedRequestInvokes(files: seq<ControllerFile>, verb: string, path: string,
                                 className: string, action: string, matcher: Matcher,
                                 header: Option<string>, secret: Option<string>)
    requires AllPathsPlain(files) && LiteralOnPlain(matcher)
    requires LastFor(Regs(files), verb, path) == Some(Entry(className, action))
    requires NeedsCsrf(path, verb) && !Csrf.VerifyToken(header, secret)
    ensures DispatchOutcome(RoutesOf(files), path, verb, matcher) == Invoked(className, action, [])
  {
    CorrectedInvokesRegisteredHandler(files, verb, path, className, action, matcher);
  }

  /**
   * Corrected: a state-changing request outside the exempt paths is refused
   * unless `verifyToken` accepts its header; any other request is dispatched.
   */
  function GuardedOutcome(routes: Table, uri: string, verb: string, matcher: Matcher,
                          header: Option<string>, secret: Option<string>): Outcome {
    if NeedsCsrf(uri, verb) && !Csrf.VerifyToken(header, secret) then CsrfRejected
    else DispatchOutcome(routes, uri, verb, matcher)
  }

  /**
   * The guarded dispatch refuses exactly the requests that need the secret and
   * lack it; no action runs for them, and every other request is dispatched as
   * before.
   */
  lemma GuardedDispatchChecksCsrf(routes: Table, uri: string, verb: string, matcher: Matcher,
                                  header: Option<string>, secret: Option<string>)
    ensures var o := GuardedOutcome(routes, uri, verb, matcher, header, secret);
            o == CsrfRejected
            <==> NeedsCsrf(uri, verb) && !(header.Some? && secret.Some? && header.value == secret.value
                                           && !Csrf.Falsy(header.value))
    ensures var o := GuardedOutcome(routes, uri, verb, matcher, header, secret);
            o.Invoked? && NeedsCsrf(uri, verb) ==> header.Some? && header == secret
    ensures var o := GuardedOutcome(routes, uri, verb, matcher, header, secret);
            o != CsrfRejected ==> o == DispatchOutcome(routes, uri, verb, matcher)
  {
    var d := DispatchOutcome(routes, uri, verb, matcher);
    assert d != CsrfRejected by {
      match FirstMatch(Bucket(routes, verb), uri, matcher)
      case None =>
      case Some(i) =>
    }
  }
}
