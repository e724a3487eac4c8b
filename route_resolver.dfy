/**
 * `RouteResolver::getRoutes`: every `#[Route(path, method)]` attribute on every
 * method of every `*Controller.php` class becomes
 * `$routes[method][path] = [className, methodName]`. Reflection is replaced by
 * the declarations it would report, file by file in `glob` order.
 */
module RouteResolver {
  import opened Wrappers
  import opened Php

  /** `#[Route($path, $method)]` */
  datatype RouteAttr = RouteAttr(path: string, verb: string)

  /** A method as reflection reports it, with its Route attributes in order. */
  datatype MethodDecl = MethodDecl(name: string, attrs: seq<RouteAttr>)

  /** A file of the controller directory and the methods of the class it defines. */
  datatype ControllerFile = ControllerFile(fileName: string, methods: seq<MethodDecl>)

  /** One registration: HTTP method, path and the stored handler entry. */
  datatype Registration = Registration(verb: string, path: string, entry: Value)

  /** method -> path -> entry, both levels in PHP insertion order. */
  type Table = seq<(string, seq<(string, Value)>)>

  const Suffix: string := "Controller.php"
  const Namespace: string := "App\\Controller\\"

  predicate EndsWith(s: string, suffix: string) {
    |s| >= |suffix| && s[|s| - |suffix|..] == suffix
  }

  // glob($dir . '/' . '*Controller.php') keeps these names; its '*' never matches a leading dot.
  predicate Globbed(name: string) {
    EndsWith(name, Suffix) && name[0] != '.'
  }

  /** `"App\\Controller\\" . basename($file, ".php")` */
  function ClassName(fileName: string): (c: string)
    requires Globbed(fileName)
    ensures c == Namespace + fileName[..|fileName| - 4]
    ensures EndsWith(c, "Controller")
  {
    var c := Namespace + fileName[..|fileName| - 4];
    assert c[|c| - 10..] == fileName[|fileName| - 14..|fileName| - 4];
    c
  }

  /** The positional pair `[$className, $methodName]` the resolver stores. */
  function Entry(className: string, methodName: string): Value {
    Arr([(IntKey(0), Str(className)), (IntKey(1), Str(methodName))])
  }

  // ---------------------------------------------------------------------------
  // The registrations in loop order, each list built from its end

  function AttrRegs(className: string, methodName: string, attrs: seq<RouteAttr>): (rs: seq<Registration>)
    ensures |rs| == |attrs|
    ensures forall i :: 0 <= i < |attrs| ==>
      rs[i] == Registration(attrs[i].verb, attrs[i].path, Entry(className, methodName))
  {
    if |attrs| == 0 then []
    else
      var a := attrs[|attrs| - 1];
      AttrRegs(className, methodName, attrs[..|attrs| - 1]) + [Registration(a.verb, a.path, Entry(className, methodName))]
  }

  function MethodRegs(className: string, methods: seq<MethodDecl>): seq<Registration> {
    if |methods| == 0 then []
    else
      var m := methods[|methods| - 1];
      MethodRegs(className, methods[..|methods| - 1]) + AttrRegs(className, m.name, m.attrs)
  }

  function FileRegs(f: ControllerFile): seq<Registration> {
    if Globbed(f.fileName) then MethodRegs(ClassName(f.fileName), f.methods) else []
  }

  function Regs(files: seq<ControllerFile>): seq<Registration> {
    if |files| == 0 then []
    else Regs(files[..|files| - 1]) + FileRegs(files[|files| - 1])
  }

  // ---------------------------------------------------------------------------
  // The fold

  /** `$routes[$m][$p] = $e`: creates the bucket on first use, then overwrites or appends. */
  function Register(t: Table, r: Registration): Table {
    Put(t, r.verb, Put(Lookup(t, r.verb).GetOr([]), r.path, r.entry))
  }

  function Fold(rs: seq<Registration>): Table {
    if |rs| == 0 then [] else Register(Fold(rs[..|rs| - 1]), rs[|rs| - 1])
  }

  /** The route table for a controller directory. */
  function RoutesOf(files: seq<ControllerFile>): Table {
    Fold(Regs(files))
  }

  /** `$routes[$m][$p] ?? null` */
  function Route(t: Table, m: string, p: string): Option<Value> {
    match Lookup(t, m)
    case None => None
    case Some(bucket) => Lookup(bucket, p)
  }

  /** The entry of the last registration of (m, p). */
  function LastFor(rs: seq<Registration>, m: string, p: string): Option<Value> {
    if |rs| == 0 then None
    else if rs[|rs| - 1].verb == m && rs[|rs| - 1].path == p then Some(rs[|rs| - 1].entry)
    else LastFor(rs[..|rs| - 1], m, p)
  }

  /** `getRoutes()`: three nested loops updating `$routes` in place. */
  method GetRoutes(files: seq<ControllerFile>) returns (routes: Table)
    ensures routes == RoutesOf(files)
  {
    routes := [];
    for i := 0 to |files|
      invariant routes == Fold(Regs(files[..i]))
    {
      RegsSnoc(files, i);
      routes := AddFileRoutes(routes, files[i], Regs(files[..i]));
    }
    assert files[..|files|] == files;
  }

  /** The body of the outer loop: the routes of one controller file, if the glob matches it. */
  method AddFileRoutes(routes: Table, file: ControllerFile, ghost done: seq<Registration>) returns (r: Table)
    requires routes == Fold(done)
    ensures r == Fold(done + FileRegs(file))
  {
    r := routes;
    if Globbed(file.fileName) {
      var className := ClassName(file.fileName);
      assert done + MethodRegs(className, file.methods[..0]) == done;
      for j := 0 to |file.methods|
        invariant r == Fold(done + MethodRegs(className, file.methods[..j]))
      {
        MethodRegsSnoc(className, file.methods, j);
        var decl := file.methods[j];
        r := AddMethodRoutes(r, className, decl, done + MethodRegs(className, file.methods[..j]));
        AppendAssoc(done, MethodRegs(className, file.methods[..j]), AttrRegs(className, decl.name, decl.attrs));
      }
      assert file.methods[..|file.methods|] == file.methods;
    } else {
      assert done + FileRegs(file) == done;
    }
  }

  /** The innermost loop: one route per `#[Route]` attribute of a method, in order. */
  method AddMethodRoutes(routes: Table, className: string, decl: MethodDecl, ghost done: seq<Registration>)
    returns (r: Table)
    requires routes == Fold(done)
    ensures r == Fold(done + AttrRegs(className, decl.name, decl.attrs))
  {
    r := routes;
    assert done + AttrRegs(className, decl.name, decl.attrs[..0]) == done;
    for k := 0 to |decl.attrs|
      invariant r == Fold(done + AttrRegs(className, decl.name, decl.attrs[..k]))
    {
      var attr := decl.attrs[k];
      AddRouteStep(done, className, decl, k);
      r := Register(r, Registration(attr.verb, attr.path, Entry(className, decl.name)));
    }
    assert decl.attrs[..|decl.attrs|] == decl.attrs;
  }

  lemma AddRouteStep(done: seq<Registration>, className: string, decl: MethodDecl, k: nat)
    requires k < |decl.attrs|
    ensures Fold(done + AttrRegs(className, decl.name, decl.attrs[..k + 1]))
         == Register(Fold(done + AttrRegs(className, decl.name, decl.attrs[..k])),
                     Registration(decl.attrs[k].verb, decl.attrs[k].path, Entry(className, decl.name)))
  {
    var r := Registration(decl.attrs[k].verb, decl.attrs[k].path, Entry(className, decl.name));
    AttrRegsSnoc(className, decl.name, decl.attrs, k);
    assert done + AttrRegs(className, decl.name, decl.attrs[..k + 1])
        == (done + AttrRegs(className, decl.name, decl.attrs[..k])) + [r];
    FoldSnoc(done + AttrRegs(className, decl.name, decl.attrs[..k]), r);
  }

  lemma AppendAssoc<T>(a: seq<T>, b: seq<T>, c: seq<T>)
    ensures (a + b) + c == a + (b + c)
  {
  }

  lemma RegsSnoc(files: seq<ControllerFile>, i: nat)
    requires i < |files|
    ensures Regs(files[..i + 1]) == Regs(files[..i]) + FileRegs(files[i])
  {
    assert files[..i + 1][..i] == files[..i];
  }

  lemma MethodRegsSnoc(className: string, ms: seq<MethodDecl>, j: nat)
    requires j < |ms|
    ensures MethodRegs(className, ms[..j + 1]) == MethodRegs(className, ms[..j]) + AttrRegs(className, ms[j].name, ms[j].attrs)
  {
    assert ms[..j + 1][..j] == ms[..j];
  }

  lemma AttrRegsSnoc(className: string, name: string, attrs: seq<RouteAttr>, k: nat)
    requires k < |attrs|
    ensures AttrRegs(className, name, attrs[..k + 1])
      == AttrRegs(className, name, attrs[..k]) + [Registration(attrs[k].verb, attrs[k].path, Entry(className, name))]
  {
    assert attrs[..k + 1][..k] == attrs[..k];
  }

  lemma FoldSnoc(rs: seq<Registration>, r: Registration)
    ensures Fold(rs + [r]) == Register(Fold(rs), r)
  {
    assert (rs + [r])[..|rs|] == rs;
  }

  // ---------------------------------------------------------------------------
  // Properties

  /** Last write wins: the table holds, for each (method, path), the last registration's entry. */
  lemma {:induction false} FoldLastWins(rs: seq<Registration>, m: string, p: string)
    ensures Route(Fold(rs), m, p) == LastFor(rs, m, p)
  {
    if |rs| > 0 {
      FoldLastWins(rs[..|rs| - 1], m, p);
    }
  }

  /** A bucket exists exactly for the HTTP methods some attribute names. */
  lemma {:induction false} BucketsOnlyForNamedMethods(rs: seq<Registration>, m: string)
    ensures Lookup(Fold(rs), m).Some? <==> exists i :: 0 <= i < |rs| && rs[i].verb == m
  {
    if |rs| > 0 {
      var init := rs[..|rs| - 1];
      BucketsOnlyForNamedMethods(init, m);
      if (exists i :: 0 <= i < |init| && init[i].verb == m) {
        var i :| 0 <= i < |init| && init[i].verb == m;
        assert rs[i].verb == m;
      }
      if (exists i :: 0 <= i < |rs| && rs[i].verb == m) {
        var i :| 0 <= i < |rs| && rs[i].verb == m;
        if i < |init| {
          assert init[i].verb == m;
        }
      }
    }
  }

  /** Every registered (method, path) is present, stored verbatim under its own path. */
  lemma {:induction false} LastForPresent(rs: seq<Registration>, i: nat)
    requires i < |rs|
    ensures LastFor(rs, rs[i].verb, rs[i].path).Some?
  {
    if i < |rs| - 1 {
      var last := rs[|rs| - 1];
      if !(last.verb == rs[i].verb && last.path == rs[i].path) {
        LastForPresent(rs[..|rs| - 1], i);
      }
    }
  }

  /** The shape of a table: its methods and, for each, its paths, in order. */
  function Shape(t: Table): seq<(string, seq<string>)> {
    seq(|t|, i requires 0 <= i < |t| => (t[i].0, Keys(t[i].1)))
  }

  /** Re-registering a (method, path) that is present changes no position in the table. */
  lemma RepeatKeepsPosition(t: Table, r: Registration)
    requires Route(t, r.verb, r.path).Some?
    ensures Shape(Register(t, r)) == Shape(t)
  {
    var bucket := Lookup(t, r.verb).value;
    var nb := Put(bucket, r.path, r.entry);
    assert Keys(nb) == Keys(bucket);
    var t' := Register(t, r);
    var i := Find(t, r.verb).value;
    assert t' == t[i := (r.verb, nb)];
  }

  /** Every Route attribute of every method of every globbed controller file is in the table. */
  lemma EveryAttributeRegistered(files: seq<ControllerFile>, f: nat, j: nat, k: nat)
    requires f < |files| && Globbed(files[f].fileName)
    requires j < |files[f].methods| && k < |files[f].methods[j].attrs|
    ensures var a := files[f].methods[j].attrs[k];
            Route(RoutesOf(files), a.verb, a.path).Some?
  {
    var a := files[f].methods[j].attrs[k];
    var i := RegIndex(files, f, j, k);
    FoldLastWins(Regs(files), a.verb, a.path);
    LastForPresent(Regs(files), i);
  }

  /** The registration of attribute k of method j of file f, located in the whole list. */
  lemma RegIndex(files: seq<ControllerFile>, f: nat, j: nat, k: nat) returns (i: nat)
    requires f < |files| && Globbed(files[f].fileName)
    requires j < |files[f].methods| && k < |files[f].methods[j].attrs|
    ensures i < |Regs(files)|
    ensures var a := files[f].methods[j].attrs[k];
            Regs(files)[i] == Registration(a.verb, a.path, Entry(ClassName(files[f].fileName), files[f].methods[j].name))
  {
    var file := files[f];
    var ms := file.methods;
    var i0 := MethodRegIndex(ClassName(file.fileName), ms, j, k);
    i := FileRegIndex(files, f, i0);
  }

  lemma {:induction false} MethodRegIndex(className: string, ms: seq<MethodDecl>, j: nat, k: nat) returns (i: nat)
    requires j < |ms| && k < |ms[j].attrs|
    ensures i < |MethodRegs(className, ms)|
    ensures MethodRegs(className, ms)[i] == Registration(ms[j].attrs[k].verb, ms[j].attrs[k].path, Entry(className, ms[j].name))
  {
    var init := ms[..|ms| - 1];
    if j == |ms| - 1 {
      i := |MethodRegs(className, init)| + k;
    } else {
      i := MethodRegIndex(className, init, j, k);
    }
  }

  lemma {:induction false} FileRegIndex(files: seq<ControllerFile>, f: nat, i0: nat) returns (i: nat)
    requires f < |files| && i0 < |FileRegs(files[f])|
    ensures i < |Regs(files)| && Regs(files)[i] == FileRegs(files[f])[i0]
  {
    var init := files[..|files| - 1];
    if f == |files| - 1 {
      i := |Regs(init)| + i0;
    } else {
      i := FileRegIndex(init, f, i0);
    }
  }

  // ---------------------------------------------------------------------------
  // The shape of every table the resolver builds

  /** A positional pair `[string, string]`, as `Entry` builds it. */
  predicate IsPair(v: Value) {
    v.Arr? && |v.entries| == 2
    && v.entries[0].0 == IntKey(0) && v.entries[0].1.Str?
    && v.entries[1].0 == IntKey(1) && v.entries[1].1.Str?
  }

  /** No method twice, no path twice in a bucket, every entry a positional pair. */
  ghost predicate WellFormed(t: Table) {
    UniqueKeys(t)
    && (forall i :: 0 <= i < |t| ==> UniqueKeys(t[i].1))
    && (forall i, j :: 0 <= i < |t| && 0 <= j < |t[i].1| ==> IsPair(t[i].1[j].1))
  }

  lemma RegisterWellFormed(t: Table, r: Registration)
    requires WellFormed(t) && IsPair(r.entry)
    ensures WellFormed(Register(t, r))
  {
    var bucket := Lookup(t, r.verb).GetOr([]);
    if Lookup(t, r.verb).Some? {
      var i :| 0 <= i < |t| && t[i] == (r.verb, bucket);
    }
    var nb := Put(bucket, r.path, r.entry);
    assert UniqueKeys(nb);
    assert forall j :: 0 <= j < |nb| ==> IsPair(nb[j].1);
  }

  /** The table `getRoutes()` returns is well formed. */
  lemma {:induction false} FoldWellFormed(rs: seq<Registration>)
    requires forall i :: 0 <= i < |rs| ==> IsPair(rs[i].entry)
    ensures WellFormed(Fold(rs))
  {
    if |rs| > 0 {
      FoldWellFormed(rs[..|rs| - 1]);
      RegisterWellFormed(Fold(rs[..|rs| - 1]), rs[|rs| - 1]);
    }
  }

  lemma {:induction false} RegsArePairs(files: seq<ControllerFile>)
    ensures forall i :: 0 <= i < |Regs(files)| ==> IsPair(Regs(files)[i].entry)
  {
    if |files| > 0 {
      RegsArePairs(files[..|files| - 1]);
      var f := files[|files| - 1];
      if Globbed(f.fileName) {
        MethodRegsArePairs(ClassName(f.fileName), f.methods);
      }
    }
  }

  lemma {:induction false} MethodRegsArePairs(className: string, ms: seq<MethodDecl>)
    ensures forall i :: 0 <= i < |MethodRegs(className, ms)| ==> IsPair(MethodRegs(className, ms)[i].entry)
  {
    if |ms| > 0 {
      MethodRegsArePairs(className, ms[..|ms| - 1]);
    }
  }

  lemma RoutesWellFormed(files: seq<ControllerFile>)
    ensures WellFormed(RoutesOf(files))
  {
    RegsArePairs(files);
    FoldWellFormed(Regs(files));
  }
}
