/** The Django extractor. Each `path(...)` registration of a urls.py is
    given by the two groups of the pattern at django.py:9; what the lookup
    of a view's source in the views.py beside it and Python's parser make of
    each view is given as a map. */
module Django {
  import opened Types
  import opened Text
  import opened Seqs

  /** Groups 1 and 2 of one registration: the route literal and the dotted
      reference to the view. */
  datatype PathMatch = PathMatch(route: string, view: string)

  /** A urls.py: the path, relative to the scanned root, of the views.py in
      the same directory, and the registrations in the order the scan finds
      them. */
  datatype UrlsFile = UrlsFile(viewsPath: string, matches: seq<PathMatch>)

  /** A statement of a class body, as far as the method scan looks at it. */
  datatype Statement = FunctionDef(name: string) | OtherStatement

  /** What `ast.parse` makes of a view's source, as far as the method scan
      looks at it: a syntax error, a module without statements (indexing its
      body raises), or a module whose first statement is or is not a class. */
  datatype ModuleShape = Unparsable | NoStatements | FirstIsNotClass | FirstIsClass(body: seq<Statement>)

  /** What `get_source_from_views_file(views_file, view_name)` finds: the
      source text of the first class or function definition of that name found
      anywhere in the syntax tree of views.py (nested ones included, as
      `ast.walk` visits them all), and what `ast.parse` makes of that text. */
  datatype ViewSource = ViewSource(text: string, shape: ModuleShape)

  /** The views found, by views.py path and view name; a pair that is absent
      stands for a views.py that is missing, does not parse, or has no such
      definition (the lookup returns None). */
  type Views = map<(string, string), ViewSource>

  const HandlerNames: seq<string> := ["get", "post", "put", "patch", "delete"]

  /** The methods the handler names stand for. */
  const HttpMethods: seq<string> := ["GET", "POST", "PUT", "PATCH", "DELETE"]

  // ---------------------------------------------------------------------
  // get_methods_from_class_source
  // ---------------------------------------------------------------------

  /** A `def` whose name is one of the handler names. */
  predicate IsHandler(s: Statement) {
    s.FunctionDef? && Listed(s.name, HandlerNames)
  }

  /** `w in ws`, as a walk down the list (ListedIsIn relates the two), so
      that a proof only looks at as many names as it needs. */
  predicate Listed(w: string, ws: seq<string>) {
    |ws| > 0 && (w == ws[0] || Listed(w, ws[1..]))
  }

  lemma {:induction false} ListedIsIn(w: string, ws: seq<string>)
    ensures Listed(w, ws) <==> w in ws
  {
    if |ws| > 0 {
      ListedIsIn(w, ws[1..]);
      assert ws == [ws[0]] + ws[1..];
    }
  }

  /** The upper-cased names of the handler methods among the first `n`
      statements of a class body. */
  function Handlers(body: seq<Statement>, n: nat): seq<string>
    requires n <= |body|
  {
    if n == 0 then []
    else Handlers(body, n - 1) + (if IsHandler(body[n - 1]) then [Upper(body[n - 1].name)] else [])
  }

  /** The methods a view answers: the handlers of the class that opens its
      source, or ["ANY"] when there are none or the source is no class. */
  function ClassMethods(shape: ModuleShape): seq<string>
  {
    var found := if shape.FirstIsClass? then Handlers(shape.body, |shape.body|) else [];
    if |found| == 0 then ["ANY"] else found
  }

  /** `get_methods_from_class_source`, given the parse of the source. */
  method GetMethodsFromClassSource(shape: ModuleShape) returns (methods: seq<string>)
    ensures methods == ClassMethods(shape)
  {
    var found: seq<string> := [];
    if shape.FirstIsClass? {
      for k := 0 to |shape.body|
        invariant found == Handlers(shape.body, k)
      {
        var node := shape.body[k];
        if node.FunctionDef? {
          ListedIsIn(node.name, HandlerNames);
          if node.name in HandlerNames {
            found := found + [Upper(node.name)];
          }
        }
      }
    }
    methods := if |found| == 0 then ["ANY"] else found;
  }

  /** Each handler name upper-cases to the HTTP method it stands for. */
  lemma UpperHandlerNames()
    ensures forall k :: 0 <= k < |HandlerNames| ==> Upper(HandlerNames[k]) == HttpMethods[k]
  {
    UpperCharwise("get", "GET");
    UpperCharwise("post", "POST");
    UpperCharwise("put", "PUT");
    UpperCharwise("patch", "PATCH");
    UpperCharwise("delete", "DELETE");
  }

  /** A listed name upper-cases to the matching entry of `us`. */
  lemma {:induction false} ListedUpper(w: string, ws: seq<string>, us: seq<string>)
    requires |ws| == |us| && forall k :: 0 <= k < |ws| ==> Upper(ws[k]) == us[k]
    requires Listed(w, ws)
    ensures Upper(w) in us
  {
    if w == ws[0] {
      assert Upper(w) == us[0];
    } else {
      ListedUpper(w, ws[1..], us[1..]);
      assert us == [us[0]] + us[1..];
    }
  }

  /** The handlers found are upper-case HTTP methods, at most one per
      statement. */
  lemma {:induction false} HandlersAreMethods(body: seq<Statement>, n: nat)
    requires n <= |body|
    ensures |Handlers(body, n)| <= n
    ensures forall k :: 0 <= k < |Handlers(body, n)| ==> Handlers(body, n)[k] in HttpMethods
  {
    if n > 0 {
      HandlersAreMethods(body, n - 1);
      var s := body[n - 1];
      if IsHandler(s) {
        UpperHandlerNames();
        ListedUpper(s.name, HandlerNames, HttpMethods);
      }
    }
  }

  /** Every handler statement contributes its method, so none are found
      exactly when the body has no handler. */
  lemma HandlersComplete(body: seq<Statement>, n: nat)
    requires n <= |body|
    ensures forall k :: 0 <= k < n && IsHandler(body[k]) ==> Upper(body[k].name) in Handlers(body, n)
  {
    forall k | 0 <= k < n && IsHandler(body[k])
      ensures Upper(body[k].name) in Handlers(body, n)
    {
      HandlerFound(body, n, k);
    }
  }

  lemma {:induction false} HandlerFound(body: seq<Statement>, n: nat, k: nat)
    requires k < n <= |body| && IsHandler(body[k])
    ensures Upper(body[k].name) in Handlers(body, n)
  {
    var before := Handlers(body, n - 1);
    if k < n - 1 {
      HandlerFound(body, n - 1, k);
      assert Handlers(body, n)[..|before|] == before;
    } else {
      assert Handlers(body, n) == before + [Upper(body[k].name)];
    }
  }

  /** No handler is found exactly when the body has none. */
  lemma {:induction false} HandlersNone(body: seq<Statement>, n: nat)
    requires n <= |body|
    ensures Handlers(body, n) == [] <==> forall k :: 0 <= k < n ==> !IsHandler(body[k])
  {
    if n > 0 {
      HandlersNone(body, n - 1);
    }
  }

  /** A view answers at least one method; "ANY" stands alone and is given
      exactly when the source does not open with a class having a handler. */
  lemma {:induction false} ClassMethodsShape(shape: ModuleShape)
    ensures |ClassMethods(shape)| >= 1
    ensures ClassMethods(shape) == ["ANY"]
            <==> !shape.FirstIsClass? || forall k :: 0 <= k < |shape.body| ==> !IsHandler(shape.body[k])
    ensures ClassMethods(shape) != ["ANY"] ==>
              forall k :: 0 <= k < |ClassMethods(shape)| ==> ClassMethods(shape)[k] in HttpMethods
  {
    if shape.FirstIsClass? {
      HandlersAreMethods(shape.body, |shape.body|);
      HandlersNone(shape.body, |shape.body|);
      var found := Handlers(shape.body, |shape.body|);
      if |found| > 0 && found == ["ANY"] {
        assert found[0] in HttpMethods;
      }
    }
  }

  // ---------------------------------------------------------------------
  // parse_django_routes
  // ---------------------------------------------------------------------

  /** `view_str.split(".")[-1]` */
  function ViewName(view: string): string
  {
    var parts := Split(view, '.');
    parts[|parts| - 1]
  }

  /** The view name is the part of the reference after its last dot: a
      suffix without a dot, preceded by a dot unless it is the whole text. */
  lemma ViewNameIsLastSegment(view: string)
    ensures '.' !in ViewName(view)
    ensures |ViewName(view)| <= |view| && view[|view| - |ViewName(view)|..] == ViewName(view)
    ensures |ViewName(view)| < |view| ==> view[|view| - |ViewName(view)| - 1] == '.'
  {
    SplitPieces(view, '.');
    LastPieceAfterLastSeparator(view, '.');
    RFindSpec(view, '.');
  }

  const Slash: set<char> := {'/'}

  /** `"/" + path.strip("/")` */
  function DjangoPath(route: string): string
  {
    "/" + Strip(route, Slash)
  }

  /** The stored path is the route with exactly one leading slash and no
      trailing one, and normalising it again changes nothing. */
  lemma DjangoPathShape(route: string)
    ensures DjangoPath(route)[0] == '/'
    ensures |DjangoPath(route)| == 1 || (DjangoPath(route)[1] != '/' && DjangoPath(route)[|DjangoPath(route)| - 1] != '/')
    ensures DjangoPath(DjangoPath(route)) == DjangoPath(route)
  {
    var inner := Strip(route, Slash);
    StripDropsLeading('/', inner, Slash);
    StripShape(route, Slash);
    StripFixed(inner, Slash);
  }

  /** The record for one method of a registration. */
  function RouteEndpoint(viewsPath: string, httpMethod: string, route: string, source: string): Endpoint
  {
    Endpoint(Some("django"), Some(viewsPath), Some(httpMethod), Some(DjangoPath(route)), Some(source),
             Some(httpMethod + " /" + Strip(route, Slash)), None, None)
  }

  /** `if not source: continue` lets a registration through only when the
      lookup found a non-empty source. */
  predicate Found(views: Views, key: (string, string))
  {
    key in views && |views[key].text| > 0
  }

  /** The records one registration produces: none when the view's source is
      not found, otherwise one per method the view answers. */
  function MatchEndpoints(viewsPath: string, m: PathMatch, views: Views): seq<Endpoint>
  {
    var key := (viewsPath, ViewName(m.view));
    if !Found(views, key) then []
    else
      var source := views[key];
      var methods := ClassMethods(source.shape);
      seq(|methods|, k requires 0 <= k < |methods| => RouteEndpoint(viewsPath, methods[k], m.route, source.text))
  }

  function MatchBlocks(f: UrlsFile, views: Views): seq<seq<Endpoint>>
  {
    seq(|f.matches|, j requires 0 <= j < |f.matches| => MatchEndpoints(f.viewsPath, f.matches[j], views))
  }

  function FileBlocks(files: seq<UrlsFile>, views: Views): seq<seq<Endpoint>>
  {
    seq(|files|, i requires 0 <= i < |files| => Concat(MatchBlocks(files[i], views), |files[i].matches|))
  }

  /** The records of all urls.py files, file by file and registration by
      registration. */
  function DjangoEndpoints(files: seq<UrlsFile>, views: Views): seq<Endpoint>
  {
    Concat(FileBlocks(files, views), |files|)
  }

  /** The body of the scan for one registration: find the view's source and
      emit a record per method it answers. */
  method RegistrationEndpoints(viewsPath: string, m: PathMatch, views: Views)
    returns (records: seq<Endpoint>)
    ensures records == MatchEndpoints(viewsPath, m, views)
  {
    var key := (viewsPath, ViewName(m.view));
    var source := if key in views then Some(views[key].text) else None;
    records := [];
    if Truthy(source) {
      var methods := GetMethodsFromClassSource(views[key].shape);
      ghost var block := MatchEndpoints(viewsPath, m, views);
      for k := 0 to |methods|
        invariant records == block[..k]
      {
        records := records + [RouteEndpoint(viewsPath, methods[k], m.route, source.value)];
        assert block[..k + 1] == block[..k] + [block[k]];
      }
      assert block[..|methods|] == block;
    }
  }

  /** The scan of one urls.py: the records of its registrations, in order. */
  method FileEndpoints(urls: UrlsFile, views: Views)
    returns (records: seq<Endpoint>)
    ensures records == Concat(MatchBlocks(urls, views), |urls.matches|)
  {
    ghost var blocks := MatchBlocks(urls, views);
    records := [];
    for j := 0 to |urls.matches|
      invariant records == Concat(blocks, j)
    {
      var block := RegistrationEndpoints(urls.viewsPath, urls.matches[j], views);
      ConcatStep(blocks, j, records, block);
      records := records + block;
    }
  }

  /** `parse_django_routes` over the urls.py files. */
  method ParseDjangoRoutes(files: seq<UrlsFile>, views: Views)
    returns (endpoints: seq<Endpoint>)
    ensures endpoints == DjangoEndpoints(files, views)
  {
    ghost var blocks := FileBlocks(files, views);
    endpoints := [];
    for i := 0 to |files|
      invariant endpoints == Concat(blocks, i)
    {
      var records := FileEndpoints(files[i], views);
      ConcatStep(blocks, i, endpoints, records);
      endpoints := endpoints + records;
    }
  }

  /** A registration whose view source is not found produces nothing; one
      whose source is found produces a record per method, all with the
      framework, the views.py path, the source and the normalised path, and
      a summary made of the method, a space and that path. */
  lemma MatchEndpointsShape(viewsPath: string, m: PathMatch, views: Views)
    ensures var key := (viewsPath, ViewName(m.view));
      var records := MatchEndpoints(viewsPath, m, views);
      && (!Found(views, key) ==> |records| == 0)
      && (Found(views, key) ==>
            var methods := ClassMethods(views[key].shape);
            && |records| == |methods| >= 1
            && forall k :: 0 <= k < |records| ==>
                 && records[k].framework == Some("django") && records[k].file == Some(viewsPath)
                 && records[k].httpMethod == Some(methods[k]) && records[k].source == Some(views[key].text)
                 && records[k].path == Some(DjangoPath(m.route))
                 && records[k].summary == Some(methods[k] + " " + DjangoPath(m.route)))
  {
    var key := (viewsPath, ViewName(m.view));
    if Found(views, key) {
      ClassMethodsShape(views[key].shape);
      var methods := ClassMethods(views[key].shape);
      forall k | 0 <= k < |methods|
        ensures methods[k] + " /" + Strip(m.route, Slash) == methods[k] + " " + DjangoPath(m.route)
      {
        assert " /" + Strip(m.route, Slash) == " " + DjangoPath(m.route);
      }
    }
  }

  /** The trailing slash of a route is dropped and a leading one added. */
  lemma UsersRoute()
    ensures DjangoPath("users/") == "/users"
    ensures DjangoPath("") == "/"
  {
    assert LeadingIn("users/", Slash) == 0;
    assert "users/"[1..] == "sers/";
    assert TrailingIn("users/"[..5], Slash) == 0;
    assert TrailingIn("users/", Slash) == 1;
  }

  /** Every record comes from a registration whose view source was found. */
  lemma {:induction false} DjangoEndpointsProvenance(files: seq<UrlsFile>, views: Views, e: nat)
    requires e < |DjangoEndpoints(files, views)|
    ensures exists i, j :: 0 <= i < |files| && 0 <= j < |files[i].matches|
              && Found(views, (files[i].viewsPath, ViewName(files[i].matches[j].view)))
              && DjangoEndpoints(files, views)[e].file == Some(files[i].viewsPath)
              && DjangoEndpoints(files, views)[e].path == Some(DjangoPath(files[i].matches[j].route))
  {
    var blocks := FileBlocks(files, views);
    ConcatElement(blocks, |files|, e);
    var i, c :| 0 <= i < |files| && 0 <= c < |blocks[i]| && DjangoEndpoints(files, views)[e] == blocks[i][c];
    var f := files[i];
    var inner := MatchBlocks(f, views);
    assert blocks[i] == Concat(inner, |f.matches|);
    ConcatElement(inner, |f.matches|, c);
    var j, d :| 0 <= j < |f.matches| && 0 <= d < |inner[j]| && blocks[i][c] == inner[j][d];
    MatchEndpointsShape(f.viewsPath, f.matches[j], views);
  }

  /** Where the records of registration `j` of file `i` start in the result. */
  function Offset(files: seq<UrlsFile>, views: Views, i: nat, j: nat): nat
    requires i < |files| && j <= |files[i].matches|
  {
    |Concat(FileBlocks(files, views), i)| + |Concat(MatchBlocks(files[i], views), j)|
  }

  /** Conversely every registration of every file contributes its records,
      in order and together, to the result. */
  lemma {:induction false} DjangoEndpointsCover(files: seq<UrlsFile>, views: Views, i: nat, j: nat)
    requires i < |files| && j < |files[i].matches|
    ensures var block := MatchEndpoints(files[i].viewsPath, files[i].matches[j], views);
            && Offset(files, views, i, j) + |block| <= |DjangoEndpoints(files, views)|
            && DjangoEndpoints(files, views)[Offset(files, views, i, j)..Offset(files, views, i, j) + |block|] == block
  {
    var outer := FileBlocks(files, views);
    var blocks := MatchBlocks(files[i], views);
    ConcatPlacesNestedPart(outer, |files|, i, blocks, |files[i].matches|, j, DjangoEndpoints(files, views),
                           Offset(files, views, i, j), MatchEndpoints(files[i].viewsPath, files[i].matches[j], views));
  }
}
