/** The Flask extractor. The regular expression of flask.py:8 is not modelled:
    each decorator it matches is given by its groups, the route literal and
    the text between the brackets of an optional `methods=[...]`. */
module Flask {
  import opened Types
  import opened Text
  import opened Seqs

  /** Groups 2 and 3 of one match: the route, and the methods text when the
      `methods=[...]` clause is present. */
  datatype RouteMatch = RouteMatch(path: string, methods: Option<string>)

  /** A scanned `.py` file: its path relative to the root, and its matches
      in the order the scan finds them. */
  datatype SourceFile = SourceFile(relPath: string, matches: seq<RouteMatch>)

  /** The method names of one decorator: the comma-separated elements, each
      stripped of whitespace and then of quotes, or ["GET"] when there is no
      methods text or it is empty. */
  function MethodNames(methods: Option<string>): seq<string>
  {
    if Truthy(methods) then Cleaned(Split(methods.value, ',')) else ["GET"]
  }

  /** `x.strip().strip("'\"")`: one element of a methods list, stripped of
      whitespace and then of quotes. */
  function Clean(part: string): string
  {
    Strip(Strip(part, Whitespace), Quotes)
  }

  /** `[x.strip().strip("'\"") for x in parts]` */
  function Cleaned(parts: seq<string>): seq<string>
  {
    if |parts| == 0 then [] else [Clean(parts[0])] + Cleaned(parts[1..])
  }

  /** The records one decorator produces, one per method name. */
  function MatchEndpoints(relPath: string, m: RouteMatch): seq<Endpoint>
  {
    var names := MethodNames(m.methods);
    seq(|names|, k requires 0 <= k < |names| => Extracted("flask", relPath, Upper(names[k]), m.path))
  }

  /** The records of the decorators `ms` of one file, decorator by
      decorator. */
  function FileRecords(relPath: string, ms: seq<RouteMatch>): seq<Endpoint>
  {
    if |ms| == 0 then [] else FileRecords(relPath, ms[..|ms| - 1]) + MatchEndpoints(relPath, ms[|ms| - 1])
  }

  /** The records of all files, file by file. */
  function FlaskEndpoints(files: seq<SourceFile>): seq<Endpoint>
  {
    if |files| == 0 then []
    else
      var last := files[|files| - 1];
      FlaskEndpoints(files[..|files| - 1]) + FileRecords(last.relPath, last.matches)
  }

  /** The body of the scan for one decorator: a record per method name. */
  method DecoratorEndpoints(relPath: string, m: RouteMatch) returns (records: seq<Endpoint>)
    ensures records == MatchEndpoints(relPath, m)
  {
    var methods := MethodNames(m.methods);
    ghost var block := MatchEndpoints(relPath, m);
    records := [];
    for k := 0 to |methods|
      invariant records == block[..k]
    {
      records := records + [Extracted("flask", relPath, Upper(methods[k]), m.path)];
      assert block[..k + 1] == block[..k] + [block[k]];
    }
    assert block[..|methods|] == block;
  }

  /** The scan of one file: the records of its decorators, in order. */
  method FileEndpoints(file: SourceFile) returns (records: seq<Endpoint>)
    ensures records == FileRecords(file.relPath, file.matches)
  {
    records := [];
    for j := 0 to |file.matches|
      invariant records == FileRecords(file.relPath, file.matches[..j])
    {
      var block := DecoratorEndpoints(file.relPath, file.matches[j]);
      FileRecordsStep(file.relPath, file.matches, j);
      records := records + block;
    }
    assert file.matches[..|file.matches|] == file.matches;
  }

  /** `parse_flask_routes` over the scanned files. */
  method ParseFlaskRoutes(files: seq<SourceFile>) returns (endpoints: seq<Endpoint>)
    ensures endpoints == FlaskEndpoints(files)
  {
    endpoints := [];
    for i := 0 to |files|
      invariant endpoints == FlaskEndpoints(files[..i])
    {
      var records := FileEndpoints(files[i]);
      FlaskEndpointsStep(files, i);
      endpoints := endpoints + records;
    }
    assert files[..|files|] == files;
  }

  /** One more decorator of a file adds its records at the end. */
  lemma FileRecordsStep(relPath: string, ms: seq<RouteMatch>, j: nat)
    requires j < |ms|
    ensures FileRecords(relPath, ms[..j + 1]) == FileRecords(relPath, ms[..j]) + MatchEndpoints(relPath, ms[j])
  {
    assert ms[..j + 1][..j] == ms[..j];
  }

  /** One more file adds its records at the end. */
  lemma FlaskEndpointsStep(files: seq<SourceFile>, i: nat)
    requires i < |files|
    ensures FlaskEndpoints(files[..i + 1]) == FlaskEndpoints(files[..i]) + FileRecords(files[i].relPath, files[i].matches)
  {
    assert files[..i + 1][..i] == files[..i];
  }

  /** Without a methods list, or with an empty one, a decorator means GET;
      otherwise there is one name per comma-separated element, empty elements
      included, and no name contains a comma or starts or ends with a quote. */
  lemma {:induction false} MethodNamesShape(methods: Option<string>)
    ensures !Truthy(methods) ==> MethodNames(methods) == ["GET"]
    ensures Truthy(methods) ==> |MethodNames(methods)| == Count(methods.value, ',') + 1
    ensures forall k :: 0 <= k < |MethodNames(methods)| ==>
              var name := MethodNames(methods)[k];
              ',' !in name && (|name| == 0 || (name[0] !in Quotes && name[|name| - 1] !in Quotes))
  {
    if Truthy(methods) {
      SplitCount(methods.value, ',');
      SplitPieces(methods.value, ',');
      var parts := Split(methods.value, ',');
      CleanedAt(parts);
      forall k | 0 <= k < |parts|
        ensures var name := MethodNames(methods)[k];
                ',' !in name && (|name| == 0 || (name[0] !in Quotes && name[|name| - 1] !in Quotes))
      {
        StripInfix(parts[k], Whitespace, ',');
        StripInfix(Strip(parts[k], Whitespace), Quotes, ',');
        StripShape(Strip(parts[k], Whitespace), Quotes);
      }
    }
  }

  lemma {:induction false} CleanedAt(parts: seq<string>)
    ensures |Cleaned(parts)| == |parts|
    ensures forall k :: 0 <= k < |parts| ==> Cleaned(parts)[k] == Clean(parts[k])
  {
    if |parts| > 0 {
      CleanedAt(parts[1..]);
      assert Cleaned(parts) == [Clean(parts[0])] + Cleaned(parts[1..]);
    }
  }

  /** A character absent from a string is absent from what `strip` leaves. */
  lemma {:induction false} StripInfix(s: string, cs: set<char>, c: char)
    requires c !in s
    ensures c !in Strip(s, cs)
  {
    StripIsInfix(s, cs);
    var i, j :| 0 <= i <= j <= |s| && Strip(s, cs) == s[i..j];
    assert forall x :: x in s[i..j] ==> x in s;
  }

  /** Every record of a decorator carries the framework, the file and the
      route as written, and an upper-case method taken from its list. */
  lemma {:induction false} MatchEndpointsShape(relPath: string, m: RouteMatch)
    ensures |MatchEndpoints(relPath, m)| == |MethodNames(m.methods)| >= 1
    ensures forall k :: 0 <= k < |MatchEndpoints(relPath, m)| ==>
              var ep := MatchEndpoints(relPath, m)[k];
              && ep.framework == Some("flask") && ep.file == Some(relPath) && ep.path == Some(m.path)
              && ep.httpMethod == Some(Upper(MethodNames(m.methods)[k]))
              && forall c :: 0 <= c < |ep.httpMethod.value| ==> !IsLower(ep.httpMethod.value[c])
  {
    MethodNamesShape(m.methods);
    var names := MethodNames(m.methods);
    forall k | 0 <= k < |names| {
      UpperShape(names[k]);
    }
  }


  /** The records of the first decorators of a file begin its records. */
  lemma {:induction false} FileRecordsPrefix(relPath: string, ms: seq<RouteMatch>, k: nat)
    requires k <= |ms|
    ensures FileRecords(relPath, ms[..k]) <= FileRecords(relPath, ms)
    decreases |ms|
  {
    if k < |ms| {
      var init := ms[..|ms| - 1];
      FileRecordsPrefix(relPath, init, k);
      assert init[..k] == ms[..k];
    } else {
      assert ms[..k] == ms;
    }
  }

  /** The records of the first files begin the result. */
  lemma {:induction false} FlaskEndpointsPrefix(files: seq<SourceFile>, k: nat)
    requires k <= |files|
    ensures FlaskEndpoints(files[..k]) <= FlaskEndpoints(files)
    decreases |files|
  {
    if k < |files| {
      var init := files[..|files| - 1];
      FlaskEndpointsPrefix(init, k);
      assert init[..k] == files[..k];
    } else {
      assert files[..k] == files;
    }
  }

  /** Every record of a file comes from one of its decorators and carries
      the file, that decorator's route and the framework name. */
  lemma {:induction false} FileRecordsProvenance(relPath: string, ms: seq<RouteMatch>, e: nat)
    requires e < |FileRecords(relPath, ms)|
    ensures exists j :: 0 <= j < |ms|
              && FileRecords(relPath, ms)[e].file == Some(relPath)
              && FileRecords(relPath, ms)[e].path == Some(ms[j].path)
              && FileRecords(relPath, ms)[e].framework == Some("flask")
    decreases |ms|
  {
    var init := ms[..|ms| - 1];
    var before := FileRecords(relPath, init);
    var block := MatchEndpoints(relPath, ms[|ms| - 1]);
    assert FileRecords(relPath, ms) == before + block;
    if e < |before| {
      FileRecordsProvenance(relPath, init, e);
      var j :| 0 <= j < |init| && before[e].path == Some(init[j].path);
      assert init[j] == ms[j];
    } else {
      MatchEndpointsShape(relPath, ms[|ms| - 1]);
      assert FileRecords(relPath, ms)[e] == block[e - |before|];
    }
  }

  /** Every record comes from a decorator of a scanned file and carries that
      file, that route as written and the framework name. */
  lemma {:induction false} FlaskEndpointsProvenance(files: seq<SourceFile>, e: nat)
    requires e < |FlaskEndpoints(files)|
    ensures exists i, j :: 0 <= i < |files| && 0 <= j < |files[i].matches|
              && FlaskEndpoints(files)[e].file == Some(files[i].relPath)
              && FlaskEndpoints(files)[e].path == Some(files[i].matches[j].path)
              && FlaskEndpoints(files)[e].framework == Some("flask")
    decreases |files|
  {
    var init := files[..|files| - 1];
    var last := files[|files| - 1];
    var before := FlaskEndpoints(init);
    var mine := FileRecords(last.relPath, last.matches);
    assert FlaskEndpoints(files) == before + mine;
    if e < |before| {
      FlaskEndpointsProvenance(init, e);
      var i, j :| 0 <= i < |init| && 0 <= j < |init[i].matches|
                  && before[e].file == Some(init[i].relPath)
                  && before[e].path == Some(init[i].matches[j].path)
                  && before[e].framework == Some("flask");
      assert init[i] == files[i];
    } else {
      FileRecordsProvenance(last.relPath, last.matches, e - |before|);
      assert FlaskEndpoints(files)[e] == mine[e - |before|];
    }
  }

  /** Conversely every decorator of every file contributes its records, in
      order and together, to the result: it starts with the records of the
      files before file `i`, then those of the decorators before decorator
      `j` of that file, then the records of decorator `j`. */
  lemma FlaskEndpointsCover(files: seq<SourceFile>, i: nat, j: nat)
    requires i < |files| && j < |files[i].matches|
    ensures FlaskEndpoints(files[..i]) + FileRecords(files[i].relPath, files[i].matches[..j])
              + MatchEndpoints(files[i].relPath, files[i].matches[j])
            <= FlaskEndpoints(files)
  {
    FilePlaced(files, i);
    DecoratorPlaced(files[i].relPath, files[i].matches, j);
    PrefixOfPrefix(FlaskEndpoints(files), FlaskEndpoints(files[..i]), FileRecords(files[i].relPath, files[i].matches),
                   FileRecords(files[i].relPath, files[i].matches[..j]), MatchEndpoints(files[i].relPath, files[i].matches[j]));
  }

  /** The records of file `i` follow those of the files before it. */
  lemma FilePlaced(files: seq<SourceFile>, i: nat)
    requires i < |files|
    ensures FlaskEndpoints(files[..i]) + FileRecords(files[i].relPath, files[i].matches) <= FlaskEndpoints(files)
  {
    FlaskEndpointsStep(files, i);
    FlaskEndpointsPrefix(files, i + 1);
  }

  /** The records of decorator `j` follow those of the decorators before it. */
  lemma DecoratorPlaced(relPath: string, ms: seq<RouteMatch>, j: nat)
    requires j < |ms|
    ensures FileRecords(relPath, ms[..j]) + MatchEndpoints(relPath, ms[j]) <= FileRecords(relPath, ms)
  {
    FileRecordsStep(relPath, ms, j);
    FileRecordsPrefix(relPath, ms, j + 1);
  }
}
