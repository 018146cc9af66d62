/** The FastAPI extractor, with the regular expression of fastapi.py:8
      @(app|router)\.(get|post|put|delete|patch)\(['"]([^'"]+)['"]\)
    written out as a recogniser that tries to match at one position, and
    `finditer` as the leftmost, non-overlapping scan built on it. */
module FastApi {
  import opened Types
  import opened Text
  import opened Seqs

  /** The alternatives of group 1, in the order the pattern lists them. */
  const Receivers: seq<string> := ["app", "router"]

  /** The alternatives of group 2, in the order the pattern lists them. */
  const Verbs: seq<string> := ["get", "post", "put", "delete", "patch"]

  /** The three groups of a match. */
  datatype RouteMatch = RouteMatch(receiver: string, verb: string, route: string)

  /** A match: where it starts, its groups, and the quote characters around
      the route (which the pattern lets differ). */
  datatype Hit = Hit(start: nat, groups: RouteMatch, opening: char, closing: char)

  /** A scanned `.py` file: its path relative to the root and its text. */
  datatype SourceFile = SourceFile(relPath: string, text: string)

  /** Where the pieces of a match lie: after "@" and the receiver comes the
      dot, after the dot and the verb the opening bracket, after it and the
      opening quote the route, and after the route the closing quote. */
  function Dot(h: Hit): nat { h.start + 1 + |h.groups.receiver| }
  function Open(h: Hit): nat { Dot(h) + 1 + |h.groups.verb| }
  function Close(h: Hit): nat { Open(h) + 2 + |h.groups.route| }

  /** The decorator `@<receiver>.<verb>(<q1><route><q2>)` of `h` lies in
      `text` from `h.start` on, piece by piece. */
  predicate Laid(text: string, h: Hit)
  {
    && Close(h) + 1 < |text|
    && text[h.start] == '@'
    && LiteralAt(text, h.start + 1, h.groups.receiver)
    && text[Dot(h)] == '.'
    && LiteralAt(text, Dot(h) + 1, h.groups.verb)
    && text[Open(h)] == '(' && text[Open(h) + 1] == h.opening
    && LiteralAt(text, Open(h) + 2, h.groups.route)
    && text[Close(h)] == h.closing && text[Close(h) + 1] == ')'
  }

  /** Where a match ends. */
  function End(h: Hit): nat
  {
    Close(h) + 2
  }

  /** What the pattern accepts: the receiver and verb are among the
      alternatives, both quotes are quote characters, the route is non-empty
      and quote-free, and `text` holds the pieces of the decorator one after
      the other from `h.start` on. */
  predicate IsRouteMatch(text: string, h: Hit)
  {
    && h.groups.receiver in Receivers
    && h.groups.verb in Verbs
    && h.opening in Quotes && h.closing in Quotes
    && |h.groups.route| >= 1
    && (forall k :: 0 <= k < |h.groups.route| ==> h.groups.route[k] !in Quotes)
    && Laid(text, h)
  }

  /** `w` occurs in `text` at `i`. */
  predicate LiteralAt(text: string, i: nat, w: string)
  {
    i + |w| <= |text| && forall k :: 0 <= k < |w| ==> text[i + k] == w[k]
  }

  /** The first of `words` that occurs at `i`: an alternation. */
  function WordAt(text: string, i: nat, words: seq<string>): (r: Option<string>)
    ensures r.Some? ==> r.value in words && LiteralAt(text, i, r.value)
  {
    if |words| == 0 then None
    else if LiteralAt(text, i, words[0]) then Some(words[0])
    else WordAt(text, i, words[1..])
  }

  /** The length of the longest run of non-quote characters at `i`:
      `[^'"]+` is greedy and, since the character after it must be a quote,
      backtracking into it never helps. */
  function RouteRun(text: string, i: nat): (n: nat)
    requires i <= |text|
    ensures i + n <= |text|
    decreases |text| - i
  {
    if i < |text| && text[i] !in Quotes then 1 + RouteRun(text, i + 1) else 0
  }

  /** The match of the pattern that starts at `i`, if any: an `@` and a
      receiver, then the rest. */
  function MatchAt(text: string, i: nat): (r: Option<Hit>)
    ensures r.Some? ==> r.value.start == i
  {
    if !(i < |text| && text[i] == '@') then None
    else
      match WordAt(text, i + 1, Receivers)
      case None => None
      case Some(receiver) => MatchAfterReceiver(text, i, receiver)
  }

  /** The rest of a match once its `@` and receiver are read: a dot and a
      verb, then the rest. */
  function MatchAfterReceiver(text: string, i: nat, receiver: string): (r: Option<Hit>)
    ensures r.Some? ==> r.value.start == i && r.value.groups.receiver == receiver
  {
    var dot := i + 1 + |receiver|;
    if !(dot < |text| && text[dot] == '.') then None
    else
      match WordAt(text, dot + 1, Verbs)
      case None => None
      case Some(verb) => MatchAfterVerb(text, i, receiver, verb)
  }

  /** The rest of a match once its verb is read: a bracket, the quoted route
      and the closing bracket. */
  function MatchAfterVerb(text: string, i: nat, receiver: string, verb: string): (r: Option<Hit>)
    ensures r.Some? ==> r.value.start == i && r.value.groups.receiver == receiver && r.value.groups.verb == verb
  {
    var open := i + 1 + |receiver| + 1 + |verb|;
    if !(open + 1 < |text| && text[open] == '(' && text[open + 1] in Quotes) then None
    else
      var run := RouteRun(text, open + 2);
      var close := open + 2 + run;
      if run == 0 || !(close + 1 < |text| && text[close] in Quotes && text[close + 1] == ')') then None
      else Some(Hit(i, RouteMatch(receiver, verb, text[open + 2..close]), text[open + 1], text[close]))
  }

  // ---------------------------------------------------------------------
  // The recogniser accepts exactly what the pattern describes
  // ---------------------------------------------------------------------

  /** No two alternatives agree on their first two characters, so at most
      one of them occurs at any position. */
  predicate Unambiguous(words: seq<string>)
  {
    && (forall k :: 0 <= k < |words| ==> |words[k]| >= 2)
    && forall a, b :: 0 <= a < b < |words| ==> words[a][0] != words[b][0] || words[a][1] != words[b][1]
  }

  lemma AlternativesUnambiguous()
    ensures Unambiguous(Receivers)
    ensures Unambiguous(Verbs)
  {
  }

  /** An alternative that occurs is the one the alternation picks. */
  lemma {:induction false} WordAtFinds(text: string, i: nat, words: seq<string>, k: nat)
    requires Unambiguous(words)
    requires k < |words| && LiteralAt(text, i, words[k])
    ensures WordAt(text, i, words) == Some(words[k])
  {
    if k > 0 {
      var w := words[k];
      assert Unambiguous(words[1..]) by {
        forall a, b | 0 <= a < b < |words[1..]|
          ensures words[1..][a][0] != words[1..][b][0] || words[1..][a][1] != words[1..][b][1]
        {
          assert words[1..][a] == words[a + 1] && words[1..][b] == words[b + 1];
        }
      }
      WordAtFinds(text, i, words[1..], k - 1);
    }
  }

  /** The receiver that occurs is the one the pattern captures. */
  lemma ReceiverFound(text: string, i: nat, w: string)
    requires w in Receivers && LiteralAt(text, i, w)
    ensures WordAt(text, i, Receivers) == Some(w)
  {
    AlternativesUnambiguous();
    var k :| 0 <= k < |Receivers| && Receivers[k] == w;
    WordAtFinds(text, i, Receivers, k);
  }

  /** The verb that occurs is the one the pattern captures. */
  lemma VerbFound(text: string, i: nat, w: string)
    requires w in Verbs && LiteralAt(text, i, w)
    ensures WordAt(text, i, Verbs) == Some(w)
  {
    AlternativesUnambiguous();
    var k :| 0 <= k < |Verbs| && Verbs[k] == w;
    WordAtFinds(text, i, Verbs, k);
  }

  /** The run ends at the first quote, or at the end of the text. */
  lemma {:induction false} RouteRunStops(text: string, i: nat, n: nat)
    requires i + n < |text|
    requires forall k :: i <= k < i + n ==> text[k] !in Quotes
    requires text[i + n] in Quotes
    ensures RouteRun(text, i) == n
    decreases n
  {
    if n > 0 {
      RouteRunStops(text, i + 1, n - 1);
    }
  }

  lemma {:induction false} RouteRunQuoteFree(text: string, i: nat)
    requires i <= |text|
    ensures forall k :: i <= k < i + RouteRun(text, i) ==> text[k] !in Quotes
    decreases |text| - i
  {
    if i < |text| && text[i] !in Quotes {
      RouteRunQuoteFree(text, i + 1);
    }
  }

  /** What the last stage returns holds a bracket, a non-empty quote-free
      route between two quote characters, and a closing bracket. */
  lemma MatchAfterVerbSound(text: string, i: nat, receiver: string, verb: string)
    requires MatchAfterVerb(text, i, receiver, verb).Some?
    ensures var h := MatchAfterVerb(text, i, receiver, verb).value;
            && h.opening in Quotes && h.closing in Quotes
            && |h.groups.route| >= 1
            && (forall k :: 0 <= k < |h.groups.route| ==> h.groups.route[k] !in Quotes)
            && Close(h) + 1 < |text|
            && text[Open(h)] == '(' && text[Open(h) + 1] == h.opening
            && LiteralAt(text, Open(h) + 2, h.groups.route)
            && text[Close(h)] == h.closing && text[Close(h) + 1] == ')'
  {
    var h := MatchAfterVerb(text, i, receiver, verb).value;
    RouteRunQuoteFree(text, Open(h) + 2);
    assert LiteralAt(text, Open(h) + 2, h.groups.route);
  }

  /** What the recogniser returns is a match of the pattern at that
      position. */
  lemma MatchAtSound(text: string, i: nat)
    requires MatchAt(text, i).Some?
    ensures MatchAt(text, i).value.start == i
    ensures IsRouteMatch(text, MatchAt(text, i).value)
  {
    var h := MatchAt(text, i).value;
    var receiver := WordAt(text, i + 1, Receivers).value;
    var verb := WordAt(text, Dot(h) + 1, Verbs).value;
    assert MatchAfterVerb(text, i, receiver, verb) == Some(h);
    MatchAfterVerbSound(text, i, receiver, verb);
  }

  /** The route run of a laid-out match is its route, which is the text
      between its quotes. */
  lemma LaidRoute(text: string, h: Hit)
    requires Laid(text, h) && h.closing in Quotes
    requires forall k :: 0 <= k < |h.groups.route| ==> h.groups.route[k] !in Quotes
    ensures RouteRun(text, Open(h) + 2) == |h.groups.route|
    ensures text[Open(h) + 2..Close(h)] == h.groups.route
  {
    var lo := Open(h) + 2;
    forall k | 0 <= k < |h.groups.route|
      ensures text[lo..Close(h)][k] == h.groups.route[k]
    {
      assert text[lo + k] == h.groups.route[k];
    }
    forall k | lo <= k < Close(h)
      ensures text[k] !in Quotes
    {
      assert text[lo + (k - lo)] == h.groups.route[k - lo];
    }
    RouteRunStops(text, lo, |h.groups.route|);
  }

  /** The last stage of the recogniser reads the bracket, quotes and route
      of every match. */
  lemma MatchAfterVerbComplete(text: string, h: Hit)
    requires IsRouteMatch(text, h)
    ensures MatchAfterVerb(text, h.start, h.groups.receiver, h.groups.verb) == Some(h)
  {
    LaidRoute(text, h);
  }

  /** The middle stage reads the dot and verb of every match. */
  lemma MatchAfterReceiverComplete(text: string, h: Hit)
    requires IsRouteMatch(text, h)
    ensures MatchAfterReceiver(text, h.start, h.groups.receiver) == Some(h)
  {
    VerbFound(text, Dot(h) + 1, h.groups.verb);
    MatchAfterVerbComplete(text, h);
  }

  /** Every match of the pattern is found by the recogniser at its start. */
  lemma MatchAtComplete(text: string, h: Hit)
    requires IsRouteMatch(text, h)
    ensures MatchAt(text, h.start) == Some(h)
  {
    ReceiverFound(text, h.start + 1, h.groups.receiver);
    MatchAfterReceiverComplete(text, h);
  }

  // ---------------------------------------------------------------------
  // finditer: leftmost, non-overlapping matches
  // ---------------------------------------------------------------------

  /** What the recogniser finds at each position of `text`. */
  function Matches(text: string): (ms: seq<Option<Hit>>)
    ensures |ms| == |text| && Anchored(ms)
  {
    seq(|text|, i requires 0 <= i < |text| => MatchAt(text, i))
  }

  /** Each match is recorded at the position where it starts. */
  predicate Anchored(ms: seq<Option<Hit>>)
  {
    forall i :: 0 <= i < |ms| && ms[i].Some? ==> ms[i].value.start == i
  }

  /** The matches `finditer` yields from position `pos` on, given what the
      recogniser finds at each position: try each position in turn and,
      after a match, go on where it ends. */
  function Scan(ms: seq<Option<Hit>>, pos: nat): seq<Hit>
    requires Anchored(ms)
    decreases |ms| - pos
  {
    if pos >= |ms| then []
    else
      match ms[pos]
      case Some(h) => [h] + Scan(ms, End(h))
      case None => Scan(ms, pos + 1)
  }

  /** `ROUTE.finditer(text)`, collected. */
  method FindIter(text: string) returns (hits: seq<Hit>)
    ensures hits == Scan(Matches(text), 0)
  {
    ghost var ms := Matches(text);
    hits := [];
    var pos := 0;
    while pos < |text|
      invariant hits + Scan(ms, pos) == Scan(ms, 0)
      decreases |text| - pos
    {
      var found := MatchAt(text, pos);
      assert ms[pos] == found;
      match found
      case Some(h) =>
        AppendAssoc(hits, [h], Scan(ms, End(h)));
        hits := hits + [h];
        pos := End(h);
      case None =>
        pos := pos + 1;
    }
  }

  /** Every match the scan yields is one recorded at its own start, at or
      after `pos`. */
  lemma {:induction false} ScanAnchored(ms: seq<Option<Hit>>, pos: nat)
    requires Anchored(ms)
    ensures forall k :: 0 <= k < |Scan(ms, pos)| ==>
              var h := Scan(ms, pos)[k];
              pos <= h.start < |ms| && ms[h.start] == Some(h)
    decreases |ms| - pos
  {
    if pos < |ms| {
      match ms[pos]
      case Some(h) =>
        assert Scan(ms, pos) == [h] + Scan(ms, End(h));
        ScanAnchored(ms, End(h));
      case None =>
        assert Scan(ms, pos) == Scan(ms, pos + 1);
        ScanAnchored(ms, pos + 1);
    }
  }

  /** The matches yielded do not overlap: each one ends before the next one
      starts. */
  lemma {:induction false} ScanOrdered(ms: seq<Option<Hit>>, pos: nat)
    requires Anchored(ms)
    ensures forall k :: 0 <= k < |Scan(ms, pos)| - 1 ==> End(Scan(ms, pos)[k]) <= Scan(ms, pos)[k + 1].start
    decreases |ms| - pos
  {
    if pos < |ms| {
      match ms[pos]
      case Some(h) =>
        var rest := Scan(ms, End(h));
        assert Scan(ms, pos) == [h] + rest;
        ScanAnchored(ms, End(h));
        ScanOrdered(ms, End(h));
      case None =>
        assert Scan(ms, pos) == Scan(ms, pos + 1);
        ScanOrdered(ms, pos + 1);
    }
  }

  /** Nothing is skipped: every position from `pos` on where something is
      recorded is the start of a match yielded or lies inside one. */
  lemma {:induction false} ScanLeftmost(ms: seq<Option<Hit>>, pos: nat, p: nat)
    requires Anchored(ms)
    requires pos <= p < |ms| && ms[p].Some?
    ensures exists k :: 0 <= k < |Scan(ms, pos)| && Scan(ms, pos)[k].start <= p < End(Scan(ms, pos)[k])
    decreases |ms| - pos
  {
    var hits := Scan(ms, pos);
    match ms[pos]
    case Some(h) =>
      var rest := Scan(ms, End(h));
      assert hits == [h] + rest;
      if End(h) <= p {
        ScanLeftmost(ms, End(h), p);
        var k :| 0 <= k < |rest| && rest[k].start <= p < End(rest[k]);
        assert hits[k + 1] == rest[k];
      } else {
        assert hits[0].start <= p < End(hits[0]);
      }
    case None =>
      assert hits == Scan(ms, pos + 1);
      ScanLeftmost(ms, pos + 1, p);
  }

  /** Where nothing is recorded from `pos` on, nothing is yielded. */
  lemma {:induction false} ScanNothing(ms: seq<Option<Hit>>, pos: nat)
    requires Anchored(ms)
    requires forall k :: pos <= k < |ms| ==> ms[k] == None
    ensures Scan(ms, pos) == []
    decreases |ms| - pos
  {
    if pos < |ms| {
      ScanNothing(ms, pos + 1);
    }
  }

  /** Every match `finditer` yields is a match of the pattern inside the
      text. */
  lemma ScanSound(text: string)
    ensures forall k :: 0 <= k < |Scan(Matches(text), 0)| ==>
              var h := Scan(Matches(text), 0)[k];
              IsRouteMatch(text, h) && End(h) <= |text|
  {
    var ms := Matches(text);
    var hits := Scan(ms, 0);
    ScanAnchored(ms, 0);
    forall k | 0 <= k < |hits|
      ensures IsRouteMatch(text, hits[k]) && End(hits[k]) <= |text|
    {
      var h := hits[k];
      assert MatchAt(text, h.start) == ms[h.start];
      MatchAtSound(text, h.start);
    }
  }

  /** Every match of the pattern in the text starts a match `finditer`
      yields or lies inside one. */
  lemma ScanComplete(text: string, h: Hit)
    requires IsRouteMatch(text, h)
    ensures exists k :: 0 <= k < |Scan(Matches(text), 0)|
              && Scan(Matches(text), 0)[k].start <= h.start < End(Scan(Matches(text), 0)[k])
  {
    var ms := Matches(text);
    MatchAtComplete(text, h);
    assert ms[h.start] == MatchAt(text, h.start);
    ScanLeftmost(ms, 0, h.start);
  }

  /** A text without `@` from `pos` on yields no match from there. */
  lemma ScanWithoutAt(text: string, pos: nat)
    requires forall k :: pos <= k < |text| ==> text[k] != '@'
    ensures Scan(Matches(text), pos) == []
  {
    var ms := Matches(text);
    forall k | pos <= k < |ms|
      ensures ms[k] == None
    {
      assert ms[k] == MatchAt(text, k);
    }
    ScanNothing(ms, pos);
  }

  // ---------------------------------------------------------------------
  // parse_fastapi_routes
  // ---------------------------------------------------------------------

  /** The record of one match: group 1 upper-cased is stored as the method
      and group 2 as the path; the route of group 3 is not stored. */
  function RouteEndpoint(relPath: string, h: Hit): Endpoint
  {
    Extracted("fastapi", relPath, Upper(h.groups.receiver), h.groups.verb)
  }

  /** The records of one file, one per match. */
  function FileRecords(f: SourceFile): seq<Endpoint>
  {
    var hits := Scan(Matches(f.text), 0);
    seq(|hits|, k requires 0 <= k < |hits| => RouteEndpoint(f.relPath, hits[k]))
  }

  function FileBlocks(files: seq<SourceFile>): seq<seq<Endpoint>>
  {
    seq(|files|, i requires 0 <= i < |files| => FileRecords(files[i]))
  }

  /** The records of all files, file by file and match by match. */
  function FastapiEndpoints(files: seq<SourceFile>): seq<Endpoint>
  {
    Concat(FileBlocks(files), |files|)
  }

  /** `parse_fastapi_routes` over the scanned files. */
  method ParseFastapiRoutes(files: seq<SourceFile>) returns (endpoints: seq<Endpoint>)
    ensures endpoints == FastapiEndpoints(files)
  {
    ghost var blocks := FileBlocks(files);
    endpoints := [];
    for i := 0 to |files|
      invariant endpoints == Concat(blocks, i)
    {
      var file := files[i];
      var hits := FindIter(file.text);
      ghost var block := blocks[i];
      ghost var before := endpoints;
      for k := 0 to |hits|
        invariant endpoints == before + block[..k]
      {
        var m := hits[k];
        var httpMethod := Upper(m.groups.receiver);
        var path := m.groups.verb;
        endpoints := endpoints + [Extracted("fastapi", file.relPath, httpMethod, path)];
        AppendAssoc(before, block[..k], [block[k]]);
        assert block[..k + 1] == block[..k] + [block[k]];
      }
      assert block[..|hits|] == block;
    }
  }

  /** The receivers upper-case to the two methods a record can carry. */
  lemma UpperReceivers()
    ensures Upper("app") == "APP" && Upper("router") == "ROUTER"
  {
    UpperCharwise("app", "APP");
    UpperCharwise("router", "ROUTER");
  }

  /** A file gives exactly one record per match, in text order; the method
      is APP or ROUTER and the path is the lower-case verb of the match. */
  lemma FileRecordsShape(f: SourceFile)
    ensures |FileRecords(f)| == |Scan(Matches(f.text), 0)|
    ensures forall k :: 0 <= k < |FileRecords(f)| ==>
              var ep := FileRecords(f)[k];
              var h := Scan(Matches(f.text), 0)[k];
              && ep.framework == Some("fastapi") && ep.file == Some(f.relPath)
              && ep.path == Some(h.groups.verb) && h.groups.verb in Verbs
              && ep.httpMethod == Some(Upper(h.groups.receiver))
              && ep.httpMethod.value in ["APP", "ROUTER"]
  {
    ScanSound(f.text);
    UpperReceivers();
  }

  /** Every record names a file that was scanned, is a FastAPI record, and
      carries APP or ROUTER as its method and a verb as its path. */
  lemma {:induction false} FastapiEndpointsProvenance(files: seq<SourceFile>, e: nat)
    requires e < |FastapiEndpoints(files)|
    ensures var ep := FastapiEndpoints(files)[e];
            && ep.framework == Some("fastapi")
            && ep.httpMethod.Some? && ep.httpMethod.value in ["APP", "ROUTER"]
            && ep.path.Some? && ep.path.value in Verbs
            && exists i :: 0 <= i < |files| && ep.file == Some(files[i].relPath)
  {
    var blocks := FileBlocks(files);
    ConcatElement(blocks, |files|, e);
    var i, c :| 0 <= i < |files| && 0 <= c < |blocks[i]| && FastapiEndpoints(files)[e] == blocks[i][c];
    assert blocks[i] == FileRecords(files[i]);
    FileRecordsShape(files[i]);
  }

  /** Conversely the records of each file appear together, in order, after
      those of the files before it. */
  lemma {:induction false} FastapiEndpointsCover(files: seq<SourceFile>, i: nat)
    requires i < |files|
    ensures var lo := |Concat(FileBlocks(files), i)|;
            && lo + |FileRecords(files[i])| <= |FastapiEndpoints(files)|
            && FastapiEndpoints(files)[lo..lo + |FileRecords(files[i])|] == FileRecords(files[i])
  {
    var blocks := FileBlocks(files);
    assert blocks[i] == FileRecords(files[i]);
    ConcatPlacesPart(blocks, i, |files|);
  }

  /** The decorator at test.py:29, and the match the pattern finds in it. */
  const PlainRoute: string := "/users/{user_id}"
  const PlainDecorator: string := "@app.get(\"" + PlainRoute + "\")"
  const PlainDecoratorHit: Hit := Hit(0, RouteMatch("app", "get", PlainRoute), '"', '"')

  /** The route sits between the quotes and has no quote in it. */
  lemma PlainRouteLaid()
    ensures LiteralAt(PlainDecorator, 10, PlainRoute)
    ensures forall k :: 0 <= k < |PlainRoute| ==> PlainRoute[k] !in Quotes
  {
    assert '"' !in PlainRoute && '\'' !in PlainRoute;
    assert forall k :: 0 <= k < |PlainRoute| ==> PlainDecorator[10 + k] == PlainRoute[k];
  }

  lemma PlainDecoratorIsMatch()
    ensures IsRouteMatch(PlainDecorator, PlainDecoratorHit)
    ensures End(PlainDecoratorHit) == |PlainDecorator|
  {
    var text := PlainDecorator;
    var h := PlainDecoratorHit;
    PlainRouteLaid();
    assert Open(h) + 2 == 10 && Close(h) == 26;
    assert LiteralAt(text, 1, "app");
    assert LiteralAt(text, 5, "get");
    assert Laid(text, h);
  }

  /** It is matched, and its record carries APP as the method and "get" as
      the path, not the route. */
  lemma PlainDecoratorMatches(relPath: string)
    ensures FileRecords(SourceFile(relPath, PlainDecorator)) == [Extracted("fastapi", relPath, "APP", "get")]
  {
    PlainDecoratorIsMatch();
    MatchAtComplete(PlainDecorator, PlainDecoratorHit);
    var ms := Matches(PlainDecorator);
    assert ms[0] == Some(PlainDecoratorHit);
    assert Scan(ms, 0) == [PlainDecoratorHit];
    UpperReceivers();
  }

  /** The decorator at test.py:21, written as its `@` and the rest. */
  const ExtraArgumentsTail: string := "app.get(\"/users\", response_model=List[dict])"
  const ExtraArguments: string := "@" + ExtraArgumentsTail

  /** The recogniser rejects it at its `@`: the closing quote of the route is
      followed by a comma, not by `)`. */
  lemma ExtraArgumentsRejected()
    ensures MatchAt(ExtraArguments, 0) == None
  {
    var text := ExtraArguments;
    assert LiteralAt(text, 1, "app");
    ReceiverFound(text, 1, "app");
    assert LiteralAt(text, 5, "get");
    VerbFound(text, 5, "get");
    RouteRunStops(text, 10, 6);
  }

  /** It has no other `@`. */
  lemma ExtraArgumentsSingleAt()
    ensures forall k :: 1 <= k < |ExtraArguments| ==> ExtraArguments[k] != '@'
  {
    assert '@' !in ExtraArgumentsTail;
    forall k | 1 <= k < |ExtraArguments|
      ensures ExtraArguments[k] != '@'
    {
      assert ExtraArguments[k] == ExtraArgumentsTail[k - 1];
    }
  }

  /** So a decorator with an argument after the route yields no record. */
  lemma ExtraArgumentsYieldNothing(relPath: string)
    ensures FileRecords(SourceFile(relPath, ExtraArguments)) == []
  {
    ExtraArgumentsRejected();
    ExtraArgumentsSingleAt();
    ScanWithoutAt(ExtraArguments, 1);
    var ms := Matches(ExtraArguments);
    assert ms[0] == None;
    assert Scan(ms, 0) == Scan(ms, 1);
  }
}
