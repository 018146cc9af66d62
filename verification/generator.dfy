/** The Markdown generator: a stable sort of the endpoints by (path, method),
    then one framework heading at every change of framework and a fixed
    seven-piece block per endpoint, all joined with newlines. */
module Generator {
  import opened Types
  import opened Text
  import opened Seqs

  // ---------------------------------------------------------------------
  // Sorting by (path, method)
  // ---------------------------------------------------------------------

  type RouteKey = (string, string)

  /** The sort key, with absent fields read as "". */
  function SortKey(ep: Endpoint): RouteKey {
    (ep.path.GetOr(""), ep.httpMethod.GetOr(""))
  }

  /** Python's `<` on the key tuple. */
  predicate KeyLess(a: RouteKey, b: RouteKey) {
    Less(a.0, b.0) || (a.0 == b.0 && Less(a.1, b.1))
  }

  lemma KeyLessIrreflexive(a: RouteKey)
    ensures !KeyLess(a, a)
  {
    LessIrreflexive(a.0);
    LessIrreflexive(a.1);
  }

  lemma KeyLessTotal(a: RouteKey, b: RouteKey)
    ensures KeyLess(a, b) || a == b || KeyLess(b, a)
    ensures !(KeyLess(a, b) && KeyLess(b, a))
  {
    LessTrichotomy(a.0, b.0);
    LessTrichotomy(a.1, b.1);
  }

  lemma KeyLessTransitive(a: RouteKey, b: RouteKey, c: RouteKey)
    requires KeyLess(a, b) && KeyLess(b, c)
    ensures KeyLess(a, c)
  {
    if Less(a.0, b.0) && Less(b.0, c.0) {
      LessTransitive(a.0, b.0, c.0);
    } else if Less(a.1, b.1) && Less(b.1, c.1) {
      LessTransitive(a.1, b.1, c.1);
    }
  }

  /** No later endpoint has a smaller key than an earlier one. */
  ghost predicate Sorted(s: seq<Endpoint>) {
    forall i, j :: 0 <= i < j < |s| ==> !KeyLess(SortKey(s[j]), SortKey(s[i]))
  }

  /** The endpoints of `s` whose key is `k`, in their order in `s`. */
  function WithKey(s: seq<Endpoint>, k: RouteKey): seq<Endpoint> {
    if |s| == 0 then []
    else (if SortKey(s[0]) == k then [s[0]] else []) + WithKey(s[1..], k)
  }

  /** Places `x` before the first element whose key is not smaller than its own. */
  function Insert(x: Endpoint, t: seq<Endpoint>): seq<Endpoint> {
    if |t| == 0 || !KeyLess(SortKey(t[0]), SortKey(x)) then [x] + t
    else [t[0]] + Insert(x, t[1..])
  }

  /** `sorted(endpoints, key=lambda x: (x.get("path",""), x.get("method","")))`,
      written as an insertion sort. */
  function SortByRoute(s: seq<Endpoint>): seq<Endpoint> {
    if |s| == 0 then [] else Insert(s[0], SortByRoute(s[1..]))
  }

  lemma {:induction false} InsertPermutes(x: Endpoint, t: seq<Endpoint>)
    ensures multiset(Insert(x, t)) == multiset(t) + multiset{x}
  {
    if |t| > 0 && KeyLess(SortKey(t[0]), SortKey(x)) {
      InsertPermutes(x, t[1..]);
      assert t == [t[0]] + t[1..];
    }
  }

  lemma {:induction false} InsertSorted(x: Endpoint, t: seq<Endpoint>)
    requires Sorted(t)
    ensures Sorted(Insert(x, t))
  {
    var r := Insert(x, t);
    if |t| == 0 {
    } else if !KeyLess(SortKey(t[0]), SortKey(x)) {
      forall i, j | 0 <= i < j < |r|
        ensures !KeyLess(SortKey(r[j]), SortKey(r[i]))
      {
        if i == 0 {
          KeyLessTotal(SortKey(x), SortKey(t[0]));
          if KeyLess(SortKey(r[j]), SortKey(x)) {
            if j - 1 > 0 {
              KeyLessTotal(SortKey(t[j - 1]), SortKey(t[0]));
              if KeyLess(SortKey(x), SortKey(t[0])) {
                KeyLessTransitive(SortKey(t[j - 1]), SortKey(x), SortKey(t[0]));
              }
            }
          }
        }
      }
    } else {
      var rest := Insert(x, t[1..]);
      InsertSorted(x, t[1..]);
      InsertPermutes(x, t[1..]);
      forall j | 0 <= j < |rest|
        ensures !KeyLess(SortKey(rest[j]), SortKey(t[0]))
      {
        assert rest[j] in multiset(rest);
        if rest[j] == x {
          KeyLessTotal(SortKey(t[0]), SortKey(x));
        } else {
          assert rest[j] in multiset(t[1..]);
          var k :| 0 <= k < |t[1..]| && t[1..][k] == rest[j];
          assert t[k + 1] == rest[j];
        }
      }
      assert r == [t[0]] + rest;
    }
  }

  lemma {:induction false} InsertWithKey(x: Endpoint, t: seq<Endpoint>, k: RouteKey)
    ensures WithKey(Insert(x, t), k) == (if SortKey(x) == k then [x] else []) + WithKey(t, k)
  {
    if |t| == 0 || !KeyLess(SortKey(t[0]), SortKey(x)) {
      assert ([x] + t)[1..] == t;
    } else {
      InsertWithKey(x, t[1..], k);
      assert ([t[0]] + Insert(x, t[1..]))[1..] == Insert(x, t[1..]);
      KeyLessIrreflexive(SortKey(x));
      assert t == [t[0]] + t[1..];
    }
  }

  /** The sorted list is a permutation of the input, ordered by key, and keeps
      endpoints with equal keys in their input order (a stable sort). */
  lemma SortByRouteIsStableSort(s: seq<Endpoint>)
    ensures multiset(SortByRoute(s)) == multiset(s)
    ensures Sorted(SortByRoute(s))
    ensures forall k :: WithKey(SortByRoute(s), k) == WithKey(s, k)
  {
    SortByRoutePermutes(s);
    SortByRouteSorted(s);
    forall k ensures WithKey(SortByRoute(s), k) == WithKey(s, k) {
      SortByRouteStable(s, k);
    }
  }

  lemma {:induction false} SortByRoutePermutes(s: seq<Endpoint>)
    ensures multiset(SortByRoute(s)) == multiset(s)
  {
    if |s| > 0 {
      SortByRoutePermutes(s[1..]);
      InsertPermutes(s[0], SortByRoute(s[1..]));
      assert s == [s[0]] + s[1..];
    }
  }

  lemma {:induction false} SortByRouteSorted(s: seq<Endpoint>)
    ensures Sorted(SortByRoute(s))
  {
    if |s| > 0 {
      SortByRouteSorted(s[1..]);
      InsertSorted(s[0], SortByRoute(s[1..]));
    }
  }

  lemma {:induction false} SortByRouteStable(s: seq<Endpoint>, k: RouteKey)
    ensures WithKey(SortByRoute(s), k) == WithKey(s, k)
  {
    if |s| > 0 {
      SortByRouteStable(s[1..], k);
      InsertWithKey(s[0], SortByRoute(s[1..]), k);
    }
  }

  // ---------------------------------------------------------------------
  // Rendering
  // ---------------------------------------------------------------------

  const DocHeader := "# API Documentation\n"
  const QueryParamsPiece := "- **Query Params:** _add params_\n"
  const RequestBodyPiece := "- **Request Body:** _add schema_\n"
  const ResponsesPiece := "- **Responses:** _add examples_\n\n"

  /** The framework an endpoint is grouped under; "other" when absent. */
  function Group(ep: Endpoint): string {
    ep.framework.GetOr("other")
  }

  function Heading(group: string): string {
    "\n## " + Title(group) + "\n"
  }

  /** The summary when it is non-empty, else "<method> <path>". */
  function EndpointTitle(ep: Endpoint): string {
    if Truthy(ep.summary) then ep.summary.value
    else ep.httpMethod.GetOr("ANY") + " " + ep.path.GetOr("/")
  }

  function TitlePiece(ep: Endpoint): string {
    "### " + EndpointTitle(ep) + "\n"
  }

  function RoutePiece(ep: Endpoint): string {
    "- **Endpoint:** `" + ep.httpMethod.GetOr("ANY") + " " + ep.path.GetOr("/") + "`\n"
  }

  function SourcePiece(ep: Endpoint): string {
    "- **Source:** `" + ep.file.GetOr("?") + "`\n"
  }

  function DescriptionPiece(ep: Endpoint): string {
    "- **Description:** " + ep.description.GetOr("_add description_") + "\n"
  }

  /** The seven pieces appended for one endpoint. */
  function Block(ep: Endpoint): seq<string> {
    [TitlePiece(ep), RoutePiece(ep), SourcePiece(ep), DescriptionPiece(ep),
     QueryParamsPiece, RequestBodyPiece, ResponsesPiece]
  }

  /** Endpoint `i` opens a group: it is first, or its framework differs from
      the one before it. */
  predicate StartsGroup(s: seq<Endpoint>, i: nat)
    requires i < |s|
  {
    i == 0 || Group(s[i]) != Group(s[i - 1])
  }

  /** How many of the first `n` endpoints open a group. */
  function GroupStarts(s: seq<Endpoint>, n: nat): nat
    requires n <= |s|
  {
    if n == 0 then 0 else GroupStarts(s, n - 1) + (if StartsGroup(s, n - 1) then 1 else 0)
  }

  /** The heading piece emitted before endpoint `i`, if it opens a group. */
  function HeadingBefore(s: seq<Endpoint>, i: nat): seq<string>
    requires i < |s|
  {
    if StartsGroup(s, i) then [Heading(Group(s[i]))] else []
  }

  /** The pieces the loop appends after the document header for the first
      `n` endpoints of `s`, in the order given. */
  function Pieces(s: seq<Endpoint>, n: nat): seq<string>
    requires n <= |s|
  {
    if n == 0 then [] else Pieces(s, n - 1) + (HeadingBefore(s, n - 1) + Block(s[n - 1]))
  }

  /** `generate_markdown`: sort, then render. The input is a value: it is
      only read. */
  method GenerateMarkdown(endpoints: seq<Endpoint>) returns (doc: string)
    ensures var sorted := SortByRoute(endpoints);
            doc == Join("\n", [DocHeader] + Pieces(sorted, |sorted|))
    ensures |endpoints| == 0 ==> doc == DocHeader
  {
    var sorted := SortByRoute(endpoints);
    doc := RenderSorted(sorted);
  }

  /** The loop of `generate_markdown` over the already sorted endpoints. */
  method RenderSorted(sorted: seq<Endpoint>) returns (doc: string)
    ensures doc == Join("\n", [DocHeader] + Pieces(sorted, |sorted|))
  {
    var out := [DocHeader];
    var currentGroup: Option<string> := None;
    for i := 0 to |sorted|
      invariant out == [DocHeader] + Pieces(sorted, i)
      invariant currentGroup == if i == 0 then None else Some(Group(sorted[i - 1]))
    {
      var ep := sorted[i];
      var group := Group(ep);
      ghost var before := out;
      if Some(group) != currentGroup {
        out := out + [Heading(group)];
        currentGroup := Some(group);
      }
      ghost var headed := out;
      assert headed == before + HeadingBefore(sorted, i);
      // the seven appends of one endpoint's block
      out := out + [TitlePiece(ep), RoutePiece(ep), SourcePiece(ep), DescriptionPiece(ep),
                    QueryParamsPiece, RequestBodyPiece, ResponsesPiece];
      assert out == headed + Block(ep);
      AppendAssoc(before, HeadingBefore(sorted, i), Block(ep));
      AppendAssoc([DocHeader], Pieces(sorted, i), HeadingBefore(sorted, i) + Block(ep));
    }
    doc := Join("\n", out);
  }

  lemma {:induction false} PiecesPrefix(s: seq<Endpoint>, m: nat, n: nat)
    requires m <= n <= |s|
    ensures Pieces(s, m) <= Pieces(s, n)
  {
    if m < n {
      PiecesPrefix(s, m, n - 1);
    }
  }

  /** The loop appends one piece per group change and seven per endpoint: with
      the header, 1 + changes + 7 * n pieces are joined. */
  lemma {:induction false} PieceCount(s: seq<Endpoint>, n: nat)
    requires n <= |s|
    ensures |Pieces(s, n)| == GroupStarts(s, n) + 7 * n
  {
    if n > 0 {
      PieceCount(s, n - 1);
    }
  }

  /** Endpoint `i` is rendered as its block at offset
      (group starts up to and including `i`) + 7 * i, preceded by its
      framework's heading exactly when it opens a group, and otherwise by the
      last piece of the block before it: the document follows the order of
      `s`, and a framework's heading is not repeated within its run. */
  lemma BlockPosition(s: seq<Endpoint>, i: nat)
    requires i < |s|
    ensures GroupStarts(s, i + 1) + 7 * i + 7 <= |Pieces(s, |s|)|
    ensures Pieces(s, |s|)[GroupStarts(s, i + 1) + 7 * i .. GroupStarts(s, i + 1) + 7 * i + 7] == Block(s[i])
    ensures StartsGroup(s, i) ==> Pieces(s, |s|)[GroupStarts(s, i + 1) + 7 * i - 1] == Heading(Group(s[i]))
    ensures !StartsGroup(s, i) ==> Pieces(s, |s|)[GroupStarts(s, i + 1) + 7 * i - 1] == ResponsesPiece
  {
    var pre := Pieces(s, i) + HeadingBefore(s, i);
    BlockFollows(s, i);
    PieceCount(s, i);
    PrefixPlaces(Pieces(s, |s|), pre, Block(s[i]), GroupStarts(s, i + 1) + 7 * i);
    if !StartsGroup(s, i) {
      var lo := GroupStarts(s, i + 1) + 7 * i;
      PiecesEndWithResponses(s, i);
      assert Pieces(s, |s|)[..lo][lo - 1] == Pieces(s, |s|)[lo - 1];
    }
  }

  /** The pieces of the first `i` endpoints end with the last piece of the
      block of endpoint `i - 1`. */
  lemma PiecesEndWithResponses(s: seq<Endpoint>, i: nat)
    requires 0 < i <= |s|
    ensures |Pieces(s, i)| > 0 && Pieces(s, i)[|Pieces(s, i)| - 1] == ResponsesPiece
  {
    var last := HeadingBefore(s, i - 1) + Block(s[i - 1]);
    assert Pieces(s, i) == Pieces(s, i - 1) + last;
    BlockEndsWithResponses(s[i - 1]);
  }

  /** Every block ends with the responses placeholder. */
  lemma BlockEndsWithResponses(ep: Endpoint)
    ensures Block(ep)[6] == ResponsesPiece
  {
  }

  /** The block of endpoint `i` follows the pieces of the endpoints before
      it and its heading, if any. */
  lemma BlockFollows(s: seq<Endpoint>, i: nat)
    requires i < |s|
    ensures Pieces(s, i) + HeadingBefore(s, i) + Block(s[i]) <= Pieces(s, |s|)
  {
    PiecesPrefix(s, i + 1, |s|);
    AppendAssoc(Pieces(s, i), HeadingBefore(s, i), Block(s[i]));
  }

  /** The title is a truthy summary; otherwise it falls back to
      "<method> <path>" with defaults "ANY" and "/". It is never empty. */
  lemma TitleFallback(ep: Endpoint)
    ensures EndpointTitle(ep) != ""
    ensures Truthy(ep.summary) ==> EndpointTitle(ep) == ep.summary.value
    ensures !Truthy(ep.summary) ==> EndpointTitle(ep) == ep.httpMethod.GetOr("ANY") + " " + ep.path.GetOr("/")
    ensures ep.httpMethod == None && ep.path == None && ep.summary == None ==> EndpointTitle(ep) == "ANY /"
  {
  }

  /** An absent description renders the placeholder; a present empty one
      renders as empty. */
  lemma DescriptionDefault(ep: Endpoint)
    ensures ep.description == None ==> DescriptionPiece(ep) == "- **Description:** _add description_\n"
    ensures ep.description == Some("") ==> DescriptionPiece(ep) == "- **Description:** \n"
  {
  }

  /** The last three pieces of a block are the same for every endpoint. */
  lemma PlaceholdersConstant(a: Endpoint, b: Endpoint)
    ensures Block(a)[4..] == Block(b)[4..]
  {
  }

  /** An empty list renders as the title alone. */
  lemma EmptyDocument()
    ensures Join("\n", [DocHeader] + Pieces(SortByRoute([]), 0)) == "# API Documentation\n"
  {
  }

  /** Frameworks are not part of the sort key, so when another framework's
      endpoint sorts between two endpoints of one framework, the later of the
      two is preceded by a fresh heading of its framework. */
  lemma {:induction false} InterleavedGroupReopens(s: seq<Endpoint>, i: nat, k: nat, j: nat)
    requires i < k < j < |s|
    requires Group(s[i]) == Group(s[j]) != Group(s[k])
    ensures exists m :: k < m <= j && StartsGroup(s, m) && Group(s[m]) == Group(s[j])
  {
    if !StartsGroup(s, j) {
      assert Group(s[j - 1]) == Group(s[j]);
      InterleavedGroupReopens(s, i, k, j - 1);
    }
  }
}
