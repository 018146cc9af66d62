# Apimatic, modelled in Dafny

Apimatic scans a project's source tree for the HTTP routes it registers and
writes them up as Markdown API documentation. This model covers its core:

- the route extractors for Flask, FastAPI and Django, which turn route
  registrations into endpoint records;
- the two enrichment stages:
  - the Ollama stage cuts the model's output down to the text from its first
    `[` to its last `]`, parses it and merges it into the records by (upper-cased method, path);
  - the Gemini stage writes an `ai_details` entry into every record;
- the Markdown generator, which sorts the records by (path, method) and
  renders one framework heading per run of records and one fixed block per
  record.

An endpoint record is a Python dictionary whose keys may be absent. Here it
is the datatype `Types.Endpoint`, with every key an `Option`.

Files:

| file | what it models |
|---|---|
| `endpoint.dfy` | the endpoint record and decoded JSON values |
| `text.dfy` | the `str` operations the core uses, on `seq<char>`: `upper`, `title`, `strip`, `find`, `rfind`, `split`, `join`, `<` |
| `seqs.dfy` | generic lemmas about concatenating sequences |
| `generator.dfy` | `generate_markdown` |
| `ollama.dfy` | `_key`, `_merge` (updating an array of records in place), and the text handling of `enhance_with_ollama` |
| `gemini.dfy` | the loop of `enhance_with_gemini`, updating an array of records in place |
| `flask.dfy` | `parse_flask_routes` |
| `fastapi.dfy` | the route pattern, written out as a recogniser; `finditer`; `parse_fastapi_routes` |
| `django.dfy` | `get_methods_from_class_source` and `parse_django_routes` |

Calls into code outside the core are parameters of the model:

- The Ollama subprocess is a `RunOutcome`: the program is not installed, or
  it finished with this standard output.
- Ollama's `json.loads` is a function parameter `parse`.
- Gemini's `generate_content` followed by `json.loads` is a function
  parameter `analyze`. It returns a decoded value or an error message.
- The Flask and Django regular expressions are not modelled. Each match is
  given by its capture groups.
- The FastAPI regular expression is written out as a recogniser, and
  `finditer` as a leftmost, non-overlapping scan over it.
- The Django lookup of a view's source in the views.py beside a urls.py,
  and what `ast.parse` makes of that source, are given as a map
  `Django.Views`.

The model reproduces the code as written, including where it does something
other than a reader of the project would expect:

- **Sort key.** The generator sorts by (path, method), not by (framework,
  path, method). So one framework's heading can appear more than once
  (`Generator.InterleavedGroupReopens`).
- **Markdown blocks.** Each block is the seven fixed pieces of
  generator.py:15-22. Query parameters, request body and responses are
  placeholder lines; there is no source block.
- **FastAPI records.** `parse_fastapi_routes` stores capture group 1
  upper-cased as the method and capture group 2 as the path. So a record of
  `@app.get("/users/{user_id}")` carries method `APP` and path `get`, and the
  route is never stored (`FastApi.PlainDecoratorMatches`).
- **FastAPI extra arguments.** A decorator with arguments after the route,
  such as test.py:21, is not matched at all
  (`FastApi.ExtraArgumentsYieldNothing`).
- **Django paths.** A Django route `users/` is stored as `/users`: the path
  is stripped of slashes on both sides and one slash is put in front
  (`Django.UsersRoute`).
- **Django views.** A registration whose view source is not found, or is
  empty, yields no record.
- **Class-based Django views.** In django.py:9, `([\w\.]+)` is greedy and
  stops only at the `(`. So for `views.UserView.as_view()` it captures
  `views.UserView.as_view`, and `split(".")[-1]` makes the view name
  `as_view`. The view is then looked up under `as_view`, which views.py
  normally does not define, and the registration gives no record. The model
  takes the captured reference as its input and applies `Django.ViewName`
  to it, so it does the same. This follows from reading the pattern.
- **Unreadable files.** Errors reading a file are not caught by the
  extractors, so there is no per-file recovery to model.
- **Django file selection.** `parse_django_routes` passes
  `name_filter="urls.py"` to `iter_files`, and `iter_files` in utils.py:6
  takes no such parameter. As written, the call raises `TypeError`. The
  model takes the urls.py files as its input, which is what the call
  evidently intends.

## Model

| member | source | states |
|---|---|---|
| Text.Upper | Apimatic/ollama.py:14 | computes `s.upper()`: each ASCII lower-case letter replaced by its upper-case form, character by character |
| Text.Title | Apimatic/generator.py:13 | computes `s.title()`: a letter after a non-letter (or at the start) upper-cased, a letter after a letter lower-cased |
| Text.Strip | Apimatic/parsers/flask.py:18 | computes `s.strip(chars)`: the leading and then the trailing characters of the set dropped |
| Text.Find | Apimatic/ollama.py:56 | computes `s.find(c)`: the index of the first occurrence, or -1 |
| Text.RFind | Apimatic/ollama.py:57 | computes `s.rfind(c)`: the index of the last occurrence, or -1 |
| Text.Split | Apimatic/parsers/flask.py:18 | computes `s.split(sep)` for a one-character separator: the pieces between separators, empty pieces included |
| Text.Join | Apimatic/generator.py:23 | computes `sep.join(parts)`: the pieces with the separator between each two |
| Text.Less | Apimatic/generator.py:7 | computes Python's `<` on strings: lexicographic by code point, a proper prefix being smaller |
| Text.UpperShape | Apimatic/ollama.py:14 | `upper` keeps the length and every non-lower-case character, keeps which characters are letters, and leaves no lower-case letter |
| Text.UpperIdempotent | Apimatic/ollama.py:14 | upper-casing twice is upper-casing once |
| Text.UpperCharwise | Apimatic/parsers/django.py:32 | `upper` maps each character on its own, so a string is its upper-case form when it agrees with it character by character |
| Text.TitleShape | Apimatic/generator.py:13 | `title` keeps non-letters, upper-cases a letter not preceded by a letter and lower-cases a letter preceded by one |
| Text.TitleIdempotentFrom | Apimatic/generator.py:13 | title-casing a title-cased string changes nothing |
| Text.LeadingInSpec | Apimatic/parsers/flask.py:18 | the leading run counted is all in the stripped set, and the character after it is not |
| Text.TrailingInSpec | Apimatic/parsers/flask.py:18 | the trailing run counted is all in the stripped set, and the character before it is not |
| Text.StripShape | Apimatic/parsers/flask.py:18 | what `strip` leaves is empty, or neither starts nor ends with a stripped character |
| Text.StripIsInfix | Apimatic/parsers/flask.py:18 | what `strip` leaves is a slice of the input, and only stripped characters lie outside it |
| Text.StripFixed | Apimatic/parsers/django.py:57 | `strip` leaves alone a string that neither starts nor ends with a stripped character |
| Text.StripDropsLeading | Apimatic/parsers/django.py:57 | a leading stripped character makes no difference to the result |
| Text.FindSpec | Apimatic/ollama.py:56 | `find` is -1 exactly when the character is absent; otherwise it is an occurrence with none before it |
| Text.RFindSpec | Apimatic/ollama.py:57 | `rfind` is -1 exactly when the character is absent; otherwise it is an occurrence with none after it |
| Text.SplitPieces | Apimatic/parsers/flask.py:18 | no piece of `split` contains the separator |
| Text.SplitJoin | Apimatic/parsers/flask.py:18 | joining the pieces of a split with the separator gives back the string |
| Text.SplitCount | Apimatic/parsers/flask.py:18 | a split has one piece more than the string has separators |
| Text.AfterLastAbsent | Apimatic/parsers/django.py:45 | the text after the last separator holds no separator |
| Text.LastPieceAfterLastSeparator | Apimatic/parsers/django.py:45 | `split(sep)[-1]` is the text after the last separator, or the whole text when there is none |
| Text.JoinSnoc | Apimatic/generator.py:23 | joining one more piece appends the separator and the piece |
| Text.CountAppend | Apimatic/parsers/flask.py:18 | the occurrences in a concatenation add up |
| Text.LessIrreflexive | Apimatic/generator.py:7 | string `<` is irreflexive |
| Text.LessTrichotomy | Apimatic/generator.py:7 | string `<` is total and asymmetric |
| Text.LessTransitive | Apimatic/generator.py:7 | string `<` is transitive |
| Generator.SortKey | Apimatic/generator.py:7 | computes the sort key `(x.get("path",""), x.get("method",""))` |
| Generator.DocHeader | Apimatic/generator.py:8 | the document's first piece, `# API Documentation` and a newline |
| Generator.SortByRoute | Apimatic/generator.py:7 | computes `sorted(endpoints, key=(path, method))` as an insertion sort, absent fields read as "" |
| Generator.Group | Apimatic/generator.py:11 | computes the record's framework, "other" when absent |
| Generator.Heading | Apimatic/generator.py:13 | computes the heading piece: a newline, `## `, the title-cased framework and a newline |
| Generator.EndpointTitle | Apimatic/generator.py:15 | computes the title: the summary when truthy, else "method path" with defaults ANY and / |
| Generator.TitlePiece | Apimatic/generator.py:16 | computes the `### <title>` line |
| Generator.RoutePiece | Apimatic/generator.py:17 | computes the endpoint line: method and path in backticks, defaults ANY and / |
| Generator.SourcePiece | Apimatic/generator.py:18 | computes the source line: the file in backticks, `?` when absent |
| Generator.DescriptionPiece | Apimatic/generator.py:19 | computes the description line, `_add description_` when the key is absent |
| Generator.QueryParamsPiece | Apimatic/generator.py:20 | the query-parameters placeholder line |
| Generator.RequestBodyPiece | Apimatic/generator.py:21 | the request-body placeholder line |
| Generator.ResponsesPiece | Apimatic/generator.py:22 | the responses placeholder line, followed by a blank line |
| Generator.Block | Apimatic/generator.py:15-22 | computes the seven pieces appended for one record: title, endpoint, source, description and the three placeholders |
| Generator.Pieces | Apimatic/generator.py:10-22 | computes what the loop appends for the first n records: for each, its framework's heading when the framework changes, then its block |
| Generator.KeyLessIrreflexive | Apimatic/generator.py:7 | no key is smaller than itself |
| Generator.KeyLessTotal | Apimatic/generator.py:7 | any two (path, method) keys are equal or one is smaller, and never each smaller than the other |
| Generator.KeyLessTransitive | Apimatic/generator.py:7 | the key order is transitive |
| Generator.InsertPermutes | Apimatic/generator.py:7 | inserting adds exactly the one record |
| Generator.InsertSorted | Apimatic/generator.py:7 | inserting into a sorted list keeps it sorted |
| Generator.InsertWithKey | Apimatic/generator.py:7 | an inserted record goes before every record with an equal key |
| Generator.SortByRouteIsStableSort | Apimatic/generator.py:7 | `sorted` by (path, method) gives a permutation of its input, ordered by key, that keeps records with equal keys in input order |
| Generator.SortByRoutePermutes | Apimatic/generator.py:7 | the sorted list is a permutation of the input |
| Generator.SortByRouteSorted | Apimatic/generator.py:7 | the sorted list is ordered by (path, method), absent fields read as "" |
| Generator.SortByRouteStable | Apimatic/generator.py:7 | for every key, the records with that key keep their input order |
| Generator.GenerateMarkdown | Apimatic/generator.py:5-23 | the document is the header followed by the pieces of the sorted records, joined by newlines; an empty list gives the header alone |
| Generator.RenderSorted | Apimatic/generator.py:8-23 | the loop appends, for each record, a framework heading when the framework changes and then the record's seven-piece block |
| Generator.PiecesPrefix | Apimatic/generator.py:10-22 | the pieces of the first records begin the pieces of all records |
| Generator.PieceCount | Apimatic/generator.py:9-22 | the loop appends one heading per framework change and seven pieces per record |
| Generator.BlockFollows | Apimatic/generator.py:10-22 | a record's block comes right after the pieces of the records before it and its heading, if any |
| Generator.BlockPosition | Apimatic/generator.py:10-22 | record i's block sits at offset (headings so far) + 7i; the piece right before it is its framework's heading when it opens a group, and otherwise the last piece of the previous record's block |
| Generator.PiecesEndWithResponses | Apimatic/generator.py:22 | the pieces of a non-empty run of records end with the responses placeholder of the last record's block |
| Generator.BlockEndsWithResponses | Apimatic/generator.py:22 | every block ends with the responses placeholder |
| Generator.InterleavedGroupReopens | Apimatic/generator.py:11-14 | when another framework's record sorts between two records of one framework, that framework's heading is emitted again |
| Generator.TitleFallback | Apimatic/generator.py:15 | the title is the summary when it is non-empty, else "method path" with defaults ANY and /; it is never empty |
| Generator.DescriptionDefault | Apimatic/generator.py:19 | an absent description renders as the placeholder, and an empty one renders as empty |
| Generator.PlaceholdersConstant | Apimatic/generator.py:20-22 | the last three pieces of a block do not depend on the record |
| Generator.EmptyDocument | Apimatic/generator.py:8 | an empty list renders as the title line alone |
| Ollama.KeyOf | Apimatic/ollama.py:13-14 | computes `_key`: the upper-cased method and the path, absent fields read as "" |
| Ollama.Slots | Apimatic/ollama.py:18 | computes the dictionary `{ _key(ep): ep for ep in original }` over the first n records, as the index of the record each key holds (the last one with that key) |
| Ollama.KeyOrder | Apimatic/ollama.py:18 | computes that dictionary's keys in insertion order: each key where its first record occurs |
| Ollama.Apply | Apimatic/ollama.py:23-26 | computes one entry's write: summary and description replaced by the entry's values when these are truthy |
| Ollama.Values | Apimatic/ollama.py:27 | computes `list(base.values())`: the record each key of the dictionary holds, in insertion order |
| Ollama.ApplyEntries | Apimatic/ollama.py:19-26 | computes the records after the loop over the first n entries: an entry whose key is in the dictionary overwrites that record's summary and description with its truthy values |
| Ollama.MergeSpec | Apimatic/ollama.py:17-27 | computes what `_merge` leaves in the original records and what it returns: the updated values, or nothing when an entry is not an object |
| Ollama.ArrayCandidate | Apimatic/ollama.py:56-62 | computes `text[start:end+1]` from the first '[' to the last ']', or nothing when either is missing or `end <= start` |
| Ollama.KeyIgnoresCase | Apimatic/ollama.py:13-14 | the key does not depend on the case of the method, and its method part is upper case |
| Ollama.SlotsHold | Apimatic/ollama.py:18 | in the key dictionary, each key holds the last record with that key, and every record's key is present |
| Ollama.KeyOrderHolds | Apimatic/ollama.py:18 | the dictionary's insertion order lists each of its keys exactly once |
| Ollama.KeyOrderFirstOccurrence | Apimatic/ollama.py:18 | a key is placed in the order where its first record occurs |
| Ollama.ValuesAt | Apimatic/ollama.py:27 | `list(base.values())` holds, key by key, the record each key names |
| Ollama.LeadingRecords | Apimatic/ollama.py:19-20 | the entries processed before `_key` raises are exactly the leading objects |
| Ollama.IndexByKey | Apimatic/ollama.py:18 | the first loop builds the key dictionary and its insertion order |
| Ollama.Merge | Apimatic/ollama.py:17-27 | `_merge` writes into the original records exactly what the merge specification says, and returns its list, or None when an entry is not an object |
| Ollama.ApplyEntriesKeepsKeys | Apimatic/ollama.py:19-26 | applying entries never changes a record's key or the list's length |
| Ollama.ApplyEntriesAt | Apimatic/ollama.py:19-26 | only the record the dictionary holds for a key is written; it ends with the last truthy summary and description of the entries with its key |
| Ollama.LastTruthyIdempotent | Apimatic/ollama.py:23-26 | applying the same truthy values twice is applying them once |
| Ollama.LastTruthyUnmatched | Apimatic/ollama.py:21-26 | with no entry of a record's key, its fields keep their values |
| Ollama.MergeKeepsProvenance | Apimatic/ollama.py:17-27 | the merge keeps the list's length and every field but summary and description; it returns a list exactly when every entry is an object |
| Ollama.MergeOnePerKey | Apimatic/ollama.py:17-27 | the returned list holds one record per distinct original key, in order of first occurrence, each the last original record with that key after updating |
| Ollama.MergeLeavesUnmatched | Apimatic/ollama.py:19-26 | a record with no matching entry, or shadowed by a later record with its key, is left exactly as it was |
| Ollama.SlotsOfSameKeys | Apimatic/ollama.py:18 | lists with the same keys build the same dictionary |
| Ollama.MergeIdempotent | Apimatic/ollama.py:17-27 | merging the same entries a second time changes nothing |
| Ollama.ArrayCandidateExists | Apimatic/ollama.py:56-59 | an array candidate exists exactly when some '[' comes before some ']' |
| Ollama.ArrayCandidateShape | Apimatic/ollama.py:56-62 | the candidate starts at the first '[' and ends at the last ']' of the text |
| Ollama.EnhanceWithOllama | Apimatic/ollama.py:43-67 | records change only when the stripped output holds a candidate that parses as a list; the result is the merged list, or the input list on every failure path |
| Gemini.FailedDetails | Apimatic/usedAllAI/googleGemini.py:96-102 | computes the entry written when the analysis raised: `_Gemini analysis failed: <message>_` with an empty list and an empty object |
| Gemini.TypeName | Apimatic/usedAllAI/googleGemini.py:91 | computes `type(v).__name__` of a decoded value, which names the error `.get` raises on a reply that is not an object |
| Gemini.DetailsFor | Apimatic/usedAllAI/googleGemini.py:66-103 | computes a record's `ai_details`: the no-source placeholder when the source is not truthy, else the reply's three keys with defaults, or the failure text |
| Gemini.Enhanced | Apimatic/usedAllAI/googleGemini.py:65-103 | computes the records after the loop: each one with its `ai_details` set |
| Gemini.EnhanceWithGemini | Apimatic/usedAllAI/googleGemini.py:65-106 | the loop writes each record's `ai_details` in place and returns the same list |
| Gemini.EnhancedWritesOnlyDetails | Apimatic/usedAllAI/googleGemini.py:65-103 | the stage keeps the list's length and order, writes nothing but `ai_details`, and every record then has it |
| Gemini.NoSourceIgnoresModel | Apimatic/usedAllAI/googleGemini.py:66-73 | a record without source gets the placeholder whatever the model would answer |
| Gemini.EnhancedIsolatesRecords | Apimatic/usedAllAI/googleGemini.py:79-103 | a failure touches only the record being analysed: the stage distributes over concatenation |
| Gemini.EnhancedRerun | Apimatic/usedAllAI/googleGemini.py:65-103 | with a model that answers a source the same way each time, a second run gives the same records |
| Gemini.DetailsFromReply | Apimatic/usedAllAI/googleGemini.py:88-103 | a reply object gives each of the three keys' values, with "", [] or {} for a key it lacks; a reply that is not an object, or an error, gives the failure text with empty lists |
| Flask.MethodNames | Apimatic/parsers/flask.py:16-20 | computes the method names: the cleaned comma-separated elements of the methods text, or ["GET"] when it is absent or empty |
| Flask.Clean | Apimatic/parsers/flask.py:18 | computes `x.strip().strip("'\"")`: whitespace stripped, then quotes |
| Flask.MatchEndpoints | Apimatic/parsers/flask.py:21-27 | computes one decorator's records: one per method name, upper-cased, with the framework, file and route |
| Flask.FileRecords | Apimatic/parsers/flask.py:14-27 | computes the records of one file: its decorators' records, decorator by decorator |
| Flask.FlaskEndpoints | Apimatic/parsers/flask.py:12-27 | computes the records of all files, file by file |
| Flask.MethodNamesShape | Apimatic/parsers/flask.py:17-20 | no methods text, or an empty one, gives GET; otherwise one name per comma-separated element, none holding a comma or starting or ending with a quote |
| Flask.CleanedAt | Apimatic/parsers/flask.py:18 | the list comprehension cleans each element in place |
| Flask.StripInfix | Apimatic/parsers/flask.py:18 | `strip` introduces no character |
| Flask.MatchEndpointsShape | Apimatic/parsers/flask.py:21-27 | a decorator gives one record per method name, each with the framework, the file, the route as written and an upper-case method |
| Flask.DecoratorEndpoints | Apimatic/parsers/flask.py:21-27 | the inner loop appends the records of one decorator |
| Flask.FileEndpoints | Apimatic/parsers/flask.py:14-27 | the scan of one file gives its decorators' records in order |
| Flask.ParseFlaskRoutes | Apimatic/parsers/flask.py:10-28 | the extractor gives the records of all files, file by file |
| Flask.FileRecordsStep | Apimatic/parsers/flask.py:14-27 | one more decorator appends its records |
| Flask.FlaskEndpointsStep | Apimatic/parsers/flask.py:12-27 | one more file appends its records |
| Flask.FileRecordsPrefix | Apimatic/parsers/flask.py:14-27 | the records of a file's first decorators begin its records |
| Flask.FlaskEndpointsPrefix | Apimatic/parsers/flask.py:12-27 | the records of the first files begin the result |
| Flask.FileRecordsProvenance | Apimatic/parsers/flask.py:14-27 | every record of a file comes from one of its decorators and carries the file, that route and the framework |
| Flask.FlaskEndpointsProvenance | Apimatic/parsers/flask.py:12-27 | every record comes from a decorator of a scanned file and carries that file, that route and the framework |
| Flask.FilePlaced | Apimatic/parsers/flask.py:12-27 | a file's records follow those of the files before it |
| Flask.DecoratorPlaced | Apimatic/parsers/flask.py:14-27 | a decorator's records follow those of the decorators before it |
| Flask.FlaskEndpointsCover | Apimatic/parsers/flask.py:12-27 | every decorator contributes its records together and in order, after those of everything scanned before it |
| FastApi.MatchAt | Apimatic/parsers/fastapi.py:8 | computes the pattern's match starting at a position: an '@' and a receiver, then the rest, or nothing |
| FastApi.MatchAfterReceiver | Apimatic/parsers/fastapi.py:8 | computes the rest of a match after the receiver: a dot and a verb, then the rest |
| FastApi.MatchAfterVerb | Apimatic/parsers/fastapi.py:8 | computes the rest of a match after the verb: a bracket, a quote, a non-empty run without quotes, a quote and a bracket |
| FastApi.Scan | Apimatic/parsers/fastapi.py:14 | computes `finditer` from a position: the first match at or after it, then the scan from where that match ends |
| FastApi.RouteEndpoint | Apimatic/parsers/fastapi.py:15-21 | computes the record of one match: group 1 upper-cased as the method and group 2 as the path |
| FastApi.IsRouteMatch | Apimatic/parsers/fastapi.py:8 | what the pattern accepts at a position: `@`, a receiver among app and router, a dot, a verb among the five, a bracket, a quote, a non-empty route without quotes, a quote and a bracket |
| FastApi.FileRecords | Apimatic/parsers/fastapi.py:14-22 | computes the records of one file, one per match of the scan |
| FastApi.FastapiEndpoints | Apimatic/parsers/fastapi.py:12-22 | computes the records of all files, file by file |
| FastApi.WordAt | Apimatic/parsers/fastapi.py:8 | the alternation returns one of its words that occurs at the position |
| FastApi.RouteRun | Apimatic/parsers/fastapi.py:8 | the run `[^'"]+` stays inside the text |
| FastApi.AlternativesUnambiguous | Apimatic/parsers/fastapi.py:8 | no two alternatives of a group share their first two characters |
| FastApi.WordAtFinds | Apimatic/parsers/fastapi.py:8 | an alternative that occurs is the one the alternation picks |
| FastApi.ReceiverFound | Apimatic/parsers/fastapi.py:8 | the receiver that occurs is the one captured as group 1 |
| FastApi.VerbFound | Apimatic/parsers/fastapi.py:8 | the verb that occurs is the one captured as group 2 |
| FastApi.RouteRunStops | Apimatic/parsers/fastapi.py:8 | the route run ends at the first quote |
| FastApi.RouteRunQuoteFree | Apimatic/parsers/fastapi.py:8 | the route run holds no quote |
| FastApi.MatchAfterVerbSound | Apimatic/parsers/fastapi.py:8 | the last stage reads a bracket, a non-empty quote-free route between two quotes, and a closing bracket |
| FastApi.MatchAtSound | Apimatic/parsers/fastapi.py:8 | what the recogniser returns at a position is a match of the pattern starting there |
| FastApi.LaidRoute | Apimatic/parsers/fastapi.py:8 | the route of a match is exactly the run between its quotes |
| FastApi.MatchAfterVerbComplete | Apimatic/parsers/fastapi.py:8 | the last stage reads every match's bracket, quotes and route |
| FastApi.MatchAfterReceiverComplete | Apimatic/parsers/fastapi.py:8 | the middle stage reads every match's dot and verb |
| FastApi.MatchAtComplete | Apimatic/parsers/fastapi.py:8 | every match of the pattern is found by the recogniser at its start |
| FastApi.Matches | Apimatic/parsers/fastapi.py:14 | what the recogniser finds is recorded at each match's own start |
| FastApi.FindIter | Apimatic/parsers/fastapi.py:14 | the loop collects the leftmost, non-overlapping scan |
| FastApi.ScanAnchored | Apimatic/parsers/fastapi.py:14 | every match yielded lies at or after the scan's start and is the one recorded there |
| FastApi.ScanOrdered | Apimatic/parsers/fastapi.py:14 | the matches yielded do not overlap and come in text order |
| FastApi.ScanLeftmost | Apimatic/parsers/fastapi.py:14 | every position where a match starts is the start of a match yielded or lies inside one |
| FastApi.ScanNothing | Apimatic/parsers/fastapi.py:14 | where nothing is recorded, nothing is yielded |
| FastApi.ScanSound | Apimatic/parsers/fastapi.py:14 | every match `finditer` yields is a match of the pattern inside the text |
| FastApi.ScanComplete | Apimatic/parsers/fastapi.py:14 | every match of the pattern starts a match yielded or lies inside one |
| FastApi.ScanWithoutAt | Apimatic/parsers/fastapi.py:14 | a text without '@' yields no match |
| FastApi.ParseFastapiRoutes | Apimatic/parsers/fastapi.py:10-23 | the extractor gives one record per match, file by file, in text order |
| FastApi.UpperReceivers | Apimatic/parsers/fastapi.py:15 | the receivers upper-case to APP and ROUTER |
| FastApi.FileRecordsShape | Apimatic/parsers/fastapi.py:14-22 | a file gives one record per match in text order, with APP or ROUTER as the method and the lower-case verb as the path |
| FastApi.FastapiEndpointsProvenance | Apimatic/parsers/fastapi.py:12-22 | every record names a scanned file and carries APP or ROUTER as its method and a verb as its path |
| FastApi.FastapiEndpointsCover | Apimatic/parsers/fastapi.py:12-22 | each file's records appear together and in order, after those of the files before it |
| FastApi.PlainRouteLaid | test.py:29 | the route of the decorator sits between its quotes and holds no quote |
| FastApi.PlainDecoratorIsMatch | test.py:29 | the decorator is one match of the pattern, running to its end |
| FastApi.PlainDecoratorMatches | test.py:29 | the decorator gives exactly one record, with method APP and path "get" |
| FastApi.ExtraArgumentsRejected | test.py:21 | the recogniser rejects the decorator at its '@', because the closing quote is followed by a comma |
| FastApi.ExtraArgumentsSingleAt | test.py:21 | the decorator has no other '@' |
| FastApi.ExtraArgumentsYieldNothing | test.py:21 | a decorator with an argument after the route gives no record |
| Django.Handlers | Apimatic/parsers/django.py:30-32 | computes the upper-cased names of the handler methods among the first n statements of a class body |
| Django.ClassMethods | Apimatic/parsers/django.py:24-35 | computes `get_methods_from_class_source`: the handlers of the class that opens the source, or ["ANY"] |
| Django.ViewName | Apimatic/parsers/django.py:45 | computes `view_str.split(".")[-1]` |
| Django.DjangoPath | Apimatic/parsers/django.py:57 | computes `"/" + path.strip("/")` |
| Django.MatchEndpoints | Apimatic/parsers/django.py:47-60 | computes one registration's records: none when the view's source is not found or empty, else one per method the view answers |
| Django.RouteEndpoint | Apimatic/parsers/django.py:53-60 | computes the record for one method of a registration: framework django, the views.py path, the method, the normalised path, the source and the summary "method /route" |
| Django.DjangoEndpoints | Apimatic/parsers/django.py:37-62 | computes the records of all urls.py files, file by file and registration by registration |
| Django.ListedIsIn | Apimatic/parsers/django.py:31 | walking the list of handler names is list membership |
| Django.GetMethodsFromClassSource | Apimatic/parsers/django.py:24-35 | the method gives the upper-cased handler names of the class that opens the source, or ["ANY"] |
| Django.UpperHandlerNames | Apimatic/parsers/django.py:31-32 | each handler name upper-cases to its HTTP method |
| Django.ListedUpper | Apimatic/parsers/django.py:31-32 | a listed handler name upper-cases to a listed method |
| Django.HandlersAreMethods | Apimatic/parsers/django.py:30-32 | the handlers found are HTTP methods, at most one per statement |
| Django.HandlerFound | Apimatic/parsers/django.py:30-32 | a handler statement contributes its method |
| Django.HandlersComplete | Apimatic/parsers/django.py:30-32 | every handler statement contributes its method |
| Django.HandlersNone | Apimatic/parsers/django.py:30-35 | no handler is found exactly when the body has none |
| Django.ClassMethodsShape | Apimatic/parsers/django.py:24-35 | a view answers at least one method; ["ANY"] exactly when the source does not open with a class that has a handler; otherwise only HTTP methods |
| Django.ViewNameIsLastSegment | Apimatic/parsers/django.py:45 | the view name is the suffix of the reference after its last dot, and holds no dot |
| Django.DjangoPathShape | Apimatic/parsers/django.py:57 | the stored path has exactly one leading slash and no trailing one, and normalising it again changes nothing |
| Django.UsersRoute | Apimatic/parsers/django.py:57 | the route `users/` is stored as `/users`, and the empty route as `/` |
| Django.RegistrationEndpoints | Apimatic/parsers/django.py:47-60 | the body for one registration gives a record per method of its view, or none when the source is not found |
| Django.MatchEndpointsShape | Apimatic/parsers/django.py:47-60 | a registration with a source gives one record per method, with the framework, the views.py path, the source, the normalised path and a "method path" summary |
| Django.FileEndpoints | Apimatic/parsers/django.py:43-60 | the scan of one urls.py gives its registrations' records in order |
| Django.ParseDjangoRoutes | Apimatic/parsers/django.py:37-62 | the extractor gives the records of all urls.py files, file by file |
| Django.DjangoEndpointsProvenance | Apimatic/parsers/django.py:39-60 | every record comes from a registration whose view source was found, with that views.py path and the normalised route |
| Django.DjangoEndpointsCover | Apimatic/parsers/django.py:39-60 | every registration contributes its records together and in order |

## Left out

- `cli.py`, `iter_files`, file reading and `relative_to` are not modelled. Files come in as (relative path, contents) or as their matches.
- `express.py` is not part of this model.
- The Flask and Django regular expressions are not modelled: each match is given by its groups, and the matches of a file are an input. For FastAPI, only the pattern's own alternatives are modelled, not Python's `re` engine.
- `get_source_from_views_file` and `ast.parse` are not modelled. What they give for each (views.py, view name) pair is the input map `Django.Views`.
- The prompt payload, `json.dumps`, the subprocess call, `json.loads` and the Gemini API call are not modelled. They are the parameters `run`, `parse` and `analyze`.
- Gemini API key handling (`get_api_key`, `update_api_key`), the environment variable and the model construction are left out. They are I/O.
- Printing progress and errors is left out.
- Text.Upper: models `str.upper` on ASCII letters only. Other characters are left as they are, unlike Python's full Unicode case mapping.
- Text.Title: models `str.title` on ASCII letters only, for the same reason.
- Ollama.KeyOf: an absent method or path reads as "". A present JSON `null` would read as "None" in Python. Non-string values are not modelled, because entries carry only optional strings.
- Ollama.EnhanceWithOllama: the UTF-8 decoding with `errors="ignore"` is left out. The output is given already decoded.
- Ollama.Merge: the in-place write is modelled as writing into the array slot of the record the dictionary holds. Other references to the same dictionaries (aliasing) are not modelled.
- Gemini.TypeName: JSON numbers are integers only, so a float reply's type name `float` is not modelled.
- Generator.GenerateMarkdown: the input list is a value. Python's `sorted` builds a new list, so nothing is updated in place.
- Gemini.EnhanceWithGemini: `analyze` is a function of the source text alone, so two records with the same source get the same reply within one run. A model whose answers vary from one call to the next is not modelled, and `Gemini.EnhancedIsolatesRecords` relies on this.
- Django.ViewSource: the parse of a view's source (`shape`) is an input beside its text, not computed from it. Two views with the same text could therefore carry different parses, which Python's deterministic `ast.parse` never gives. No contract relies on the two agreeing.
