/** The Gemini enrichment stage: every endpoint record receives an
    `ai_details` entry, from the model's JSON reply when the record has source
    code and the call succeeds, from a placeholder otherwise. The call to the
    model and the decoding of its reply are a function parameter. */
module Gemini {
  import opened Types

  /** What `model.generate_content` followed by `json.loads` gives for the
      prompt built from one source text: a decoded value, or the message of
      the exception raised on the way. */
  datatype Reply = Failed(message: string) | Replied(value: Json)

  const NoSourceExplanation: string := "_No source code found to generate a description._"

  /** The entry written for a record without source code. */
  const NoSourceDetails: AiDetails := AiDetails(JString(NoSourceExplanation), JArray([]), JObject(map[]))

  /** The entry written when the analysis raised `message`. */
  function FailedDetails(message: string): AiDetails
  {
    AiDetails(JString("_Gemini analysis failed: " + message + "_"), JArray([]), JObject(map[]))
  }

  /** `type(v).__name__` of a decoded JSON value. */
  function TypeName(v: Json): string
  {
    match v
    case JNull => "NoneType"
    case JBool(_) => "bool"
    case JNumber(_) => "int"
    case JString(_) => "str"
    case JArray(_) => "list"
    case JObject(_) => "dict"
  }

  /** `d.get(key, default)` on a decoded object. */
  function GetOr(fields: map<string, Json>, key: string, default: Json): Json
  {
    if key in fields then fields[key] else default
  }

  /** The `ai_details` entry for a record with this source. A reply that is
      not an object fails at its first `.get`, inside the `try`. */
  function DetailsFor(source: Option<string>, analyze: string -> Reply): AiDetails
  {
    if !Truthy(source) then NoSourceDetails
    else
      match analyze(source.value)
      case Failed(message) => FailedDetails(message)
      case Replied(JObject(fields)) =>
        AiDetails(GetOr(fields, "logic_explanation", JString("")),
                  GetOr(fields, "query_params", JArray([])),
                  GetOr(fields, "request_body", JObject(map[])))
      case Replied(v) => FailedDetails("'" + TypeName(v) + "' object has no attribute 'get'")
  }

  /** The records after the loop: each one with its `ai_details` entry. */
  function Enhanced(s: seq<Endpoint>, analyze: string -> Reply): seq<Endpoint>
  {
    seq(|s|, i requires 0 <= i < |s| => s[i].(aiDetails := Some(DetailsFor(s[i].source, analyze))))
  }

  /** `enhance_with_gemini`: writes `ai_details` into every record, in place,
      and returns the same list. */
  method EnhanceWithGemini(endpoints: array<Endpoint>, analyze: string -> Reply) returns (result: array<Endpoint>)
    modifies endpoints
    ensures result == endpoints
    ensures endpoints[..] == Enhanced(old(endpoints[..]), analyze)
  {
    for i := 0 to endpoints.Length
      invariant forall j :: 0 <= j < i ==>
                  endpoints[j] == old(endpoints[j]).(aiDetails := Some(DetailsFor(old(endpoints[j]).source, analyze)))
      invariant forall j :: i <= j < endpoints.Length ==> endpoints[j] == old(endpoints[j])
    {
      var endpoint := endpoints[i];
      var source := endpoint.source;
      var details: AiDetails;
      if !Truthy(source) {
        details := NoSourceDetails;
      } else {
        match analyze(source.value)
        case Failed(message) =>
          details := FailedDetails(message);
        case Replied(v) =>
          if v.JObject? {
            details := AiDetails(GetOr(v.fields, "logic_explanation", JString("")),
                                 GetOr(v.fields, "query_params", JArray([])),
                                 GetOr(v.fields, "request_body", JObject(map[])));
          } else {
            details := FailedDetails("'" + TypeName(v) + "' object has no attribute 'get'");
          }
      }
      assert details == DetailsFor(source, analyze);
      endpoints[i] := endpoint.(aiDetails := Some(details));
    }
    result := endpoints;
  }

  /** The stage keeps the list's length and order and writes nothing but
      `ai_details`, which every record then has. */
  lemma EnhancedWritesOnlyDetails(s: seq<Endpoint>, analyze: string -> Reply)
    ensures |Enhanced(s, analyze)| == |s|
    ensures forall i :: 0 <= i < |s| ==>
              Enhanced(s, analyze)[i].aiDetails.Some?
              && Enhanced(s, analyze)[i].(aiDetails := s[i].aiDetails) == s[i]
  {
  }

  /** A record without source code gets the placeholder whatever the model
      would have answered: the model is not consulted for it. */
  lemma NoSourceIgnoresModel(ep: Endpoint, a1: string -> Reply, a2: string -> Reply)
    requires !Truthy(ep.source)
    ensures Enhanced([ep], a1) == Enhanced([ep], a2)
    ensures Enhanced([ep], a1)[0].aiDetails == Some(NoSourceDetails)
  {
  }

  /** A failure touches only the record being analysed: the stage works
      record by record, so it distributes over concatenation. */
  lemma {:induction false} EnhancedIsolatesRecords(s: seq<Endpoint>, t: seq<Endpoint>, analyze: string -> Reply)
    ensures Enhanced(s + t, analyze) == Enhanced(s, analyze) + Enhanced(t, analyze)
  {
    var lhs := Enhanced(s + t, analyze);
    var rhs := Enhanced(s, analyze) + Enhanced(t, analyze);
    assert |lhs| == |rhs|;
    forall i | 0 <= i < |lhs|
      ensures lhs[i] == rhs[i]
    {
      if i >= |s| {
        assert (s + t)[i] == t[i - |s|];
      }
    }
  }

  /** With a model that answers a source the same way each time, running the
      stage again gives the same records: it reads only the source, which it
      never writes. */
  lemma EnhancedRerun(s: seq<Endpoint>, analyze: string -> Reply)
    ensures Enhanced(Enhanced(s, analyze), analyze) == Enhanced(s, analyze)
  {
  }

  /** A reply object with the three keys is copied as it is, and a key it
      lacks reads as "", [] or {}; a reply that is not an object or a raised
      error leaves the failure placeholder, whose lists are empty. */
  lemma DetailsFromReply(source: string, analyze: string -> Reply)
    requires |source| > 0
    ensures analyze(source).Replied? && analyze(source).value.JObject? ==>
              var f := analyze(source).value.fields;
              DetailsFor(Some(source), analyze).logicExplanation
                == if "logic_explanation" in f then f["logic_explanation"] else JString("")
    ensures analyze(source).Replied? && analyze(source).value.JObject? ==>
              var f := analyze(source).value.fields;
              DetailsFor(Some(source), analyze).queryParams
                == if "query_params" in f then f["query_params"] else JArray([])
    ensures analyze(source).Replied? && analyze(source).value.JObject? ==>
              var f := analyze(source).value.fields;
              DetailsFor(Some(source), analyze).requestBody
                == if "request_body" in f then f["request_body"] else JObject(map[])
    ensures analyze(source).Replied? && analyze(source).value.JObject?
            && "logic_explanation" in analyze(source).value.fields
            && "query_params" in analyze(source).value.fields
            && "request_body" in analyze(source).value.fields
            ==> var f := analyze(source).value.fields;
                DetailsFor(Some(source), analyze) == AiDetails(f["logic_explanation"], f["query_params"], f["request_body"])
    ensures !(analyze(source).Replied? && analyze(source).value.JObject?) ==>
              var d := DetailsFor(Some(source), analyze);
              && d.queryParams == JArray([]) && d.requestBody == JObject(map[])
              && d.logicExplanation.JString?
              && d.logicExplanation.s[..|"_Gemini analysis failed: "|] == "_Gemini analysis failed: "
  {
  }
}
