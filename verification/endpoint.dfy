/** The endpoint record that the extractors build, the enrichment stages update
    and the generator reads. In the program it is a dictionary whose keys may be
    absent; here every key is an `Option`. */
module Types {

  datatype Option<+T> = None | Some(value: T) {
    /** `d.get(key, default)` */
    function GetOr(default: T): T {
      match this
      case Some(v) => v
      case None => default
    }
  }

  /** Python truthiness of an optional string: present and non-empty. */
  predicate Truthy(o: Option<string>) {
    o.Some? && |o.value| > 0
  }

  /** A decoded JSON value. Numbers are integers only. */
  datatype Json =
    | JNull
    | JBool(b: bool)
    | JNumber(n: int)
    | JString(s: string)
    | JArray(items: seq<Json>)
    | JObject(fields: map<string, Json>)

  /** The `ai_details` entry written by the Gemini stage: always these three keys. */
  datatype AiDetails = AiDetails(logicExplanation: Json, queryParams: Json, requestBody: Json)

  datatype Endpoint = Endpoint(
    framework: Option<string>,
    file: Option<string>,
    httpMethod: Option<string>,
    path: Option<string>,
    source: Option<string>,
    summary: Option<string>,
    description: Option<string>,
    aiDetails: Option<AiDetails>)

  /** A record as an extractor first builds it. */
  function Extracted(framework: string, file: string, httpMethod: string, path: string): Endpoint
  {
    Endpoint(Some(framework), Some(file), Some(httpMethod), Some(path), None, None, None, None)
  }
}
