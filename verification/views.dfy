/** The create-from-URL endpoint: extract the advert identifier from a listing URL,
    build the listing-site API URL, reject a failed fetch or a zero fee, and map the
    API fields onto the announcement fields handed to the serializer. */
module Views {
  import opened Wrappers
  import opened PyStr

  /** The errors `_extract_id_from_url` reports. */
  datatype UrlError = UrlRequired | NoIdInUrl

  function UrlErrorMessage(e: UrlError): string {
    match e
    case UrlRequired => "URL is required"
    case NoIdInUrl => "Could not extract ID from URL"
  }

  /** The end of the run of characters other than '/' and '?' that starts at `j`. */
  function RunEnd(s: string, j: nat): (k: nat)
    requires j <= |s|
    ensures j <= k <= |s|
    ensures forall m :: j <= m < k ==> s[m] != '/' && s[m] != '?'
    ensures k == |s| || s[k] == '/' || s[k] == '?'
    decreases |s| - j
  {
    if j == |s| || s[j] == '/' || s[j] == '?' then j else RunEnd(s, j + 1)
  }

  /** The pattern `/([^/?]+)(?:\?|$)` matches at `i`: a slash, then a non-empty run
      of characters other than '/' and '?' that the greedy match ends at a '?' or at
      the end of the text (no shorter run can end at `$`, because a run that stops
      at a '/' stops before the last character). */
  predicate MatchesAt(s: string, i: nat) {
    i < |s| && s[i] == '/' && RunEnd(s, i + 1) > i + 1 &&
    (RunEnd(s, i + 1) == |s| || s[RunEnd(s, i + 1)] == '?')
  }

  /** `re.search` from position `from`: the captured group of the leftmost match. */
  function Search(s: string, from: nat): (r: Option<string>)
    requires from <= |s|
    ensures r.None? <==> forall i :: from <= i < |s| ==> !MatchesAt(s, i)
    ensures r.Some? ==> r.value != [] && '/' !in r.value && '?' !in r.value
    decreases |s| - from
  {
    if from == |s| then None
    else if MatchesAt(s, from) then
      var e := RunEnd(s, from + 1);
      var g := s[from + 1..e];
      assert forall m :: 0 <= m < |g| ==> g[m] == s[from + 1 + m];
      Some(g)
    else Search(s, from + 1)
  }

  /** The text `_extract_id_from_url` searches: the URL before its first '?',
      with trailing slashes removed. */
  function SearchedPath(url: string): (s: string)
    ensures '?' !in s
    ensures s == [] || s[|s| - 1] != '/'
  {
    var p := BeforeFirst(url, '?');
    var s := RStrip(p, '/');
    assert forall m :: 0 <= m < |s| ==> s[m] == p[m];
    s
  }

  /** `_extract_id_from_url`. */
  function ExtractId(url: Option<string>): (r: Result<string, UrlError>)
    ensures r == Failure(UrlRequired) <==> url.None? || url.value == ""
    ensures r.Success? ==> r.value != [] && '/' !in r.value && '?' !in r.value
  {
    if url.None? || url.value == "" then Failure(UrlRequired)
    else
      match Search(SearchedPath(url.value), 0)
      case None => Failure(NoIdInUrl)
      case Some(id) => Success(id)
  }

  /** On a path without '?' and without a trailing slash, the pattern captures exactly
      the text after the last '/', and fails exactly when there is no '/'. */
  lemma {:induction false} SearchIsLastSegment(s: string, from: nat)
    requires '?' !in s && (s == [] || s[|s| - 1] != '/')
    requires from <= |s|
    ensures Search(s, from) ==
      match RFind(s, '/')
      case None => None
      case Some(k) => if k < from then None else Some(s[k + 1..])
    decreases |s| - from
  {
    if from < |s| {
      match RFind(s, '/')
      case None =>
        assert !MatchesAt(s, from);
        SearchIsLastSegment(s, from + 1);
      case Some(k) =>
        if from < k {
          if s[from] == '/' {
            assert RunEnd(s, from + 1) <= k;
            assert !MatchesAt(s, from);
          }
          SearchIsLastSegment(s, from + 1);
        } else if from == k {
          assert k < |s| - 1;
          assert RunEnd(s, k + 1) == |s| by {
            RunEndOfRun(s, k + 1);
          }
          assert MatchesAt(s, k);
          assert s[k + 1..RunEnd(s, k + 1)] == s[k + 1..];
        } else {
          assert !MatchesAt(s, from);
          SearchIsLastSegment(s, from + 1);
        }
    }
  }

  /** A run without '/' and '?' reaches the end of the text. */
  lemma {:induction false} RunEndOfRun(s: string, j: nat)
    requires j <= |s|
    requires forall m :: j <= m < |s| ==> s[m] != '/' && s[m] != '?'
    ensures RunEnd(s, j) == |s|
    decreases |s| - j
  {
    if j < |s| {
      RunEndOfRun(s, j + 1);
    }
  }

  /** The identifier is the last path segment of the URL, once the query string and
      trailing slashes are removed; without a '/' there is none. */
  lemma ExtractIdIsLastSegment(url: string)
    requires url != ""
    ensures ExtractId(Some(url)).Success? <==> '/' in SearchedPath(url)
    ensures ExtractId(Some(url)).Failure? ==> ExtractId(Some(url)).error == NoIdInUrl
    ensures var s := SearchedPath(url);
      ExtractId(Some(url)).Success? ==> ExtractId(Some(url)).value == s[RFind(s, '/').value + 1..]
  {
    var s := SearchedPath(url);
    SearchIsLastSegment(s, 0);
  }

  /** An advert URL `base/id`, followed by any trailing slashes and an optional query
      string, yields `id`. */
  lemma ExtractIdFromAdvertUrl(base: string, id: string, slashes: string, query: string)
    requires '?' !in base
    requires id != [] && '/' !in id && '?' !in id
    requires forall m :: 0 <= m < |slashes| ==> slashes[m] == '/'
    requires query == [] || query[0] == '?'
    ensures ExtractId(Some(base + "/" + id + slashes + query)) == Success(id)
  {
    var url := base + "/" + id + slashes + query;
    var beforeQuery := base + "/" + id + slashes;
    var path := base + "/" + id;
    assert url == beforeQuery + query;
    assert '?' !in beforeQuery;
    BeforeFirstUnique(url, '?', beforeQuery);
    assert beforeQuery == path + slashes;
    RStripUnique(beforeQuery, '/', path);
    assert SearchedPath(url) == path;
    LastSlash(base, id);
    ExtractIdIsLastSegment(url);
    assert path[|base| + 1..] == id;
  }

  /** The text before the first `c` is the prefix free of `c` that is followed by `c`. */
  lemma BeforeFirstUnique(s: string, c: char, p: string)
    requires |p| <= |s| && p == s[..|p|]
    requires c !in p
    requires |p| == |s| || s[|p|] == c
    ensures BeforeFirst(s, c) == p
  {
  }

  /** Stripping `c` leaves the prefix not ending in `c` followed only by `c`. */
  lemma RStripUnique(s: string, c: char, p: string)
    requires |p| <= |s| && p == s[..|p|]
    requires p == [] || p[|p| - 1] != c
    requires forall m :: |p| <= m < |s| ==> s[m] == c
    ensures RStrip(s, c) == p
  {
  }

  /** In `base/id` with no '/' in `id`, the last '/' is the one before `id`. */
  lemma LastSlash(base: string, id: string)
    requires '/' !in id
    ensures RFind(base + "/" + id, '/') == Some(|base|)
  {
    var s := base + "/" + id;
    assert s[|base|] == '/';
    assert s[|base| + 1..] == id;
    LastSlashBefore(s, |base|, id);
  }

  /** A '/' followed only by a slash-free tail is the last one. */
  lemma LastSlashBefore(s: string, n: nat, tail: string)
    requires '/' !in tail
    requires n < |s| && s[n] == '/' && s[n + 1..] == tail
    ensures RFind(s, '/') == Some(n)
  {
    forall j | n < j < |s|
      ensures s[j] != '/'
    {
      assert s[j] == tail[j - n - 1];
    }
    RFindLast(s, '/', n);
  }

  /** An occurrence with none after it is the one `RFind` returns. */
  lemma RFindLast(s: string, c: char, i: nat)
    requires i < |s| && s[i] == c
    requires forall j :: i < j < |s| ==> s[j] != c
    ensures RFind(s, c) == Some(i)
  {
  }

  /** `API_DOMAIN`, the listing site's advert endpoint. */
  const ApiDomain: string := "https://www.bienici.com/realEstateAd.json"

  /** `_build_api_url`. */
  function BuildApiUrl(id: string): (u: string)
    ensures |u| == |ApiDomain| + 4 + |id|
    ensures u[..|ApiDomain|] == ApiDomain
    ensures u[|ApiDomain|..|ApiDomain| + 4] == "?id="
    ensures u[|ApiDomain| + 4..] == id
  {
    ApiDomain + "?id=" + id
  }

  /** The identifier can be read back from the API URL, so distinct identifiers give
      distinct API URLs. */
  lemma BuildApiUrlInjective(a: string, b: string)
    ensures BuildApiUrl(a) == BuildApiUrl(b) <==> a == b
  {
    if BuildApiUrl(a) == BuildApiUrl(b) {
      assert a == BuildApiUrl(a)[|ApiDomain| + 4..];
    }
  }

  /** A decoded JSON value, as far as the endpoint inspects it. */
  datatype Json = JNull | JBool(b: bool) | JNumber(n: real) | JString(s: string) | JComposite

  /** A decoded JSON object: field name to value. */
  type JsonObject = map<string, Json>

  /** `d.get(key)`: the value, or `None` (JSON null) when the key is absent. */
  function GetField(d: JsonObject, key: string): Json {
    if key in d then d[key] else JNull
  }

  /** Python's `v == 0`: true for a zero number and for `False`, false otherwise. */
  predicate EqualsZero(v: Json) {
    v == JNumber(0.0) || v == JBool(false)
  }

  /** What `api_response.json()` gives: a decoded object, a decoded value of another
      Python type (named by `typeName`), or the message of the decoding error. */
  datatype Body = Object(fields: JsonObject) | NonObject(typeName: string) | Undecodable(message: string)

  /** The external API's answer: its status code and its body. */
  datatype ApiResponse = ApiResponse(status: int, body: Body)

  /** The errors `_fetch_api_data` reports or raises. `DecodeError` is the
      `requests.exceptions.JSONDecodeError` of `json()`, and `NoGet` the
      `AttributeError` of calling `get` on a value that is not a dict. */
  datatype FetchError = FetchFailed | ZeroExpenses | DecodeError(message: string) | NoGet(typeName: string)

  /** `_fetch_api_data`, given the response the request produced. */
  function FetchApiData(response: ApiResponse): (r: Result<JsonObject, FetchError>)
    ensures r == Failure(FetchFailed) <==> response.status != 200
    ensures r == Failure(ZeroExpenses) <==>
      response.status == 200 && response.body.Object? &&
      EqualsZero(GetField(response.body.fields, "annualCondominiumFees"))
    ensures r.Success? <==>
      response.status == 200 && response.body.Object? &&
      !EqualsZero(GetField(response.body.fields, "annualCondominiumFees"))
    ensures r.Success? ==> r.value == response.body.fields
    ensures response.status == 200 && response.body.Undecodable? ==>
      r == Failure(DecodeError(response.body.message))
    ensures response.status == 200 && response.body.NonObject? ==>
      r == Failure(NoGet(response.body.typeName))
  {
    if response.status != 200 then Failure(FetchFailed)
    else match response.body
      case Undecodable(message) => Failure(DecodeError(message))
      case NonObject(typeName) => Failure(NoGet(typeName))
      case Object(data) =>
        if EqualsZero(GetField(data, "annualCondominiumFees")) then Failure(ZeroExpenses)
        else Success(data)
  }

  /** A missing fee is not rejected here: only an explicit zero is. */
  lemma MissingFeeIsNotRejected(data: JsonObject)
    requires "annualCondominiumFees" !in data
    ensures FetchApiData(ApiResponse(200, Object(data))) == Success(data)
  {
  }

  /** The serializer input `post` builds from the API URL and the API's fields. */
  function CreateData(apiUrl: string, data: JsonObject): (d: JsonObject)
    ensures d.Keys == {"url", "reference", "postal_code", "city", "department", "condominium_expenses"}
    ensures d["url"] == JString(apiUrl)
    ensures d["reference"] == GetField(data, "reference")
    ensures d["postal_code"] == GetField(data, "postalCode")
    ensures d["city"] == GetField(data, "city")
    ensures d["department"] == GetField(data, "departmentCode")
    ensures d["condominium_expenses"] == GetField(data, "annualCondominiumFees")
  {
    map[
      "url" := JString(apiUrl),
      "reference" := GetField(data, "reference"),
      "postal_code" := GetField(data, "postalCode"),
      "city" := GetField(data, "city"),
      "department" := GetField(data, "departmentCode"),
      "condominium_expenses" := GetField(data, "annualCondominiumFees")]
  }

  /** The HTTP answer of `post`: an error with its status code, or the created data. */
  datatype PostOutcome = Rejected(status: nat, error: string) | Created(data: JsonObject)

  /** The API URL of the listing a request names, when an identifier can be extracted. */
  function ApiUrlOf(url: Option<string>): (u: Option<string>)
    ensures u.Some? <==> ExtractId(url).Success?
    ensures u.Some? ==> u.value == BuildApiUrl(ExtractId(url).value)
  {
    match ExtractId(url)
    case Failure(_) => None
    case Success(id) => Some(BuildApiUrl(id))
  }

  /** An identifier was extracted and `fetch` returned a response for its API URL. */
  predicate Fetched(url: Option<string>, fetch: string -> Result<ApiResponse, string>) {
    ApiUrlOf(url).Some? && fetch(ApiUrlOf(url).value).Success?
  }

  /** The response, once `Fetched` holds. */
  function Response(url: Option<string>, fetch: string -> Result<ApiResponse, string>): ApiResponse
    requires Fetched(url, fetch)
  {
    fetch(ApiUrlOf(url).value).value
  }

  /** `fetch` answered 200 with a JSON object for the request's API URL. */
  predicate FetchedObject(url: Option<string>, fetch: string -> Result<ApiResponse, string>) {
    Fetched(url, fetch) && Response(url, fetch).status == 200 && Response(url, fetch).body.Object?
  }

  /** The API's fields, once `FetchedObject` holds. */
  function Fields(url: Option<string>, fetch: string -> Result<ApiResponse, string>): JsonObject
    requires FetchedObject(url, fetch)
  {
    Response(url, fetch).body.fields
  }

  /** `post`: `fetch` stands for the HTTP request (its failure carries the text of the
      network exception) and `isValid` for the create serializer's validation. A body
      that does not decode raises a `RequestException` subclass and is answered as a
      network error; a decoded value that is not an object fails on `get` and is
      answered as an internal error. */
  function Post(url: Option<string>, fetch: string -> Result<ApiResponse, string>,
                isValid: JsonObject -> bool): (r: PostOutcome)
    ensures ExtractId(url).Failure? ==> r == Rejected(400, UrlErrorMessage(ExtractId(url).error))
    ensures r.Created? ==>
      && ExtractId(url).Success?
      && var apiUrl := BuildApiUrl(ExtractId(url).value);
      && fetch(apiUrl).Success?
      && FetchApiData(fetch(apiUrl).value).Success?
      && r.data == CreateData(apiUrl, FetchApiData(fetch(apiUrl).value).value)
      && !EqualsZero(r.data["condominium_expenses"])
      && isValid(r.data)
    ensures ApiUrlOf(url).Some? && fetch(ApiUrlOf(url).value).Failure? ==>
      r == Rejected(400, "Network error: " + fetch(ApiUrlOf(url).value).error)
    ensures Fetched(url, fetch) && Response(url, fetch).status != 200 ==>
      r == Rejected(400, "Failed to fetch data from external API")
    ensures Fetched(url, fetch) && Response(url, fetch).status == 200 && Response(url, fetch).body.Undecodable? ==>
      r == Rejected(400, "Network error: " + Response(url, fetch).body.message)
    ensures (r.Rejected? && r.status == 500) <==>
      Fetched(url, fetch) && Response(url, fetch).status == 200 && Response(url, fetch).body.NonObject?
    ensures FetchedObject(url, fetch) && EqualsZero(GetField(Fields(url, fetch), "annualCondominiumFees")) ==>
      r == Rejected(400, "Condominium expenses cannot be zero")
    ensures FetchedObject(url, fetch) && !EqualsZero(GetField(Fields(url, fetch), "annualCondominiumFees")) ==>
      var d := CreateData(ApiUrlOf(url).value, Fields(url, fetch));
      r == if isValid(d) then Created(d) else Rejected(400, "Invalid data from API")
    ensures r.Rejected? ==> r.status == 400 || r.status == 500
  {
    match ExtractId(url)
    case Failure(e) => Rejected(400, UrlErrorMessage(e))
    case Success(id) =>
      var apiUrl := BuildApiUrl(id);
      match fetch(apiUrl)
      case Failure(message) => Rejected(400, "Network error: " + message)
      case Success(response) =>
        match FetchApiData(response)
        case Failure(FetchFailed) => Rejected(400, "Failed to fetch data from external API")
        case Failure(ZeroExpenses) => Rejected(400, "Condominium expenses cannot be zero")
        case Failure(DecodeError(message)) => Rejected(400, "Network error: " + message)
        case Failure(NoGet(typeName)) =>
          Rejected(500, "Internal error: '" + typeName + "' object has no attribute 'get'")
        case Success(data) =>
          var d := CreateData(apiUrl, data);
          if isValid(d) then Created(d) else Rejected(400, "Invalid data from API")
  }
}
