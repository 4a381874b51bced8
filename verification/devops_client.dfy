/** The cached variable-library fetch of src/azureDevOpsClient.ts. The clock
    (`Date.now()`) and the network (`fetch` and the reads of its response) are
    parameters: `now` is the time of the cache check, `storedAt` the time read
    again when the cache is written, and `outcome` what the request produced. */
module DevOpsClient {
  import opened Results
  import opened Types
  import opened JsStrings

  /** Default time-to-live of a cache entry, in milliseconds. */
  const DefaultCacheTimeout: int := 300000

  /** A cached response and the time it was stored. */
  datatype CacheEntry = CacheEntry(data: seq<VariableLibrary>, timestamp: int)

  /** The client's state: the cache and its time-to-live. */
  datatype Client = Client(cache: map<string, CacheEntry>, cacheTimeout: int)

  /** A thrown value, as the catch block distinguishes it. */
  datatype Exception =
    | ApiException(error: ApiError)     // an `ApiError`
    | TypeErrorException(message: string) // a `TypeError` (what a failed `fetch` throws)
    | ErrorException(message: string)     // any other `Error`
    | NonErrorException                   // a thrown value that is not an `Error`

  /** What `response.json()` yields, as far as the client inspects it. */
  datatype Body =
    | Libraries(libs: seq<VariableLibrary>) // `value` is an array
    | MissingValue                          // `value` is absent or falsy
    | NonArrayValue                         // `value` is truthy but not an array
    | Unreadable(thrown: Exception)         // reading or parsing the body throws

  /** A response: status line, what `response.text()` yields (`None` when it
      rejects), and the parsed body. */
  datatype Response = Response(status: int, statusText: string, text: Option<string>, body: Body)

  /** The result of `await fetch(...)`: a response, or a rejection. */
  datatype FetchOutcome = Responded(response: Response) | Rejected(thrown: Exception)

  /** The client state after a call together with what the call returned or threw. */
  datatype Fetched = Fetched(client: Client, result: Result<seq<VariableLibrary>, ApiError>)

  /** `new AzureDevOpsClient(cacheTimeout)`, with the parameter's default. */
  function NewClient(cacheTimeout: Option<int>): (c: Client)
    ensures c.cache == map[]
    ensures c.cacheTimeout == cacheTimeout.GetOr(DefaultCacheTimeout)
  {
    Client(map[], cacheTimeout.GetOr(DefaultCacheTimeout))
  }

  /** The cache key of an organization/project pair. */
  function CacheKey(organization: string, project: string): string {
    organization + "/" + project
  }

  /** What the request URL puts before and after `organization/project`. */
  const UrlPrefix: string := "https://dev.azure.com/"
  const UrlSuffix: string := "/_apis/distributedtask/variablegroups?api-version=7.0"

  /** The request URL of the variable-group listing. */
  function RequestUrl(config: AzureDevOpsConfig): string {
    UrlPrefix + config.organization + "/" + config.project + UrlSuffix
  }

  /** The cache holds an entry for `key` younger than the time-to-live at `now`. */
  predicate IsFresh(c: Client, key: string, now: int) {
    key in c.cache && now - c.cache[key].timestamp < c.cacheTimeout
  }

  /** `response.ok`. */
  predicate IsOk(status: int) {
    200 <= status <= 299
  }

  const AuthFailedMessage: string := "Authentication failed. Please check your Personal Access Token."
  const NotFoundMessage: string := "Organization or project not found. Please check your configuration."
  const AccessDeniedMessage: string := "Access denied. Ensure your PAT has \"Variable Groups (Read)\" permissions."
  const InvalidFormatMessage: string := "Invalid response format from Azure DevOps API"
  const NetworkMessage: string := "Network error: Unable to connect to Azure DevOps. Please check your internet connection."

  /** The error for a response that is not ok. */
  function StatusError(r: Response): (e: ApiError)
    requires !IsOk(r.status)
    ensures e.statusCode == Some(r.status)
    ensures r.status == 401 ==> e.message == AuthFailedMessage
    ensures r.status == 404 ==> e.message == NotFoundMessage
    ensures r.status == 403 ==> e.message == AccessDeniedMessage
    ensures r.status != 401 && r.status != 403 && r.status != 404 ==>
              e.message == GenericStatusMessage(r)
  {
    if r.status == 401 then ApiError(AuthFailedMessage, Some(401))
    else if r.status == 404 then ApiError(NotFoundMessage, Some(404))
    else if r.status == 403 then ApiError(AccessDeniedMessage, Some(403))
    else ApiError(GenericStatusMessage(r), Some(r.status))
  }

  /** The message for any other failing status: status, status text, and the
      response text or `Unknown error` when reading it rejects. */
  function GenericStatusMessage(r: Response): string {
    "Failed to fetch variable libraries: " + IntToString(r.status) + " " + r.statusText
      + ". " + r.text.GetOr("Unknown error")
  }

  /** The body of the `try` block after the request: what it returns or throws. */
  function Attempt(outcome: FetchOutcome): (r: Result<seq<VariableLibrary>, Exception>)
    ensures r.Ok? <==> outcome.Responded? && IsOk(outcome.response.status)
                       && outcome.response.body.Libraries?
    ensures r.Ok? ==> r.value == outcome.response.body.libs
    ensures outcome.Rejected? ==> r == Err(outcome.thrown)
    ensures outcome.Responded? && !IsOk(outcome.response.status) ==>
              r == Err(ApiException(StatusError(outcome.response)))
    ensures outcome.Responded? && IsOk(outcome.response.status)
            && (outcome.response.body.MissingValue? || outcome.response.body.NonArrayValue?) ==>
              r == Err(ApiException(ApiError(InvalidFormatMessage, None)))
    ensures outcome.Responded? && IsOk(outcome.response.status) && outcome.response.body.Unreadable? ==>
              r == Err(outcome.response.body.thrown)
  {
    match outcome
    case Rejected(e) => Err(e)
    case Responded(r) =>
      if !IsOk(r.status) then Err(ApiException(StatusError(r)))
      else match r.body
        case Libraries(libs) => Ok(libs)
        case MissingValue => Err(ApiException(ApiError(InvalidFormatMessage, None)))
        case NonArrayValue => Err(ApiException(ApiError(InvalidFormatMessage, None)))
        case Unreadable(e) => Err(e)
  }

  /** The `catch` block: what the caller finally sees for a thrown value. */
  function Classify(e: Exception): (err: ApiError)
    ensures e.ApiException? ==> err == e.error
    ensures e.TypeErrorException? && Includes(e.message, "fetch") ==> err == ApiError(NetworkMessage, None)
    ensures !e.ApiException? ==> err.statusCode.None?
  {
    match e
    case ApiException(a) => a
    case TypeErrorException(m) =>
      if Includes(m, "fetch") then ApiError(NetworkMessage, None) else UnexpectedError(m)
    case ErrorException(m) => UnexpectedError(m)
    case NonErrorException => UnexpectedError("Unknown error")
  }

  function UnexpectedError(message: string): ApiError {
    ApiError("Unexpected error while fetching variable libraries: " + message, None)
  }

  /** `getVariableLibraries(config)`. */
  function GetVariableLibraries(c: Client, config: AzureDevOpsConfig, now: int,
                                outcome: FetchOutcome, storedAt: int): (f: Fetched)
    ensures f.client.cacheTimeout == c.cacheTimeout
    ensures f.client.cache == c.cache || f.result.Ok?
  {
    var key := CacheKey(config.organization, config.project);
    if IsFresh(c, key, now) then Fetched(c, Ok(c.cache[key].data))
    else match Attempt(outcome)
      case Ok(libs) => Fetched(c.(cache := c.cache[key := CacheEntry(libs, storedAt)]), Ok(libs))
      case Err(e) => Fetched(c, Err(Classify(e)))
  }

  /** `clearCache()`. */
  function ClearCache(c: Client): (c': Client)
    ensures c'.cache == map[] && c'.cacheTimeout == c.cacheTimeout
  {
    c.(cache := map[])
  }

  /** `clearCacheForProject(organization, project)`. */
  function ClearCacheForProject(c: Client, organization: string, project: string): (c': Client)
    ensures c'.cacheTimeout == c.cacheTimeout
    ensures CacheKey(organization, project) !in c'.cache
    ensures forall k :: k != CacheKey(organization, project) ==>
              (k in c'.cache <==> k in c.cache) && (k in c.cache ==> c'.cache[k] == c.cache[k])
  {
    c.(cache := c.cache - {CacheKey(organization, project)})
  }
}
