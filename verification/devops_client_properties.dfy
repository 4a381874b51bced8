/** Properties of the cached fetch: when the cache answers, what a response
    becomes, that only success writes the cache, and how the clears behave. */
module DevOpsClientProperties {
  import opened Results
  import opened Types
  import opened JsStrings
  import opened DevOpsClient

  function KeyOf(config: AzureDevOpsConfig): string {
    CacheKey(config.organization, config.project)
  }

  /** A successful response carrying `libs`. */
  function OkResponse(libs: seq<VariableLibrary>): FetchOutcome {
    Responded(Response(200, "OK", None, Libraries(libs)))
  }

  /** The call makes no request (its result ignores the network outcome and
      the second clock reading) exactly when a fresh entry exists; a fresh
      entry is returned as is and the client is left unchanged. */
  lemma CacheHitIff(c: Client, config: AzureDevOpsConfig, now: int)
    ensures IsFresh(c, KeyOf(config), now) <==>
      forall o1, o2, s1, s2 :: GetVariableLibraries(c, config, now, o1, s1)
                              == GetVariableLibraries(c, config, now, o2, s2)
    ensures IsFresh(c, KeyOf(config), now) ==>
      forall o, s :: GetVariableLibraries(c, config, now, o, s)
                     == Fetched(c, Ok(c.cache[KeyOf(config)].data))
  {
    if !IsFresh(c, KeyOf(config), now) {
      var failed := GetVariableLibraries(c, config, now, Rejected(NonErrorException), 0);
      var succeeded := GetVariableLibraries(c, config, now, OkResponse([]), 0);
      assert failed.result.Err? && succeeded.result.Ok?;
    }
  }

  /** Freshness is strict: an entry exactly `cacheTimeout` old is refetched. */
  lemma ExpiryIsStrict(c: Client, key: string)
    requires key in c.cache
    ensures !IsFresh(c, key, c.cache[key].timestamp + c.cacheTimeout)
    ensures IsFresh(c, key, c.cache[key].timestamp + c.cacheTimeout - 1)
  {
  }

  /** On a miss, a successful response is returned and stored under the key
      with the second clock reading; every other entry is untouched. */
  lemma MissStoresSuccess(c: Client, config: AzureDevOpsConfig, now: int, r: Response, storedAt: int)
    requires !IsFresh(c, KeyOf(config), now)
    requires IsOk(r.status) && r.body.Libraries?
    ensures GetVariableLibraries(c, config, now, Responded(r), storedAt).result == Ok(r.body.libs)
    ensures GetVariableLibraries(c, config, now, Responded(r), storedAt).client.cache
            == c.cache[KeyOf(config) := CacheEntry(r.body.libs, storedAt)]
    ensures forall k :: k != KeyOf(config) ==>
      var c' := GetVariableLibraries(c, config, now, Responded(r), storedAt).client;
      (k in c'.cache <==> k in c.cache) && (k in c.cache ==> c'.cache[k] == c.cache[k])
  {
  }

  /** Every error leaves the client unchanged, and the cache changes only on a
      miss answered by a successful response. */
  lemma OnlySuccessWrites(c: Client, config: AzureDevOpsConfig, now: int, o: FetchOutcome, storedAt: int)
    ensures GetVariableLibraries(c, config, now, o, storedAt).result.Err? ==>
              GetVariableLibraries(c, config, now, o, storedAt).client == c
    ensures GetVariableLibraries(c, config, now, o, storedAt).client != c ==>
              && !IsFresh(c, KeyOf(config), now)
              && o.Responded? && IsOk(o.response.status) && o.response.body.Libraries?
  {
  }

  /** On a miss, status 401, 403 and 404 raise their own messages with that code;
      any other failing status raises an error carrying the status. */
  lemma StatusErrors(c: Client, config: AzureDevOpsConfig, now: int, r: Response, storedAt: int)
    requires !IsFresh(c, KeyOf(config), now) && !IsOk(r.status)
    ensures var f := GetVariableLibraries(c, config, now, Responded(r), storedAt);
      && f.client == c
      && f.result.Err?
      && f.result.error.statusCode == Some(r.status)
      && (r.status == 401 ==> f.result.error.message == AuthFailedMessage)
      && (r.status == 403 ==> f.result.error.message == AccessDeniedMessage)
      && (r.status == 404 ==> f.result.error.message == NotFoundMessage)
      && (r.status != 401 && r.status != 403 && r.status != 404 ==>
            f.result.error.message == "Failed to fetch variable libraries: " + IntToString(r.status)
                                      + " " + r.statusText + ". " + r.text.GetOr("Unknown error"))
  {
  }

  /** A failing status 500 with status text `ISE` and response text `x`. */
  lemma ExampleGenericStatus()
    ensures StatusError(Response(500, "ISE", Some("x"), MissingValue)).message
            == "Failed to fetch variable libraries: 500 ISE. x"
  {
    assert IntToString(500) == "500";
  }

  /** On a miss, a successful status whose body lacks an array `value` raises
      the invalid-format error without a status code. */
  lemma InvalidFormat(c: Client, config: AzureDevOpsConfig, now: int, r: Response, storedAt: int)
    requires !IsFresh(c, KeyOf(config), now) && IsOk(r.status)
    requires r.body.MissingValue? || r.body.NonArrayValue?
    ensures GetVariableLibraries(c, config, now, Responded(r), storedAt)
            == Fetched(c, Err(ApiError(InvalidFormatMessage, None)))
  {
  }

  /** On a miss, an ok response whose body cannot be read (`response.json()`
      rejects, say on malformed JSON) surfaces through the catch block like a
      rejected request; nothing is cached. */
  lemma BodyReadErrors(c: Client, config: AzureDevOpsConfig, now: int, r: Response, storedAt: int)
    requires !IsFresh(c, KeyOf(config), now) && IsOk(r.status) && r.body.Unreadable?
    ensures var f := GetVariableLibraries(c, config, now, Responded(r), storedAt);
      var e := r.body.thrown;
      && f.client == c
      && f.result.Err?
      && (e.ApiException? ==> f.result.error == e.error)
      && (e.TypeErrorException? && Includes(e.message, "fetch") ==> f.result.error == ApiError(NetworkMessage, None))
      && (e.TypeErrorException? && !Includes(e.message, "fetch") ==> f.result.error == UnexpectedError(e.message))
      && (e.ErrorException? ==> f.result.error == UnexpectedError(e.message))
      && (e.NonErrorException? ==> f.result.error == UnexpectedError("Unknown error"))
      && (!e.ApiException? ==> f.result.error.statusCode.None?)
  {
  }

  /** On a miss, a rejected request surfaces through the catch block: an
      `ApiError` unchanged, a `TypeError` mentioning "fetch" as the network
      error, anything else as an unexpected error; none carries a status
      unless it was an `ApiError` that did. */
  lemma RejectionErrors(c: Client, config: AzureDevOpsConfig, now: int, e: Exception, storedAt: int)
    requires !IsFresh(c, KeyOf(config), now)
    ensures var f := GetVariableLibraries(c, config, now, Rejected(e), storedAt);
      && f.client == c
      && (e.ApiException? ==> f.result == Err(e.error))
      && (e.TypeErrorException? && Includes(e.message, "fetch") ==> f.result == Err(ApiError(NetworkMessage, None)))
      && (e.TypeErrorException? && !Includes(e.message, "fetch") ==> f.result == Err(UnexpectedError(e.message)))
      && (e.ErrorException? ==> f.result == Err(UnexpectedError(e.message)))
      && (e.NonErrorException? ==> f.result == Err(UnexpectedError("Unknown error")))
  {
  }

  /** Two fetches for one organization/project: within the time-to-live the
      second is answered from the cache without a request; once it has elapsed
      the second fetch behaves as on an empty cache, i.e. issues a request. */
  lemma SecondFetch(c: Client, config: AzureDevOpsConfig, now1: int, libs: seq<VariableLibrary>,
                    storedAt: int, now2: int, o: FetchOutcome, storedAt2: int)
    requires !IsFresh(c, KeyOf(config), now1)
    ensures var c1 := GetVariableLibraries(c, config, now1, OkResponse(libs), storedAt).client;
      && (now2 - storedAt < c.cacheTimeout ==>
            GetVariableLibraries(c1, config, now2, o, storedAt2) == Fetched(c1, Ok(libs)))
      && (now2 - storedAt >= c.cacheTimeout ==>
            GetVariableLibraries(c1, config, now2, o, storedAt2).result
            == GetVariableLibraries(ClearCache(c1), config, now2, o, storedAt2).result)
  {
  }

  /** Clearing one project is a no-op when it has no entry, and idempotent. */
  lemma ClearForProjectIdempotent(c: Client, organization: string, project: string)
    ensures CacheKey(organization, project) !in c.cache ==> ClearCacheForProject(c, organization, project) == c
    ensures var c' := ClearCacheForProject(c, organization, project);
            ClearCacheForProject(c', organization, project) == c'
  {
    if CacheKey(organization, project) !in c.cache {
      assert c.cache - {CacheKey(organization, project)} == c.cache;
    }
    var c' := ClearCacheForProject(c, organization, project);
    assert c'.cache - {CacheKey(organization, project)} == c'.cache;
  }

  /** After a project's entry is cleared, or the whole cache, the next fetch
      for it makes a request. */
  lemma ClearedMeansMiss(c: Client, config: AzureDevOpsConfig, now: int)
    ensures !IsFresh(ClearCacheForProject(c, config.organization, config.project), KeyOf(config), now)
    ensures !IsFresh(ClearCache(c), KeyOf(config), now)
  {
  }

  /** The fetch and the per-project clear compute the same key, so a clear
      removes exactly the entry the fetch wrote. */
  lemma ClearUndoesStore(c: Client, config: AzureDevOpsConfig, now: int, libs: seq<VariableLibrary>, storedAt: int)
    requires !IsFresh(c, KeyOf(config), now) && KeyOf(config) !in c.cache
    ensures var c1 := GetVariableLibraries(c, config, now, OkResponse(libs), storedAt).client;
            ClearCacheForProject(c1, config.organization, config.project) == c
  {
    var c1 := GetVariableLibraries(c, config, now, OkResponse(libs), storedAt).client;
    assert c1.cache - {KeyOf(config)} == c.cache;
  }

  /** The key identifies the pair when the organization holds no `/`. */
  lemma {:induction false} CacheKeyInjective(o1: string, p1: string, o2: string, p2: string)
    requires '/' !in o1 && '/' !in o2
    ensures CacheKey(o1, p1) == CacheKey(o2, p2) <==> o1 == o2 && p1 == p2
  {
    if CacheKey(o1, p1) == CacheKey(o2, p2) {
      var k := CacheKey(o1, p1);
      SlashPosition(o1, p1);
      SlashPosition(o2, p2);
      assert o1 == k[..|o1|] == o2;
      assert p1 == k[|o1| + 1..] == p2;
    }
  }

  /** In `o + "/" + p` with no `/` in `o`, the first `/` sits at `|o|`. */
  lemma SlashPosition(o: string, p: string)
    requires '/' !in o
    ensures var k := CacheKey(o, p);
      k[|o|] == '/' && (forall i :: 0 <= i < |o| ==> k[i] != '/')
      && k[..|o|] == o && k[|o| + 1..] == p
  {
    var k := CacheKey(o, p);
    forall i | 0 <= i < |o| ensures k[i] != '/' {
      assert k[i] == o[i];
    }
  }

  /** The request URL names the pair: with no `/` in the organizations, two
      configurations request the same URL exactly when they name the same
      organization and project. */
  lemma RequestUrlIdentifiesPair(c1: AzureDevOpsConfig, c2: AzureDevOpsConfig)
    requires '/' !in c1.organization && '/' !in c2.organization
    ensures RequestUrl(c1) == RequestUrl(c2) <==>
              c1.organization == c2.organization && c1.project == c2.project
  {
    var k1, k2 := KeyOf(c1), KeyOf(c2);
    assert RequestUrl(c1) == UrlPrefix + k1 + UrlSuffix;
    assert RequestUrl(c2) == UrlPrefix + k2 + UrlSuffix;
    if RequestUrl(c1) == RequestUrl(c2) {
      UrlKey(k1);
      UrlKey(k2);
    }
    CacheKeyInjective(c1.organization, c1.project, c2.organization, c2.project);
  }

  /** The key is recovered from the URL by cutting the fixed prefix and suffix. */
  lemma UrlKey(k: string)
    ensures var u := UrlPrefix + k + UrlSuffix;
      k == u[|UrlPrefix|..|u| - |UrlSuffix|]
  {
  }

  /** Without that restriction two pairs share a key. */
  lemma CacheKeyCollision()
    ensures CacheKey("a/b", "c") == CacheKey("a", "b/c")
  {
  }

  /** A new client without an explicit timeout uses five minutes. */
  lemma DefaultTimeout()
    ensures NewClient(None).cacheTimeout == 300000
  {
  }
}
