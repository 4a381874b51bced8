/** Properties of the configuration reader: what a successful read promises,
    how it relates to the display pair, and the token store round trip. */
module ConfigurationProperties {
  import opened Results
  import opened Types
  import opened JsStrings
  import opened Configuration
  import DevOpsClient

  /** A successful read has non-blank organization and project with no
      surrounding white space, and a non-empty token exactly as stored. */
  lemma ConfigIsClean(s: Settings, secrets: Secrets)
    requires GetConfig(s, secrets).Ok?
    ensures var c := GetConfig(s, secrets).value;
      && c.organization != "" && !IsWhiteSpace(c.organization[0]) && !IsWhiteSpace(c.organization[|c.organization| - 1])
      && c.project != "" && !IsWhiteSpace(c.project[0]) && !IsWhiteSpace(c.project[|c.project| - 1])
      && c.pat != "" && c.pat == secrets[SecretKey]
  {
  }

  /** The token is not trimmed: a blank token is accepted verbatim. */
  lemma BlankTokenAccepted(s: Settings)
    requires Organization(s) != "" && Project(s) != ""
    ensures GetConfig(s, map[SecretKey := " "]) == Ok(AzureDevOpsConfig(Organization(s), Project(s), " "))
  {
  }

  /** The display pair is present exactly when both names are, and then it is
      the pair a successful read returns; it does not depend on the token. */
  lemma OrgAndProjectAgreesWithConfig(s: Settings, secrets: Secrets)
    ensures GetOrgAndProject(s).None? ==> GetConfig(s, secrets).Err?
    ensures GetConfig(s, secrets).Ok? ==>
      GetOrgAndProject(s) == Some(OrgAndProject(GetConfig(s, secrets).value.organization,
                                                GetConfig(s, secrets).value.project))
    ensures GetOrgAndProject(s).Some? && GetConfig(s, secrets).Err? ==>
      GetConfig(s, secrets) == Err(ConfigurationError(PatMissingMessage))
  {
  }

  /** Storing a token and reading the configuration yields that token, unless
      it is empty, which reads as missing. */
  lemma StoreThenRead(s: Settings, secrets: Secrets, pat: string)
    requires Organization(s) != "" && Project(s) != ""
    ensures GetConfig(s, StorePAT(secrets, pat)) ==
      if pat == "" then Err(ConfigurationError(PatMissingMessage))
      else Ok(AzureDevOpsConfig(Organization(s), Project(s), pat))
  {
  }

  /** Deleting the token makes the next read fail, on the token when
      organization and project are set. */
  lemma DeleteThenRead(s: Settings, secrets: Secrets)
    ensures GetConfig(s, DeletePAT(secrets)).Err?
    ensures !IsConfigured(s, DeletePAT(secrets))
    ensures Organization(s) != "" && Project(s) != "" ==>
      GetConfig(s, DeletePAT(secrets)) == Err(ConfigurationError(PatMissingMessage))
  {
  }

  /** A successful read returns the `org` and `project` settings themselves,
      each with only its surrounding white space cut. */
  lemma ConfigComesFromSettings(s: Settings, secrets: Secrets)
    ensures GetConfig(s, secrets).Ok? ==> var c := GetConfig(s, secrets).value;
      && s.org.Some? && s.project.Some?
      && (exists i :: 0 <= i <= |s.org.value| - |c.organization|
            && c.organization == s.org.value[i..i + |c.organization|]
            && AllWhiteSpace(s.org.value[..i]) && AllWhiteSpace(s.org.value[i + |c.organization|..]))
      && (exists i :: 0 <= i <= |s.project.value| - |c.project|
            && c.project == s.project.value[i..i + |c.project|]
            && AllWhiteSpace(s.project.value[..i]) && AllWhiteSpace(s.project.value[i + |c.project|..]))
  {
  }

  /** Surrounding white space in the settings does not change the read. */
  lemma SettingsAreTrimmed(org: string, project: string, t: Option<int>, secrets: Secrets)
    ensures GetConfig(Settings(Some(org), Some(project), t), secrets)
         == GetConfig(Settings(Some(Trim(org)), Some(Trim(project)), t), secrets)
  {
    TrimIdempotent(org);
    TrimIdempotent(project);
  }

  /** The configured default matches the client's own default. */
  lemma CacheTimeoutDefaultsAgree(s: Settings)
    requires s.cacheTimeout.None?
    ensures DevOpsClient.NewClient(Some(GetCacheTimeout(s))) == DevOpsClient.NewClient(None)
  {
  }
}
