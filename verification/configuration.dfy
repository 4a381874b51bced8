/** The configuration reader of src/configurationManager.ts over an abstract
    settings store (the extension's `org`, `project` and `cacheTimeout`
    settings) and an abstract secret store (a string map). */
module Configuration {
  import opened Results
  import opened Types
  import opened JsStrings
  import DevOpsClient

  /** The secret-store key under which the personal access token is kept. */
  const SecretKey: string := "azdo-libvar-search-replace.pat"

  const OrgMissingMessage: string :=
    "Azure DevOps organization is not configured. Please set it in settings."
  const ProjectMissingMessage: string :=
    "Azure DevOps project is not configured. Please set it in settings."
  const PatMissingMessage: string :=
    "Personal Access Token is not configured. Please run \"Configure Azure DevOps Credentials\" command."

  /** The extension's settings; `None` is an unset setting. */
  datatype Settings = Settings(org: Option<string>, project: Option<string>, cacheTimeout: Option<int>)

  /** The secret store. */
  type Secrets = map<string, string>

  /** Organization and project, for display. */
  datatype OrgAndProject = OrgAndProject(organization: string, project: string)

  /** `config.get<string>(name, '').trim()`: the setting's own text with the
      surrounding white space cut; blank exactly when the setting is unset or
      all white space, and never padded with white space. */
  function TrimmedSetting(setting: Option<string>): (value: string)
    ensures setting.None? ==> value == ""
    ensures setting.Some? ==>
              (exists i :: 0 <= i <= |setting.value| - |value|
                 && value == setting.value[i..i + |value|]
                 && AllWhiteSpace(setting.value[..i]) && AllWhiteSpace(setting.value[i + |value|..]))
    ensures value == "" <==> setting.None? || AllWhiteSpace(setting.value)
    ensures value != "" ==> !IsWhiteSpace(value[0]) && !IsWhiteSpace(value[|value| - 1])
  {
    Trim(setting.GetOr(""))
  }

  /** The `org` setting, trimmed. */
  function Organization(s: Settings): string {
    TrimmedSetting(s.org)
  }

  /** The `project` setting, trimmed. */
  function Project(s: Settings): string {
    TrimmedSetting(s.project)
  }

  /** `getConfig()`: organization, then project, then token are checked in
      that order; a missing or empty token fails, a blank one does not. */
  function GetConfig(s: Settings, secrets: Secrets): (r: Result<AzureDevOpsConfig, ConfigurationError>)
    ensures r.Ok? <==> Organization(s) != "" && Project(s) != "" && SecretKey in secrets && secrets[SecretKey] != ""
    ensures r.Ok? ==> r.value == AzureDevOpsConfig(Organization(s), Project(s), secrets[SecretKey])
    ensures Organization(s) == "" ==> r == Err(ConfigurationError(OrgMissingMessage))
    ensures Organization(s) != "" && Project(s) == "" ==> r == Err(ConfigurationError(ProjectMissingMessage))
    ensures Organization(s) != "" && Project(s) != "" && (SecretKey !in secrets || secrets[SecretKey] == "") ==>
              r == Err(ConfigurationError(PatMissingMessage))
  {
    var organization := Organization(s);
    var project := Project(s);
    var pat := if SecretKey in secrets then Some(secrets[SecretKey]) else None;
    if organization == "" then Err(ConfigurationError(OrgMissingMessage))
    else if project == "" then Err(ConfigurationError(ProjectMissingMessage))
    else if pat.None? || pat.value == "" then Err(ConfigurationError(PatMissingMessage))
    else Ok(AzureDevOpsConfig(organization, project, pat.value))
  }

  /** `isConfigured()`: whether `getConfig()` returns rather than throws. */
  function IsConfigured(s: Settings, secrets: Secrets): (b: bool)
    ensures b <==> Organization(s) != "" && Project(s) != "" && SecretKey in secrets && secrets[SecretKey] != ""
  {
    GetConfig(s, secrets).Ok?
  }

  /** `getCacheTimeout()`: the setting, or five minutes when unset. */
  function GetCacheTimeout(s: Settings): (t: int)
    ensures s.cacheTimeout.None? ==> t == DevOpsClient.DefaultCacheTimeout
    ensures s.cacheTimeout.Some? ==> t == s.cacheTimeout.value
  {
    s.cacheTimeout.GetOr(300000)
  }

  /** `storePAT(pat)`. */
  function StorePAT(secrets: Secrets, pat: string): (secrets': Secrets)
    ensures SecretKey in secrets' && secrets'[SecretKey] == pat
    ensures forall k :: k != SecretKey ==>
              (k in secrets' <==> k in secrets) && (k in secrets ==> secrets'[k] == secrets[k])
  {
    secrets[SecretKey := pat]
  }

  /** `deletePAT()`. */
  function DeletePAT(secrets: Secrets): (secrets': Secrets)
    ensures SecretKey !in secrets'
    ensures forall k :: k != SecretKey ==>
              (k in secrets' <==> k in secrets) && (k in secrets ==> secrets'[k] == secrets[k])
  {
    secrets - {SecretKey}
  }

  /** `getOrgAndProject()`: both trimmed names, or `None` (`null`) if either is blank. */
  function GetOrgAndProject(s: Settings): (r: Option<OrgAndProject>)
    ensures r.None? <==> Organization(s) == "" || Project(s) == ""
    ensures r.Some? ==> r.value == OrgAndProject(Organization(s), Project(s))
  {
    var organization := Organization(s);
    var project := Project(s);
    if organization == "" || project == "" then None
    else Some(OrgAndProject(organization, project))
  }

  /** The input-box validators of the configuration prompt: an error message
      exactly when the input trims to nothing. */
  function ValidateRequired(value: string, message: string): (r: Option<string>)
    ensures r.None? <==> exists i :: 0 <= i < |value| && !IsWhiteSpace(value[i])
    ensures r.Some? ==> r.value == message
  {
    if Trim(value) != "" then None else Some(message)
  }
}
