/** The records and error classes shared by the extension (src/types.ts). */
module Types {
  import opened Results

  /** One entry of a variable library: its value and two flags the server reports. */
  datatype VariableValue = VariableValue(value: string, isSecret: bool, allowOverride: bool)

  /** A server-hosted variable library (an Azure DevOps variable group). */
  datatype VariableLibrary = VariableLibrary(id: int, name: string, variables: map<string, VariableValue>)

  /** An entry of the library picker; `caption` is the source's `label` (a Dafny keyword). */
  datatype QuickPickOption = QuickPickOption(id: string, caption: string, description: Option<string>)

  /** A complete, validated connection configuration. */
  datatype AzureDevOpsConfig = AzureDevOpsConfig(organization: string, project: string, pat: string)

  /** Variable name to the text that replaces its token. */
  type ReplacementMap = map<string, string>

  /** Raised when organization, project or personal access token is missing. */
  datatype ConfigurationError = ConfigurationError(message: string)

  /** Raised when the remote call fails; carries the HTTP status when one is known. */
  datatype ApiError = ApiError(message: string, statusCode: Option<int>)
}
