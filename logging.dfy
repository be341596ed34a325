/**
 * The values the verification loop consumes from the NuGet library: the log
 * levels of NuGet.Common, the messages the signature providers report and the
 * result of verifying one package.
 */
module Logging {

  /**
   * NuGet.Common.LogLevel is an int-backed enum and the loop compares levels
   * with `>=` and `==` on the underlying value, so any int may be a level;
   * the named members are the constants below.
   */
  newtype LogLevel = int

  const Debug: LogLevel := 0
  const Verbose: LogLevel := 1
  const Information: LogLevel := 2
  const Minimal: LogLevel := 3
  const Warning: LogLevel := 4
  const Error: LogLevel := 5

  /** One issue reported by a provider, already mapped to a log message (level and text). */
  datatype LogMessage = LogMessage(level: LogLevel, message: string)

  /** The result of one verification provider: its issues, in the order reported. */
  datatype ProviderResult = ProviderResult(issues: seq<LogMessage>)

  /** What VerifySignaturesAsync returns for one package. */
  datatype VerifySignaturesResult = VerifySignaturesResult(isValid: bool, results: seq<ProviderResult>)
}
