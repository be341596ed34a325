# VerifyCommand.VerifyAsync — a Dafny model

NuGetKeyVaultSignTool's `VerifyCommand.VerifyAsync` checks the signatures of the
NuGet packages that a path resolves to. It writes diagnostics to a caller-supplied
`StringBuilder` and returns one boolean. The NuGet library resolves the path, opens
each archive and checks signatures. This model takes what the library answers as
input and models the method's own logic:

- the argument checks: `file` first, then `buffer`;
- the loop over the resolved packages, in order;
- for an invalid package, every issue message on its own line, in provider order;
- one `Finished with E errors and W warnings.` line when some issue is at Warning or above;
- the verdict flag;
- the catch-all that logs the exception and returns `false`.

Modules:

- `Logging` (logging.dfy): `LogLevel` is int-backed, like the C# enum
  `NuGet.Common.LogLevel`. It has the named levels Debug to Error. The file also
  holds the issue, provider-result and package-result values.
- `Decimal` (decimal.dfy): decimal rendering of a count, and its inverse.
- `Summary` (summary.dfy): the summary line, and a reader that recovers both counts from it.
- `Diagnostics` (diagnostics.dfy): functions for what the loop computes and writes:
  - the flattened messages (`Flatten`);
  - the `Any` test and the `Where(...).Count()` counts;
  - the lines of one package (`PackageLines`) and of a run (`BatchLines`);
  - the verdict flag (`LastVerdict`).

  The lemmas about them are in the same file.
- `VerifyCommands` (verify_command.dfy): `StringBuilder` and `Logger` as classes
  whose state is the lines appended or the errors logged. `VerifyCommand` holds
  `VerifyAsync`, a method with the source's two nested loops, proved against the
  `Diagnostics` functions.

Exceptions inside the `try` block are an optional `Fault`. It names where the
exception is raised (resolution, opening package k, or verifying package k) and
carries its message. A fault at a package the loop never reaches does not fire.

The verdict follows the code. On a valid package the flag is set back to `true`
(VerifyCommand.cs:63), so the method returns the validity of the last package
(`true` for no packages). It does not return "every package valid". Under that
reading a valid package would leave the flag alone. The difference is recorded under "## Findings".

## Model

| member | source | states |
|---|---|---|
| `VerifyCommands.VerifyCommand.VerifyAsync` | NuGetKeyVaultSignTool.Core/VerifyCommand.cs:29-92 | A missing `file` throws ArgumentNull("file"), checked first; then a missing `buffer` throws ArgumentNull("buffer"). In both cases neither buffer nor logger changes. Otherwise the buffer's old lines are a prefix of its new lines. Without a fault, the buffer gains exactly `BatchLines(packages)`, the result is `LastVerdict(packages)` and nothing is logged. With a fault after k packages, the buffer gains exactly the lines of the first k packages, the result is `false` and the exception message is logged once. |
| `VerifyCommands.VerifyCommand.WriteDiagnostics` | NuGetKeyVaultSignTool.Core/VerifyCommand.cs:67-80 | For an invalid package, the buffer gains exactly `PackageLines` of that package, appended after its old lines. |
| `Diagnostics.FlattenAppend` | NuGetKeyVaultSignTool.Core/VerifyCommand.cs:67 | Flattening the provider results keeps their order: flattening a concatenation is the concatenation of the flattenings. |
| `Diagnostics.FlattenContains` | NuGetKeyVaultSignTool.Core/VerifyCommand.cs:67 | A message is in the flattened list if and only if some provider reported it. |
| `Diagnostics.Texts` | NuGetKeyVaultSignTool.Core/VerifyCommand.cs:68-71 | There is one line per message, and line i is message i's text verbatim. |
| `Diagnostics.AnyAtLeastExists` | NuGetKeyVaultSignTool.Core/VerifyCommand.cs:72 | The `Any(m => m.Level >= level)` test holds if and only if some message has a level at or above `level`. |
| `Diagnostics.AnyAtLeastCount` | NuGetKeyVaultSignTool.Core/VerifyCommand.cs:72 | The same test holds if and only if the count of messages at or above the level is positive. |
| `Diagnostics.CountsBounded` | NuGetKeyVaultSignTool.Core/VerifyCommand.cs:74-75 | A count of one exact level is at most the count at or above it, which is at most the number of messages. |
| `Diagnostics.CountAtLeastSplit` | NuGetKeyVaultSignTool.Core/VerifyCommand.cs:72-75 | The messages at or above a level are those exactly at it plus those above it. |
| `Diagnostics.ErrorsAndWarningsPartition` | NuGetKeyVaultSignTool.Core/VerifyCommand.cs:72-75 | The Error count and the Warning count are disjoint. Together with the messages above Error they are exactly the messages that trigger the summary line. |
| `Diagnostics.InvalidPackageLines` | NuGetKeyVaultSignTool.Core/VerifyCommand.cs:65-81 | For an invalid package, the lines are first every issue text in order. A summary line follows if and only if some issue is at Warning or above, and there is no other line. The summary line reads back as exactly (Error count, Warning count). |
| `Diagnostics.AboveErrorSummaryExample` | NuGetKeyVaultSignTool.Core/VerifyCommand.cs:72-77 | A single message at a level above Error gives its text and then `Finished with 0 errors and 0 warnings.`. |
| `Diagnostics.AboveErrorTriggersUncounted` | NuGetKeyVaultSignTool.Core/VerifyCommand.cs:72-77 | For every invalid package with some message above Error, the summary line is written, and the Error count plus the Warning count is strictly less than the number of messages at Warning or above. |
| `Diagnostics.BatchLinesAppend` | NuGetKeyVaultSignTool.Core/VerifyCommand.cs:56-83 | The lines of a run over `a + b` are the lines of `a` followed by the lines of `b`. |
| `Diagnostics.ValidPackageWritesNothing` | NuGetKeyVaultSignTool.Core/VerifyCommand.cs:61-64 | A valid package contributes no line wherever it stands in the run. |
| `Diagnostics.AllValidGivesLastVerdict` | NuGetKeyVaultSignTool.Core/VerifyCommand.cs:49-63 | If every package is valid, the flag ends `true`. |
| `Diagnostics.LaterSuccessOverwritesFailure` | NuGetKeyVaultSignTool.Core/VerifyCommand.cs:61-63 | For an invalid package followed by a valid one, the flag ends `true`, although not all packages are valid. |
| `Diagnostics.ConjoinedVerdictIsAllValid` | NuGetKeyVaultSignTool.Core/VerifyCommand.cs:49-81 | With the update `flag := flag && isValid`, the flag ends `true` if and only if every package is valid. |
| `Decimal.NatToString` | NuGetKeyVaultSignTool.Core/VerifyCommand.cs:77 | A rendered count is a canonical numeral: non-empty, digits only, and no leading zero. It has one digit exactly when the count is below 10. |
| `Decimal.ParseNatToString` | NuGetKeyVaultSignTool.Core/VerifyCommand.cs:77 | Reading a rendered count back gives the count. |
| `Decimal.NatToStringParse` | NuGetKeyVaultSignTool.Core/VerifyCommand.cs:77 | Every canonical numeral is the rendering of the value it denotes. |
| `Decimal.NatToStringInjective` | NuGetKeyVaultSignTool.Core/VerifyCommand.cs:77 | Different counts render differently. |
| `Summary.ParseSummaryLine` | NuGetKeyVaultSignTool.Core/VerifyCommand.cs:77 | The summary line reads back as exactly the error and warning counts it was built from. |
| `Summary.SummaryLineInjective` | NuGetKeyVaultSignTool.Core/VerifyCommand.cs:77 | Different pairs of counts never give the same summary line. |
| `Summary.SummaryLineExample` | NuGetKeyVaultSignTool.Core/VerifyCommand.cs:77 | Two errors and one warning give `Finished with 2 errors and 1 warnings.`. |

## Left out

- The construction of the provider chain and of `PackageSignatureVerifier`, and the verify-command default policy (VerifyCommand.cs:42-47, 59). These are NuGet library objects. Each package's `VerifySignaturesAsync` result is an input.
- `LocalFolderUtility.ResolvePackageFromPath` (VerifyCommand.cs:54). The resolved package sequence is an input, and a resolution failure is the `Resolve` fault.
- Opening and disposing `PackageArchiveReader` (VerifyCommand.cs:58). A failure while opening is the `Open` fault. An exception from `Dispose`, after a package's lines are written, is not modelled.
- `AsRestoreLogMessage` (VerifyCommand.cs:67). Issues are given directly as (level, text) messages.
- `async`/`await` and `CancellationToken.None`. Processing is sequential, so the model is synchronous.
- `ILogger.LogError` formatting and the exception object (VerifyCommand.cs:87). The logger records only the exception's message, once per call.
- The `StringBuilder` is modelled as a sequence of appended lines, not as characters with line terminators. Exceptions from `AppendLine` itself (exceeding the builder's capacity) are not modelled.
- The local `result` (VerifyCommand.cs:53, 79). It is assigned the error count but never read, so it is omitted. `VerifyAsync`'s contract fixes the buffer, the logger and the return value without it.
- Exceptions from `AsRestoreLogMessage` or `ToList()` (VerifyCommand.cs:67) come before any line of that package is written, so the `VerifySignatures` fault at that package's index covers them. An exception raised after the last package's lines are written is not modelled: this covers the `foreach` at line 56 asking for a next package, and disposing the last archive.
- At most one fault per call is modelled. The first exception leaves the `try` block, so no later one inside it can happen.
- `VerifyCommands.VerifyCommand.VerifyAsync`: the logger is assumed non-null and `LogError` is assumed not to throw. The constructor (VerifyCommand.cs:24-27) accepts a null `ILogger`, and `LogError` is an extension method that throws `ArgumentNullException` on a null logger. With a null or throwing logger, an exception escapes the `catch` block at line 87, and `VerifyAsync` faults instead of returning `false`. The model does not capture that outcome.

## Findings

| source | as written | input that shows it | evidently intended | confidence | as-written member | corrected member |
|---|---|---|---|---|---|---|
| NuGetKeyVaultSignTool.Core/VerifyCommand.cs:63 | a valid package sets `allPackagesVerified = true`, so a later valid package erases an earlier failure | an invalid package followed by a valid one: the call returns `true` | `allPackagesVerified` stays `false` once any package fails, i.e. true exactly when every package is valid | high; not executed | `Diagnostics.LaterSuccessOverwritesFailure` | `Diagnostics.ConjoinedVerdictIsAllValid` |

`VerifyAsync` keeps the flag as the code has it (`LastVerdict`), because it models the method as written. `ConjoinedVerdict` is the corrected flag, and `ConjoinedVerdictIsAllValid` proves it means "all packages valid".
