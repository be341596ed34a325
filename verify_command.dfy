/**
 * VerifyCommand.VerifyAsync: argument checks, the loop over the resolved
 * packages that writes diagnostics to the caller's buffer, the verdict flag,
 * and the catch-all that logs an exception and answers false.
 */
module VerifyCommands {
  import opened Wrappers
  import opened Logging
  import opened Diagnostics
  import opened Summary

  /** The caller's StringBuilder, seen as the lines AppendLine has written to it. */
  class StringBuilder {
    var lines: seq<string>

    constructor ()
      ensures lines == []
    {
      lines := [];
    }

    method AppendLine(line: string)
      modifies this
      ensures lines == old(lines) + [line]
    {
      lines := lines + [line];
    }
  }

  /** The ILogger, seen as the messages of the errors logged through it. */
  class Logger {
    var errors: seq<string>

    constructor ()
      ensures errors == []
    {
      errors := [];
    }

    method LogError(message: string)
      modifies this
      ensures errors == old(errors) + [message]
    {
      errors := errors + [message];
    }
  }

  /** Where inside the try block an exception is raised. */
  datatype FaultSite =
    | Resolve                        // resolving the path to packages
    | Open(index: nat)               // opening the archive of the package at index
    | VerifySignatures(index: nat)   // verifying the signatures of the package at index

  /** An exception raised inside the try block, with its message. */
  datatype Fault = Fault(site: FaultSite, message: string)

  /** How VerifyAsync ends: it returns a verdict, or throws ArgumentNullException for a parameter. */
  datatype Outcome = Returned(verified: bool) | ArgumentNull(paramName: string)

  /**
   * The number of packages fully processed before the exception fires, if it
   * fires: a fault at a package the loop never reaches does not fire.
   */
  function FaultPoint(count: nat, fault: Option<Fault>): (k: Option<nat>)
    ensures k.Some? ==> k.value <= count
  {
    match fault
    case None => None
    case Some(Fault(Resolve, _)) => Some(0)
    case Some(Fault(site, _)) => if site.index < count then Some(site.index) else None
  }

  class VerifyCommand {
    const logger: Logger

    constructor (logger: Logger)
      ensures this.logger == logger
    {
      this.logger := logger;
    }

    /**
     * Verifies the packages that `file` resolves to. The library's answers
     * are parameters: `packages` is what VerifySignaturesAsync returns for
     * each resolved package, in resolution order, and `fault` the exception,
     * if any, that resolution, opening or verification raises.
     */
    method VerifyAsync(file: Option<string>, buffer: StringBuilder?,
                       packages: seq<VerifySignaturesResult>, fault: Option<Fault>)
      returns (outcome: Outcome)
      modifies buffer, logger
      // argument checks: file first, then buffer, before anything is touched
      ensures file.None? ==> outcome == ArgumentNull("file")
      ensures file.Some? && buffer == null ==> outcome == ArgumentNull("buffer")
      ensures (file.None? || buffer == null) ==>
        unchanged(logger) && (buffer != null ==> unchanged(buffer))
      // valid arguments: the buffer only grows, by the lines of the packages
      // processed before any fault, and the verdict is the flag or false
      ensures buffer != null ==> old(buffer.lines) <= buffer.lines
      ensures file.Some? && buffer != null && FaultPoint(|packages|, fault).None? ==>
        && buffer.lines == old(buffer.lines) + BatchLines(packages)
        && outcome == Returned(LastVerdict(packages))
        && logger.errors == old(logger.errors)
      ensures file.Some? && buffer != null && FaultPoint(|packages|, fault).Some? ==>
        && buffer.lines == old(buffer.lines) + BatchLines(packages[..FaultPoint(|packages|, fault).value])
        && outcome == Returned(false)
        && logger.errors == old(logger.errors) + [fault.value.message]
    {
      if file.None? {
        return ArgumentNull("file");
      }
      if buffer == null {
        return ArgumentNull("buffer");
      }

      var allPackagesVerified := true;

      // the try block
      if fault.Some? && fault.value.site.Resolve? {
        logger.LogError(fault.value.message);
        return Returned(false);
      }

      for i := 0 to |packages|
        invariant buffer.lines == old(buffer.lines) + BatchLines(packages[..i])
        invariant allPackagesVerified == LastVerdict(packages[..i])
        invariant FaultPoint(|packages|, fault).None? || FaultPoint(|packages|, fault).value >= i
        invariant logger.errors == old(logger.errors)
      {
        if fault.Some? && fault.value.site.index == i {
          // the catch block
          logger.LogError(fault.value.message);
          return Returned(false);
        }
        var verificationResult := packages[i];
        if verificationResult.isValid {
          allPackagesVerified := true;
        } else {
          WriteDiagnostics(buffer, verificationResult);
          allPackagesVerified := false;
        }
        BatchLinesStep(packages, i);
        AppendAssoc(old(buffer.lines), BatchLines(packages[..i]), PackageLines(verificationResult));
      }
      assert packages[..|packages|] == packages;
      return Returned(allPackagesVerified);
    }

    /**
     * The body for an invalid package: every issue of every provider as one
     * line, then the summary line when some issue is at Warning or above.
     */
    method WriteDiagnostics(buffer: StringBuilder, verificationResult: VerifySignaturesResult)
      requires !verificationResult.isValid
      modifies buffer
      ensures buffer.lines == old(buffer.lines) + PackageLines(verificationResult)
    {
      var logMessages := Flatten(verificationResult.results);
      for j := 0 to |logMessages|
        invariant buffer.lines == old(buffer.lines) + Texts(logMessages[..j])
      {
        buffer.AppendLine(logMessages[j].message);
        assert logMessages[..j + 1] == logMessages[..j] + [logMessages[j]];
      }
      assert logMessages[..|logMessages|] == logMessages;
      if AnyAtLeast(logMessages, Warning) {
        var errors := CountLevel(logMessages, Error);
        var warnings := CountLevel(logMessages, Warning);
        buffer.AppendLine(SummaryLine(errors, warnings));
      }
    }
  }
}
