/**
 * What one pass of the verification loop writes and decides, as functions of
 * the library's results: the flattened issue list, the level counts, the lines
 * each package contributes to the buffer and the verdict flag.
 */
module Diagnostics {
  import opened Logging
  import opened Wrappers
  import opened Summary

  // ---------------------------------------------------------------------
  // Flattening the providers' issues (SelectMany over Results, then Issues)

  function Flatten(results: seq<ProviderResult>): seq<LogMessage> {
    if results == [] then [] else results[0].issues + Flatten(results[1..])
  }

  /** Flattening distributes over concatenation of provider results. */
  lemma {:induction false} FlattenAppend(a: seq<ProviderResult>, b: seq<ProviderResult>)
    ensures Flatten(a + b) == Flatten(a) + Flatten(b)
  {
    if a != [] {
      assert (a + b)[1..] == a[1..] + b;
      FlattenAppend(a[1..], b);
    } else {
      assert a + b == b;
    }
  }

  /** Every issue of every provider appears in the flattened list, and nothing else does. */
  lemma {:induction false} FlattenContains(results: seq<ProviderResult>, m: LogMessage)
    ensures m in Flatten(results) <==> exists i :: 0 <= i < |results| && m in results[i].issues
  {
    if results != [] {
      FlattenContains(results[1..], m);
      if m in Flatten(results[1..]) {
        var i :| 0 <= i < |results[1..]| && m in results[1..][i].issues;
        assert m in results[i + 1].issues;
      }
      if exists i :: 0 <= i < |results| && m in results[i].issues {
        var i :| 0 <= i < |results| && m in results[i].issues;
        if i > 0 {
          assert m in results[1..][i - 1].issues;
        }
      }
    }
  }

  /** The texts of the messages, one line per message, in order. */
  function Texts(msgs: seq<LogMessage>): (lines: seq<string>)
    ensures |lines| == |msgs|
    ensures forall i :: 0 <= i < |msgs| ==> lines[i] == msgs[i].message
  {
    if msgs == [] then [] else [msgs[0].message] + Texts(msgs[1..])
  }

  // ---------------------------------------------------------------------
  // Level tests and counts (Any, Where(...).Count())

  /** Whether some message has a level of at least `level`. */
  function AnyAtLeast(msgs: seq<LogMessage>, level: LogLevel): bool {
    msgs != [] && (msgs[0].level >= level || AnyAtLeast(msgs[1..], level))
  }

  /** The number of messages whose level is exactly `level`. */
  function CountLevel(msgs: seq<LogMessage>, level: LogLevel): nat {
    if msgs == [] then 0
    else (if msgs[0].level == level then 1 else 0) + CountLevel(msgs[1..], level)
  }

  /** The number of messages whose level is at least `level`. */
  function CountAtLeast(msgs: seq<LogMessage>, level: LogLevel): nat {
    if msgs == [] then 0
    else (if msgs[0].level >= level then 1 else 0) + CountAtLeast(msgs[1..], level)
  }

  /** The Any test holds exactly when some message reaches the level. */
  lemma {:induction false} AnyAtLeastExists(msgs: seq<LogMessage>, level: LogLevel)
    ensures AnyAtLeast(msgs, level) <==> exists i :: 0 <= i < |msgs| && msgs[i].level >= level
  {
    if msgs != [] {
      AnyAtLeastExists(msgs[1..], level);
      if exists i :: 0 <= i < |msgs| && msgs[i].level >= level {
        var i :| 0 <= i < |msgs| && msgs[i].level >= level;
        if i > 0 { assert msgs[1..][i - 1].level >= level; }
      }
      if exists i :: 0 <= i < |msgs[1..]| && msgs[1..][i].level >= level {
        var i :| 0 <= i < |msgs[1..]| && msgs[1..][i].level >= level;
        assert msgs[i + 1].level >= level;
      }
    }
  }

  /** The Any test holds exactly when the at-least count is positive. */
  lemma {:induction false} AnyAtLeastCount(msgs: seq<LogMessage>, level: LogLevel)
    ensures AnyAtLeast(msgs, level) <==> CountAtLeast(msgs, level) > 0
  {
    if msgs != [] {
      AnyAtLeastCount(msgs[1..], level);
    }
  }

  /** A count never exceeds the number of messages counted. */
  lemma {:induction false} CountsBounded(msgs: seq<LogMessage>, level: LogLevel)
    ensures CountLevel(msgs, level) <= CountAtLeast(msgs, level) <= |msgs|
  {
    if msgs != [] {
      CountsBounded(msgs[1..], level);
    }
  }

  /** Messages at or above a level split into those exactly at it and those above it. */
  lemma {:induction false} CountAtLeastSplit(msgs: seq<LogMessage>, level: LogLevel)
    ensures CountAtLeast(msgs, level) == CountLevel(msgs, level) + CountAtLeast(msgs, level + 1)
  {
    if msgs != [] {
      CountAtLeastSplit(msgs[1..], level);
    }
  }

  /**
   * The error and warning counts are disjoint; together with the messages above
   * Error they are exactly the messages that trigger the summary line.
   */
  lemma {:induction false} ErrorsAndWarningsPartition(msgs: seq<LogMessage>)
    ensures CountLevel(msgs, Error) + CountLevel(msgs, Warning) + CountAtLeast(msgs, Error + 1)
            == CountAtLeast(msgs, Warning)
  {
    CountAtLeastSplit(msgs, Warning);
    CountAtLeastSplit(msgs, Error);
  }

  // ---------------------------------------------------------------------
  // The lines one package contributes to the buffer

  /** The summary line, present when some message is at Warning or above. */
  function SummaryLines(msgs: seq<LogMessage>): seq<string> {
    if AnyAtLeast(msgs, Warning)
    then [SummaryLine(CountLevel(msgs, Error), CountLevel(msgs, Warning))]
    else []
  }

  /** A valid package adds nothing; an invalid one adds its issue texts, then the summary. */
  function PackageLines(r: VerifySignaturesResult): seq<string> {
    if r.isValid then []
    else
      var msgs := Flatten(r.results);
      Texts(msgs) + SummaryLines(msgs)
  }

  /**
   * The lines of an invalid package: first every issue text in provider order,
   * then one summary line exactly when some issue is at Warning or above, and
   * that line reads back as the Error count and the Warning count.
   */
  lemma InvalidPackageLines(r: VerifySignaturesResult)
    requires !r.isValid
    ensures var msgs, lines := Flatten(r.results), PackageLines(r);
      && |msgs| <= |lines| <= |msgs| + 1
      && (forall i :: 0 <= i < |msgs| ==> lines[i] == msgs[i].message)
      && (|lines| == |msgs| + 1 <==> exists i :: 0 <= i < |msgs| && msgs[i].level >= Warning)
      && (|lines| == |msgs| + 1 ==>
            ParseSummary(lines[|msgs|]) == Some((CountLevel(msgs, Error), CountLevel(msgs, Warning))))
  {
    var msgs := Flatten(r.results);
    AnyAtLeastExists(msgs, Warning);
    ParseSummaryLine(CountLevel(msgs, Error), CountLevel(msgs, Warning));
  }

  /** A level above Error triggers the summary line but is counted neither as error nor as warning. */
  lemma AboveErrorSummaryExample()
    ensures var r := VerifySignaturesResult(false, [ProviderResult([LogMessage(Error + 1, "revoked")])]);
      PackageLines(r) == ["revoked", SummaryLine(0, 0)]
  {
    var msgs := [LogMessage(Error + 1, "revoked")];
    assert msgs[1..] == [];
    assert Flatten([ProviderResult(msgs)]) == msgs;
    assert AnyAtLeast(msgs, Warning);
    assert CountLevel(msgs, Error) == 0 && CountLevel(msgs, Warning) == 0;
    assert Texts(msgs) == ["revoked"];
  }

  /**
   * For any invalid package with a message above Error, the summary line is
   * written, yet its two counts add up to fewer than the messages that
   * triggered it.
   */
  lemma AboveErrorTriggersUncounted(r: VerifySignaturesResult)
    requires !r.isValid
    requires exists i :: 0 <= i < |Flatten(r.results)| && Flatten(r.results)[i].level > Error
    ensures var msgs := Flatten(r.results);
      && |PackageLines(r)| == |msgs| + 1
      && CountLevel(msgs, Error) + CountLevel(msgs, Warning) < CountAtLeast(msgs, Warning)
  {
    var msgs := Flatten(r.results);
    var i :| 0 <= i < |msgs| && msgs[i].level > Error;
    assert msgs[i].level >= Error + 1;
    AnyAtLeastExists(msgs, Error + 1);
    AnyAtLeastCount(msgs, Error + 1);
    assert msgs[i].level >= Warning;
    InvalidPackageLines(r);
    ErrorsAndWarningsPartition(msgs);
  }

  // ---------------------------------------------------------------------
  // The lines a run over several packages writes

  lemma AppendAssoc<T>(a: seq<T>, b: seq<T>, c: seq<T>)
    ensures a + b + c == a + (b + c)
  {
  }

  /** The concatenation of f over xs, in order. */
  function ConcatMap<T>(xs: seq<T>, f: T -> seq<string>): seq<string> {
    if xs == [] then [] else ConcatMap(xs[..|xs| - 1], f) + f(xs[|xs| - 1])
  }

  lemma {:induction false} ConcatMapAppend<T>(a: seq<T>, b: seq<T>, f: T -> seq<string>)
    ensures ConcatMap(a + b, f) == ConcatMap(a, f) + ConcatMap(b, f)
  {
    if b == [] {
      assert a + b == a;
    } else {
      var ab, init, last := a + b, b[..|b| - 1], b[|b| - 1];
      assert ab[..|ab| - 1] == a + init;
      assert ab[|ab| - 1] == last;
      calc {
        ConcatMap(ab, f);
        ConcatMap(a + init, f) + f(last);
        { ConcatMapAppend(a, init, f); }
        (ConcatMap(a, f) + ConcatMap(init, f)) + f(last);
        { AppendAssoc(ConcatMap(a, f), ConcatMap(init, f), f(last)); }
        ConcatMap(a, f) + (ConcatMap(init, f) + f(last));
        ConcatMap(a, f) + ConcatMap(b, f);
      }
    }
  }

  /** The lines written for the packages, in order. */
  function BatchLines(packages: seq<VerifySignaturesResult>): seq<string> {
    ConcatMap(packages, PackageLines)
  }

  /** The lines for a concatenation of runs are the concatenation of their lines. */
  lemma BatchLinesAppend(a: seq<VerifySignaturesResult>, b: seq<VerifySignaturesResult>)
    ensures BatchLines(a + b) == BatchLines(a) + BatchLines(b)
  {
    ConcatMapAppend(a, b, PackageLines);
  }

  /** A valid package contributes no line, wherever it stands in the run. */
  lemma ValidPackageWritesNothing(before: seq<VerifySignaturesResult>, r: VerifySignaturesResult, after: seq<VerifySignaturesResult>)
    requires r.isValid
    ensures BatchLines(before + [r] + after) == BatchLines(before) + BatchLines(after)
  {
    BatchLinesAppend(before + [r], after);
    BatchLinesAppend(before, [r]);
    BatchLinesOfValid(r);
  }

  lemma BatchLinesOfValid(r: VerifySignaturesResult)
    requires r.isValid
    ensures BatchLines([r]) == []
  {
    assert [r][..0] == [];
    assert BatchLines([r]) == BatchLines([]) + PackageLines(r);
  }

  /** One more package: its lines follow, and the flag becomes its validity. */
  lemma BatchLinesStep(packages: seq<VerifySignaturesResult>, i: nat)
    requires i < |packages|
    ensures BatchLines(packages[..i + 1]) == BatchLines(packages[..i]) + PackageLines(packages[i])
    ensures LastVerdict(packages[..i + 1]) == packages[i].isValid
  {
    assert packages[..i + 1][..i] == packages[..i];
  }

  // ---------------------------------------------------------------------
  // The verdict flag

  /**
   * The flag as the loop leaves it: it starts true and each package reassigns
   * it to that package's validity, so it is the validity of the last package.
   */
  function LastVerdict(packages: seq<VerifySignaturesResult>): bool {
    packages == [] || packages[|packages| - 1].isValid
  }

  ghost predicate AllValid(packages: seq<VerifySignaturesResult>) {
    forall i :: 0 <= i < |packages| ==> packages[i].isValid
  }

  /** When every package is valid the flag is true. */
  lemma AllValidGivesLastVerdict(packages: seq<VerifySignaturesResult>)
    requires AllValid(packages)
    ensures LastVerdict(packages)
  {
  }

  /** A later valid package overwrites an earlier failure: the flag is true although not all packages are valid. */
  lemma LaterSuccessOverwritesFailure()
    ensures var packages := [VerifySignaturesResult(false, []), VerifySignaturesResult(true, [])];
      LastVerdict(packages) && !AllValid(packages)
  {
    var packages := [VerifySignaturesResult(false, []), VerifySignaturesResult(true, [])];
    assert !packages[0].isValid;
  }

  /** The flag with the evidently intended update `flag := flag && isValid`. */
  function ConjoinedVerdict(packages: seq<VerifySignaturesResult>): bool {
    packages == [] || (ConjoinedVerdict(packages[..|packages| - 1]) && packages[|packages| - 1].isValid)
  }

  /** The conjoined flag is true exactly when every package is valid. */
  lemma {:induction false} ConjoinedVerdictIsAllValid(packages: seq<VerifySignaturesResult>)
    ensures ConjoinedVerdict(packages) <==> AllValid(packages)
  {
    if packages != [] {
      var init := packages[..|packages| - 1];
      ConjoinedVerdictIsAllValid(init);
      if AllValid(packages) {
        assert forall i :: 0 <= i < |init| ==> init[i] == packages[i];
      }
      if ConjoinedVerdict(packages) {
        forall i | 0 <= i < |packages| ensures packages[i].isValid {
          if i < |init| { assert init[i] == packages[i]; }
        }
      }
    }
  }
}
