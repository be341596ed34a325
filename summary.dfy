/**
 * The summary line appended after the issues of an invalid package, and a
 * reader for it that shows the line states both counts unambiguously.
 */
module Summary {
  import opened Wrappers
  import opened Decimal

  const SummaryPrefix: string := "Finished with "
  const ErrorsInfix: string := " errors and "
  const WarningsSuffix: string := " warnings."

  /** `Finished with {errors} errors and {warnings} warnings.` */
  function SummaryLine(errors: nat, warnings: nat): string {
    SummaryPrefix + (NatToString(errors) + (ErrorsInfix + (NatToString(warnings) + WarningsSuffix)))
  }

  /** Reads the two counts back out of a summary line; None for any other text. */
  function ParseSummary(line: string): Option<(nat, nat)> {
    if !(SummaryPrefix <= line) then None
    else
      var rest := line[|SummaryPrefix|..];
      var k := LeadingDigits(rest);
      var afterErrors := rest[k..];
      if k == 0 || !(ErrorsInfix <= afterErrors) then None
      else
        var tail := afterErrors[|ErrorsInfix|..];
        var k' := LeadingDigits(tail);
        if k' == 0 || tail[k'..] != WarningsSuffix then None
        else Some((ParseNat(rest[..k]), ParseNat(tail[..k'])))
  }

  /** ParseSummary unfolded at the split points its checks find. */
  lemma ParseSummaryOf(line: string, rest: string, k: nat, tail: string, k': nat)
    requires SummaryPrefix <= line && rest == line[|SummaryPrefix|..]
    requires LeadingDigits(rest) == k && 0 < k
    requires ErrorsInfix <= rest[k..] && tail == rest[k..][|ErrorsInfix|..]
    requires LeadingDigits(tail) == k' && 0 < k' && tail[k'..] == WarningsSuffix
    ensures ParseSummary(line) == Some((ParseNat(rest[..k]), ParseNat(tail[..k'])))
  {
  }

  /** A line of summary shape with any two non-empty digit strings reads back as their values. */
  lemma ParseSummaryParts(e: string, w: string)
    requires |e| > 0 && AllDigits(e) && |w| > 0 && AllDigits(w)
    ensures ParseSummary(SummaryPrefix + (e + (ErrorsInfix + (w + WarningsSuffix)))) == Some((ParseNat(e), ParseNat(w)))
  {
    var afterE := ErrorsInfix + (w + WarningsSuffix);
    var line := SummaryPrefix + (e + afterE);
    var rest := line[|SummaryPrefix|..];
    assert rest == e + afterE;
    LeadingDigitsOfNumeral(e, afterE);
    var tail := afterE[|ErrorsInfix|..];
    assert tail == w + WarningsSuffix;
    LeadingDigitsOfNumeral(w, WarningsSuffix);
    assert SummaryPrefix <= line;
    assert rest[|e|..] == afterE;
    assert ErrorsInfix <= afterE;
    assert tail[|w|..] == WarningsSuffix;
    assert rest[..|e|] == e;
    assert tail[..|w|] == w;
    ParseSummaryOf(line, rest, |e|, tail, |w|);
  }

  /** The summary line carries exactly the counts it was built from. */
  lemma ParseSummaryLine(errors: nat, warnings: nat)
    ensures ParseSummary(SummaryLine(errors, warnings)) == Some((errors, warnings))
  {
    ParseSummaryParts(NatToString(errors), NatToString(warnings));
    ParseNatToString(errors);
    ParseNatToString(warnings);
  }

  /** Different counts never produce the same summary line. */
  lemma SummaryLineInjective(e1: nat, w1: nat, e2: nat, w2: nat)
    requires SummaryLine(e1, w1) == SummaryLine(e2, w2)
    ensures e1 == e2 && w1 == w2
  {
    ParseSummaryLine(e1, w1);
    ParseSummaryLine(e2, w2);
  }

  /** The rendering for two errors and one warning. */
  lemma SummaryLineExample()
    ensures SummaryLine(2, 1) == "Finished with 2 errors and 1 warnings."
  {
  }
}
