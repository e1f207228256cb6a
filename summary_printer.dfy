/**
 * TestSummaryPrinter's printing methods. They append to a terminal printer one
 * string at a time, and each is proved to append exactly the lines SummaryFormat
 * specifies.
 */
module SummaryPrinter {
  import opened Wrappers
  import opened Text
  import opened SummaryFormat

  /** AnsiTerminalPrinter, reduced to the strings it has been handed so far. */
  class TerminalPrinter {
    var out: seq<string>

    constructor ()
      ensures out == []
    {
      out := [];
    }

    /** print. */
    method Print(s: string)
      modifies this
      ensures out == old(out) + [s]
    {
      out := out + [s];
    }

    /** printLn: the string and a line break. */
    method PrintLn(s: string)
      modifies this
      ensures out == old(out) + [s + "\n"]
    {
      out := out + [s + "\n"];
    }
  }

  // ---------------------------------------------------------------------------
  // getTimeSummary

  /** The loop of getTimeSummary: minimum, maximum, sum and sum of squares in one pass. */
  method TimeStats(times: seq<int>) returns (min: int, max: int, sum: int, sumOfSquares: int)
    requires |times| >= 1
    ensures min == Min(times) && max == Max(times)
    ensures sum == Sum(times) && sumOfSquares == SumOfSquares(times)
    ensures min in times && max in times
    ensures forall i :: 0 <= i < |times| ==> min <= times[i] <= max
  {
    min := times[0];
    max := min;
    sum := 0;
    sumOfSquares := 0;
    var i := 0;
    while i < |times|
      invariant 0 <= i <= |times|
      invariant Folded(times, i, min, max, sum, sumOfSquares)
    {
      var value := times[i];
      FoldStep(times, i, min, max, sum, sumOfSquares);
      min := if value <= min then value else min;
      max := if value >= max then value else max;
      sum := sum + value;
      sumOfSquares := sumOfSquares + value * value;
      i := i + 1;
    }
    assert times[..|times|] == times;
  }

  /** The loop state of getTimeSummary after the first `i` times. */
  ghost predicate Folded(t: seq<int>, i: nat, min: int, max: int, sum: int, sumOfSquares: int)
    requires 1 <= |t| && i <= |t|
  {
    && (i == 0 ==> min == t[0] && max == t[0])
    && (i > 0 ==> min == Min(t[..i]) && max == Max(t[..i]))
    && sum == Sum(t[..i]) && sumOfSquares == SumOfSquares(t[..i])
  }

  /** One more time: how the minimum, maximum and sums of a prefix grow. */
  lemma FoldStep(t: seq<int>, i: nat, min: int, max: int, sum: int, sumOfSquares: int)
    requires i < |t| && Folded(t, i, min, max, sum, sumOfSquares)
    ensures Folded(t, i + 1, if t[i] <= min then t[i] else min, if t[i] >= max then t[i] else max,
                   sum + t[i], sumOfSquares + t[i] * t[i])
  {
    assert t[..i + 1][..i] == t[..i];
  }

  /** getTimeSummary. */
  method GetTimeSummary(times: seq<int>, fmt: TimeFormat) returns (r: string)
    ensures r == TimeSummary(times, fmt)
  {
    if |times| == 0 {
      r := "";
    } else if |times| == 1 {
      r := " in " + fmt.inSec(times[0]);
    } else {
      var min, max, sum, sumOfSquares := TimeStats(times);
      var maxTime := fmt.inSec(max);
      r := " in " + maxTime + "\n  Stats over " + NatToString(|times|) + " runs: max = " + maxTime
        + ", min = " + fmt.inSec(min)
        + ", avg = " + fmt.inSec(fmt.mean(sum, |times|))
        + ", dev = " + fmt.inSec(fmt.dev(sumOfSquares, sum, |times|));
    }
  }

  // ---------------------------------------------------------------------------
  // print and printTestCase

  /** printTestCase. */
  method PrintTestCase(printer: TerminalPrinter, c: TestCase, inSec: int -> string)
    modifies printer
    ensures printer.out == old(printer.out) + [CaseLine(c, inSec)]
  {
    var timeSummary: string;
    if c.durationMillis.Some? {
      timeSummary := " (" + inSec(c.durationMillis.value) + ")";
    } else {
      timeSummary := "";
    }
    printer.Print(("    " + Marker(Error)) + PadEnd(CaseStatusName(c.status), 8, ' ')
      + (Marker(Default) + c.className + "." + c.name + timeSummary + "\n"));
  }

  /** print's loop over the failed test cases: every case that did not pass gets its line. */
  method PrintFailedCases(printer: TerminalPrinter, cases: seq<TestCase>, inSec: int -> string)
    modifies printer
    ensures printer.out == old(printer.out) + FailedCaseLines(cases, inSec)
  {
    var i := 0;
    while i < |cases|
      invariant 0 <= i <= |cases|
      invariant printer.out == old(printer.out) + FailedCaseLines(cases[..i], inSec)
    {
      CaseLinesStep(cases, i, inSec);
      if cases[i].status != CasePassed {
        PrintTestCase(printer, cases[i], inSec);
      }
      i := i + 1;
    }
    assert cases[..|cases|] == cases;
  }

  /** One more test case: its line, if it did not pass, follows the lines before it. */
  lemma CaseLinesStep(cases: seq<TestCase>, i: nat, inSec: int -> string)
    requires i < |cases|
    ensures FailedCaseLines(cases[..i + 1], inSec)
      == FailedCaseLines(cases[..i], inSec) + (if cases[i].status != CasePassed then [CaseLine(cases[i], inSec)] else [])
  {
    assert cases[..i + 1][..i] == cases[..i];
  }

  /** What print writes about the failed test cases of a FAILED target. */
  method PrintCaseSection(printer: TerminalPrinter, s: Summary, inSec: int -> string)
    modifies printer
    ensures printer.out == old(printer.out) + CaseSection(s, inSec)
  {
    if s.status == Failed {
      if s.failedCasesStatus == NotAvailable {
        printer.Print(Marker(Warning) + "    (individual test case information not available) "
          + Marker(Default) + "\n");
      } else {
        PrintFailedCases(printer, s.failedTestCases, inSec);
        if s.failedCasesStatus != Full {
          printer.Print(Marker(Warning)
            + "    (some shards did not report details, list of failed test cases incomplete)\n"
            + Marker(Default));
        }
      }
    }
  }

  /** print's loop over the warnings. */
  method PrintWarnings(printer: TerminalPrinter, warnings: seq<string>)
    modifies printer
    ensures printer.out == old(printer.out) + WarningLines(warnings)
  {
    var i := 0;
    while i < |warnings|
      invariant 0 <= i <= |warnings|
      invariant printer.out == old(printer.out) + WarningLines(warnings[..i])
    {
      assert warnings[..i + 1][..i] == warnings[..i];
      printer.Print("  " + Marker(Warning) + "WARNING: " + Marker(Default) + warnings[i] + "\n");
      i := i + 1;
    }
    assert warnings[..|warnings|] == warnings;
  }

  /** print's loop over the failed logs: the path of each one that exists. */
  method PrintFailedLogPaths(printer: TerminalPrinter, logs: seq<LogFile>)
    modifies printer
    ensures printer.out == old(printer.out) + LogLines(logs)
  {
    var i := 0;
    while i < |logs|
      invariant 0 <= i <= |logs|
      invariant printer.out == old(printer.out) + LogLines(logs[..i])
    {
      assert logs[..i + 1][..i] == logs[..i];
      if logs[i].present {
        printer.Print("  " + logs[i].path + "\n");
      }
      i := i + 1;
    }
    assert logs[..|logs|] == logs;
  }

  /** print's loop over the coverage files: the path of each one that exists and is not empty. */
  method PrintCoveragePaths(printer: TerminalPrinter, files: seq<CoverageFile>)
    modifies printer
    ensures printer.out == old(printer.out) + CoverageLines(files)
  {
    var i := 0;
    while i < |files|
      invariant 0 <= i <= |files|
      invariant printer.out == old(printer.out) + CoverageLines(files[..i])
    {
      assert files[..i + 1][..i] == files[..i];
      var f := files[i];
      if f.present {
        match f.size {
          case None =>
            // Reading the size failed: the error is logged and nothing is printed.
          case Some(size) =>
            if size > 0 {
              printer.Print("  " + f.path + "\n");
            }
        }
      }
      i := i + 1;
    }
    assert files[..|files|] == files;
  }

  /** print's first line: the padded label, the coloured message and, in verbose mode, the summaries. */
  method PrintStatusLine(s: Summary, printer: TerminalPrinter, verbose: bool, fmt: TimeFormat)
    modifies printer
    ensures printer.out == old(printer.out) + [StatusLine(s, verbose, fmt)]
  {
    var message := CacheMessage(s) + StatusString(s.status);
    var tail := "";
    if verbose {
      var timeSummary := GetTimeSummary(s.testTimes, fmt);
      tail := AttemptSummary(s) + timeSummary;
    }
    assert message == Message(s);
    assert tail == VerboseTail(s, verbose, fmt);
    var coloured := Marker(s.statusMode) + message + Marker(Default);
    assert coloured == StatusText(s);
    StatusLineIs(s, verbose, fmt);
    printer.Print(PadEnd(s.targetLabel, 78 - |message|, ' ') + (" " + coloured + (tail + "\n")));
  }

  /** print's loops over the warnings, the failed logs and the coverage files. */
  method PrintDetails(s: Summary, printer: TerminalPrinter)
    modifies printer
    ensures printer.out == old(printer.out) + DetailLines(s)
  {
    PrintWarnings(printer, s.warnings);
    PrintFailedLogPaths(printer, s.failedLogs);
    PrintCoveragePaths(printer, s.coverageFiles);
    LinesAppendAssoc(old(printer.out), WarningLines(s.warnings), LogLines(s.failedLogs), CoverageLines(s.coverageFiles));
  }

  /** print. */
  method PrintSummary(s: Summary, printer: TerminalPrinter, verbose: bool, printFailed: bool, fmt: TimeFormat)
    modifies printer
    ensures printer.out == old(printer.out) + SummaryLines(s, verbose, printFailed, fmt)
  {
    if s.status == FailedToBuild {
      return;
    }
    PrintStatusLine(s, printer, verbose, fmt);
    if printFailed {
      PrintCaseSection(printer, s, fmt.inSec);
      Assoc(old(printer.out), [StatusLine(s, verbose, fmt)], CaseSection(s, fmt.inSec));
      return;
    }
    PrintDetails(s, printer);
    Assoc(old(printer.out), [StatusLine(s, verbose, fmt)], DetailLines(s));
  }

  /** The status line, as print assembles it. */
  lemma StatusLineIs(s: Summary, verbose: bool, fmt: TimeFormat)
    ensures StatusLine(s, verbose, fmt)
      == PadEnd(s.targetLabel, 78 - |Message(s)|, ' ') + (" " + StatusText(s) + (VerboseTail(s, verbose, fmt) + "\n"))
  {
  }

  lemma Assoc(a: seq<string>, b: seq<string>, c: seq<string>)
    ensures a + b + c == a + (b + c)
  {
  }

  lemma LinesAppendAssoc(h: seq<string>, a: seq<string>, b: seq<string>, c: seq<string>)
    ensures h + a + b + c == h + (a + b + c)
  {
  }

  // ---------------------------------------------------------------------------
  // printCachedOutput

  /** writeTestLog over a list of logs, with the message for a log that cannot be read. */
  method WriteLogs(printer: TerminalPrinter, logs: seq<LogFile>, testName: string,
                   readLog: string -> Option<string>)
    modifies printer
    ensures printer.out == old(printer.out) + LogDumps(logs, testName, readLog)
  {
    var i := 0;
    while i < |logs|
      invariant 0 <= i <= |logs|
      invariant printer.out == old(printer.out) + LogDumps(logs[..i], testName, readLog)
    {
      DumpsStep(logs, i, testName, readLog);
      WriteLog(printer, logs[i], testName, readLog);
      i := i + 1;
    }
    assert logs[..|logs|] == logs;
  }

  /** Writes one log: its text, or a line saying it could not be read. */
  method WriteLog(printer: TerminalPrinter, l: LogFile, testName: string, readLog: string -> Option<string>)
    modifies printer
    ensures printer.out == old(printer.out) + [LogDump(l, testName, readLog)]
  {
    match readLog(l.path) {
      case Some(text) =>
        printer.Print(text);
      case None =>
        printer.PrintLn("==================== Could not read test output for " + testName);
    }
  }

  /** One more log: its dump follows the dumps of the logs before it. */
  lemma DumpsStep(logs: seq<LogFile>, i: nat, testName: string, readLog: string -> Option<string>)
    requires i < |logs|
    ensures LogDumps(logs[..i + 1], testName, readLog)
      == LogDumps(logs[..i], testName, readLog) + [LogDump(logs[i], testName, readLog)]
  {
    assert logs[..i + 1][..i] == logs[..i];
  }

  /** The paths of every failed and then every passed attempt log, in order. */
  method CollectLogPaths(s: Summary) returns (allLogs: seq<string>)
    ensures allLogs == LogPaths(s.failedLogs) + LogPaths(s.passedLogs)
  {
    allLogs := [];
    var i := 0;
    while i < |s.failedLogs|
      invariant 0 <= i <= |s.failedLogs|
      invariant allLogs == LogPaths(s.failedLogs[..i])
    {
      assert s.failedLogs[..i + 1][..i] == s.failedLogs[..i];
      allLogs := allLogs + [s.failedLogs[i].path];
      i := i + 1;
    }
    assert s.failedLogs[..|s.failedLogs|] == s.failedLogs;
    var j := 0;
    while j < |s.passedLogs|
      invariant 0 <= j <= |s.passedLogs|
      invariant allLogs == LogPaths(s.failedLogs) + LogPaths(s.passedLogs[..j])
    {
      assert s.passedLogs[..j + 1][..j] == s.passedLogs[..j];
      allLogs := allLogs + [s.passedLogs[j].path];
      j := j + 1;
    }
    assert s.passedLogs[..|s.passedLogs|] == s.passedLogs;
  }

  /** printCachedOutput. */
  method PrintCachedOutput(s: Summary, showFailed: bool, showPassed: bool,
                           readLog: string -> Option<string>, printer: TerminalPrinter)
    modifies printer
    ensures printer.out == old(printer.out) + CachedOutputLines(s, showFailed, showPassed, readLog)
  {
    var testName := s.targetLabel;
    var allLogs := CollectLogPaths(s);
    printer.PrintLn(Marker(s.statusMode) + StatusName(s.status) + ": " + Marker(Default) + testName
      + " (see " + Join(allLogs, ' ') + ")");
    printer.PrintLn(Marker(Info) + "INFO: " + Marker(Default) + "From Testing " + testName);
    ghost var head := old(printer.out) + [CachedHeader(s), InfoLine(s)];
    assert printer.out == head;
    if showFailed {
      WriteLogs(printer, s.failedLogs, testName, readLog);
    }
    ghost var failedPart := if showFailed then LogDumps(s.failedLogs, testName, readLog) else [];
    assert printer.out == head + failedPart;
    if showPassed {
      WriteLogs(printer, s.passedLogs, testName, readLog);
    }
    ghost var passedPart := if showPassed then LogDumps(s.passedLogs, testName, readLog) else [];
    assert printer.out == head + failedPart + passedPart;
    LinesAppendAssoc(old(printer.out), [CachedHeader(s), InfoLine(s)], failedPart, passedPart);
  }
}
