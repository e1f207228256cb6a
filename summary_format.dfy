/**
 * What Bazel's TestSummaryPrinter prints for one test target, as functions from
 * an abstract test summary to the strings the terminal printer receives, in order.
 * File existence, file sizes and log contents are fields or parameters here; the
 * terminal's colour switches are opaque marker strings.
 */
module SummaryFormat {
  import opened Wrappers
  import opened Text

  /** BlazeTestStatus: the overall outcome of a test target. */
  datatype BlazeTestStatus =
    | NoStatus | Passed | Flaky | Timeout | Failed | Incomplete
    | RemoteFailure | FailedToBuild | BlazeHaltedBeforeTesting

  /** The enum constant's name, which is what its toString returns. */
  function StatusName(s: BlazeTestStatus): string
  {
    match s
    case NoStatus => "NO_STATUS"
    case Passed => "PASSED"
    case Flaky => "FLAKY"
    case Timeout => "TIMEOUT"
    case Failed => "FAILED"
    case Incomplete => "INCOMPLETE"
    case RemoteFailure => "REMOTE_FAILURE"
    case FailedToBuild => "FAILED_TO_BUILD"
    case BlazeHaltedBeforeTesting => "BLAZE_HALTED_BEFORE_TESTING"
  }

  /** How complete the list of failed test cases is. */
  datatype FailedTestCasesStatus = Full | Partial | NotAvailable | Empty

  /** TestCase.Status. */
  datatype CaseStatus = CasePassed | CaseFailed | CaseError

  function CaseStatusName(s: CaseStatus): string
  {
    match s
    case CasePassed => "PASSED"
    case CaseFailed => "FAILED"
    case CaseError => "ERROR"
  }

  /** AnsiTerminalPrinter.Mode. */
  datatype Mode = Info | Error | Warning | Default

  /** The marker a Mode contributes to a printed string; the terminal renders it as a colour switch. */
  function Marker(m: Mode): string
  {
    match m
    case Info => "\U{1B}[INFO]"
    case Error => "\U{1B}[ERROR]"
    case Warning => "\U{1B}[WARNING]"
    case Default => "\U{1B}[DEFAULT]"
  }

  datatype TestCase = TestCase(className: string, name: string, status: CaseStatus, durationMillis: Option<int>)

  /** A log file path and whether it exists on disk. */
  datatype LogFile = LogFile(path: string, present: bool)

  /** A coverage file; `size` is None when reading the size fails. */
  datatype CoverageFile = CoverageFile(path: string, present: bool, size: Option<int>)

  /**
   * The parts of a TestSummary the printer reads. `statusMode` is the mode
   * TestSummary.getStatusMode assigns to `status`.
   */
  datatype Summary = Summary(
    targetLabel: string,
    status: BlazeTestStatus,
    statusMode: Mode,
    numCached: nat,
    totalRuns: nat,
    passedLogs: seq<LogFile>,
    failedLogs: seq<LogFile>,
    warnings: seq<string>,
    coverageFiles: seq<CoverageFile>,
    failedCasesStatus: FailedTestCasesStatus,
    failedTestCases: seq<TestCase>,
    testTimes: seq<int>)

  /**
   * The floating-point steps of the time summary: `inSec` renders milliseconds
   * as seconds, `mean(sum, n)` and `dev(sumOfSquares, sum, n)` are the average
   * and the standard deviation, truncated to whole milliseconds.
   */
  datatype TimeFormat = TimeFormat(inSec: int -> string, mean: (int, nat) -> int, dev: (int, int, nat) -> int)

  // ---------------------------------------------------------------------------
  // statusString, getCacheMessage, getAttemptSummary

  /** statusString: the status name with every '_' turned into a space. */
  function StatusString(s: BlazeTestStatus): (r: string)
    ensures |r| == |StatusName(s)|
    ensures '_' !in r
    ensures forall i :: 0 <= i < |r| && StatusName(s)[i] != '_' ==> r[i] == StatusName(s)[i]
    ensures forall i :: 0 <= i < |r| && StatusName(s)[i] == '_' ==> r[i] == ' '
  {
    Replace(StatusName(s), '_', ' ')
  }

  /** getCacheMessage. */
  function CacheMessage(s: Summary): (r: string)
    ensures r == "" <==> s.numCached == 0 || s.status == Incomplete
    ensures r == "(cached) " <==> r != "" && s.numCached == s.totalRuns
  {
    if s.numCached == 0 || s.status == Incomplete then ""
    else if s.numCached == s.totalRuns then "(cached) "
    else "(" + NatToString(s.numCached) + "/" + NatToString(s.totalRuns) + " cached) "
  }

  /** A partly cached result names both counts, and they read back as the numbers. */
  lemma {:induction false} CacheMessageCounts(s: Summary)
    requires s.numCached != 0 && s.status != Incomplete && s.numCached != s.totalRuns
    ensures var r := CacheMessage(s);
      && |r| > 10
      && r[..1] == "("
      && r[|r| - 9..] == " cached) "
      && var f := SplitOn(r[1..|r| - 9], '/');
      && f == [NatToString(s.numCached), NatToString(s.totalRuns)]
      && DigitsValue(f[0]) == s.numCached
      && DigitsValue(f[1]) == s.totalRuns
  {
    var a, b := NatToString(s.numCached), NatToString(s.totalRuns);
    var r := CacheMessage(s);
    assert r == "(" + (a + "/" + b) + " cached) ";
    assert r[1..|r| - 9] == a + "/" + b;
    assert Join([a, b], '/') == a + "/" + b;
    assert '/' !in a;
    assert '/' !in b;
    SplitJoin([a, b], '/');
    NatToStringRoundTrip(s.numCached);
    NatToStringRoundTrip(s.totalRuns);
  }

  /** The number of runs: passed logs plus failed logs. */
  function Attempts(s: Summary): nat
  {
    |s.passedLogs| + |s.failedLogs|
  }

  /** The words before the failure count in an attempt summary. */
  function AttemptPrefix(st: BlazeTestStatus): string
  {
    if st == Flaky then ", failed in " else " in "
  }

  /** getAttemptSummary. */
  function AttemptSummary(s: Summary): (r: string)
    ensures r != "" <==> Attempts(s) > 1 && s.status in {Flaky, Timeout, Failed}
  {
    var attempts := Attempts(s);
    if attempts > 1 && s.status == Flaky then
      ", failed in " + NatToString(|s.failedLogs|) + " out of " + NatToString(attempts)
    else if attempts > 1 && (s.status == Timeout || s.status == Failed) then
      " in " + NatToString(|s.failedLogs|) + " out of " + NatToString(attempts)
    else ""
  }

  /** A non-empty attempt summary reads "<prefix>f out of a" with f failed runs out of a runs. */
  lemma {:induction false} AttemptSummaryCounts(s: Summary)
    requires AttemptSummary(s) != ""
    ensures var r := AttemptSummary(s);
      var p := AttemptPrefix(s.status);
      && |p| <= |r|
      && r[..|p|] == p
      && var f := SplitOn(r[|p|..], ' ');
      && f == [NatToString(|s.failedLogs|), "out", "of", NatToString(Attempts(s))]
      && DigitsValue(f[0]) == |s.failedLogs|
      && DigitsValue(f[3]) == Attempts(s)
  {
    var p := AttemptPrefix(s.status);
    var phrase := NatToString(|s.failedLogs|) + " out of " + NatToString(Attempts(s));
    assert AttemptSummary(s) == p + phrase;
    assert (p + phrase)[|p|..] == phrase;
    OutOfPhrase(|s.failedLogs|, Attempts(s));
  }

  /** "f out of a" splits on spaces into the two numbers and the words between them. */
  lemma OutOfPhrase(f: nat, a: nat)
    ensures var fields := SplitOn(NatToString(f) + " out of " + NatToString(a), ' ');
      && fields == [NatToString(f), "out", "of", NatToString(a)]
      && DigitsValue(fields[0]) == f
      && DigitsValue(fields[3]) == a
  {
    var x, y := NatToString(f), NatToString(a);
    var parts := [x, "out", "of", y];
    JoinOutOf(x, y);
    NoSpaceInDigits(f);
    NoSpaceInDigits(a);
    assert forall i :: 0 <= i < |parts| ==> ' ' !in parts[i];
    SplitJoin(parts, ' ');
    NatToStringRoundTrip(f);
    NatToStringRoundTrip(a);
  }

  lemma JoinOutOf(x: string, y: string)
    ensures Join([x, "out", "of", y], ' ') == x + " out of " + y
  {
    assert Join([y], ' ') == y;
    assert Join(["of", y], ' ') == "of " + y;
    assert Join(["out", "of", y], ' ') == "out of " + y;
  }

  lemma NoSpaceInDigits(n: nat)
    ensures ' ' !in NatToString(n) && '/' !in NatToString(n)
  {
  }

  // ---------------------------------------------------------------------------
  // getTimeSummary

  function Min(t: seq<int>): (m: int)
    requires |t| >= 1
    ensures m in t
    ensures forall i :: 0 <= i < |t| ==> m <= t[i]
  {
    if |t| == 1 then t[0]
    else
      var p := Min(t[..|t| - 1]);
      assert p in t[..|t| - 1];
      if t[|t| - 1] <= p then t[|t| - 1] else p
  }

  function Max(t: seq<int>): (m: int)
    requires |t| >= 1
    ensures m in t
    ensures forall i :: 0 <= i < |t| ==> t[i] <= m
  {
    if |t| == 1 then t[0]
    else
      var p := Max(t[..|t| - 1]);
      assert p in t[..|t| - 1];
      if t[|t| - 1] >= p then t[|t| - 1] else p
  }

  function Sum(t: seq<int>): int
  {
    if t == [] then 0 else Sum(t[..|t| - 1]) + t[|t| - 1]
  }

  function SumOfSquares(t: seq<int>): int
  {
    if t == [] then 0 else SumOfSquares(t[..|t| - 1]) + t[|t| - 1] * t[|t| - 1]
  }

  /** getTimeSummary. */
  function TimeSummary(t: seq<int>, fmt: TimeFormat): (r: string)
    ensures r == "" <==> t == []
    ensures t != [] ==> var head := " in " + fmt.inSec(Max(t)); |head| <= |r| && r[..|head|] == head
  {
    if t == [] then ""
    else if |t| == 1 then " in " + fmt.inSec(t[0])
    else
      var maxTime := fmt.inSec(Max(t));
      " in " + maxTime + "\n  Stats over " + NatToString(|t|) + " runs: max = " + maxTime
      + ", min = " + fmt.inSec(Min(t))
      + ", avg = " + fmt.inSec(fmt.mean(Sum(t), |t|))
      + ", dev = " + fmt.inSec(fmt.dev(SumOfSquares(t), Sum(t), |t|))
  }

  // ---------------------------------------------------------------------------
  // print: the status line

  /** The cache message followed by the status string. */
  function Message(s: Summary): string
  {
    CacheMessage(s) + StatusString(s.status)
  }

  /** The attempt and time summaries, which only verbose mode appends. */
  function VerboseTail(s: Summary, verbose: bool, fmt: TimeFormat): string
  {
    if verbose then AttemptSummary(s) + TimeSummary(s.testTimes, fmt) else ""
  }

  /** The status text: the message between the status's mode and the default mode. */
  function StatusText(s: Summary): string
  {
    Marker(s.statusMode) + Message(s) + Marker(Default)
  }

  /** A label padded against a message of `msgLen` characters, a space, the coloured message, the tail. */
  function LabelledLine(name: string, msgLen: nat, m: string, tail: string): string
  {
    PadEnd(name, 78 - msgLen, ' ') + (" " + m + tail)
  }

  /** The first line print writes for a target. */
  function StatusLine(s: Summary, verbose: bool, fmt: TimeFormat): string
  {
    LabelledLine(s.targetLabel, |Message(s)|, StatusText(s), VerboseTail(s, verbose, fmt) + "\n")
  }

  /** The column the label is padded to. */
  function LabelWidth(s: Summary): nat
  {
    if |s.targetLabel| >= 78 - |Message(s)| then |s.targetLabel| else 78 - |Message(s)|
  }

  /**
   * The status line starts with the label padded with spaces up to column
   * max(|label|, 78 - |message|), followed by one more space.
   */
  lemma {:induction false} StatusLinePadding(s: Summary, verbose: bool, fmt: TimeFormat)
    ensures var r := StatusLine(s, verbose, fmt);
      var w := LabelWidth(s);
      && |r| > w
      && r[..|s.targetLabel|] == s.targetLabel
      && (forall i :: |s.targetLabel| <= i <= w ==> r[i] == ' ')
  {
    LabelledLineLayout(s.targetLabel, |Message(s)|, StatusText(s), VerboseTail(s, verbose, fmt) + "\n");
  }

  /**
   * After the padding comes the message between its status mode and the default
   * mode; the attempt and time summaries follow only in verbose mode.
   */
  lemma {:induction false} StatusLineMessage(s: Summary, verbose: bool, fmt: TimeFormat)
    ensures var r := StatusLine(s, verbose, fmt);
      var w := LabelWidth(s);
      var m := StatusText(s);
      && |r| > w + |m|
      && r[w + 1..w + 1 + |m|] == m
      && r[w + 1 + |m|..] == VerboseTail(s, verbose, fmt) + "\n"
      && (!verbose ==> r[w + 1 + |m|..] == "\n")
  {
    var r := StatusLine(s, verbose, fmt);
    var w := LabelWidth(s);
    var m := StatusText(s);
    var tail := VerboseTail(s, verbose, fmt) + "\n";
    MessageAt(s.targetLabel, |Message(s)|, m, tail, r, w);
    QuietTail(s, fmt);
  }

  /** Without verbose mode nothing but the line break follows the message. */
  lemma QuietTail(s: Summary, fmt: TimeFormat)
    ensures VerboseTail(s, false, fmt) + "\n" == "\n"
  {
    assert VerboseTail(s, false, fmt) == "";
  }

  /** The message and the tail of a labelled line, with the line and its label width named. */
  lemma MessageAt(name: string, msgLen: nat, m: string, tail: string, r: string, w: nat)
    requires r == LabelledLine(name, msgLen, m, tail)
    requires w == if |name| >= 78 - msgLen then |name| else 78 - msgLen
    ensures |r| > w + |m|
    ensures r[w + 1..w + 1 + |m|] == m
    ensures r[w + 1 + |m|..] == tail
  {
    LabelledLineLayout(name, msgLen, m, tail);
  }

  /** Where the pieces of a labelled line sit. */
  lemma LabelledLineLayout(name: string, msgLen: nat, m: string, tail: string)
    ensures var w := if |name| >= 78 - msgLen then |name| else 78 - msgLen;
      var r := LabelledLine(name, msgLen, m, tail);
      && |r| == w + 1 + |m| + |tail|
      && r[..|name|] == name
      && (forall i :: |name| <= i <= w ==> r[i] == ' ')
      && r[w + 1..w + 1 + |m|] == m
      && r[w + 1 + |m|..] == tail
  {
    var w := if |name| >= 78 - msgLen then |name| else 78 - msgLen;
    var p := PadEnd(name, 78 - msgLen, ' ');
    var rest := " " + m + tail;
    var r := p + rest;
    assert |p| == w;
    assert r[..|name|] == name by {
      assert r[..|name|] == p[..|name|];
    }
    forall i | |name| <= i <= w ensures r[i] == ' ' {
      if i == w {
        assert r[i] == rest[0];
      }
    }
    assert r[w + 1..w + 1 + |m|] == m by {
      assert r[w + 1..w + 1 + |m|] == rest[1..1 + |m|];
    }
    assert r[w + 1 + |m|..] == tail by {
      assert r[w + 1 + |m|..] == rest[1 + |m|..];
    }
  }

  // ---------------------------------------------------------------------------
  // print: failed test cases

  const NotAvailableLine: string :=
    Marker(Warning) + "    (individual test case information not available) " + Marker(Default) + "\n"

  const IncompleteLine: string :=
    Marker(Warning) + "    (some shards did not report details, list of failed test cases incomplete)\n"
    + Marker(Default)

  /** What precedes the status column of a test case line. */
  function CaseIndent(): string
  {
    "    " + Marker(Error)
  }

  /** What follows the status column of a test case line. */
  function CaseRest(c: TestCase, inSec: int -> string): string
  {
    Marker(Default) + c.className + "." + c.name
    + (if c.durationMillis.Some? then " (" + inSec(c.durationMillis.value) + ")" else "")
    + "\n"
  }

  /** printTestCase's line. */
  function CaseLine(c: TestCase, inSec: int -> string): string
  {
    CaseIndent() + PadEnd(CaseStatusName(c.status), 8, ' ') + CaseRest(c, inSec)
  }

  /** A test case line shows its status left-aligned in an 8-character column. */
  lemma {:induction false} CaseLineColumns(c: TestCase, inSec: int -> string)
    ensures var r := CaseLine(c, inSec);
      var k := |CaseIndent()|;
      var n := CaseStatusName(c.status);
      && |r| > k + 8
      && r[..k] == CaseIndent()
      && r[k..k + |n|] == n
      && (forall i :: k + |n| <= i < k + 8 ==> r[i] == ' ')
      && r[k + 8..] == CaseRest(c, inSec)
  {
    PaddedField(CaseIndent(), CaseStatusName(c.status), 8, CaseRest(c, inSec));
  }

  /** How many cases did not pass. */
  function NotPassedCount(cases: seq<TestCase>): nat
  {
    if cases == [] then 0
    else NotPassedCount(cases[..|cases| - 1]) + (if cases[|cases| - 1].status != CasePassed then 1 else 0)
  }

  /** The lines of the test cases that did not pass, in order. */
  function FailedCaseLines(cases: seq<TestCase>, inSec: int -> string): (r: seq<string>)
    ensures |r| == NotPassedCount(cases)
    ensures forall line :: line in r ==>
      exists c :: c in cases && c.status != CasePassed && line == CaseLine(c, inSec)
  {
    if cases == [] then []
    else
      var c := cases[|cases| - 1];
      assert c in cases;
      FailedCaseLines(cases[..|cases| - 1], inSec) + (if c.status != CasePassed then [CaseLine(c, inSec)] else [])
  }

  /** Every test case that did not pass gets its line. */
  lemma {:induction false} FailedCaseLinesComplete(cases: seq<TestCase>, inSec: int -> string, c: TestCase)
    requires c in cases && c.status != CasePassed
    ensures CaseLine(c, inSec) in FailedCaseLines(cases, inSec)
  {
    var init := cases[..|cases| - 1];
    if c != cases[|cases| - 1] {
      assert cases == init + [cases[|cases| - 1]];
      assert c in init;
      FailedCaseLinesComplete(init, inSec, c);
    }
  }

  /** The line of a case that did not pass sits at the position counted by the failed cases before it. */
  lemma {:induction false} FailedCaseLineAt(cases: seq<TestCase>, inSec: int -> string, i: nat)
    requires i < |cases| && cases[i].status != CasePassed
    ensures NotPassedCount(cases[..i]) < |FailedCaseLines(cases, inSec)|
    ensures FailedCaseLines(cases, inSec)[NotPassedCount(cases[..i])] == CaseLine(cases[i], inSec)
  {
    var init := cases[..|cases| - 1];
    if i == |cases| - 1 {
      assert cases[..i] == init;
    } else {
      assert init[..i] == cases[..i];
      FailedCaseLineAt(init, inSec, i);
    }
  }

  /** Counting the failed cases of a longer prefix never gives less. */
  lemma {:induction false} NotPassedCountGrows(cases: seq<TestCase>, a: nat, b: nat)
    requires a <= b <= |cases|
    ensures NotPassedCount(cases[..a]) <= NotPassedCount(cases[..b])
  {
    if a < b {
      assert cases[..b][..b - 1] == cases[..b - 1];
      NotPassedCountGrows(cases, a, b - 1);
    }
  }

  /** Failed case lines come in the order of the cases. */
  lemma FailedCaseLinesInOrder(cases: seq<TestCase>, inSec: int -> string, i: nat, j: nat)
    requires i < j < |cases| && cases[i].status != CasePassed && cases[j].status != CasePassed
    ensures exists p, q ::
      && 0 <= p < q < |FailedCaseLines(cases, inSec)|
      && FailedCaseLines(cases, inSec)[p] == CaseLine(cases[i], inSec)
      && FailedCaseLines(cases, inSec)[q] == CaseLine(cases[j], inSec)
  {
    FailedCaseLineAt(cases, inSec, i);
    FailedCaseLineAt(cases, inSec, j);
    assert cases[..i + 1][..i] == cases[..i];
    NotPassedCountGrows(cases, i + 1, j);
  }

  /** No printed test case line shows the PASSED status. */
  lemma {:induction false} NoLineShowsPassed(cases: seq<TestCase>, inSec: int -> string)
    ensures forall line :: line in FailedCaseLines(cases, inSec) ==>
      var k := |CaseIndent()|; |line| > k + 8 && line[k..k + 8] != PadEnd("PASSED", 8, ' ')
  {
    var k := |CaseIndent()|;
    forall line | line in FailedCaseLines(cases, inSec)
      ensures |line| > k + 8 && line[k..k + 8] != PadEnd("PASSED", 8, ' ')
    {
      var c :| c in cases && c.status != CasePassed && line == CaseLine(c, inSec);
      NotPassedColumn(c, inSec);
    }
  }

  /** The status column of a case that did not pass does not read PASSED. */
  lemma NotPassedColumn(c: TestCase, inSec: int -> string)
    requires c.status != CasePassed
    ensures var line := CaseLine(c, inSec);
      var k := |CaseIndent()|; |line| > k + 8 && line[k..k + 8] != PadEnd("PASSED", 8, ' ')
  {
    var line := CaseLine(c, inSec);
    var k := |CaseIndent()|;
    CaseLineColumns(c, inSec);
    var n := CaseStatusName(c.status);
    assert line[k] == line[k..k + |n|][0] == n[0] != 'P';
    assert PadEnd("PASSED", 8, ' ')[0] == 'P';
  }

  /** The lines print writes about failed test cases when asked to. */
  function CaseSection(s: Summary, inSec: int -> string): seq<string>
  {
    if s.status != Failed then []
    else if s.failedCasesStatus == NotAvailable then [NotAvailableLine]
    else FailedCaseLines(s.failedTestCases, inSec) + (if s.failedCasesStatus != Full then [IncompleteLine] else [])
  }

  /**
   * The failed-case section is empty unless the target FAILED; then it is the single
   * "not available" warning, or one line per test case that did not pass followed
   * by the "incomplete" warning exactly when the list is not FULL.
   */
  lemma {:induction false} CaseSectionShape(s: Summary, inSec: int -> string)
    ensures var r := CaseSection(s, inSec);
      && (s.status != Failed ==> r == [])
      && (s.status == Failed && s.failedCasesStatus == NotAvailable ==> r == [NotAvailableLine])
      && (s.status == Failed && s.failedCasesStatus != NotAvailable ==>
           |r| == NotPassedCount(s.failedTestCases) + (if s.failedCasesStatus == Full then 0 else 1))
      && (NotAvailableLine in r <==> s.status == Failed && s.failedCasesStatus == NotAvailable)
      && (IncompleteLine in r <==> s.status == Failed && s.failedCasesStatus in {Partial, Empty})
  {
    var lines := FailedCaseLines(s.failedTestCases, inSec);
    assert NotAvailableLine[0] == '\U{1B}' && IncompleteLine[0] == '\U{1B}';
    assert |NotAvailableLine| != |IncompleteLine|;
    forall line | line in lines
      ensures line != NotAvailableLine && line != IncompleteLine
    {
      var c :| c in s.failedTestCases && c.status != CasePassed && line == CaseLine(c, inSec);
      CaseLineColumns(c, inSec);
      assert line[0] == CaseIndent()[0] == ' ';
    }
  }

  // ---------------------------------------------------------------------------
  // print: warnings, failed logs and coverage files

  function WarningLine(w: string): string
  {
    "  " + Marker(Warning) + "WARNING: " + Marker(Default) + w + "\n"
  }

  /** Every warning, in order. */
  function WarningLines(ws: seq<string>): (r: seq<string>)
    ensures |r| == |ws|
    ensures forall i :: 0 <= i < |ws| ==> r[i] == WarningLine(ws[i])
  {
    if ws == [] then [] else WarningLines(ws[..|ws| - 1]) + [WarningLine(ws[|ws| - 1])]
  }

  function PathLine(p: string): string
  {
    "  " + p + "\n"
  }

  /** The paths of the failed logs that exist. */
  function LogLines(logs: seq<LogFile>): (r: seq<string>)
    ensures |r| <= |logs|
    ensures forall line :: line in r ==> exists l :: l in logs && l.present && line == PathLine(l.path)
  {
    if logs == [] then []
    else
      var l := logs[|logs| - 1];
      assert l in logs;
      LogLines(logs[..|logs| - 1]) + (if l.present then [PathLine(l.path)] else [])
  }

  /** Every failed log that exists has its path printed. */
  lemma {:induction false} LogLinesComplete(logs: seq<LogFile>, l: LogFile)
    requires l in logs && l.present
    ensures PathLine(l.path) in LogLines(logs)
  {
    var init := logs[..|logs| - 1];
    if l != logs[|logs| - 1] {
      assert logs == init + [logs[|logs| - 1]];
      assert l in init;
      LogLinesComplete(init, l);
    }
  }

  /** A coverage file is worth printing when it exists and is not empty. */
  predicate NonTrivial(f: CoverageFile)
  {
    f.present && f.size.Some? && f.size.value > 0
  }

  /** The paths of the non-trivial coverage files. */
  function CoverageLines(files: seq<CoverageFile>): (r: seq<string>)
    ensures |r| <= |files|
    ensures forall line :: line in r ==> exists f :: f in files && NonTrivial(f) && line == PathLine(f.path)
  {
    if files == [] then []
    else
      var f := files[|files| - 1];
      assert f in files;
      CoverageLines(files[..|files| - 1]) + (if NonTrivial(f) then [PathLine(f.path)] else [])
  }

  /** Every non-trivial coverage file has its path printed. */
  lemma {:induction false} CoverageLinesComplete(files: seq<CoverageFile>, f: CoverageFile)
    requires f in files && NonTrivial(f)
    ensures PathLine(f.path) in CoverageLines(files)
  {
    var init := files[..|files| - 1];
    if f != files[|files| - 1] {
      assert files == init + [files[|files| - 1]];
      assert f in init;
      CoverageLinesComplete(init, f);
    }
  }
  /** What print writes after the status line when not listing failed test cases. */
  function DetailLines(s: Summary): seq<string>
  {
    WarningLines(s.warnings) + LogLines(s.failedLogs) + CoverageLines(s.coverageFiles)
  }

  /** Everything print writes for one target. */
  function SummaryLines(s: Summary, verbose: bool, printFailed: bool, fmt: TimeFormat): (r: seq<string>)
    ensures s.status == FailedToBuild <==> r == []
    ensures r != [] ==> r[0] == StatusLine(s, verbose, fmt)
    ensures r != [] && printFailed ==> r[1..] == CaseSection(s, fmt.inSec)
    ensures r != [] && !printFailed ==> r[1..] == DetailLines(s)
  {
    if s.status == FailedToBuild then []
    else [StatusLine(s, verbose, fmt)] + (if printFailed then CaseSection(s, fmt.inSec) else DetailLines(s))
  }

  /**
   * In failed-test-case mode every line after the status line is a warning about the
   * case list or the line of a test case that did not pass: no warning, log path
   * or coverage path is printed.
   */
  lemma {:induction false} FailedModeShowsOnlyCases(s: Summary, verbose: bool, fmt: TimeFormat)
    ensures var r := SummaryLines(s, verbose, true, fmt);
      forall i :: 1 <= i < |r| ==>
        || r[i] == NotAvailableLine
        || r[i] == IncompleteLine
        || exists c :: c in s.failedTestCases && c.status != CasePassed && r[i] == CaseLine(c, fmt.inSec)
  {
    var r := SummaryLines(s, verbose, true, fmt);
    var section := CaseSection(s, fmt.inSec);
    CaseSectionLines(s, fmt.inSec);
    forall i | 1 <= i < |r|
      ensures r[i] in section
    {
      InTail(r, section, i);
    }
  }

  lemma InTail(r: seq<string>, tail: seq<string>, i: nat)
    requires 1 <= i < |r| && r[1..] == tail
    ensures r[i] in tail
  {
    assert r[i] == tail[i - 1];
  }

  /** Every line of the failed-case section is one of its two warnings or a non-PASSED case's line. */
  lemma {:induction false} CaseSectionLines(s: Summary, inSec: int -> string)
    ensures forall line :: line in CaseSection(s, inSec) ==>
      || line == NotAvailableLine
      || line == IncompleteLine
      || exists c :: c in s.failedTestCases && c.status != CasePassed && line == CaseLine(c, inSec)
  {
    var lines := FailedCaseLines(s.failedTestCases, inSec);
    forall line | line in CaseSection(s, inSec) && line != NotAvailableLine && line != IncompleteLine
      ensures line in lines
    {
    }
  }

  // ---------------------------------------------------------------------------
  // printCachedOutput

  function LogPaths(logs: seq<LogFile>): (r: seq<string>)
    ensures |r| == |logs|
    ensures forall i :: 0 <= i < |logs| ==> r[i] == logs[i].path
  {
    if logs == [] then [] else LogPaths(logs[..|logs| - 1]) + [logs[|logs| - 1].path]
  }

  /** The space-separated log list of the header: failed logs, then passed logs. */
  function SeeList(s: Summary): string
  {
    Join(LogPaths(s.failedLogs) + LogPaths(s.passedLogs), ' ')
  }

  /** The header line; it shows the status name itself, underscores included. */
  function CachedHeader(s: Summary): string
  {
    Marker(s.statusMode) + StatusName(s.status) + ": " + Marker(Default) + s.targetLabel
    + " (see " + SeeList(s) + ")" + "\n"
  }

  function InfoLine(s: Summary): string
  {
    Marker(Info) + "INFO: " + Marker(Default) + "From Testing " + s.targetLabel + "\n"
  }

  /**
   * The header's log list splits back into the failed logs' paths followed by
   * the passed logs' paths, when no path holds a space.
   */
  lemma {:induction false} SeeListFailedFirst(s: Summary)
    requires |s.failedLogs| + |s.passedLogs| >= 1
    requires forall i :: 0 <= i < |s.failedLogs| ==> ' ' !in s.failedLogs[i].path
    requires forall i :: 0 <= i < |s.passedLogs| ==> ' ' !in s.passedLogs[i].path
    ensures var f := SplitOn(SeeList(s), ' ');
      && |f| == |s.failedLogs| + |s.passedLogs|
      && (forall i :: 0 <= i < |s.failedLogs| ==> f[i] == s.failedLogs[i].path)
      && (forall j :: 0 <= j < |s.passedLogs| ==> f[|s.failedLogs| + j] == s.passedLogs[j].path)
  {
    var parts := LogPaths(s.failedLogs) + LogPaths(s.passedLogs);
    forall i | 0 <= i < |parts|
      ensures ' ' !in parts[i]
    {
      if i >= |s.failedLogs| {
        assert parts[i] == s.passedLogs[i - |s.failedLogs|].path;
      }
    }
    SplitJoin(parts, ' ');
  }

  /** What writing one log adds: its text, or the message for a log that cannot be read. */
  function LogDump(l: LogFile, testName: string, readLog: string -> Option<string>): string
  {
    match readLog(l.path)
    case Some(text) => text
    case None => "==================== Could not read test output for " + testName + "\n"
  }

  function LogDumps(logs: seq<LogFile>, testName: string, readLog: string -> Option<string>): (r: seq<string>)
    ensures |r| == |logs|
    ensures forall i :: 0 <= i < |logs| ==> r[i] == LogDump(logs[i], testName, readLog)
  {
    if logs == [] then []
    else LogDumps(logs[..|logs| - 1], testName, readLog) + [LogDump(logs[|logs| - 1], testName, readLog)]
  }

  /**
   * Everything printCachedOutput writes: the header, the INFO line, then the failed
   * logs if failed output is shown, then the passed logs if passed output is shown.
   */
  function CachedOutputLines(s: Summary, showFailed: bool, showPassed: bool,
                             readLog: string -> Option<string>): (r: seq<string>)
    ensures var nf := if showFailed then |s.failedLogs| else 0;
      var np := if showPassed then |s.passedLogs| else 0;
      && |r| == 2 + nf + np
      && r[0] == CachedHeader(s)
      && r[1] == InfoLine(s)
      && (forall i :: 0 <= i < nf ==> r[2 + i] == LogDump(s.failedLogs[i], s.targetLabel, readLog))
      && (forall j :: 0 <= j < np ==> r[2 + nf + j] == LogDump(s.passedLogs[j], s.targetLabel, readLog))
  {
    [CachedHeader(s), InfoLine(s)]
    + (if showFailed then LogDumps(s.failedLogs, s.targetLabel, readLog) else [])
    + (if showPassed then LogDumps(s.passedLogs, s.targetLabel, readLog) else [])
  }
}
