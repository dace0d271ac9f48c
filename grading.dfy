/**
 * Grading one question (`grade_question`) and the batch aggregator
 * (`grade_all`).
 *
 * The toolchain is abstract: `Tools.exec` tells what a command run with a
 * given standard input and time limit ends with, `Tools.parseFloat` is
 * Python's `float()` on a stripped string (`None` where it raises), and
 * `Tools.fold` is `str.casefold`. The file system is described by
 * `QuestionDir` values; writing files and reports is not modelled.
 */
module Grading {
  import opened Common
  import opened Text
  import Testcase
  import Compare
  import opened Runner
  import opened Ordering

  /** The commands the grading engine runs. */
  datatype Command =
    | Javac                            // javac -d <classes> <sources>
    | JavaClasses(mainClass: string)   // java -cp <classes> <main class>
    | JavaJar                          // java -jar run/<question>.jar

  datatype Tools = Tools(
    exec: (Command, Option<string>, Option<int>) -> ProcessOutcome,
    parseFloat: string -> Option<real>,
    fold: string -> string)

  /** The global comparison settings (the `defaults` dictionary). */
  datatype Defaults = Defaults(
    strict: bool,
    ignoreTrailingPerLine: bool,
    removeSpaces: TriBool,
    caseSensitive: TriBool,
    timeoutMs: Option<int>)

  /** What `grade_all` uses when no settings are given. */
  const StandardDefaults := Defaults(false, false, Unset, Unset, None)

  /** A test-case file: its name, its stem (`Path.stem`) and its text. */
  datatype CaseFile = CaseFile(name: string, stem: string, text: string)

  /** A question directory as the grading engine sees it. */
  datatype QuestionDir = QuestionDir(
    present: bool,
    hasJar: bool,                  // Given/run/<question>.jar exists
    hasMainJava: bool,             // Given/src/Main.java exists
    sources: seq<SourceFile>,      // Given/src/**/*.java, in scan order
    cases: seq<CaseFile>)          // TestCases/*.txt, sorted by path; empty when the folder is missing

  datatype CaseResult = CaseResult(
    question: string,
    testCase: string,
    passed: bool,
    mark: real,
    expectedPath: string,
    studentPath: string,
    expected: string,
    got: string,
    compiled: bool,
    mainClass: string,
    compileLog: string,
    removeSpaces: TriBool,
    caseSensitive: TriBool,
    exitCode: int,
    stderr: string,
    timedOut: bool,
    emptyOutput: bool,
    runtimeError: bool,
    expectedFromJar: bool,
    studentFromJar: bool)

  datatype QuestionSummary = QuestionSummary(
    question: string,
    passed: nat,
    total: nat,
    percent: real,
    compiled: bool,
    mainClass: string,
    score: real,
    maxScore: real)

  /** The three values `grade_question` returns. */
  datatype Graded = Graded(results: seq<CaseResult>, summary: QuestionSummary, message: string)

  /** How the student program is run once the setup steps succeeded. */
  datatype Setup = Setup(compiled: bool, mainClass: string, compileLog: string, student: Command, studentFromJar: bool)

  function InitialSummary(q: string): QuestionSummary {
    QuestionSummary(q, 0, 0, 0.0, false, "Main", 0.0, 0.0)
  }

  // ---------------------------------------------------------------------------
  // One test case

  /** `to_float(val, default=1.0)`. */
  function ReadMark(val: Option<string>, tools: Tools): real {
    match val
    case None => 1.0
    case Some(s) => tools.parseFloat(Strip(s)).GetOr(1.0)
  }

  /** The text fed to both programs: the INPUT section, or the whole file when there is none. */
  function CaseInput(tc: Testcase.TestCase, raw: string): string {
    tc.input.GetOr(raw)
  }

  /**
   * The expected output: what the reference jar prints for the case's input
   * when there is a jar, else the OUTPUT section, else nothing.
   */
  function ExpectedOutput(hasJar: bool, tc: Testcase.TestCase, input: string, timeout: Option<int>, tools: Tools): (r: string)
    ensures hasJar ==> r == RunCmd(tools.exec(JavaJar, Some(input), timeout)).stdout
    ensures !hasJar && tc.output.Some? ==> r == tc.output.value
    ensures !hasJar && tc.output.None? ==> r == ""
  {
    if hasJar then RunCmd(tools.exec(JavaJar, Some(input), timeout)).stdout
    else if tc.output.Some? then tc.output.value
    else ""
  }

  /**
   * The implicit whitespace collapse runs only when neither comparison flag
   * is set (by the case or by the defaults) and strict mode is off.
   */
  function WhitespaceNormGate(rs: TriBool, cs: TriBool, d: Defaults): (on: bool)
    ensures on ==> rs == Unset && cs == Unset && !d.strict
    ensures rs == Unset && cs == Unset && !d.strict ==> on
  {
    rs == Unset && cs == Unset && !d.strict
  }

  function RulesFor(rs: TriBool, cs: TriBool, d: Defaults): Compare.Rules {
    Compare.Rules(rs, cs, WhitespaceNormGate(rs, cs, d), d.strict, d.ignoreTrailingPerLine)
  }

  /**
   * The gate decides the verdict on `"a  b\n"` against `"a b"`: unless spaces
   * are removed or case is folded, the two pass exactly when the implicit
   * whitespace collapse runs.
   */
  lemma GateVerdict(rs: TriBool, cs: TriBool, d: Defaults, fold: string -> string)
    requires rs != Yes && cs != No
    ensures Compare.ApplyCompareRules(Some("a  b\n"), Some("a b"), RulesFor(rs, cs, d), fold)
      <==> WhitespaceNormGate(rs, cs, d)
  {
    var e, g := "a  b\n", "a b";
    if WhitespaceNormGate(rs, cs, d) {
      CollapsedPair();
    } else if !d.strict {
      SplitPair();
      if d.ignoreTrailingPerLine {
        assert Compare.TrimLines(e) == "a  b";
        assert Compare.TrimLines(g) == "a b";
      }
    }
  }

  /** Both sides collapse and strip to `"a b"`. */
  lemma CollapsedPair()
    ensures Strip(Compare.CollapseSpaces("a  b\n")) == "a b"
    ensures Strip(Compare.CollapseSpaces("a b")) == "a b"
  {
    CollapseExpected();
    CollapseActual();
    StripCollapsed();
  }

  lemma CollapseExpected()
    ensures Compare.CollapseSpaces("a  b\n") == "a b "
  {
    var e := "a  b\n";
    assert e[1..] == "  b\n" && e[1..][1..] == " b\n";
    assert LeadingSpaces(" b\n") == 1;
    assert TrimLeft(" b\n") == "b\n";
    assert Compare.CollapseSpaces("\n") == " " + Compare.CollapseSpaces([]);
    assert Compare.CollapseSpaces("b\n") == "b ";
  }

  lemma CollapseActual()
    ensures Compare.CollapseSpaces("a b") == "a b"
  {
    assert Compare.CollapseSpaces("b") == "b";
  }

  lemma StripCollapsed()
    ensures Strip("a b ") == "a b" && Strip("a b") == "a b"
  {
    assert TrimLeft("a b ") == "a b ";
    assert TrailingSpaces("a b ") == 1;
    assert TrimLeft("a b") == "a b" && TrimRight("a b") == "a b";
  }

  /** Each side is a single line. */
  lemma SplitPair()
    ensures Compare.SplitLines("a  b\n") == ["a  b"]
    ensures Compare.SplitLines("a b") == ["a b"]
    ensures TrimRight("a  b") == "a  b" && TrimRight("a b") == "a b"
  {
    assert Compare.BreakIndex("a  b\n") == 4;
    assert Compare.BreakIndex("a b") == 3;
    assert "a  b\n"[..4] == "a  b" && "a  b\n"[5..] == [];
  }

  function OutPath(outDir: string, q: string, stem: string, suffix: string): string {
    outDir + "/" + q + "-" + stem + suffix
  }

  /** The record `grade_question` appends for one case. */
  function GradeCase(q: string, c: CaseFile, s: Setup, hasJar: bool, d: Defaults, tools: Tools, outDir: string): (r: CaseResult)
  {
    GradeParsed(q, c, Testcase.Parsed(c.text), s, hasJar, d, tools, outDir)
  }

  /** The record for a case whose text parsed to `tdata`. */
  function GradeParsed(q: string, c: CaseFile, tdata: Testcase.TestCase, s: Setup, hasJar: bool, d: Defaults, tools: Tools, outDir: string): (r: CaseResult)
  {
    var input := CaseInput(tdata, c.text);
    var rs := Testcase.ToBool(tdata.removeSpaces, d.removeSpaces);
    var cs := Testcase.ToBool(tdata.caseSensitive, d.caseSensitive);
    var mark := ReadMark(tdata.mark, tools);
    var timeout := Testcase.ToInt(tdata.timeoutMs, d.timeoutMs);
    var exp := ExpectedOutput(hasJar, tdata, input, timeout, tools);
    var run := RunCmd(tools.exec(s.student, Some(input), timeout));
    var passed := Compare.ApplyCompareRules(Some(exp), Some(run.stdout), RulesFor(rs, cs, d), tools.fold);
    CaseResult(q, c.name, passed, mark,
      OutPath(outDir, q, c.stem, "-expected.txt"), OutPath(outDir, q, c.stem, "-student.txt"),
      exp, run.stdout, s.compiled, s.mainClass, s.compileLog, rs, cs,
      run.exitCode, run.stderr, run.timedOut,
      Strip(run.stdout) == "", run.exitCode != 0 || Strip(run.stderr) != "",
      hasJar, s.studentFromJar)
  }

  /**
   * One case's record: the case's own REMOVE_SPACES and CASE_SENSITIVE words
   * take precedence over the defaults, which apply when a section is absent;
   * a missing MARK counts 1.0 and an unreadable one too; the student's run
   * gives the output and its status; and the verdict compares the recorded
   * expected and actual output under the resolved rules.
   */
  lemma GradeCaseSpec(q: string, c: CaseFile, s: Setup, hasJar: bool, d: Defaults, tools: Tools, outDir: string)
    ensures var r := GradeCase(q, c, s, hasJar, d, tools, outDir);
      var tc := Testcase.Parsed(c.text);
      var input := tc.input.GetOr(c.text);
      var timeout := Testcase.ToInt(tc.timeoutMs, d.timeoutMs);
      var run := RunCmd(tools.exec(s.student, Some(input), timeout));
      && r.question == q && r.testCase == c.name
      && r.removeSpaces == Testcase.ToBool(tc.removeSpaces, d.removeSpaces)
      && r.caseSensitive == Testcase.ToBool(tc.caseSensitive, d.caseSensitive)
      && (tc.removeSpaces.None? ==> r.removeSpaces == d.removeSpaces)
      && (tc.caseSensitive.None? ==> r.caseSensitive == d.caseSensitive)
      && (tc.mark.None? ==> r.mark == 1.0)
      && (tc.mark.Some? ==> r.mark == tools.parseFloat(Strip(tc.mark.value)).GetOr(1.0))
      && r.got == run.stdout && r.stderr == run.stderr && r.exitCode == run.exitCode && r.timedOut == run.timedOut
      && r.emptyOutput == (Strip(r.got) == "")
      && r.runtimeError == (r.exitCode != 0 || Strip(r.stderr) != "")
      && r.passed == Compare.ApplyCompareRules(Some(r.expected), Some(r.got), RulesFor(r.removeSpaces, r.caseSensitive, d), tools.fold)
      && r.expectedPath == OutPath(outDir, q, c.stem, "-expected.txt")
      && r.studentPath == OutPath(outDir, q, c.stem, "-student.txt")
      && r.compiled == s.compiled && r.mainClass == s.mainClass && r.compileLog == s.compileLog
      && r.expectedFromJar == hasJar && r.studentFromJar == s.studentFromJar
  {
  }

  /**
   * For a case whose expected output is `"a  b\n"` and whose program printed
   * `"a b"`, with spaces kept and case compared, the case passes exactly when
   * the implicit whitespace collapse is on.
   */
  lemma CaseGateVerdict(q: string, c: CaseFile, s: Setup, hasJar: bool, d: Defaults, tools: Tools, outDir: string)
    requires var r := GradeCase(q, c, s, hasJar, d, tools, outDir);
      r.expected == "a  b\n" && r.got == "a b" && r.removeSpaces != Yes && r.caseSensitive != No
    ensures var r := GradeCase(q, c, s, hasJar, d, tools, outDir);
      r.passed <==> WhitespaceNormGate(r.removeSpaces, r.caseSensitive, d)
  {
    GradeCaseSpec(q, c, s, hasJar, d, tools, outDir);
    var r := GradeCase(q, c, s, hasJar, d, tools, outDir);
    GateVerdict(r.removeSpaces, r.caseSensitive, d, tools.fold);
  }

  /**
   * A student run that outlives its time limit still has its partial output
   * compared: the case is recorded as a timeout with code 124 and a runtime
   * error, and it passes when that output is exactly the expected one.
   */
  lemma PartialOutputCompared(q: string, c: CaseFile, s: Setup, hasJar: bool, d: Defaults, tools: Tools, outDir: string,
                              out: string, err: Option<string>)
    requires var tc := Testcase.Parsed(c.text);
      tools.exec(s.student, Some(CaseInput(tc, c.text)), Testcase.ToInt(tc.timeoutMs, d.timeoutMs)) == TimedOut(Some(out), err)
    ensures var r := GradeCase(q, c, s, hasJar, d, tools, outDir);
      && r.timedOut && r.exitCode == TimeoutCode && r.runtimeError
      && r.got == out && r.stderr == err.GetOr("") + "\n[TIMEOUT]"
      && (r.expected == out ==> r.passed)
  {
  }

  // ---------------------------------------------------------------------------
  // Tallies

  function SumMarks(rs: seq<CaseResult>): real {
    if rs == [] then 0.0 else SumMarks(rs[..|rs| - 1]) + rs[|rs| - 1].mark
  }

  function SumPassedMarks(rs: seq<CaseResult>): real {
    if rs == [] then 0.0
    else SumPassedMarks(rs[..|rs| - 1]) + (if rs[|rs| - 1].passed then rs[|rs| - 1].mark else 0.0)
  }

  function CountPassed(rs: seq<CaseResult>): nat {
    if rs == [] then 0 else CountPassed(rs[..|rs| - 1]) + (if rs[|rs| - 1].passed then 1 else 0)
  }

  lemma TallyAppend(rs: seq<CaseResult>, r: CaseResult)
    ensures SumMarks(rs + [r]) == SumMarks(rs) + r.mark
    ensures SumPassedMarks(rs + [r]) == SumPassedMarks(rs) + (if r.passed then r.mark else 0.0)
    ensures CountPassed(rs + [r]) == CountPassed(rs) + (if r.passed then 1 else 0)
  {
    assert (rs + [r])[..|rs|] == rs;
  }

  /** `round(100.0 * score / max_score, 2)` when the maximum is positive, else 0 (rounding not modelled). */
  function Percent(score: real, maxScore: real): real {
    if maxScore > 0.0 then 100.0 * score / maxScore else 0.0
  }

  /** A score between 0 and the maximum is between 0 and 100 percent. */
  lemma PercentBound(score: real, maxScore: real)
    requires 0.0 <= score <= maxScore
    ensures 0.0 <= Percent(score, maxScore) <= 100.0
  {
    if maxScore > 0.0 {
      var r := score / maxScore;
      assert r * maxScore == score;
    }
  }

  // ---------------------------------------------------------------------------
  // One question

  function CompileLog(r: ExecutionResult): string {
    r.stdout + (if r.stderr != "" then "\n" + r.stderr else "")
  }

  const NoFolder := "Question folder does not exist."
  const NothingToRun := "No .java files in Given/src/ and no run/JAR found."
  const SkippedCompile := "Skipped compilation: using existing run/*.jar"
  const NoProgram := "Compilation failed and no run/JAR available."

  /** The setup steps' verdict: stop with this outcome, or grade the cases with this setup. */
  datatype Prepared = Stop(outcome: Graded) | Ready(setup: Setup, base: QuestionSummary)

  /**
   * The steps before the cases: a missing folder, nothing to compile or run,
   * or a failed compilation without a jar stop the question; otherwise the
   * compiled classes, or else the jar, are the student program.
   */
  function Prepare(q: string, dir: QuestionDir, tools: Tools): (p: Prepared)
    ensures p.Stop? ==> (p.outcome.results == [] && p.outcome.summary.total == 0
      && p.outcome.summary.passed == 0 && p.outcome.summary.percent == 0.0
      && p.outcome.summary.score == 0.0 && p.outcome.summary.maxScore == 0.0
      && p.outcome.summary.question == q)
    ensures p.Ready? ==> (p.base.question == q && p.base.total == 0 && p.base.percent == 0.0
      && p.base.passed == 0 && p.base.score == 0.0 && p.base.maxScore == 0.0)
    ensures p.Ready? ==> (p.setup.student == JavaJar <==> p.setup.studentFromJar)
    ensures p.Ready? && p.setup.studentFromJar ==> dir.hasJar
  {
    if !dir.present then Stop(Graded([], InitialSummary(q), NoFolder))
    else if dir.sources == [] && !dir.hasJar then Stop(Graded([], InitialSummary(q), NothingToRun))
    else
      var compiled := dir.sources != [] && RunCmd(tools.exec(Javac, None, None)).exitCode == 0;
      var log := if dir.sources != [] then CompileLog(RunCmd(tools.exec(Javac, None, None))) else SkippedCompile;
      var main := DetectMainClass(dir.hasMainJava, dir.sources);
      var base := InitialSummary(q).(compiled := compiled, mainClass := main);
      if !compiled && !dir.hasJar then Stop(Graded([], base, NoProgram))
      else Ready(Setup(compiled, main, log, if compiled then JavaClasses(main) else JavaJar, !compiled), base)
  }

  /** Whether `javac` ran and exited with 0: it runs only when there are sources. */
  predicate CompiledOk(dir: QuestionDir, tools: Tools) {
    dir.sources != [] && RunCmd(tools.exec(Javac, None, None)).exitCode == 0
  }

  /**
   * The setup stops the question exactly when the folder is missing, when
   * there is neither a source nor a jar, or when compilation failed and
   * there is no jar, each with its own message. Otherwise compiled classes
   * take precedence over the jar as the student program.
   */
  lemma PrepareSpec(q: string, dir: QuestionDir, tools: Tools)
    ensures var p := Prepare(q, dir, tools);
      && (p.Stop? <==> !dir.present || (dir.sources == [] && !dir.hasJar) || (!CompiledOk(dir, tools) && !dir.hasJar))
      && (!dir.present ==> p.Stop? && p.outcome.message == NoFolder)
      && (dir.present && dir.sources == [] && !dir.hasJar ==> p.Stop? && p.outcome.message == NothingToRun)
      && (dir.present && dir.sources != [] && !CompiledOk(dir, tools) && !dir.hasJar
          ==> p.Stop? && p.outcome.message == NoProgram
              && p.outcome.summary.mainClass == DetectMainClass(dir.hasMainJava, dir.sources))
      && (p.Ready? ==> p.setup.compiled == CompiledOk(dir, tools) && (p.setup.studentFromJar <==> !p.setup.compiled))
      && (p.Ready? && p.setup.compiled ==> p.setup.student == JavaClasses(DetectMainClass(dir.hasMainJava, dir.sources)))
      && (p.Ready? && dir.sources == [] ==> p.setup.compileLog == SkippedCompile)
      && (p.Ready? && dir.sources != [] ==> p.setup.compileLog == CompileLog(RunCmd(tools.exec(Javac, None, None))))
      && (p.Ready? ==> p.base.compiled == p.setup.compiled && p.base.mainClass == p.setup.mainClass)
  {
  }

  /** The summary once every case has been graded. */
  function Tally(base: QuestionSummary, total: nat, results: seq<CaseResult>): QuestionSummary {
    base.(passed := CountPassed(results), total := total,
          score := SumPassedMarks(results), maxScore := SumMarks(results),
          percent := Percent(SumPassedMarks(results), SumMarks(results)))
  }

  /** Grades one case file of a question whose setup succeeded. */
  function CaseGrader(q: string, s: Setup, hasJar: bool, d: Defaults, tools: Tools, outDir: string): CaseFile -> CaseResult {
    c => GradeCase(q, c, s, hasJar, d, tools, outDir)
  }

  /** What `grade_question` returns for a question directory. */
  function QuestionOutcome(q: string, dir: QuestionDir, d: Defaults, tools: Tools, outDir: string): Graded {
    match Prepare(q, dir, tools)
    case Stop(g) => g
    case Ready(setup, base) =>
      var results := Map(CaseGrader(q, setup, dir.hasJar, d, tools, outDir), dir.cases);
      Graded(results, Tally(base, |dir.cases|, results), setup.compileLog)
  }

  /**
   * `grader` grades every case file as `grade_question` does for this
   * question and setup. The loop below reasons about `grader` without
   * unfolding what grading a case involves.
   */
  ghost predicate Grades(grader: CaseFile -> CaseResult, q: string, s: Setup, hasJar: bool, d: Defaults, tools: Tools, outDir: string) {
    forall c {:trigger GradeCase(q, c, s, hasJar, d, tools, outDir)} :: grader(c) == GradeCase(q, c, s, hasJar, d, tools, outDir)
  }

  /** One pass of the case loop: parse, resolve the settings, run both programs, compare. */
  method GradeOneCase(q: string, tc: CaseFile, setup: Setup, hasJar: bool, d: Defaults, tools: Tools, outDir: string,
                      ghost grader: CaseFile -> CaseResult)
    returns (result: CaseResult)
    requires Grades(grader, q, setup, hasJar, d, tools, outDir)
    ensures result == grader(tc)
  {
    var tdata := Testcase.ParseTestcaseText(tc.text);
    var inputText := CaseInput(tdata, tc.text);
    var removeSpaces := Testcase.ToBool(tdata.removeSpaces, d.removeSpaces);
    var caseSensitive := Testcase.ToBool(tdata.caseSensitive, d.caseSensitive);
    var mark := ReadMark(tdata.mark, tools);
    var timeoutMs := Testcase.ToInt(tdata.timeoutMs, d.timeoutMs);
    var exp := ExpectedOutput(hasJar, tdata, inputText, timeoutMs, tools);
    var run := RunCmd(tools.exec(setup.student, Some(inputText), timeoutMs));
    var passed := Compare.ApplyCompareRules(Some(exp), Some(run.stdout), RulesFor(removeSpaces, caseSensitive, d), tools.fold);
    result := CaseResult(q, tc.name, passed, mark,
      OutPath(outDir, q, tc.stem, "-expected.txt"), OutPath(outDir, q, tc.stem, "-student.txt"),
      exp, run.stdout, setup.compiled, setup.mainClass, setup.compileLog, removeSpaces, caseSensitive,
      run.exitCode, run.stderr, run.timedOut,
      Strip(run.stdout) == "", run.exitCode != 0 || Strip(run.stderr) != "",
      hasJar, setup.studentFromJar);
    assert result == GradeCase(q, tc, setup, hasJar, d, tools, outDir);
  }

  /** `grade_question`: sets the question up, then grades its cases one by one. */
  method GradeQuestion(q: string, dir: QuestionDir, d: Defaults, tools: Tools, outDir: string)
    returns (results: seq<CaseResult>, summary: QuestionSummary, message: string)
    ensures Graded(results, summary, message) == QuestionOutcome(q, dir, d, tools, outDir)
  {
    results := [];
    summary := InitialSummary(q);
    if !dir.present {
      return results, summary, NoFolder;
    }
    var compileLog := "";
    var compiledOk := false;
    if dir.sources != [] {
      var r := RunCmd(tools.exec(Javac, None, None));
      compiledOk := r.exitCode == 0;
      compileLog := CompileLog(r);
    } else if dir.hasJar {
      compileLog := SkippedCompile;
    } else {
      return results, summary, NothingToRun;
    }
    summary := summary.(compiled := compiledOk);
    var mainClass := DetectMainClass(dir.hasMainJava, dir.sources);
    summary := summary.(mainClass := mainClass);
    var studentCmd: Command;
    var studentFromJar := false;
    if compiledOk {
      studentCmd := JavaClasses(mainClass);
    } else if dir.hasJar {
      studentCmd := JavaJar;
      studentFromJar := true;
    } else {
      return results, summary, NoProgram;
    }
    var setup := Setup(compiledOk, mainClass, compileLog, studentCmd, studentFromJar);
    assert Prepare(q, dir, tools) == Ready(setup, summary);
    results, summary := GradeCaseFiles(q, dir.cases, setup, dir.hasJar, d, tools, outDir, summary,
                                       CaseGrader(q, setup, dir.hasJar, d, tools, outDir));
    message := compileLog;
  }

  /** The case loop of `grade_question` and the percentage computed after it. */
  method GradeCaseFiles(q: string, tcs: seq<CaseFile>, setup: Setup, hasJar: bool, d: Defaults, tools: Tools, outDir: string,
                        base: QuestionSummary, ghost grader: CaseFile -> CaseResult)
    returns (results: seq<CaseResult>, summary: QuestionSummary)
    requires Grades(grader, q, setup, hasJar, d, tools, outDir)
    requires base.passed == 0 && base.score == 0.0 && base.maxScore == 0.0 && base.percent == 0.0
    ensures results == Map(grader, tcs)
    ensures summary == Tally(base, |tcs|, results)
  {
    results := [];
    summary := base.(total := |tcs|);
    var i := 0;
    while i < |tcs|
      invariant 0 <= i <= |tcs| && |results| == i
      invariant forall k :: 0 <= k < i ==> results[k] == grader(tcs[k])
      invariant summary == Running(base, |tcs|, results)
    {
      results, summary := GradeNextCase(q, tcs[i], setup, hasJar, d, tools, outDir, grader, results, summary, base, |tcs|);
      i := i + 1;
    }
    summary := summary.(percent := Percent(summary.score, summary.maxScore));
  }

  /** The totals of a question after grading the cases `results` came from, before the percentage. */
  function Running(base: QuestionSummary, total: nat, results: seq<CaseResult>): QuestionSummary {
    base.(total := total, maxScore := SumMarks(results), score := SumPassedMarks(results), passed := CountPassed(results))
  }

  /** One pass of the case loop: grades the case and adds its mark to the totals. */
  method GradeNextCase(q: string, tc: CaseFile, setup: Setup, hasJar: bool, d: Defaults, tools: Tools, outDir: string,
                       ghost grader: CaseFile -> CaseResult, results: seq<CaseResult>, summary: QuestionSummary,
                       ghost base: QuestionSummary, ghost total: nat)
    returns (results': seq<CaseResult>, summary': QuestionSummary)
    requires Grades(grader, q, setup, hasJar, d, tools, outDir)
    requires summary == Running(base, total, results)
    ensures results' == results + [grader(tc)]
    ensures summary' == Running(base, total, results')
  {
    var result := GradeOneCase(q, tc, setup, hasJar, d, tools, outDir, grader);
    summary' := summary.(maxScore := summary.maxScore + result.mark);
    if result.passed {
      summary' := summary'.(score := summary'.score + result.mark, passed := summary'.passed + 1);
    }
    TallyAppend(results, result);
    results' := results + [result];
  }

  // ---------------------------------------------------------------------------
  // What a question's summary promises

  lemma {:induction false} CountPassedBound(rs: seq<CaseResult>)
    ensures CountPassed(rs) <= |rs|
  {
    if rs != [] {
      CountPassedBound(rs[..|rs| - 1]);
    }
  }

  lemma {:induction false} ScoreBounds(rs: seq<CaseResult>)
    requires forall k :: 0 <= k < |rs| ==> rs[k].mark >= 0.0
    ensures 0.0 <= SumPassedMarks(rs) <= SumMarks(rs)
  {
    if rs != [] {
      ScoreBounds(rs[..|rs| - 1]);
    }
  }

  /** Every case passed exactly when the pass count is the total; then the score is the maximum. */
  lemma {:induction false} AllPassed(rs: seq<CaseResult>)
    ensures CountPassed(rs) == |rs| <==> forall k :: 0 <= k < |rs| ==> rs[k].passed
    ensures CountPassed(rs) == |rs| ==> SumPassedMarks(rs) == SumMarks(rs)
  {
    if rs != [] {
      var init := rs[..|rs| - 1];
      AllPassed(init);
      CountPassedBound(init);
      assert forall k :: 0 <= k < |init| ==> init[k] == rs[k];
    }
  }

  /**
   * A graded question's summary: Total is the number of case files, MaxScore
   * the sum of all marks, Score the sum of the passing cases' marks, Passed
   * the number of passing cases (at most Total), and Percent stays 0 unless
   * MaxScore is positive; with non-negative marks Score lies between 0 and
   * MaxScore and Percent between 0 and 100.
   */
  lemma TallySpec(base: QuestionSummary, results: seq<CaseResult>)
    ensures var s := Tally(base, |results|, results);
      && s.total == |results|
      && s.maxScore == SumMarks(results)
      && s.score == SumPassedMarks(results)
      && s.passed == CountPassed(results) <= s.total
      && (s.maxScore <= 0.0 ==> s.percent == 0.0)
      && ((forall k :: 0 <= k < |results| ==> results[k].mark >= 0.0) ==>
            0.0 <= s.score <= s.maxScore && 0.0 <= s.percent <= 100.0)
  {
    CountPassedBound(results);
    if forall k :: 0 <= k < |results| ==> results[k].mark >= 0.0 {
      ScoreBounds(results);
      PercentBound(SumPassedMarks(results), SumMarks(results));
    }
  }

  /**
   * Every question either stops before its cases with nothing graded, or
   * grades every case file once, in order, and tallies them as above.
   */
  lemma QuestionSummarySpec(q: string, dir: QuestionDir, d: Defaults, tools: Tools, outDir: string)
    ensures var g := QuestionOutcome(q, dir, d, tools, outDir);
      && g.summary.question == q
      && (g.results == [] || |g.results| == |dir.cases| == g.summary.total)
      && g.summary.maxScore == SumMarks(g.results)
      && g.summary.score == SumPassedMarks(g.results)
      && g.summary.passed == CountPassed(g.results) <= g.summary.total
      && (g.summary.maxScore <= 0.0 ==> g.summary.percent == 0.0)
  {
    match Prepare(q, dir, tools)
    case Stop(g) =>
    case Ready(setup, base) =>
      var results := Map(CaseGrader(q, setup, dir.hasJar, d, tools, outDir), dir.cases);
      TallySpec(base, results);
  }

  /**
   * With a reference jar, every case's expected output is what the jar
   * printed for that case's input, whatever OUTPUT section the case has;
   * without one it is the OUTPUT section, or empty.
   */
  lemma ExpectedOutputPrecedence(q: string, dir: QuestionDir, d: Defaults, tools: Tools, outDir: string, k: nat)
    requires k < |QuestionOutcome(q, dir, d, tools, outDir).results|
    ensures var tc := Testcase.Parsed(dir.cases[k].text);
      var input := CaseInput(tc, dir.cases[k].text);
      var timeout := Testcase.ToInt(tc.timeoutMs, d.timeoutMs);
      var r := QuestionOutcome(q, dir, d, tools, outDir).results[k];
      && r.expectedFromJar == dir.hasJar
      && (dir.hasJar ==> r.expected == RunCmd(tools.exec(JavaJar, Some(input), timeout)).stdout)
      && (!dir.hasJar ==> r.expected == tc.output.GetOr(""))
  {
  }

  // ---------------------------------------------------------------------------
  // Partial output on POSIX systems, as written

  /**
   * Whether grading case `c` makes `grade_question` raise on POSIX: the jar's
   * run (when there is a jar) or the student's run did not come back as text,
   * so `run_cmd` raised or the following `write_text` of its output does.
   */
  predicate CaseAbortsPosix(c: CaseFile, s: Setup, hasJar: bool, d: Defaults, tools: Tools) {
    var tc := Testcase.Parsed(c.text);
    var input := CaseInput(tc, c.text);
    var timeout := Testcase.ToInt(tc.timeoutMs, d.timeoutMs);
    (hasJar && !RunCmdPosix(tools.exec(JavaJar, Some(input), timeout)).TextRun?)
    || !RunCmdPosix(tools.exec(s.student, Some(input), timeout)).TextRun?
  }

  /**
   * `grade_question` as written, on POSIX: `None` when an exception escapes
   * it, which then escapes `grade_all` too; otherwise the intended outcome.
   */
  function QuestionAsWritten(q: string, dir: QuestionDir, d: Defaults, tools: Tools, outDir: string): Option<Graded> {
    match Prepare(q, dir, tools)
    case Stop(g) => Some(g)
    case Ready(setup, _) =>
      if exists k :: 0 <= k < |dir.cases| && CaseAbortsPosix(dir.cases[k], setup, dir.hasJar, d, tools) then None
      else Some(QuestionOutcome(q, dir, d, tools, outDir))
  }

  /**
   * A student program that prints and then outlives its time limit aborts
   * the question as written on POSIX, where the intended grading records the
   * case as a timeout holding that partial output.
   */
  lemma PartialOutputAborts(q: string, dir: QuestionDir, d: Defaults, tools: Tools, outDir: string,
                            k: nat, out: string, err: Option<string>)
    requires Prepare(q, dir, tools).Ready? && k < |dir.cases| && out != ""
    requires var c := dir.cases[k]; var tc := Testcase.Parsed(c.text);
      tools.exec(Prepare(q, dir, tools).setup.student, Some(CaseInput(tc, c.text)), Testcase.ToInt(tc.timeoutMs, d.timeoutMs))
        == TimedOut(Some(out), err)
    ensures QuestionAsWritten(q, dir, d, tools, outDir) == None
    ensures var r := QuestionOutcome(q, dir, d, tools, outDir).results[k];
      r.got == out && r.timedOut && r.exitCode == TimeoutCode
  {
    var setup := Prepare(q, dir, tools).setup;
    assert CaseAbortsPosix(dir.cases[k], setup, dir.hasJar, d, tools);
    PartialOutputCompared(q, dir.cases[k], setup, dir.hasJar, d, tools, outDir, out, err);
  }

  /** When no run times out after printing, the code as written grades as intended. */
  lemma AsWrittenAgrees(q: string, dir: QuestionDir, d: Defaults, tools: Tools, outDir: string)
    requires Prepare(q, dir, tools).Ready? ==>
      forall k :: 0 <= k < |dir.cases| ==> !CaseAbortsPosix(dir.cases[k], Prepare(q, dir, tools).setup, dir.hasJar, d, tools)
    ensures QuestionAsWritten(q, dir, d, tools, outDir) == Some(QuestionOutcome(q, dir, d, tools, outDir))
  {
  }

  // ---------------------------------------------------------------------------
  // The batch

  datatype BatchResult = BatchResult(
    results: seq<CaseResult>,
    summaries: seq<QuestionSummary>,
    messages: seq<string>,
    outDir: string,
    totalScore: real,
    totalMax: real)

  function SumScores(ss: seq<QuestionSummary>): real {
    if ss == [] then 0.0 else SumScores(ss[..|ss| - 1]) + ss[|ss| - 1].score
  }

  function SumMaxScores(ss: seq<QuestionSummary>): real {
    if ss == [] then 0.0 else SumMaxScores(ss[..|ss| - 1]) + ss[|ss| - 1].maxScore
  }

  /** The per-question outcomes of a batch, question by question. */
  function Outcomes(qs: seq<string>, dirOf: string -> QuestionDir, d: Defaults, tools: Tools, outDir: string): (gs: seq<Graded>)
    ensures |gs| == |qs|
    ensures forall k :: 0 <= k < |qs| ==> gs[k] == QuestionOutcome(qs[k], dirOf(qs[k]), d, tools, outDir)
  {
    seq(|qs|, k requires 0 <= k < |qs| => QuestionOutcome(qs[k], dirOf(qs[k]), d, tools, outDir))
  }

  /** All case results, question after question. */
  function AllResults(gs: seq<Graded>): seq<CaseResult> {
    if gs == [] then [] else AllResults(gs[..|gs| - 1]) + gs[|gs| - 1].results
  }

  /** `"<question>: <message>"` for every question that returned a non-empty message. */
  function AllMessages(qs: seq<string>, gs: seq<Graded>): seq<string>
    requires |qs| == |gs|
  {
    if gs == [] then []
    else
      var last := if gs[|gs| - 1].message != "" then [qs[|qs| - 1] + ": " + gs[|gs| - 1].message] else [];
      AllMessages(qs[..|qs| - 1], gs[..|gs| - 1]) + last
  }

  /**
   * `grade_all`: grades every question directory of the root in
   * `(length, name)` order and totals the scores exactly.
   */
  method GradeAll(root: string, entries: seq<DirEntry>, dirOf: string -> QuestionDir, defaults: Option<Defaults>, tools: Tools)
    returns (b: BatchResult)
    ensures var d := defaults.GetOr(StandardDefaults);
      var qs := QuestionNames(entries);
      var gs := Outcomes(qs, dirOf, d, tools, root + "/_grading_out");
      && b.outDir == root + "/_grading_out"
      && |b.summaries| == |qs|
      && (forall k :: 0 <= k < |qs| ==> b.summaries[k] == gs[k].summary)
      && b.results == AllResults(gs)
      && b.messages == AllMessages(qs, gs)
      && b.totalScore == SumScores(b.summaries)
      && b.totalMax == SumMaxScores(b.summaries)
  {
    var d := if defaults.Some? then defaults.value else StandardDefaults;
    var outDir := root + "/_grading_out";
    var questions := QuestionNames(entries);

    ghost var outcome := OutcomeOf(dirOf, d, tools, outDir);
    var allResults, summaries, messages := GradeEach(questions, dirOf, d, tools, outDir, outcome);
    OutcomesByMap(questions, outcome, dirOf, d, tools, outDir);
    b := BatchResult(allResults, summaries, messages, outDir, SumScores(summaries), SumMaxScores(summaries));
  }

  /** The loop of `grade_all`: the questions in order, results and messages appended as they come. */
  method GradeEach(questions: seq<string>, dirOf: string -> QuestionDir, d: Defaults, tools: Tools, outDir: string,
                   ghost outcome: string -> Graded)
    returns (allResults: seq<CaseResult>, summaries: seq<QuestionSummary>, messages: seq<string>)
    requires GradesQuestions(outcome, dirOf, d, tools, outDir)
    ensures var gs := Map(outcome, questions);
      && |summaries| == |questions|
      && (forall k :: 0 <= k < |questions| ==> summaries[k] == gs[k].summary)
      && allResults == AllResults(gs)
      && messages == AllMessages(questions, gs)
  {
    allResults, summaries, messages := [], [], [];
    ghost var done: seq<Graded> := [];
    var i := 0;
    while i < |questions|
      invariant 0 <= i <= |questions| && |summaries| == i
      invariant done == Map(outcome, questions[..i])
      invariant forall k :: 0 <= k < i ==> summaries[k] == done[k].summary
      invariant allResults == AllResults(done)
      invariant messages == AllMessages(questions[..i], done)
    {
      var q := questions[i];
      var r, s, msg := GradeNext(q, dirOf, d, tools, outDir, outcome);
      assert (done + [Graded(r, s, msg)])[..i] == done;
      assert questions[..i + 1] == questions[..i] + [q];
      MapSnoc(outcome, questions[..i], q);
      allResults := allResults + r;
      summaries := summaries + [s];
      if msg != "" {
        messages := messages + [q + ": " + msg];
      }
      done := done + [Graded(r, s, msg)];
      i := i + 1;
    }
    assert questions[..i] == questions;
  }

  /**
   * `outcome` is what `grade_question` returns for every question of the
   * batch; the batch loop reasons about `outcome` without unfolding what
   * grading a question involves.
   */
  ghost predicate GradesQuestions(outcome: string -> Graded, dirOf: string -> QuestionDir, d: Defaults, tools: Tools, outDir: string) {
    forall q {:trigger QuestionOutcome(q, dirOf(q), d, tools, outDir)} ::
      outcome(q) == QuestionOutcome(q, dirOf(q), d, tools, outDir)
  }

  lemma OutcomeOf(dirOf: string -> QuestionDir, d: Defaults, tools: Tools, outDir: string)
    returns (outcome: string -> Graded)
    ensures GradesQuestions(outcome, dirOf, d, tools, outDir)
  {
    outcome := q => QuestionOutcome(q, dirOf(q), d, tools, outDir);
  }

  /** One pass of the batch loop: grade the question in its own directory. */
  method GradeNext(q: string, dirOf: string -> QuestionDir, d: Defaults, tools: Tools, outDir: string,
                   ghost outcome: string -> Graded)
    returns (results: seq<CaseResult>, summary: QuestionSummary, message: string)
    requires GradesQuestions(outcome, dirOf, d, tools, outDir)
    ensures Graded(results, summary, message) == outcome(q)
  {
    results, summary, message := GradeQuestion(q, dirOf(q), d, tools, outDir);
  }

  lemma OutcomesByMap(qs: seq<string>, outcome: string -> Graded, dirOf: string -> QuestionDir, d: Defaults, tools: Tools, outDir: string)
    requires GradesQuestions(outcome, dirOf, d, tools, outDir)
    ensures Outcomes(qs, dirOf, d, tools, outDir) == Map(outcome, qs)
  {
  }

  lemma {:induction false} SumScoresAppend(a: seq<QuestionSummary>, b: seq<QuestionSummary>)
    ensures SumScores(a + b) == SumScores(a) + SumScores(b)
    ensures SumMaxScores(a + b) == SumMaxScores(a) + SumMaxScores(b)
    decreases |b|
  {
    if b == [] {
      assert a + b == a;
    } else {
      var b' := b[..|b| - 1];
      assert (a + b)[..|a + b| - 1] == a + b';
      SumScoresAppend(a, b');
    }
  }

  /**
   * The totals are the exact sums over the questions, whatever order they
   * are added in; when no question scores above its maximum, neither does
   * the batch.
   */
  lemma {:induction false} TotalsBound(ss: seq<QuestionSummary>)
    requires forall k :: 0 <= k < |ss| ==> ss[k].score <= ss[k].maxScore
    ensures SumScores(ss) <= SumMaxScores(ss)
  {
    if ss != [] {
      TotalsBound(ss[..|ss| - 1]);
    }
  }
}
