/**
 * The process runner's outcome mapping (`run_cmd`) and the entry-point
 * detection (`detect_main_class`). Spawning processes and reading files are
 * outside the model: a process run is described by what the operating
 * system reported, and a source tree by the list of its files.
 */
module Runner {
  import opened Common
  import opened Text

  /** What one `subprocess.run` ended with. */
  datatype ProcessOutcome =
    | Exited(code: int, stdout: string, stderr: string)
      /** `TimeoutExpired`, with whatever output was captured before the kill (possibly none). */
    | TimedOut(partialStdout: Option<string>, partialStderr: Option<string>)
      /** `FileNotFoundError`: the executable could not be started. */
    | LaunchFailed(message: string)

  datatype ExecutionResult = ExecutionResult(exitCode: int, stdout: string, stderr: string, timedOut: bool)

  const TimeoutCode := 124
  const NotFoundCode := 127

  /**
   * `run_cmd`'s result. A timeout yields code 124, keeps the output captured
   * so far and appends the `[TIMEOUT]` marker to the error text; a launch
   * failure yields code 127, no output and the error message; a finished
   * process is reported as it is. Only a timeout sets the flag.
   */
  function RunCmd(outcome: ProcessOutcome): (r: ExecutionResult)
    ensures r.timedOut <==> outcome.TimedOut?
    ensures outcome.TimedOut? ==>
      r.exitCode == TimeoutCode && r.stdout == outcome.partialStdout.GetOr("")
      && r.stderr == outcome.partialStderr.GetOr("") + "\n[TIMEOUT]"
    ensures outcome.LaunchFailed? ==> r.exitCode == NotFoundCode && r.stdout == "" && r.stderr == outcome.message
    ensures outcome.Exited? ==> r.exitCode == outcome.code && r.stdout == outcome.stdout && r.stderr == outcome.stderr
  {
    match outcome
    case Exited(code, out, err) => ExecutionResult(code, out, err, false)
    case TimedOut(out, err) => ExecutionResult(TimeoutCode, out.GetOr(""), err.GetOr("") + "\n[TIMEOUT]", true)
    case LaunchFailed(msg) => ExecutionResult(NotFoundCode, "", msg, false)
  }

  /**
   * The exit code alone does not tell a timeout from a program that itself
   * exits with 124; the flag does.
   */
  lemma TimeoutFlagDisambiguates(out: string, err: string)
    ensures RunCmd(Exited(TimeoutCode, out, err)).exitCode == RunCmd(TimedOut(Some(out), Some(err))).exitCode
    ensures !RunCmd(Exited(TimeoutCode, out, err)).timedOut && RunCmd(TimedOut(Some(out), Some(err))).timedOut
  {
  }

  /**
   * What `run_cmd` hands back as written, on POSIX systems. There the partial
   * output a `TimeoutExpired` carries is `bytes` whenever any was captured,
   * whatever `text=True` asks for; empty partial output is falsy and reads as
   * `""`. A non-empty partial stderr makes `(e.stderr or "") + "\n[TIMEOUT]"`
   * raise `TypeError`; a non-empty partial stdout is returned as `bytes`.
   */
  datatype PosixRun =
    | TextRun(result: ExecutionResult)      // every field is text
    | BytesStdout(result: ExecutionResult)  // the stdout field is a `bytes` object
    | Raised                                // `TypeError` escaped `run_cmd`

  function RunCmdPosix(outcome: ProcessOutcome): (r: PosixRun)
    ensures r.TextRun? ==> r.result == RunCmd(outcome)
    ensures r.BytesStdout? ==> r.result == RunCmd(outcome)
  {
    match outcome
    case TimedOut(out, err) =>
      if err.GetOr("") != "" then Raised
      else if out.GetOr("") != "" then BytesStdout(RunCmd(outcome))
      else TextRun(RunCmd(outcome))
    case _ => TextRun(RunCmd(outcome))
  }

  /**
   * The POSIX code returns text exactly when the run did not time out after
   * printing something; otherwise the intended result, which keeps the
   * partial output as text, is lost.
   */
  lemma PosixTextExactly(outcome: ProcessOutcome)
    ensures RunCmdPosix(outcome).TextRun?
      <==> !(outcome.TimedOut? && (outcome.partialStdout.GetOr("") != "" || outcome.partialStderr.GetOr("") != ""))
    ensures RunCmdPosix(outcome).TextRun? ==> RunCmdPosix(outcome).result == RunCmd(outcome)
  {
  }

  /** A program that prints `x` and then outlives its time limit: intended and POSIX results differ. */
  lemma PartialOutputLost()
    ensures RunCmd(TimedOut(Some("x"), None)) == ExecutionResult(TimeoutCode, "x", "\n[TIMEOUT]", true)
    ensures RunCmdPosix(TimedOut(Some("x"), None)).BytesStdout?
    ensures RunCmdPosix(TimedOut(Some("x"), Some("e"))).Raised?
  {
  }

  // ---------------------------------------------------------------------------
  // Entry-point detection

  /** A source file found under `Given/src`: its stem, and its text when it could be read. */
  datatype SourceFile = SourceFile(stem: string, text: Option<string>)

  predicate WordAt(t: string, i: nat, w: string) {
    i + |w| <= |t| && t[i..i + |w|] == w
  }

  /** The first position at or after `i` that is not whitespace. */
  function SkipSpaces(t: string, i: nat): (j: nat)
    requires i <= |t|
    ensures i <= j <= |t|
    ensures forall k :: i <= k < j ==> IsSpace(t[k])
    ensures j == |t| || !IsSpace(t[j])
    decreases |t| - i
  {
    if i < |t| && IsSpace(t[i]) then SkipSpaces(t, i + 1) else i
  }

  /**
   * `public\s+static\s+void\s+main\s*\(` matches at `i`. Each `\s+` is
   * followed by a letter, so its greedy longest run is the only run that can
   * succeed.
   */
  predicate MainSignatureAt(t: string, i: nat) {
    WordAt(t, i, "public")
    && var a := SkipSpaces(t, i + 6);
    a > i + 6 && WordAt(t, a, "static")
    && var b := SkipSpaces(t, a + 6);
    b > a + 6 && WordAt(t, b, "void")
    && var c := SkipSpaces(t, b + 4);
    c > b + 4 && WordAt(t, c, "main")
    && var d := SkipSpaces(t, c + 4);
    d < |t| && t[d] == '('
  }

  /** `re.search` of the main-method signature in a readable file. */
  predicate DeclaresMain(f: SourceFile) {
    f.text.Some? && exists i :: 0 <= i < |f.text.value| && MainSignatureAt(f.text.value, i)
  }

  /** The stem of the first file, in scan order, that declares a main method. */
  function FirstMain(files: seq<SourceFile>): Option<string> {
    if files == [] then None
    else if DeclaresMain(files[0]) then Some(files[0].stem)
    else FirstMain(files[1..])
  }

  /** `files[k]` is the first file, in scan order, that declares a main method. */
  predicate FirstDeclaring(files: seq<SourceFile>, k: nat) {
    k < |files| && DeclaresMain(files[k]) && forall j :: 0 <= j < k ==> !DeclaresMain(files[j])
  }

  /** No file declares a main method exactly when there is no first one; otherwise it is the earliest. */
  lemma {:induction false} FirstMainSpec(files: seq<SourceFile>)
    ensures FirstMain(files).None? <==> forall k :: 0 <= k < |files| ==> !DeclaresMain(files[k])
    ensures FirstMain(files).Some? ==>
      exists k: nat :: FirstDeclaring(files, k) && files[k].stem == FirstMain(files).value
  {
    if files != [] {
      if DeclaresMain(files[0]) {
        assert FirstDeclaring(files, 0);
      } else {
        var rest := files[1..];
        FirstMainSpec(rest);
        FirstMainSkip(files);
        if FirstMain(rest).Some? {
          var k: nat :| FirstDeclaring(rest, k) && rest[k].stem == FirstMain(rest).value;
          DeclaringShift(files, k);
        }
      }
    }
  }

  lemma FirstMainSkip(files: seq<SourceFile>)
    requires files != [] && !DeclaresMain(files[0])
    ensures FirstMain(files) == FirstMain(files[1..])
    ensures (forall k :: 0 <= k < |files| ==> !DeclaresMain(files[k]))
        <==> (forall k :: 0 <= k < |files[1..]| ==> !DeclaresMain(files[1..][k]))
  {
    assert forall k :: 1 <= k < |files| ==> files[k] == files[1..][k - 1];
  }

  /** A first declaring file of the rest is the first declaring file once a non-declaring one is put in front. */
  lemma DeclaringShift(files: seq<SourceFile>, k: nat)
    requires files != [] && !DeclaresMain(files[0]) && FirstDeclaring(files[1..], k)
    ensures FirstDeclaring(files, k + 1) && files[k + 1] == files[1..][k]
  {
    var rest := files[1..];
    forall j | 0 <= j < k + 1 ensures !DeclaresMain(files[j]) {
      if j > 0 {
        assert files[j] == rest[j - 1];
      }
    }
  }

  /**
   * `detect_main_class`: `Main` when `src/Main.java` exists; otherwise the
   * first file that declares a main method; otherwise `Main`.
   */
  function DetectMainClass(hasMainJava: bool, files: seq<SourceFile>): string {
    if hasMainJava then "Main" else FirstMain(files).GetOr("Main")
  }

  /**
   * The entry point is `Main` when `Main.java` exists or no file declares a
   * main method; any other answer is the stem of the first file, in scan
   * order, that declares one.
   */
  lemma DetectMainClassSpec(hasMainJava: bool, files: seq<SourceFile>)
    ensures var r := DetectMainClass(hasMainJava, files);
      && (hasMainJava ==> r == "Main")
      && (!hasMainJava && (forall k :: 0 <= k < |files| ==> !DeclaresMain(files[k])) ==> r == "Main")
      && (r != "Main" ==> exists k: nat :: FirstDeclaring(files, k) && files[k].stem == r)
  {
    FirstMainSpec(files);
  }
}
