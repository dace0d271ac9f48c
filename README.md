# AutoGradeJava grading engine in Dafny

A model of the AutoGradeJava grader: a batch grader for Java programming
exercises. A root folder holds question folders `Q1`, `Q2`, …; each has the
student's sources under `Given/src`, an optional reference jar
`Given/run/<question>.jar`, and test-case files under `TestCases`. The grading engine
compiles the sources, runs the student program on each test case, compares
its output with the expected output under per-case rules, and tallies marks
per question and over the batch. The desktop front end adds a few helpers
and a dialog that writes new test-case files.

The model covers:

- **`Testcase`** (`testcase.dfy`): the test-case text format.
  - `parse_testcase_text`, with the section-header regular expression
    written out at character level. `^`, `$`, greedy `\s*` with
    backtracking and `finditer` are modelled. `IGNORECASE` is modelled for
    ASCII letters only (see "Left out").
  - `to_bool` and `to_int`.
- **`Compare`** (`compare.dfy`): `apply_compare_rules`. Its stages are
  strict, whitespace collapse, space removal, per-line trailing trim and case
  folding.
- **`Runner`** (`runner.dfy`):
  - how `run_cmd` maps a process outcome to an exit code, the output
    streams and a timeout flag;
  - `detect_main_class`, with the `public static void main(` search.
- **`Ordering`** (`ordering.dfy`): the question filter and the
  shortest-name-first order used by `grade_all` and `list_questions`.
- **`Grading`** (`grading.dfy`):
  - `grade_question`: the setup steps, the per-case loop and the summary;
  - `grade_all`: the loop over questions and the batch totals.
- **`Ui`** (`ui.dfy`): the front end's helpers `list_questions`,
  `_defaults`, `_parse_zip_name`, `_format_bool` and
  `_extract_question_passes`, and the path rewriting loop of
  `_relocate_zip_results`.
  - `GradingData` is a class because that loop rewrites the result records
    in place.
- **`Writer`** (`writer.dfy`): `TestcaseDialog.save`, meaning its checks,
  the file name, and the content it builds. It also proves that the grading engine
  parses the written file back into what was entered.
- **`Text`** and **`Common`**: shared helpers.
  - `Text` holds Python's `strip` family over the `str.isspace` characters,
    and ASCII case mapping.
  - `Common` holds `Option`, and `TriBool`: yes, no, or unset (Python's
    `None`).

The parts outside the model are abstract:

- Running a process is `Tools.exec`. It gives the outcome of a command run
  with a given standard input and time limit.
- Python's `float()` is `Tools.parseFloat`, and `str.casefold` is
  `Tools.fold`.
- The file system as the grading engine sees it is a `QuestionDir` value. It records
  whether the folder, the jar and `Main.java` exist, the Java sources in scan
  order, and the test-case files in sorted order.
- A directory listing is a sequence of `DirEntry` values.

Paths are strings joined with `/`.

Where the specification and the code differ, the code is followed. The
specification says one leading newline after a header is removed. The code
(`content.lstrip("\n")`, grade_core.py:24) removes every leading newline, and
so does the model.

## Model

| member | source | states |
|---|---|---|
| Testcase.Normalized | grade_core.py:10 | After line-ending normalisation, no carriage return is left, and a text without one is unchanged. |
| Testcase.ScanSpec | grade_core.py:12-13 | Every match `finditer` reports is a match of the header pattern at a line start, within the text, and the matches are in order and do not overlap. |
| Testcase.HeaderAtIsLine | grade_core.py:12 | At a line start the pattern matches exactly when the line is a header name (any letter case), a colon and only whitespace; the match names that header. |
| Testcase.ScanSkips | grade_core.py:13 | A stretch of text where the pattern matches nowhere is skipped by `finditer`. |
| Testcase.ParseTestcaseText | grade_core.py:5-29 | The parsing loop computes the parse of the text, storing the sections one by one in text order. |
| Testcase.StoreSections | grade_core.py:20-28 | After the loop, each field holds the section of the last header of its kind; a header that never occurs leaves its field absent. |
| Testcase.StoreSection | grade_core.py:21-28 | One pass stores section `i`, which runs from the end of its header to the start of the next header or to the end of the text. |
| Testcase.BareInput | grade_core.py:15-17 | A text with no header line parses to a test case whose only field is the input: the whole text, stripped of leading and trailing newlines. |
| Testcase.LastOccurrenceWins | grade_core.py:18-28 | When a header occurs several times, its field holds the content after its last occurrence. |
| Testcase.ParsedFields | grade_core.py:18-29 | Once there is a header, each field is the one stored by the last section with that header. |
| Testcase.ContentTrimmed | grade_core.py:23-28 | A flag, MARK or TIMEOUT_MS value has no whitespace at either end; an INPUT or OUTPUT value has no newline at either end. |
| Testcase.ToBoolOutcomes | grade_core.py:31-39 | An absent or empty value gives the default; every answer is yes, no or the default. |
| Testcase.ToBoolIgnoresCase | grade_core.py:34 | Lower-casing the value first does not change the answer. |
| Testcase.ToBoolYesWords | grade_core.py:35-36 | `yes`, `y`, `true` and `1` read as yes. |
| Testcase.ToBoolNoWords | grade_core.py:37-38 | `no`, `n`, `false` and `0` read as no. |
| Testcase.ParseIntRoundTrip | grade_core.py:49 | Parsing a decimal integer inverts printing it. |
| Testcase.ToIntReadsBack | grade_core.py:47-51 | A value written as a decimal integer reads back as that integer. |
| Testcase.ToIntDefault | grade_core.py:47-51 | An absent value, or one whose stripped text is not a decimal integer literal (optional sign, digits with single underscores between them), gives the default. A literal gives its signed value. Parsing never fails. |
| Testcase.ParseIntLiteral | grade_core.py:49 | `int()` of a stripped text succeeds exactly when the text is a decimal integer literal, and gives its signed value. |
| Compare.ApplyCompareRules | grade_core.py:53-77 | Equal outputs always pass; in strict mode a comparison passes exactly when the two texts are equal. |
| Compare.CompareSymmetric | grade_core.py:53-77 | The verdict does not depend on which text is the expected one. |
| Compare.RemoveSpacesVerdict | grade_core.py:61-77 | With space removal on, the verdict is equality of the two texts with all whitespace deleted, case-folded when case-insensitive; the earlier whitespace collapse and the later per-line trim do not matter. |
| Compare.DeleteCollapse | grade_core.py:62-67 | Collapsing whitespace and then deleting all of it equals deleting it outright. |
| Compare.DeleteStrip | grade_core.py:62-67 | Stripping and then deleting whitespace equals deleting it outright. |
| Compare.TrimLinesNoSpace | grade_core.py:69-71 | The per-line trailing trim leaves a text with no whitespace unchanged. |
| Compare.DeleteSpaces | grade_core.py:66-67 | The result of removing whitespace contains none and is no longer than the input. |
| Compare.CollapseSpaces | grade_core.py:62-63 | After collapsing, every whitespace character left is a single space, and the text is no longer. |
| Runner.RunCmd | grade_core.py:101-110 | The corrected reading of the timeout branch (see "Findings"): partial output is kept as text. A finished process keeps its code and streams. A timeout gives code 124, the partial output, `[TIMEOUT]` appended to stderr, and the timeout flag. A missing program gives code 127, empty output and the error message. Only a timeout sets the flag. |
| Runner.RunCmdPosix | grade_core.py:101-110 | As written on POSIX systems: a timeout with partial stderr raises, a timeout with partial stdout returns bytes as the output, and every other outcome returns the text result `RunCmd` gives. |
| Runner.PosixTextExactly | grade_core.py:105-108 | The as-written call returns a text result exactly when the process did not time out after printing something. |
| Runner.PartialOutputLost | grade_core.py:105-108 | A timeout after printing "x" gives code 124, output "x" and the flag in the corrected reading, but bytes as written; with partial stderr as well, the call raises. |
| Runner.TimeoutFlagDisambiguates | grade_core.py:104-108 | A program that exits with 124 and a timeout share the code but are told apart by the flag. |
| Runner.FirstMainSpec | grade_core.py:92-98 | The search finds nothing exactly when no source declares `public static void main(`; otherwise it returns the stem of the first source that does. |
| Runner.DetectMainClassSpec | grade_core.py:88-99 | The result is `Main` when `Main.java` exists or no source declares a main method; any other result is the stem of the first declaring source. |
| Runner.SkipSpaces | grade_core.py:95 | `\s+`/`\s*` advance over exactly a maximal run of whitespace. |
| Ordering.QuestionDirs | grade_core.py:260 | The listed names are exactly the directories whose upper-cased name starts with `Q`. |
| Ordering.SortQuestions | grade_core.py:261 | The result is sorted by (length, name) and is a permutation of the input. |
| Ordering.QuestionNamesSpec | grade_core.py:260-261 | The question list is sorted and holds exactly the question directories. |
| Ordering.OrderTotal | grade_core.py:261 | Any two names are comparable by the sort key. |
| Ordering.OrderTransitive | grade_core.py:261 | The sort key's order is transitive. |
| Ordering.ShorterNamesFirst | grade_core.py:261 | `Q2` sorts before `Q10`, and `Q1` before `Q2`. |
| Grading.GateVerdict | grade_core.py:194-201 | With space removal off and case sensitivity not switched off, expected "a  b" plus newline and actual "a b" compare equal exactly when whitespace collapse is on: no rule set in the case file and strict mode off. |
| Grading.CaseGateVerdict | grade_core.py:188-201 | A graded case whose expected and actual outputs are those texts passes exactly when whitespace collapse is on for it. |
| Grading.GradeCaseSpec | grade_core.py:161-244 | Field by field: the case's file name; the rule flags read from the case with the defaults underneath; the mark (1.0 when absent); the student run's output, stderr, code and timeout flag; empty output, runtime error, and the pass verdict from the comparison rules; the output paths; and where the expected and student output came from. |
| Grading.PartialOutputCompared | grade_core.py:188-201 | In the corrected reading, a student run that times out after printing exactly the expected text is flagged as a timeout and a runtime error, keeps its output, and still passes. |
| Grading.Prepare | grade_core.py:125-156 | A stop leaves no results and an all-zero summary. A ready setup runs the student from the jar exactly when it uses the jar command, and only when the jar exists. |
| Grading.PrepareSpec | grade_core.py:125-156 | The question stops exactly when the folder is missing, when there are no sources and no jar, or when compilation failed and there is no jar, each with its message. A ready setup is compiled exactly when javac succeeded on a non-empty source list, runs the student from the jar exactly when it is not compiled, and names the detected main class when compiled. |
| Grading.PartialOutputAborts | grade_core.py:185-189 | A ready question with a case whose student run times out after printing aborts as written, while the corrected reading grades that case with the output kept and the timeout flagged. |
| Grading.AsWrittenAgrees | grade_core.py:161-244 | When no run times out after printing, the as-written and the corrected question outcomes agree. |
| Grading.GradeCaseFiles | grade_core.py:158-206 | The loop grades every test case in order, and the summary is the tally of those results. |
| Grading.GradeNextCase | grade_core.py:203-244 | Grading one more case appends its result and updates the running tally with its mark and verdict. |
| Grading.GradeQuestion | grade_core.py:112-249 | The method computes the question's outcome: results, summary and message. |
| Grading.TallyAppend | grade_core.py:203-206 | Every case adds its mark to the maximum; only a passed case adds it to the score and to the pass count. |
| Grading.TallySpec | grade_core.py:159-206 | Total is the number of cases, the maximum is the sum of marks, the score is the sum of passed marks, and passed ≤ total. Percent is 0 when the maximum is 0. With non-negative marks, 0 ≤ score ≤ maximum and 0 ≤ percent ≤ 100. |
| Grading.QuestionSummarySpec | grade_core.py:112-249 | For every question outcome the summary names the question, counts and sums its results as above, and there is one result per test case or none. |
| Grading.ExpectedOutputPrecedence | grade_core.py:169-184 | Each result records whether the expected output came from the jar, and the expected text follows the jar, then OUTPUT, then empty. |
| Grading.AllPassed | grade_core.py:203-206 | All cases pass exactly when the pass count equals the number of cases, and then the score equals the maximum. |
| Grading.CountPassedBound | grade_core.py:206 | The pass count never exceeds the number of cases. |
| Grading.ScoreBounds | grade_core.py:203-205 | With non-negative marks the score lies between 0 and the maximum. |
| Grading.PercentBound | grade_core.py:246-247 | A score between 0 and the maximum gives a percentage between 0 and 100. |
| Grading.GradeAll | grade_core.py:251-315 | The batch writes under `<root>/_grading_out`, grades the question folders in order, and returns one summary per question, all results concatenated, a message per question that has one, and totals that are the sums of scores and of maximums. |
| Grading.GradeEach | grade_core.py:267-272 | The loop grades each question in order, extends the results, and appends each summary and each non-empty message. |
| Grading.SumScoresAppend | grade_core.py:303-304 | The totals over two lists of summaries are the sums of their totals. |
| Grading.TotalsBound | grade_core.py:303-304 | When every question's score is at most its maximum, the batch total is at most the batch maximum. |
| Ui.ListQuestionsSpec | grade_ui.py:150-155 | A missing root lists nothing; otherwise the list is sorted by (length, name) and holds exactly the question directories. |
| Ui.ParseOptIgnoresCase | grade_ui.py:158-162 | The choice is read regardless of letter case. |
| Ui.ParseOptAgreesWithToBool | grade_ui.py:158-162 | A choice that reads as yes or no reads the same through `to_bool`; an absent or empty one is unset. |
| Ui.ParseTimeoutIsToInt | grade_ui.py:163-167 | The timeout field reads like `to_int` with no default, and a written integer reads back. |
| Ui.FormDefaults | grade_ui.py:157-174 | The settings carry strict and per-line trim as given, the two choices parsed, and the parsed timeout. |
| Ui.ParseZipName | grade_ui.py:225-229 | With no `_` in the stem the id is the stripped stem and the name is empty; the name never contains `_`. |
| Ui.ZipNameRoundTrip | grade_ui.py:225-229 | An id and a name with spaces, written as `id_name_with_underscores`, read back as themselves. |
| Ui.FormatBool | grade_ui.py:243-248 | The text is empty exactly when the value is unset. |
| Ui.FormatBoolReadsBack | grade_ui.py:243-248 | `TRUE`, `FALSE` and the empty text read back through `to_bool` as the value formatted. |
| Ui.LookupSpec | grade_ui.py:233 | The lookup has a key exactly when some summary's upper-cased question is that key, and it holds the last such summary. |
| Ui.ExtractQuestionPasses | grade_ui.py:231-241 | The result has exactly the keys Q1–Q4, and each holds the verdict of that question's summary. |
| Ui.VerdictSpec | grade_ui.py:234-240 | Taking the last summary named after the question: the verdict is yes exactly when its maximum is non-zero and its score equals the maximum, no exactly when its maximum is non-zero and the score differs, and unset exactly when there is no such summary or its maximum is zero. |
| Ui.Rewrite | grade_ui.py:220-221 | A path under the old folder gets the new folder in place of the old one with the same rest; any other path is unchanged. |
| Ui.RewriteRoundTrip | grade_ui.py:220-221 | Rewriting back to the old folder restores the path. |
| Ui.RewriteOutPath | grade_ui.py:220-221 | The grading engine's output paths move to the same file names under the new folder. |
| Ui.GradingData.constructor | grade_ui.py:206-207 | The grading data holds the batch's output folder and its results. |
| Ui.GradingData.RelocateZipResults | grade_ui.py:206-223 | Without an output folder nothing changes and the result is `None`. Otherwise the folder becomes the new path, every result's two paths are rewritten in place, and the new path is returned. |
| Ui.GradingData.RewritePaths | grade_ui.py:218-221 | One result has its expected and student paths rewritten and keeps every other field. |
| Writer.Save | grade_ui.py:625-650 | The method computes the outcome of saving: a missing-name or missing-text warning, a declined overwrite, or the file path and content. |
| Writer.SaveContent | grade_ui.py:640-650 | The content appended section by section is the newline-joined sections, right-stripped, with one newline after them. |
| Writer.SaveRejects | grade_ui.py:628-637 | A blank name warns first, then a blank input or output. A file is written exactly when name, input and output are present and the target is new or may be overwritten. |
| Writer.FileNameTxt | grade_ui.py:631-632 | The file name ends in `.txt` in some letter case and starts with the typed name. `.txt` is appended exactly when the name lacked it. |
| Writer.FileTextEnding | grade_ui.py:650 | The written text ends in exactly one newline. |
| Writer.LayoutOrder | grade_ui.py:640-649 | The sections come in the order INPUT, OUTPUT, REMOVE_SPACES, CASE_SENSITIVE, MARK, TIMEOUT_MS, each at most once, with INPUT and OUTPUT always present. |
| Writer.LayoutValues | grade_ui.py:640-649 | Each header's last section carries the value entered for it; a default choice or a blank timeout writes none. |
| Writer.RenderIsDoc | grade_ui.py:650 | When the last value ends in non-whitespace, the right-strip removes nothing. |
| Writer.ParseDoc | grade_core.py:18-29 | Parsing a text made of well-formed sections gives each header the value of its last section, and leaves the others absent. |
| Writer.LayoutRoundTrip | grade_ui.py:640-650 | Parsing the rendered sections gives back exactly the record they stand for. |
| Writer.SaveRoundTrip | grade_ui.py:633-650 | The grading engine's parser reads the saved file back as the entered input, output, mark, choices and timeout, with omitted sections absent, under the conditions listed below. |
| Writer.ChoiceReadsBack | grade_ui.py:643-646 | The grading engine's `to_bool` reads each saved choice back as made, and a "default" choice leaves the grading engine's own default. |

## Left out

- The Tk window, its widgets, threads and message boxes. Only the logic
  behind them is modelled.
- Running processes, reading and writing files, and directory scans are
  abstract.
  - `subprocess.run` is `Tools.exec`.
  - The existence checks, `rglob` and `glob` are the `QuestionDir`
    fields.
  - The expected/student/meta files, the JSON meta, the per-question CSV,
    `summary.csv` and `overall.txt` are not modelled.
- Removing and recreating output folders (`shutil.rmtree`, `mkdir`) is not
  modelled.
- `find_java_tools` is not modelled. The commands are named by the `Command`
  datatype, not by executable paths.
- `to_float` is the parameter `Tools.parseFloat`, and marks are `real`.
  Floating-point rounding is not modelled.
- Grading.Percent: `round(…, 2)` is not applied. The percentage is exact.
- Ui.VerdictSpec: the `abs(score - max) < 1e-6` tolerance is modelled as
  exact equality of `real` scores.
- `str.casefold` is the parameter `Tools.fold`. `lower()` and `upper()` map
  ASCII letters only. Every word the source compares against is ASCII, so
  only non-ASCII letters such as the Kelvin sign could read differently.
- Testcase.ScanSpec: the header match folds case for ASCII letters only.
  Python's `IGNORECASE` also lets the dotless `ı`, the dotted `İ`, the long
  `ſ` and the Kelvin sign match `I`, `I`, `S` and `K`. On a line such as
  `ınput:` the source starts a section, and for `İ` and the Kelvin sign
  `upper()` yields a name it does not know, so that section is ignored. The
  model keeps such lines as section content.
- Grading.GradeCase: `Tools.exec` is a function, so running the same
  command on the same input twice gives the same outcome. When the jar is
  also the student program (compilation failed), every such case passes by
  construction. The source runs the jar twice (grade_core.py:179 and 188),
  and a timeout or nondeterministic output could make the two runs differ.
- Runner.RunCmd: models the timeout branch as evidently intended, with
  partial output kept as text. The code as written is modelled separately
  by `Runner.RunCmdPosix` and `Grading.QuestionAsWritten` (see "Findings").
- Testcase.ParseInt: accepts an optional sign, ASCII digits and single
  underscores between digits. Python's `int()` also accepts non-ASCII
  decimal digits.
- The regular expression library is not modelled as such. The header
  pattern and the `main` pattern are written out for the texts they search.
- `_relocate_zip_results`: moving the folder (`shutil.move`) and computing
  `<stem>_grading_out` are left out. The new path is a parameter.
- `_prepare_root_path`, `_guess_root_in_dir`, `_looks_like_question_root`,
  ZIP extraction, `run_grade` and the report export are not modelled. They
  lie outside the grading core.
- `list_questions` takes an explicit directory listing and a flag for
  whether the root is a directory. The Tk variable it reads by default is
  not modelled.
- Writer.Save: the Tk text box's own trailing newline is not modelled. Each
  text box's content is taken as given before `strip("\n")`.
- Writer.Save: the combobox is read-only, so its value is modelled as its
  three choices (`TriBool`). Writing the file is not modelled; the save
  returns the path and content.
- Writer.SaveRoundTrip: holds only under these conditions:
  - the input and output have text on their first line;
  - no entry contains a carriage return;
  - no entry contains a line that itself reads as a section header.
  Outside them the parser reads the file differently, and the source does
  not guard against that.
- Reading a Java source with `errors="ignore"` is not modelled. A source
  is its text, or `None` when reading it raised, and such a file is skipped.

## Findings

| source | as written | input that shows it | evidently intended | confidence | as-written member | corrected member |
|---|---|---|---|---|---|---|
| grade_core.py:105-108 | On a timeout, Python hands back partial output as bytes on POSIX systems even in text mode. Non-empty partial stderr makes `(e.stderr or "") + "\n[TIMEOUT]"` raise `TypeError`. Non-empty partial stdout makes `write_text` raise at grade_core.py:185 or 189. Either way the question, and `grade_all` with it, aborts. | A student program that prints a line and then loops past the case's timeout, on Linux. | The partial output is kept as text, compared with the expected output, and the case is flagged as a timeout with code 124. | high (documented `subprocess.TimeoutExpired` behaviour), not executed | Grading.PartialOutputAborts | Grading.PartialOutputCompared |
