/**
 * The helpers of the desktop front end that feed the grading engine or post-process
 * what it returns: the default-settings form, zip-name splitting, the
 * per-question pass flags, their spreadsheet spelling, and moving a batch's
 * output directory next to the zip it came from.
 */
module Ui {
  import opened Common
  import opened Text
  import Testcase
  import opened Ordering
  import Grading

  // ---------------------------------------------------------------------------
  // Listing questions

  /**
   * `list_questions`: nothing when the root is not an existing directory,
   * else its question directories in grading order.
   */
  function ListQuestions(rootIsDir: bool, entries: seq<DirEntry>): seq<string> {
    if !rootIsDir then [] else QuestionNames(entries)
  }

  /** The list the front end shows is exactly the list the grading engine works through. */
  lemma ListQuestionsSpec(rootIsDir: bool, entries: seq<DirEntry>)
    ensures !rootIsDir ==> ListQuestions(rootIsDir, entries) == []
    ensures rootIsDir ==> Sorted(ListQuestions(rootIsDir, entries))
    ensures rootIsDir ==> forall x :: x in ListQuestions(rootIsDir, entries) <==> IsQuestionName(x) && DirEntry(x, true) in entries
  {
    if rootIsDir {
      QuestionNamesSpec(entries);
    }
  }

  // ---------------------------------------------------------------------------
  // The default-settings form (`_defaults`)

  /** `parse_opt`: `"yes"` and `"no"`, after trimming and lower-casing; anything else is unset. */
  function ParseOpt(x: Option<string>): TriBool {
    var v := Lower(Strip(x.GetOr("")));
    if v == "yes" then Yes else if v == "no" then No else Unset
  }

  /** Case does not matter to the form either. */
  lemma ParseOptIgnoresCase(s: string)
    ensures ParseOpt(Some(Lower(s))) == ParseOpt(Some(s))
  {
    StripLower(s);
    LowerIdempotent(Strip(s));
  }

  /**
   * Whatever the form accepts, a test case's own flag would read the same
   * way; the form is stricter, leaving `y`, `true`, `1` and their negations unset.
   */
  lemma ParseOptAgreesWithToBool(x: Option<string>)
    ensures ParseOpt(x) != Unset ==> x.Some? && ParseOpt(x) == Testcase.ToBool(x, Unset)
    ensures ParseOpt(None) == Unset && ParseOpt(Some("")) == Unset
  {
    assert Strip("") == "" by { Text.StripUnpadded(""); }
    assert Lower("") == "";
    if ParseOpt(x) != Unset {
      assert "yes" in Testcase.TrueWords && "no" in Testcase.FalseWords;
      Testcase.WordsDisjoint();
    }
  }

  /** The timeout field: blank or not an integer means no default timeout. */
  function ParseTimeout(field: string): Option<int> {
    var s := Strip(field);
    if s == "" then None else Testcase.ParseInt(s)
  }

  /** The form's timeout reads exactly as a test case's `TIMEOUT_MS` with no default. */
  lemma ParseTimeoutIsToInt(field: string)
    ensures ParseTimeout(field) == Testcase.ToInt(Some(field), None)
    ensures forall n: int :: ParseTimeout(Testcase.IntToString(n)) == Some(n)
  {
    forall n: int ensures ParseTimeout(Testcase.IntToString(n)) == Some(n) {
      Testcase.ToIntReadsBack(n, None);
    }
  }

  /** The settings the form hands to `grade_all`. */
  function FormDefaults(strict: bool, ignoreTrailing: bool, rs: Option<string>, cs: Option<string>, timeout: string): (d: Grading.Defaults)
    ensures d.strict == strict && d.ignoreTrailingPerLine == ignoreTrailing
    ensures d.removeSpaces == ParseOpt(rs) && d.caseSensitive == ParseOpt(cs)
    ensures d.timeoutMs == Testcase.ToInt(Some(timeout), None)
  {
    ParseTimeoutIsToInt(timeout);
    Grading.Defaults(strict, ignoreTrailing, ParseOpt(rs), ParseOpt(cs), ParseTimeout(timeout))
  }

  // ---------------------------------------------------------------------------
  // Zip names

  /**
   * `_parse_zip_name`: the student id before the first `_`, and the rest
   * with every `_` turned into a space, both trimmed.
   */
  function ParseZipName(stem: string): (r: (string, string))
    ensures '_' !in r.0 && '_' !in r.1
    ensures '_' !in stem ==> r == (Strip(stem), "")
  {
    var i := IndexOf(stem, '_');
    if i == |stem| then
      assert stem[..i] == stem;
      (Strip(stem), "")
    else
      assert '_' !in TrimRight(TrimLeft(stem[..i])) by {
        assert '_' !in stem[..i];
        assert forall c :: c in TrimLeft(stem[..i]) ==> c in stem[..i];
        assert forall c :: c in TrimRight(TrimLeft(stem[..i])) ==> c in TrimLeft(stem[..i]);
      }
      var name := ReplaceChar(stem[i + 1..], '_', ' ');
      assert '_' !in TrimRight(TrimLeft(name)) by {
        assert '_' !in name;
        assert forall c :: c in TrimLeft(name) ==> c in name;
        assert forall c :: c in TrimRight(TrimLeft(name)) ==> c in TrimLeft(name);
      }
      (Strip(stem[..i]), Strip(name))
  }

  /**
   * Naming a zip `<id>_<name with spaces as underscores>` gives back the id
   * and the name, when neither has surrounding whitespace or underscores of
   * its own.
   */
  lemma ZipNameRoundTrip(id: string, name: string)
    requires '_' !in id && '_' !in name
    requires Strip(id) == id && Strip(name) == name
    ensures ParseZipName(id + "_" + ReplaceChar(name, ' ', '_')) == (id, name)
  {
    var stem := id + "_" + ReplaceChar(name, ' ', '_');
    assert stem[|id|] == '_';
    assert '_' !in stem[..|id|] by { assert stem[..|id|] == id; }
    var i := IndexOf(stem, '_');
    assert i == |id| by {
      assert stem[..|id|] == id;
      assert forall j :: 0 <= j < |id| ==> stem[j] == id[j];
    }
    assert stem[..i] == id;
    assert stem[i + 1..] == ReplaceChar(name, ' ', '_');
    assert ReplaceChar(ReplaceChar(name, ' ', '_'), '_', ' ') == name;
  }

  // ---------------------------------------------------------------------------
  // Pass flags

  /** The spreadsheet spelling of a flag: `TRUE`, `FALSE`, or blank. */
  function FormatBool(v: TriBool): (s: string)
    ensures v == Unset <==> s == ""
  {
    match v
    case Yes => "TRUE"
    case No => "FALSE"
    case Unset => ""
  }

  /** A flag written to the spreadsheet reads back as the same flag. */
  lemma FormatBoolReadsBack(v: TriBool)
    ensures Testcase.ToBool(Some(FormatBool(v)), Unset) == v
  {
    match v
    case Yes => TrueReadsBack();
    case No => FalseReadsBack();
    case Unset =>
  }

  lemma TrueReadsBack()
    ensures Testcase.ToBool(Some("TRUE"), Unset) == Yes
  {
    StripUnpadded("TRUE");
    LowerWord("TRUE", "true");
    assert "true" in Testcase.TrueWords;
  }

  lemma FalseReadsBack()
    ensures Testcase.ToBool(Some("FALSE"), Unset) == No
  {
    StripUnpadded("FALSE");
    LowerWord("FALSE", "false");
    Testcase.WordsDisjoint();
    assert "false" in Testcase.FalseWords;
  }

  /** `w` lower-cases to `l`, checked letter by letter. */
  lemma LowerWord(w: string, l: string)
    requires |w| == |l| && forall i :: 0 <= i < |w| ==> LowerChar(w[i]) == l[i]
    ensures Lower(w) == l
  {
  }

  /** `{s["Question"].upper(): s for s in summaries}`: a later summary replaces an earlier one. */
  function Lookup(ss: seq<Grading.QuestionSummary>): map<string, Grading.QuestionSummary> {
    if ss == [] then map[]
    else Lookup(ss[..|ss| - 1])[Upper(ss[|ss| - 1].question) := ss[|ss| - 1]]
  }

  /** Each key finds the last summary whose upper-cased question is that key. */
  lemma {:induction false} LookupSpec(ss: seq<Grading.QuestionSummary>, key: string)
    ensures key in Lookup(ss) <==> exists i :: 0 <= i < |ss| && Upper(ss[i].question) == key
    ensures key in Lookup(ss) ==>
      exists i :: 0 <= i < |ss| && Lookup(ss)[key] == ss[i] && Upper(ss[i].question) == key
                  && forall j :: i < j < |ss| ==> Upper(ss[j].question) != key
  {
    if ss != [] {
      var init := ss[..|ss| - 1];
      LookupSpec(init, key);
      assert forall i :: 0 <= i < |init| ==> init[i] == ss[i];
      if Upper(ss[|ss| - 1].question) != key && key in Lookup(init) {
        var i :| 0 <= i < |init| && Lookup(init)[key] == init[i] && Upper(init[i].question) == key
                 && forall j :: i < j < |init| ==> Upper(init[j].question) != key;
        assert Lookup(ss)[key] == ss[i];
      }
    }
  }

  /** A question's flag: blank when it has no summary or its maximum is 0, else whether it scored full marks. */
  function Verdict(s: Option<Grading.QuestionSummary>): TriBool {
    match s
    case None => Unset
    case Some(q) => if q.maxScore == 0.0 then Unset else if q.score == q.maxScore then Yes else No
  }

  function Find(m: map<string, Grading.QuestionSummary>, k: string): Option<Grading.QuestionSummary> {
    if k in m then Some(m[k]) else None
  }

  const PassKeys: set<string> := {"Q1", "Q2", "Q3", "Q4"}

  /** The key `Q<idx>`. */
  function PassKey(idx: nat): string
    requires 1 <= idx <= 4
  {
    "Q" + [('0' as int + idx) as char]
  }

  /** `_extract_question_passes`: a flag for each of `Q1` to `Q4`. */
  method ExtractQuestionPasses(summaries: seq<Grading.QuestionSummary>) returns (res: map<string, TriBool>)
    ensures res.Keys == PassKeys
    ensures forall k :: k in res ==> res[k] == Verdict(Find(Lookup(summaries), Upper(k)))
  {
    var lookup: map<string, Grading.QuestionSummary> := map[];
    var i := 0;
    while i < |summaries|
      invariant 0 <= i <= |summaries|
      invariant lookup == Lookup(summaries[..i])
    {
      assert summaries[..i + 1][..i] == summaries[..i];
      lookup := lookup[Upper(summaries[i].question) := summaries[i]];
      i := i + 1;
    }
    assert summaries[..i] == summaries;
    res := map[];
    var idx := 1;
    while idx < 5
      invariant 1 <= idx <= 5
      invariant res.Keys == set j | 1 <= j < idx :: PassKey(j)
      invariant forall k :: k in res ==> res[k] == Verdict(Find(lookup, Upper(k)))
    {
      var key := PassKey(idx);
      var summ := Find(lookup, Upper(key));
      if summ.None? || summ.value.maxScore == 0.0 {
        res := res[key := Unset];
      } else {
        res := res[key := if summ.value.score == summ.value.maxScore then Yes else No];
      }
      idx := idx + 1;
    }
    assert PassKey(1) == "Q1" && PassKey(2) == "Q2" && PassKey(3) == "Q3" && PassKey(4) == "Q4";
  }

  /**
   * A question's flag is set exactly when some summary is named after it
   * (in any case) and the last such one has a nonzero maximum; it is `Yes`
   * exactly when that summary scored its maximum.
   */
  lemma VerdictSpec(summaries: seq<Grading.QuestionSummary>, k: string)
    ensures var v := Verdict(Find(Lookup(summaries), k));
      (v != Unset <==> exists i :: 0 <= i < |summaries| && Upper(summaries[i].question) == k
                                  && k in Lookup(summaries) && Lookup(summaries)[k].maxScore != 0.0)
      && (v == Yes ==> exists i :: 0 <= i < |summaries| && Upper(summaries[i].question) == k
                                  && summaries[i].score == summaries[i].maxScore
                                  && forall j :: i < j < |summaries| ==> Upper(summaries[j].question) != k)
    ensures var v := Verdict(Find(Lookup(summaries), k));
      && (v == Yes <==> exists i :: LastNamed(summaries, k, i)
                                  && summaries[i].maxScore != 0.0 && summaries[i].score == summaries[i].maxScore)
      && (v == No <==> exists i :: LastNamed(summaries, k, i)
                                 && summaries[i].maxScore != 0.0 && summaries[i].score != summaries[i].maxScore)
      && (v == Unset <==> forall i :: LastNamed(summaries, k, i) ==> summaries[i].maxScore == 0.0)
  {
    LookupSpec(summaries, k);
    if k in Lookup(summaries) {
      var i :| 0 <= i < |summaries| && Lookup(summaries)[k] == summaries[i] && Upper(summaries[i].question) == k
               && forall j :: i < j < |summaries| ==> Upper(summaries[j].question) != k;
      assert LastNamed(summaries, k, i);
      forall i' | LastNamed(summaries, k, i') ensures i' == i {
        LastNamedUnique(summaries, k, i, i');
      }
    }
  }

  /** Summary `i` is the last one named after question `k`, in any case. */
  predicate LastNamed(ss: seq<Grading.QuestionSummary>, k: string, i: int) {
    0 <= i < |ss| && Upper(ss[i].question) == k && forall j :: i < j < |ss| ==> Upper(ss[j].question) != k
  }

  lemma LastNamedUnique(ss: seq<Grading.QuestionSummary>, k: string, i: int, i': int)
    requires LastNamed(ss, k, i) && LastNamed(ss, k, i')
    ensures i == i'
  {
  }

  // ---------------------------------------------------------------------------
  // Moving the output directory

  /** A path under `prefix` moved under `newPath`; any other path unchanged. */
  function Rewrite(p: string, prefix: string, newPath: string): (r: string)
    ensures prefix <= p ==> newPath <= r && r[|newPath|..] == p[|prefix|..]
    ensures !(prefix <= p) ==> r == p
  {
    if prefix <= p then newPath + p[|prefix|..] else p
  }

  /** Moving back undoes the move. */
  lemma RewriteRoundTrip(p: string, prefix: string, newPath: string)
    requires prefix <= p
    ensures Rewrite(Rewrite(p, prefix, newPath), newPath, prefix) == p
  {
    var r := Rewrite(p, prefix, newPath);
    assert r[|newPath|..] == p[|prefix|..];
    assert p == p[..|prefix|] + p[|prefix|..];
  }

  /** The files the grading engine wrote for a case land at the same place under the new directory. */
  lemma RewriteOutPath(outDir: string, q: string, stem: string, suffix: string, newPath: string)
    ensures Rewrite(Grading.OutPath(outDir, q, stem, suffix), outDir, newPath) == Grading.OutPath(newPath, q, stem, suffix)
  {
    var rest := "/" + q + "-" + stem + suffix;
    assert Grading.OutPath(outDir, q, stem, suffix) == outDir + rest;
    assert Grading.OutPath(newPath, q, stem, suffix) == newPath + rest;
    assert (outDir + rest)[|outDir|..] == rest;
  }

  /** One result with its two file paths rewritten; every other field kept. */
  function Relocated(r: Grading.CaseResult, prefix: string, newPath: string): Grading.CaseResult {
    r.(expectedPath := Rewrite(r.expectedPath, prefix, newPath), studentPath := Rewrite(r.studentPath, prefix, newPath))
  }

  /** The batch data the front end keeps after a run: the output directory and the case results. */
  class GradingData {
    var outDir: string          // "" when the run produced no output directory
    var results: array<Grading.CaseResult>

    constructor(b: Grading.BatchResult)
      ensures outDir == b.outDir && results[..] == b.results && fresh(results)
    {
      outDir := b.outDir;
      results := new Grading.CaseResult[|b.results|](i requires 0 <= i < |b.results| => b.results[i]);
    }

    /**
     * `_relocate_zip_results` once the directory has been moved to `newPath`:
     * every result's two paths under the old directory now point under the
     * new one, and the data records the new directory.
     */
    method RelocateZipResults(newPath: string) returns (r: Option<string>)
      modifies this, results
      ensures results == old(results)
      ensures old(outDir) == "" ==> r == None && outDir == "" && results[..] == old(results[..])
      ensures old(outDir) != "" ==> r == Some(newPath) && outDir == newPath
      ensures old(outDir) != "" ==>
        forall i :: 0 <= i < results.Length ==> results[i] == Relocated(old(results[i]), old(outDir), newPath)
    {
      if outDir == "" {
        return None;
      }
      var prefix := outDir;
      var i := 0;
      while i < results.Length
        invariant results == old(results) && outDir == old(outDir)
        invariant 0 <= i <= results.Length
        invariant forall j :: 0 <= j < i ==> results[j] == Relocated(old(results[j]), prefix, newPath)
        invariant forall j :: i <= j < results.Length ==> results[j] == old(results[j])
      {
        var res := RewritePaths(results[i], prefix, newPath);
        results[i] := res;
        i := i + 1;
      }
      outDir := newPath;
      return Some(newPath);
    }

    /** The body of the rewrite loop: each path under `prefix` is moved under `newPath`. */
    static method RewritePaths(res: Grading.CaseResult, prefix: string, newPath: string) returns (res': Grading.CaseResult)
      ensures res' == Relocated(res, prefix, newPath)
    {
      res' := res;
      if prefix <= res'.expectedPath {
        res' := res'.(expectedPath := newPath + res'.expectedPath[|prefix|..]);
      }
      if prefix <= res'.studentPath {
        res' := res'.(studentPath := newPath + res'.studentPath[|prefix|..]);
      }
    }
  }
}
