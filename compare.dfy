/**
 * The comparison engine (`apply_compare_rules`): an ordered chain of string
 * normalisations applied identically to the expected and the actual output,
 * ending in string equality.
 *
 * Unicode case folding (`str.casefold`) is not spelled out: the engine takes
 * the folding function as a parameter, and every property below holds for
 * any such function.
 */
module Compare {
  import opened Common
  import opened Text

  /** `re.sub(r"\s+", " ", s)`: every maximal run of whitespace becomes one space. */
  function CollapseSpaces(s: string): (r: string)
    ensures |r| <= |s|
    ensures forall i :: 0 <= i < |r| && IsSpace(r[i]) ==> r[i] == ' '
    decreases |s|
  {
    if s == [] then []
    else if IsSpace(s[0]) then " " + CollapseSpaces(TrimLeft(s[1..]))
    else [s[0]] + CollapseSpaces(s[1..])
  }

  /** `re.sub(r"\s+", "", s)`: every whitespace character removed. */
  function DeleteSpaces(s: string): (r: string)
    ensures NoSpace(r) && |r| <= |s|
  {
    if s == [] then []
    else (if IsSpace(s[0]) then [] else [s[0]]) + DeleteSpaces(s[1..])
  }

  /** The line boundaries of Python's `str.splitlines()`. */
  predicate IsLineBreak(c: char) {
    c == '\n' || c == '\r' || c == '\U{0b}' || c == '\U{0c}'
    || ('\U{1c}' <= c <= '\U{1e}') || c == '\U{85}' || c == '\U{2028}' || c == '\U{2029}'
  }

  /** The index of the first line boundary in `s`, or `|s|`. */
  function BreakIndex(s: string): (k: nat)
    ensures k <= |s|
    ensures forall i :: 0 <= i < k ==> !IsLineBreak(s[i])
    ensures k < |s| ==> IsLineBreak(s[k])
  {
    if s == [] || IsLineBreak(s[0]) then 0 else 1 + BreakIndex(s[1..])
  }

  /**
   * `s.splitlines()`: the lines without their boundaries (`\r\n` counts as
   * one), and no empty last line after a final boundary.
   */
  function SplitLines(s: string): (lines: seq<string>)
    decreases |s|
  {
    if s == [] then []
    else
      var k := BreakIndex(s);
      if k == |s| then [s]
      else
        var next := if s[k] == '\r' && k + 1 < |s| && s[k + 1] == '\n' then k + 2 else k + 1;
        [s[..k]] + SplitLines(s[next..])
  }

  /** `"\n".join([ln.rstrip() for ln in s.splitlines()])`. */
  function TrimLines(s: string): string {
    var lines := SplitLines(s);
    Join("\n", seq(|lines|, i requires 0 <= i < |lines| => TrimRight(lines[i])))
  }

  /** The flags one comparison runs with. */
  datatype Rules = Rules(
    removeSpaces: TriBool,
    caseSensitive: TriBool,
    whitespaceNorm: bool,
    strict: bool,
    ignoreTrailingPerLine: bool)

  /**
   * The stages one side goes through, in order: nothing at all in strict
   * mode; otherwise whitespace collapse and strip, whitespace deletion,
   * per-line right trim, case folding, each when its flag asks for it.
   */
  function Normalize(s: string, rules: Rules, fold: string -> string): string {
    if rules.strict then s
    else
      var collapsed := if rules.whitespaceNorm then Strip(CollapseSpaces(s)) else s;
      var spaceless := if rules.removeSpaces == Yes then DeleteSpaces(collapsed) else collapsed;
      var trimmed := if rules.ignoreTrailingPerLine then TrimLines(spaceless) else spaceless;
      if rules.caseSensitive == No then fold(trimmed) else trimmed
  }

  /**
   * `apply_compare_rules`: a missing side counts as the empty string. Equal
   * outputs always pass, and in strict mode only equal outputs pass.
   */
  function ApplyCompareRules(expected: Option<string>, got: Option<string>, rules: Rules, fold: string -> string): (r: bool)
    ensures expected.GetOr("") == got.GetOr("") ==> r
    ensures rules.strict ==> (r <==> expected.GetOr("") == got.GetOr(""))
  {
    Normalize(expected.GetOr(""), rules, fold) == Normalize(got.GetOr(""), rules, fold)
  }

  /** Swapping expected and actual output never changes the verdict. */
  lemma CompareSymmetric(e: Option<string>, g: Option<string>, rules: Rules, fold: string -> string)
    ensures ApplyCompareRules(e, g, rules, fold) == ApplyCompareRules(g, e, rules, fold)
  {
  }

  // ---------------------------------------------------------------------------
  // Deleting whitespace absorbs every other whitespace stage

  lemma {:induction false} DeleteSpacesAppend(a: string, b: string)
    ensures DeleteSpaces(a + b) == DeleteSpaces(a) + DeleteSpaces(b)
  {
    if a == [] {
      assert a + b == b;
    } else {
      assert (a + b)[1..] == a[1..] + b;
      DeleteSpacesAppend(a[1..], b);
    }
  }

  lemma {:induction false} DeleteAllSpace(s: string)
    requires AllSpace(s)
    ensures DeleteSpaces(s) == []
  {
    if s != [] {
      DeleteAllSpace(s[1..]);
    }
  }

  lemma {:induction false} DeleteTrimLeft(s: string)
    ensures DeleteSpaces(TrimLeft(s)) == DeleteSpaces(s)
  {
    if s != [] && IsSpace(s[0]) {
      DeleteTrimLeft(s[1..]);
    }
  }

  lemma {:induction false} DeleteStrip(s: string)
    ensures DeleteSpaces(Strip(s)) == DeleteSpaces(s)
  {
    var l := TrimLeft(s);
    var r := TrimRight(l);
    assert l == r + l[|r|..];
    DeleteSpacesAppend(r, l[|r|..]);
    DeleteAllSpace(l[|r|..]);
    DeleteTrimLeft(s);
  }

  lemma {:induction false} DeleteCollapse(s: string)
    ensures DeleteSpaces(CollapseSpaces(s)) == DeleteSpaces(s)
    decreases |s|
  {
    if s != [] {
      if IsSpace(s[0]) {
        var rest := TrimLeft(s[1..]);
        DeleteCollapse(rest);
        DeleteSpacesAppend(" ", CollapseSpaces(rest));
        DeleteTrimLeft(s[1..]);
      } else {
        DeleteCollapse(s[1..]);
        DeleteSpacesAppend([s[0]], CollapseSpaces(s[1..]));
      }
    }
  }

  lemma LineBreakIsSpace(c: char)
    ensures IsLineBreak(c) ==> IsSpace(c)
  {
  }

  /** A string without whitespace has no line boundaries and nothing to trim. */
  lemma TrimLinesNoSpace(s: string)
    requires NoSpace(s)
    ensures TrimLines(s) == s
  {
    if s != [] {
      forall i | 0 <= i < |s| ensures !IsLineBreak(s[i]) {
        LineBreakIsSpace(s[i]);
      }
      assert BreakIndex(s) == |s|;
      assert SplitLines(s) == [s];
    }
  }

  /**
   * With `REMOVE_SPACES` on (and strict mode off) the verdict is exactly
   * equality after deleting all whitespace from both sides, and after case
   * folding when the comparison is not case-sensitive; the implicit collapse
   * and the per-line trim make no difference.
   */
  lemma RemoveSpacesVerdict(e: Option<string>, g: Option<string>, rules: Rules, fold: string -> string)
    requires !rules.strict && rules.removeSpaces == Yes
    ensures ApplyCompareRules(e, g, rules, fold)
      == if rules.caseSensitive == No then fold(DeleteSpaces(e.GetOr(""))) == fold(DeleteSpaces(g.GetOr("")))
         else DeleteSpaces(e.GetOr("")) == DeleteSpaces(g.GetOr(""))
  {
    NormalizeRemoveSpaces(e.GetOr(""), rules, fold);
    NormalizeRemoveSpaces(g.GetOr(""), rules, fold);
  }

  lemma NormalizeRemoveSpaces(s: string, rules: Rules, fold: string -> string)
    requires !rules.strict && rules.removeSpaces == Yes
    ensures Normalize(s, rules, fold)
      == if rules.caseSensitive == No then fold(DeleteSpaces(s)) else DeleteSpaces(s)
  {
    if rules.whitespaceNorm {
      DeleteStrip(CollapseSpaces(s));
      DeleteCollapse(s);
    }
    TrimLinesNoSpace(DeleteSpaces(s));
  }
}
