/**
 * The test-case text format and its parser (`parse_testcase_text`), with the
 * value coercions the grading engine applies to the parsed fields (`to_bool`,
 * `to_int`).
 *
 * A test case is a text with optional section headers, each alone on its
 * line: `INPUT:`, `OUTPUT:`, `REMOVE_SPACES:`, `CASE_SENSITIVE:`, `MARK:`,
 * `TIMEOUT_MS:` (letters in any case). The parser finds the headers with the
 * regular expression `^(INPUT|...|TIMEOUT_MS):\s*$` in multi-line,
 * case-insensitive mode; it is modelled here character by character.
 */
module Testcase {
  import opened Common
  import opened Text

  datatype Key = Input | Output | RemoveSpaces | CaseSensitive | Mark | TimeoutMs

  /** The header names, in the order the regular expression's alternation tries them. */
  const Keys: seq<Key> := [Input, Output, RemoveSpaces, CaseSensitive, Mark, TimeoutMs]

  function Name(k: Key): string {
    match k
    case Input => "INPUT"
    case Output => "OUTPUT"
    case RemoveSpaces => "REMOVE_SPACES"
    case CaseSensitive => "CASE_SENSITIVE"
    case Mark => "MARK"
    case TimeoutMs => "TIMEOUT_MS"
  }

  /** A header name is a non-empty upper-case word: no whitespace, newline or colon in it. */
  lemma NameShape(k: Key)
    ensures var n := Name(k);
      |n| > 0 && Upper(n) == n && '\n' !in n && ':' !in n
      && forall i :: 0 <= i < |n| ==> !IsSpace(n[i])
  {
    var n := Name(k);
    forall i | 0 <= i < |n| ensures 'A' <= n[i] <= 'Z' || n[i] == '_' { }
    WordChars(n);
  }

  /** A word of capital letters and underscores is its own upper case and holds no space, newline or colon. */
  lemma WordChars(n: string)
    requires forall i :: 0 <= i < |n| ==> 'A' <= n[i] <= 'Z' || n[i] == '_'
    ensures Upper(n) == n && '\n' !in n && ':' !in n
    ensures forall i :: 0 <= i < |n| ==> !IsSpace(n[i])
  {
    assert forall i :: 0 <= i < |n| ==> Upper(n)[i] == n[i];
  }

  /** The four sections whose content is fully stripped of whitespace. */
  predicate IsFlag(k: Key) {
    k != Input && k != Output
  }

  /** The record `parse_testcase_text` returns: every section's raw text, `None` when absent. */
  datatype TestCase = TestCase(
    input: Option<string>,
    output: Option<string>,
    removeSpaces: Option<string>,
    caseSensitive: Option<string>,
    mark: Option<string>,
    timeoutMs: Option<string>)
  {
    function Get(k: Key): Option<string> {
      match k
      case Input => input
      case Output => output
      case RemoveSpaces => removeSpaces
      case CaseSensitive => caseSensitive
      case Mark => mark
      case TimeoutMs => timeoutMs
    }

    function Set(k: Key, v: string): (r: TestCase)
      ensures r.Get(k) == Some(v)
      ensures forall k' :: k' != k ==> r.Get(k') == Get(k')
    {
      match k
      case Input => this.(input := Some(v))
      case Output => this.(output := Some(v))
      case RemoveSpaces => this.(removeSpaces := Some(v))
      case CaseSensitive => this.(caseSensitive := Some(v))
      case Mark => this.(mark := Some(v))
      case TimeoutMs => this.(timeoutMs := Some(v))
    }
  }

  const Blank := TestCase(None, None, None, None, None, None)

  // ---------------------------------------------------------------------------
  // Line-ending normalisation: text.replace("\r\n", "\n").replace("\r", "\n")

  /** `t.replace("\r\n", "\n")`, scanning left to right without overlaps. */
  function ReplaceCrLf(t: string): (r: string)
    ensures '\r' !in t ==> r == t
  {
    if t == [] then []
    else if |t| >= 2 && t[0] == '\r' && t[1] == '\n' then "\n" + ReplaceCrLf(t[2..])
    else [t[0]] + ReplaceCrLf(t[1..])
  }

  /** `t.replace("\r", "\n")`. */
  function ReplaceCr(t: string): (r: string)
    ensures |r| == |t| && '\r' !in r
    ensures '\r' !in t ==> r == t
  {
    ReplaceChar(t, '\r', '\n')
  }

  function Normalized(text: string): (t: string)
    ensures '\r' !in t
    ensures '\r' !in text ==> t == text
  {
    ReplaceCr(ReplaceCrLf(text))
  }

  // ---------------------------------------------------------------------------
  // The header regular expression

  /** Where `^` matches in multi-line mode. */
  predicate LineStart(t: string, i: nat) {
    i == 0 || (0 < i <= |t| && t[i - 1] == '\n')
  }

  /** Where `$` matches in multi-line mode. */
  predicate EolAt(t: string, p: nat) {
    p == |t| || (p < |t| && t[p] == '\n')
  }

  /** `t[i..]` starts with `name`, letters compared without regard to case. */
  predicate NameAt(t: string, i: nat, name: string) {
    i + |name| <= |t| && Upper(t[i..i + |name|]) == name
  }

  /** The length of the longest run of whitespace starting at `c` (what a greedy `\s*` takes first). */
  function SpaceRun(t: string, c: nat): (w: nat)
    requires c <= |t|
    ensures c + w <= |t|
    ensures forall j :: c <= j < c + w ==> IsSpace(t[j])
    ensures c + w == |t| || !IsSpace(t[c + w])
    decreases |t| - c
  {
    if c < |t| && IsSpace(t[c]) then 1 + SpaceRun(t, c + 1) else 0
  }

  /**
   * The largest position in `[lo, hi]` where `$` matches: a greedy `\s*`
   * backtracks from the end of its run until `$` succeeds.
   */
  function LastEol(t: string, lo: nat, hi: nat): (r: Option<nat>)
    requires lo <= hi <= |t|
    ensures r.Some? ==> lo <= r.value <= hi && EolAt(t, r.value)
    ensures r.Some? ==> forall p :: r.value < p <= hi ==> !EolAt(t, p)
    ensures r.None? ==> forall p :: lo <= p <= hi ==> !EolAt(t, p)
    decreases hi - lo
  {
    if EolAt(t, hi) then Some(hi)
    else if hi == lo then None
    else LastEol(t, lo, hi - 1)
  }

  /** One match of the header pattern: its header, where it starts and where it ends. */
  datatype Match = Match(key: Key, start: nat, end: nat)

  /** The alternatives `ks` tried in order at position `i`. */
  function HeaderFrom(t: string, i: nat, ks: seq<Key>): (r: Option<Match>)
    requires i <= |t|
    ensures r.Some? ==> r.value.start == i && i + |Name(r.value.key)| < r.value.end <= |t|
    ensures r.Some? ==> r.value.key in ks
  {
    if ks == [] then None
    else
      var n := Name(ks[0]);
      if NameAt(t, i, n) && i + |n| < |t| && t[i + |n|] == ':' then
        var c := i + |n| + 1;
        match LastEol(t, c, c + SpaceRun(t, c))
        case Some(e) => Some(Match(ks[0], i, e))
        case None => HeaderFrom(t, i, ks[1..])
      else HeaderFrom(t, i, ks[1..])
  }

  /** The header pattern tried at position `i`. */
  function HeaderAt(t: string, i: nat): (r: Option<Match>)
    requires i <= |t|
    ensures r.Some? ==> LineStart(t, i) && r.value.start == i && i < r.value.end <= |t|
  {
    if LineStart(t, i) then HeaderFrom(t, i, Keys) else None
  }

  /** `pattern.finditer(t)` from position `pos`: the pattern never matches the empty string. */
  function Scan(t: string, pos: nat): seq<Match>
    requires pos <= |t|
    decreases |t| - pos
  {
    if pos == |t| then []
    else
      match HeaderAt(t, pos)
      case Some(m) => [m] + Scan(t, m.end)
      case None => Scan(t, pos + 1)
  }

  /** Every match in `ms` starts at or after `pos` and is what the pattern finds where it starts. */
  predicate Found(t: string, pos: nat, ms: seq<Match>) {
    forall k :: 0 <= k < |ms| ==> pos <= ms[k].start <= |t| && HeaderAt(t, ms[k].start) == Some(ms[k])
  }

  /** The scan's matches are in order and within the text. */
  lemma ScanOrdered(t: string)
    ensures Ordered(t, Scan(t, 0))
  {
    ScanSpec(t, 0);
  }

  /** A match ending before every later match starts extends an ordered list at the front. */
  lemma OrderedCons(t: string, m: Match, rest: seq<Match>)
    requires m.start < m.end <= |t| && Ordered(t, rest)
    requires forall k :: 0 <= k < |rest| ==> m.end <= rest[k].start
    ensures Ordered(t, [m] + rest)
  {
    var ms := [m] + rest;
    forall j, k | 0 <= j < k < |ms| ensures ms[j].end <= ms[k].start {
      assert ms[k] == rest[k - 1];
      if j > 0 {
        assert ms[j] == rest[j - 1];
      }
    }
  }

  /** Every match the scan reports is a match of the pattern, within the text, and in order. */
  lemma {:induction false} ScanSpec(t: string, pos: nat)
    requires pos <= |t|
    ensures Found(t, pos, Scan(t, pos))
    ensures Ordered(t, Scan(t, pos))
    decreases |t| - pos
  {
    if pos < |t| {
      var h := HeaderAt(t, pos);
      if h.Some? {
        ScanHit(t, pos, h.value);
        ScanSpec(t, h.value.end);
        FoundCons(t, pos, h.value, Scan(t, h.value.end));
      } else {
        ScanMiss(t, pos);
        ScanSpec(t, pos + 1);
        FoundEarlier(t, pos, pos + 1, Scan(t, pos + 1));
      }
    } else {
      ScanEnd(t, pos);
    }
  }

  lemma ScanEnd(t: string, pos: nat)
    requires pos == |t|
    ensures Scan(t, pos) == []
  {
  }

  lemma FoundEarlier(t: string, a: nat, b: nat, ms: seq<Match>)
    requires a <= b && Found(t, b, ms)
    ensures Found(t, a, ms)
  {
  }

  lemma ScanHit(t: string, pos: nat, m: Match)
    requires pos < |t| && HeaderAt(t, pos) == Some(m)
    ensures Scan(t, pos) == [m] + Scan(t, m.end)
  {
  }

  lemma ScanMiss(t: string, pos: nat)
    requires pos < |t| && HeaderAt(t, pos).None?
    ensures Scan(t, pos) == Scan(t, pos + 1)
  {
  }

  /** A match found at `pos` in front of matches found after it keeps both properties. */
  lemma FoundCons(t: string, pos: nat, m: Match, rest: seq<Match>)
    requires pos <= |t| && HeaderAt(t, pos) == Some(m)
    requires Found(t, m.end, rest) && Ordered(t, rest)
    ensures Found(t, pos, [m] + rest) && Ordered(t, [m] + rest)
  {
    OrderedCons(t, m, rest);
    FoundEarlier(t, pos, m.end, rest);
    FoundFront(t, pos, m, rest);
  }

  lemma FoundFront(t: string, pos: nat, m: Match, rest: seq<Match>)
    requires m.start == pos <= |t| && HeaderAt(t, pos) == Some(m)
    requires Found(t, pos, rest)
    ensures Found(t, pos, [m] + rest)
  {
    var ms := [m] + rest;
    forall k | 0 <= k < |ms| ensures pos <= ms[k].start <= |t| && HeaderAt(t, ms[k].start) == Some(ms[k]) {
      if k > 0 {
        assert ms[k] == rest[k - 1];
      }
    }
  }

  function Matches(t: string): seq<Match> {
    Scan(t, 0)
  }

  /** Matches in order, each within the text and ending before the next begins. */
  predicate Ordered(t: string, ms: seq<Match>) {
    (forall k :: 0 <= k < |ms| ==> ms[k].start < ms[k].end <= |t|)
    && (forall j, k :: 0 <= j < k < |ms| ==> ms[j].end <= ms[k].start)
  }

  // ---------------------------------------------------------------------------
  // Sections

  /** Where the `i`th section ends: at the next header, or at the end of the text. */
  function SectionEnd(t: string, ms: seq<Match>, i: nat): (e: nat)
    requires Ordered(t, ms) && i < |ms|
    ensures ms[i].end <= e <= |t|
  {
    if i + 1 < |ms| then ms[i + 1].start else |t|
  }

  /**
   * A section's value: leading newlines dropped, then the four flag sections
   * fully stripped of whitespace and INPUT/OUTPUT stripped of trailing newlines.
   */
  function Content(t: string, k: Key, from: nat, to: nat): (r: string)
    requires from <= to <= |t|
  {
    var raw := t[from..to];
    if IsFlag(k) then Strip(LStripChar(raw, '\n')) else StripChar(raw, '\n')
  }

  /** A flag section's value has no whitespace at either end; an INPUT or OUTPUT value no newline at either end. */
  lemma ContentTrimmed(t: string, k: Key, from: nat, to: nat)
    requires from <= to <= |t|
    ensures var r := Content(t, k, from, to);
      && (IsFlag(k) && r != [] ==> !IsSpace(r[0]) && !IsSpace(r[|r| - 1]))
      && (!IsFlag(k) && r != [] ==> r[0] != '\n' && r[|r| - 1] != '\n')
  {
  }

  /** The index of the last of the first `n` matches whose header is `k`. */
  function LastBelow(ms: seq<Match>, k: Key, n: nat): (r: Option<nat>)
    requires n <= |ms|
    ensures r.Some? ==> r.value < n && ms[r.value].key == k
    ensures r.Some? ==> forall j :: r.value < j < n ==> ms[j].key != k
    ensures r.None? ==> forall j :: 0 <= j < n ==> ms[j].key != k
  {
    if n == 0 then None
    else if ms[n - 1].key == k then Some(n - 1)
    else LastBelow(ms, k, n - 1)
  }

  /** The value of header `k` after the first `n` sections have been stored. */
  function FieldBelow(t: string, ms: seq<Match>, k: Key, n: nat): Option<string>
    requires Ordered(t, ms) && n <= |ms|
  {
    match LastBelow(ms, k, n)
    case None => None
    case Some(i) => Some(Content(t, k, ms[i].end, SectionEnd(t, ms, i)))
  }

  lemma FieldBelowStep(t: string, ms: seq<Match>, k: Key, i: nat)
    requires Ordered(t, ms) && i < |ms|
    ensures FieldBelow(t, ms, k, i + 1)
      == if ms[i].key == k then Some(Content(t, k, ms[i].end, SectionEnd(t, ms, i))) else FieldBelow(t, ms, k, i)
  {
  }

  /** Storing section `i` turns the fields found below `i` into those found below `i + 1`. */
  lemma StoreStep(t: string, ms: seq<Match>, i: nat, data: TestCase)
    requires Ordered(t, ms) && i < |ms|
    requires forall k :: data.Get(k) == FieldBelow(t, ms, k, i)
    ensures forall k :: (data.Set(ms[i].key, Content(t, ms[i].key, ms[i].end, SectionEnd(t, ms, i))).Get(k)
      == FieldBelow(t, ms, k, i + 1))
  {
    forall k ensures data.Set(ms[i].key, Content(t, ms[i].key, ms[i].end, SectionEnd(t, ms, i))).Get(k)
      == FieldBelow(t, ms, k, i + 1) {
      FieldBelowStep(t, ms, k, i);
    }
  }

  /**
   * What parsing a test-case text yields. Without any header the whole text,
   * stripped of surrounding newlines, is the input; otherwise each header
   * holds the section after its last occurrence.
   */
  function Parsed(text: string): TestCase {
    var t := Normalized(text);
    var ms := Matches(t);
    ScanOrdered(t);
    if ms == [] then Blank.(input := Some(StripChar(t, '\n')))
    else FieldsBelow(t, ms, |ms|)
  }

  /** The record once the first `n` sections have been stored. */
  function FieldsBelow(t: string, ms: seq<Match>, n: nat): (r: TestCase)
    requires Ordered(t, ms) && n <= |ms|
    ensures forall k :: r.Get(k) == FieldBelow(t, ms, k, n)
  {
    TestCase(
      FieldBelow(t, ms, Input, n), FieldBelow(t, ms, Output, n),
      FieldBelow(t, ms, RemoveSpaces, n), FieldBelow(t, ms, CaseSensitive, n),
      FieldBelow(t, ms, Mark, n), FieldBelow(t, ms, TimeoutMs, n))
  }

  /** `parse_testcase_text`: fills the record section by section, in text order. */
  method ParseTestcaseText(text: string) returns (data: TestCase)
    ensures data == Parsed(text)
  {
    var t := ReplaceCr(ReplaceCrLf(text));
    var ms := Scan(t, 0);
    if ms == [] {
      data := Blank.(input := Some(StripChar(t, '\n')));
      return;
    }
    ScanOrdered(t);
    data := StoreSections(t, ms);
  }

  /** The loop of `parse_testcase_text`: each section in turn overwrites its header's field. */
  method StoreSections(t: string, ms: seq<Match>) returns (data: TestCase)
    requires Ordered(t, ms)
    ensures data == FieldsBelow(t, ms, |ms|)
  {
    data := Blank;
    var i := 0;
    while i < |ms|
      invariant 0 <= i <= |ms|
      invariant data == FieldsBelow(t, ms, i)
    {
      data := StoreSection(t, ms, i, data);
      i := i + 1;
    }
  }

  /** One pass of that loop: section `i` runs up to the next header, or to the end of the text. */
  method StoreSection(t: string, ms: seq<Match>, i: nat, data: TestCase) returns (data': TestCase)
    requires Ordered(t, ms) && i < |ms|
    requires data == FieldsBelow(t, ms, i)
    ensures data' == FieldsBelow(t, ms, i + 1)
  {
    var next := if i + 1 < |ms| then ms[i + 1].start else |t|;
    assert next == SectionEnd(t, ms, i);
    var v := Content(t, ms[i].key, ms[i].end, next);
    StoreStep(t, ms, i, data);
    data' := data.Set(ms[i].key, v);
    TestCaseExt(data', FieldsBelow(t, ms, i + 1));
  }

  lemma TestCaseExt(a: TestCase, b: TestCase)
    requires forall k :: a.Get(k) == b.Get(k)
    ensures a == b
  {
    assert a.Get(Input) == b.Get(Input) && a.Get(Output) == b.Get(Output);
    assert a.Get(RemoveSpaces) == b.Get(RemoveSpaces) && a.Get(CaseSensitive) == b.Get(CaseSensitive);
    assert a.Get(Mark) == b.Get(Mark) && a.Get(TimeoutMs) == b.Get(TimeoutMs);
  }

  /** Once there is a header, each field is the one stored by the last section with that header. */
  lemma ParsedFields(text: string)
    ensures var t := Normalized(text); var ms := Matches(t);
      Ordered(t, ms) && (ms != [] ==> forall k :: Parsed(text).Get(k) == FieldBelow(t, ms, k, |ms|))
  {
    ScanSpec(Normalized(text), 0);
  }

  // ---------------------------------------------------------------------------
  // Header lines, independently of the regular expression

  /** The end of the line that contains position `i`. */
  function LineEnd(t: string, i: nat): (e: nat)
    requires i <= |t|
    ensures i <= e <= |t| && '\n' !in t[i..e] && EolAt(t, e)
  {
    i + IndexOf(t[i..], '\n')
  }

  /** The header a single line (without its newline) spells, if any: a name, a colon, then only whitespace. */
  function LineHeader(l: string, ks: seq<Key>): Option<Key> {
    if ks == [] then None
    else
      var n := Name(ks[0]);
      if NameAt(l, 0, n) && |n| < |l| && l[|n|] == ':' && AllSpace(l[|n| + 1..]) then Some(ks[0])
      else LineHeader(l, ks[1..])
  }

  predicate IsHeaderLine(l: string) {
    LineHeader(l, Keys).Some?
  }

  /** The name-and-colon part of a header reads the same in the text and in its line. */
  lemma NameColonInLine(t: string, i: nat, n: string)
    requires i <= |t| && |n| > 0 && Upper(n) == n && '\n' !in n
    ensures var l := t[i..LineEnd(t, i)];
      (NameAt(t, i, n) && i + |n| < |t| && t[i + |n|] == ':')
      <==> (NameAt(l, 0, n) && |n| < |l| && l[|n|] == ':')
  {
    var L := LineEnd(t, i);
    var l := t[i..L];
    if NameAt(t, i, n) && i + |n| < |t| && t[i + |n|] == ':' {
      forall j | i <= j < i + |n| ensures t[j] != '\n' {
        assert Upper(t[i..i + |n|])[j - i] == n[j - i];
        assert UpperChar(t[j]) == n[j - i];
      }
      assert t[i + |n|] != '\n';
      assert i + |n| < L;
      assert t[i..i + |n|] == l[..|n|];
    }
    if NameAt(l, 0, n) && |n| < |l| && l[|n|] == ':' {
      assert l[..|n|] == t[i..i + |n|];
    }
  }

  /**
   * After the colon, `\s*$` succeeds exactly when the rest of the line is
   * whitespace, and then ends no earlier than the end of the line.
   */
  lemma SpaceToEolInLine(t: string, i: nat, c: nat)
    requires i <= |t| && i <= c <= LineEnd(t, i)
    ensures var L := LineEnd(t, i);
      LastEol(t, c, c + SpaceRun(t, c)).Some? <==> AllSpace(t[c..L])
    ensures LastEol(t, c, c + SpaceRun(t, c)).Some? ==> LastEol(t, c, c + SpaceRun(t, c)).value >= LineEnd(t, i)
  {
    var L := LineEnd(t, i);
    if AllSpace(t[c..L]) {
      SpaceReachesEol(t, c, L);
    } else {
      SpaceStopsInLine(t, i, c, L);
    }
  }

  /** Whitespace up to the end of the line: `\s*` runs at least that far and `$` matches at the line's end. */
  lemma SpaceReachesEol(t: string, c: nat, L: nat)
    requires c <= L <= |t| && EolAt(t, L) && AllSpace(t[c..L])
    ensures LastEol(t, c, c + SpaceRun(t, c)).Some?
    ensures LastEol(t, c, c + SpaceRun(t, c)).value >= L
  {
    var w := SpaceRun(t, c);
    forall j | c <= j < L ensures IsSpace(t[j]) {
      assert t[j] == t[c..L][j - c];
    }
    assert c + w >= L;
  }

  /** A non-space before the end of the line stops `\s*` before any place where `$` could match. */
  lemma SpaceStopsInLine(t: string, i: nat, c: nat, L: nat)
    requires i <= |t| && L == LineEnd(t, i) && i <= c <= L && !AllSpace(t[c..L])
    ensures LastEol(t, c, c + SpaceRun(t, c)).None?
  {
    var w := SpaceRun(t, c);
    var q :| c <= q < L && !IsSpace(t[q]) by {
      var q' :| 0 <= q' < |t[c..L]| && !IsSpace(t[c..L][q']);
      assert t[c + q'] == t[c..L][q'];
    }
    assert c + w <= q;
    forall p | c <= p <= c + w ensures !EolAt(t, p) {
      assert t[p] == t[i..L][p - i];
    }
  }

  /** The alternative `k` matches at `i` of the text: its name, a colon, and `\s*$` after it. */
  predicate HitsAt(t: string, i: nat, k: Key)
    requires i <= |t|
  {
    var n := Name(k);
    NameAt(t, i, n) && i + |n| < |t| && t[i + |n|] == ':'
    && LastEol(t, i + |n| + 1, i + |n| + 1 + SpaceRun(t, i + |n| + 1)).Some?
  }

  /** Where a match of the alternative `k` at `i` ends. */
  function HitEnd(t: string, i: nat, k: Key): nat
    requires i <= |t| && HitsAt(t, i, k)
  {
    var n := Name(k);
    LastEol(t, i + |n| + 1, i + |n| + 1 + SpaceRun(t, i + |n| + 1)).value
  }

  /** The alternative `k` matches a whole line `l`: its name, a colon, and only whitespace after it. */
  predicate LineHits(l: string, k: Key) {
    var n := Name(k);
    NameAt(l, 0, n) && |n| < |l| && l[|n|] == ':' && AllSpace(l[|n| + 1..])
  }

  lemma HeaderFromHit(t: string, i: nat, ks: seq<Key>)
    requires ks != [] && i <= |t| && HitsAt(t, i, ks[0])
    ensures HeaderFrom(t, i, ks) == Some(Match(ks[0], i, HitEnd(t, i, ks[0])))
  {
  }

  lemma HeaderFromMiss(t: string, i: nat, ks: seq<Key>)
    requires ks != [] && i <= |t| && !HitsAt(t, i, ks[0])
    ensures HeaderFrom(t, i, ks) == HeaderFrom(t, i, ks[1..])
  {
  }

  lemma LineHeaderHit(l: string, ks: seq<Key>)
    requires ks != [] && LineHits(l, ks[0])
    ensures LineHeader(l, ks) == Some(ks[0])
  {
  }

  lemma LineHeaderMiss(l: string, ks: seq<Key>)
    requires ks != [] && !LineHits(l, ks[0])
    ensures LineHeader(l, ks) == LineHeader(l, ks[1..])
  {
  }

  lemma HitsAtColon(t: string, i: nat, k: Key, c: nat)
    requires i <= |t| && NameAt(t, i, Name(k)) && i + |Name(k)| < |t| && t[i + |Name(k)|] == ':'
    requires c == i + |Name(k)| + 1
    ensures HitsAt(t, i, k) == LastEol(t, c, c + SpaceRun(t, c)).Some?
    ensures HitsAt(t, i, k) ==> HitEnd(t, i, k) == LastEol(t, c, c + SpaceRun(t, c)).value
  {
  }

  lemma LineHitsColon(t: string, i: nat, L: nat, k: Key)
    requires i <= L <= |t|
    requires var l := t[i..L]; NameAt(l, 0, Name(k)) && |Name(k)| < |l| && l[|Name(k)|] == ':'
    ensures LineHits(t[i..L], k) == AllSpace(t[i + |Name(k)| + 1..L])
  {
    SliceTail(t, i, i + |Name(k)| + 1, L);
  }

  /** Once the name and colon are in place, the first alternative decides alike in the text and in its line. */
  lemma ColonHeadIsLine(t: string, i: nat, k: Key)
    requires i <= |t| && NameAt(t, i, Name(k)) && i + |Name(k)| < |t| && t[i + |Name(k)|] == ':'
    requires var l := t[i..LineEnd(t, i)]; NameAt(l, 0, Name(k)) && |Name(k)| < |l| && l[|Name(k)|] == ':'
    ensures HitsAt(t, i, k) <==> LineHits(t[i..LineEnd(t, i)], k)
    ensures HitsAt(t, i, k) ==> HitEnd(t, i, k) >= LineEnd(t, i)
  {
    var L := LineEnd(t, i);
    var c := i + |Name(k)| + 1;
    SpaceToEolInLine(t, i, c);
    HitsAtColon(t, i, k, c);
    LineHitsColon(t, i, L, k);
  }

  lemma SliceTail(t: string, i: nat, c: nat, L: nat)
    requires i <= c <= L <= |t|
    ensures t[i..L][c - i..] == t[c..L]
  {
  }

  /** The first alternative decides alike in the text and in its line, and a match reaches the line's end. */
  lemma HeaderHeadIsLine(t: string, i: nat, k: Key)
    requires i <= |t| && LineStart(t, i)
    ensures HitsAt(t, i, k) <==> LineHits(t[i..LineEnd(t, i)], k)
    ensures HitsAt(t, i, k) ==> HitEnd(t, i, k) >= LineEnd(t, i)
  {
    var n := Name(k);
    NameShape(k);
    NameColonInLine(t, i, n);
    if NameAt(t, i, n) && i + |n| < |t| && t[i + |n|] == ':' {
      ColonHeadIsLine(t, i, k);
    }
  }

  lemma {:induction false} HeaderFromIsLine(t: string, i: nat, ks: seq<Key>)
    requires i <= |t| && LineStart(t, i)
    ensures HeaderFrom(t, i, ks).Some? <==> LineHeader(t[i..LineEnd(t, i)], ks).Some?
    ensures HeaderFrom(t, i, ks).Some? ==>
      HeaderFrom(t, i, ks).value.key == LineHeader(t[i..LineEnd(t, i)], ks).value
      && HeaderFrom(t, i, ks).value.end >= LineEnd(t, i)
  {
    if ks != [] {
      var l := t[i..LineEnd(t, i)];
      HeaderHeadIsLine(t, i, ks[0]);
      if HitsAt(t, i, ks[0]) {
        HeaderFromHit(t, i, ks);
        LineHeaderHit(l, ks);
      } else {
        HeaderFromMiss(t, i, ks);
        LineHeaderMiss(l, ks);
        HeaderFromIsLine(t, i, ks[1..]);
      }
    }
  }

  /** At the start of a line, the header pattern matches exactly when the line is a header line. */
  lemma HeaderAtIsLine(t: string, i: nat)
    requires i <= |t| && LineStart(t, i)
    ensures HeaderAt(t, i).Some? <==> IsHeaderLine(t[i..LineEnd(t, i)])
    ensures HeaderAt(t, i).Some? ==> HeaderAt(t, i).value.key == LineHeader(t[i..LineEnd(t, i)], Keys).value
  {
    HeaderFromIsLine(t, i, Keys);
  }

  /** No match can start anywhere in `[a, b)`: the scan skips that stretch. */
  lemma {:induction false} ScanSkips(t: string, a: nat, b: nat)
    requires a <= b <= |t|
    requires forall p :: a <= p < b ==> HeaderAt(t, p).None?
    ensures Scan(t, a) == Scan(t, b)
    decreases b - a
  {
    if a < b {
      ScanSkips(t, a + 1, b);
    }
  }

  /** The header lines of a text, by position. */
  predicate NoHeaderLine(t: string) {
    forall i :: 0 <= i <= |t| && LineStart(t, i) ==> !IsHeaderLine(t[i..LineEnd(t, i)])
  }

  /**
   * A text none of whose lines is a header parses as a bare input: the whole
   * text, line endings normalised, stripped of leading and trailing newlines,
   * with every other field absent.
   */
  lemma BareInput(text: string)
    requires NoHeaderLine(Normalized(text))
    ensures Parsed(text) == Blank.(input := Some(StripChar(Normalized(text), '\n')))
  {
    var t := Normalized(text);
    forall p | 0 <= p <= |t| ensures HeaderAt(t, p).None? {
      if LineStart(t, p) {
        HeaderAtIsLine(t, p);
      }
    }
    ScanSkips(t, 0, |t|);
  }

  /**
   * A header present in the text holds the section after its last
   * occurrence; an absent one stays `None`.
   */
  lemma LastOccurrenceWins(text: string, k: Key, j: nat)
    requires var ms := Matches(Normalized(text)); j < |ms| && ms[j].key == k
    requires var ms := Matches(Normalized(text)); forall j' :: j < j' < |ms| ==> ms[j'].key != k
    ensures var t := Normalized(text); var ms := Matches(t);
      Ordered(t, ms)
      && Parsed(text).Get(k) == Some(Content(t, k, ms[j].end, SectionEnd(t, ms, j)))
  {
    var t := Normalized(text);
    var ms := Matches(t);
    ParsedFields(text);
    LastBelowIs(ms, k, |ms|, j);
    assert Parsed(text).Get(k) == FieldBelow(t, ms, k, |ms|);
  }

  /** The last section with header `k` below `n` is the one at `j` when none after `j` has it. */
  lemma LastBelowIs(ms: seq<Match>, k: Key, n: nat, j: nat)
    requires j < n <= |ms| && ms[j].key == k
    requires forall j' :: j < j' < n ==> ms[j'].key != k
    ensures LastBelow(ms, k, n) == Some(j)
  {
    var r := LastBelow(ms, k, n);
    assert r.Some? && r.value >= j;
    assert r.value <= j;
  }

  // ---------------------------------------------------------------------------
  // Value coercion

  const TrueWords: set<string> := {"yes", "y", "true", "1"}
  const FalseWords: set<string> := {"no", "n", "false", "0"}

  /** `to_bool(val, default)`. */
  function ToBool(val: Option<string>, default: TriBool): TriBool {
    match val
    case None => default
    case Some(s) =>
      if s == "" then default
      else
        var v := Lower(Strip(s));
        if v in TrueWords then Yes else if v in FalseWords then No else default
  }

  /** An absent or empty value yields the default; otherwise the answer is yes, no, or the default. */
  lemma ToBoolOutcomes(val: Option<string>, default: TriBool)
    ensures val == None || val == Some("") ==> ToBool(val, default) == default
    ensures ToBool(val, default) in {Yes, No, default}
  {
  }

  /** Case does not matter: `YES`, `Yes` and `yes` read alike. */
  lemma ToBoolIgnoresCase(s: string, default: TriBool)
    ensures ToBool(Some(Lower(s)), default) == ToBool(Some(s), default)
  {
    StripLower(s);
    LowerIdempotent(Strip(s));
  }

  /** The four words that read as yes, in lower case and without padding. */
  lemma ToBoolYesWords(default: TriBool)
    ensures ToBool(Some("yes"), default) == Yes && ToBool(Some("y"), default) == Yes
    ensures ToBool(Some("true"), default) == Yes && ToBool(Some("1"), default) == Yes
  {
    PlainReading("yes", default); PlainReading("y", default);
    PlainReading("true", default); PlainReading("1", default);
  }

  /** The four words that read as no, in lower case and without padding. */
  lemma ToBoolNoWords(default: TriBool)
    ensures ToBool(Some("no"), default) == No && ToBool(Some("n"), default) == No
    ensures ToBool(Some("false"), default) == No && ToBool(Some("0"), default) == No
  {
    WordsDisjoint();
    PlainReading("no", default); PlainReading("n", default);
    PlainReading("false", default); PlainReading("0", default);
  }

  /** A word of lower-case letters and digits reads as itself. */
  lemma PlainReading(w: string, default: TriBool)
    requires |w| > 0 && forall c :: c in w ==> 'a' <= c <= 'z' || '0' <= c <= '9'
    ensures ToBool(Some(w), default) == if w in TrueWords then Yes else if w in FalseWords then No else default
  {
    PlainWord(w);
  }

  /** A word of lower-case letters and digits is unchanged by `strip().lower()`. */
  lemma PlainWord(w: string)
    requires |w| > 0 && forall c :: c in w ==> 'a' <= c <= 'z' || '0' <= c <= '9'
    ensures Lower(Strip(w)) == w
  {
    assert w[0] in w && w[|w| - 1] in w;
    StripUnpadded(w);
    forall i | 0 <= i < |w| ensures Lower(w)[i] == w[i] {
      assert w[i] in w;
    }
  }

  /** No word is both a yes-word and a no-word: they differ in their first letter. */
  lemma WordsDisjoint()
    ensures forall v :: v in FalseWords ==> v !in TrueWords
  {
    forall v | v in FalseWords ensures v !in TrueWords {
      assert v[0] in {'n', 'f', '0'};
    }
  }

  predicate IsDigit(c: char) {
    '0' <= c <= '9'
  }

  /** Python's integer literal body: digits, single underscores only between digits. */
  predicate DigitGroups(s: string) {
    |s| > 0 && IsDigit(s[0]) && IsDigit(s[|s| - 1])
    && (forall i :: 0 <= i < |s| ==> IsDigit(s[i]) || s[i] == '_')
    && (forall i :: 0 < i < |s| && s[i] == '_' ==> s[i - 1] != '_')
  }

  function DigitOf(c: char): nat
    requires IsDigit(c)
  {
    c as int - '0' as int
  }

  /** The value of a string of digits and underscores, underscores ignored. */
  function DigitsValue(s: string): nat
    requires forall i :: 0 <= i < |s| ==> IsDigit(s[i]) || s[i] == '_'
  {
    if s == [] then 0
    else if s[|s| - 1] == '_' then DigitsValue(s[..|s| - 1])
    else DigitsValue(s[..|s| - 1]) * 10 + DigitOf(s[|s| - 1])
  }

  /** `int(s)` on an already-stripped string: an optional sign then digit groups. */
  function ParseInt(s: string): Option<int> {
    if |s| > 0 && (s[0] == '-' || s[0] == '+') then
      if DigitGroups(s[1..]) then
        var v: int := DigitsValue(s[1..]);
        Some(if s[0] == '-' then -v else v)
      else None
    else if DigitGroups(s) then Some(DigitsValue(s))
    else None
  }

  /** `to_int(val, default)`: the parsed integer, or the default whenever parsing fails. */
  function ToInt(val: Option<string>, default: Option<int>): Option<int> {
    match val
    case None => default
    case Some(s) =>
      match ParseInt(Strip(s))
      case Some(n) => Some(n)
      case None => default
  }

  function DigitChar(d: nat): (c: char)
    requires d < 10
    ensures IsDigit(c) && DigitOf(c) == d
  {
    ('0' as int + d) as char
  }

  /** Python's `str(n)` for a natural number. */
  function NatToString(n: nat): (s: string)
    ensures |s| > 0 && forall i :: 0 <= i < |s| ==> IsDigit(s[i])
  {
    if n < 10 then [DigitChar(n)] else NatToString(n / 10) + [DigitChar(n % 10)]
  }

  /** Python's `str(n)`. */
  function IntToString(n: int): string {
    if n < 0 then "-" + NatToString(-n) else NatToString(n)
  }

  lemma {:induction false} NatToStringValue(n: nat)
    ensures DigitsValue(NatToString(n)) == n
  {
    if n >= 10 {
      var s := NatToString(n);
      assert s[..|s| - 1] == NatToString(n / 10);
      NatToStringValue(n / 10);
    }
  }

  /** Integer parsing inverts integer printing, so a written timeout reads back unchanged. */
  lemma ParseIntRoundTrip(n: int)
    ensures ParseInt(IntToString(n)) == Some(n)
  {
    var m := if n < 0 then -n else n;
    NatToStringValue(m);
    var s := IntToString(n);
    if n < 0 {
      assert s[1..] == NatToString(m);
    }
  }

  /** A timeout written as a decimal integer reads back as that integer. */
  lemma ToIntReadsBack(n: int, default: Option<int>)
    ensures ToInt(Some(IntToString(n)), default) == Some(n)
  {
    var s := IntToString(n);
    assert s[|s| - 1] == NatToString(if n < 0 then -n else n)[|NatToString(if n < 0 then -n else n)| - 1];
    StripUnpadded(s);
    ParseIntRoundTrip(n);
  }

  /** Parsing never fails: malformed fields degrade to the documented defaults. */
  lemma ToIntDefault(val: Option<string>, default: Option<int>)
    ensures ToInt(val, default) == default || exists s :: val == Some(s) && ToInt(val, default) == ParseInt(Strip(s))
    ensures val.None? || !IntLiteral(Strip(val.value)) ==> ToInt(val, default) == default
    ensures val.Some? && IntLiteral(Strip(val.value)) ==> ToInt(val, default) == Some(LiteralValue(Strip(val.value)))
  {
    if val.Some? {
      ParseIntLiteral(Strip(val.value));
    }
  }

  /** Python's decimal integer literal: an optional sign, then digit groups. */
  predicate IntLiteral(s: string) {
    DigitGroups(s) || (|s| > 0 && (s[0] == '+' || s[0] == '-') && DigitGroups(s[1..]))
  }

  /** The value of a literal: its digits, negated after a minus sign. */
  function LiteralValue(s: string): int
    requires IntLiteral(s)
  {
    if DigitGroups(s) then DigitsValue(s)
    else if s[0] == '-' then -(DigitsValue(s[1..]) as int)
    else DigitsValue(s[1..])
  }

  /** `int()` succeeds exactly on literals, with their value. */
  lemma ParseIntLiteral(s: string)
    ensures ParseInt(s).Some? <==> IntLiteral(s)
    ensures IntLiteral(s) ==> ParseInt(s) == Some(LiteralValue(s))
  {
  }
}
