/**
 * The "new test case" dialog of the desktop front end: how it turns the form
 * into a test-case file, and the proof that the grading engine's parser reads that
 * file back as the form's values.
 */
module Writer {
  import opened Common
  import opened Text
  import opened Testcase

  // ---------------------------------------------------------------------------
  // Rendering sections

  /** One `NAME:` header and the value written under it. */
  datatype Section = Section(key: Key, value: string)

  /** `f"{NAME}:\n{value}"`. */
  function SectionText(s: Section): string {
    Name(s.key) + ":\n" + s.value
  }

  /** A section followed by the newline that separates it from the next. */
  function Block(s: Section): string {
    SectionText(s) + "\n"
  }

  /** The blocks of `secs`, one after the other. */
  function Doc(secs: seq<Section>): string {
    if secs == [] then "" else Block(secs[0]) + Doc(secs[1..])
  }

  /** `"\n".join(sections).rstrip() + "\n"`. */
  function Render(secs: seq<Section>): string {
    TrimRight(Join("\n", Map(SectionText, secs))) + "\n"
  }

  lemma {:induction false} DocAppend(a: seq<Section>, b: seq<Section>)
    ensures Doc(a + b) == Doc(a) + Doc(b)
    decreases |a|
  {
    if a == [] {
      assert a + b == b;
    } else {
      assert (a + b)[0] == a[0] && (a + b)[1..] == a[1..] + b;
      DocAppend(a[1..], b);
    }
  }

  /** Joining the section texts with newlines and adding one more gives the blocks. */
  lemma {:induction false} JoinIsDoc(secs: seq<Section>)
    requires secs != []
    ensures Join("\n", Map(SectionText, secs)) + "\n" == Doc(secs)
    decreases |secs|
  {
    var parts := Map(SectionText, secs);
    if |secs| == 1 {
      assert Doc(secs) == Block(secs[0]) + Doc([]);
    } else {
      assert parts[1..] == Map(SectionText, secs[1..]);
      JoinIsDoc(secs[1..]);
    }
  }

  /**
   * When the last value ends in something other than whitespace, the
   * `rstrip()` removes nothing and the text is exactly the blocks.
   */
  lemma RenderIsDoc(secs: seq<Section>)
    requires secs != []
    requires var v := secs[|secs| - 1].value; v != [] && !IsSpace(v[|v| - 1])
    ensures Render(secs) == Doc(secs)
  {
    var j := Join("\n", Map(SectionText, secs));
    var last := secs[|secs| - 1];
    JoinEndsWithLast(secs);
    assert j[|j| - 1] == last.value[|last.value| - 1];
    TrimRightUnpadded(j);
    JoinIsDoc(secs);
  }

  lemma JoinEndsWithLast(secs: seq<Section>)
    requires secs != []
    ensures Join("\n", Map(SectionText, secs)) == Doc(secs[..|secs| - 1]) + SectionText(secs[|secs| - 1])
  {
    var init := secs[..|secs| - 1];
    var last := secs[|secs| - 1];
    assert init + [last] == secs;
    JoinIsDoc(secs);
    DocSnoc(init, last);
    BeforeNewline(Join("\n", Map(SectionText, secs)), Doc(init), SectionText(last));
  }

  /** What precedes a final newline is determined by the text. */
  lemma BeforeNewline(x: string, a: string, b: string)
    requires x + "\n" == a + (b + "\n")
    ensures x == a + b
  {
    assert x == (x + "\n")[..|x|];
    assert a + b == (a + (b + "\n"))[..|a| + |b|];
  }

  lemma TrimRightUnpadded(s: string)
    requires s != [] && !IsSpace(s[|s| - 1])
    ensures TrimRight(s) == s
  {
    assert TrailingSpaces(s) == 0;
    assert s[..|s|] == s;
  }

  // ---------------------------------------------------------------------------
  // Values that read back unchanged

  /** The first line of `v` holds something other than whitespace. */
  predicate FirstLineHasText(v: string) {
    !AllSpace(v[..LineEnd(v, 0)])
  }

  /**
   * A section whose value survives being written and parsed: no carriage
   * return, no line that reads as a header, no trailing newline, and a
   * first line with text on it (else `\s*` after the header would swallow
   * it); a flag's value carries no surrounding whitespace either.
   */
  predicate Good(s: Section) {
    var v := s.value;
    v != [] && '\r' !in v && v[|v| - 1] != '\n' && FirstLineHasText(v) && NoHeaderLine(v)
    && (IsFlag(s.key) ==> !IsSpace(v[0]) && !IsSpace(v[|v| - 1]))
  }

  predicate AllGood(secs: seq<Section>) {
    forall i :: 0 <= i < |secs| ==> Good(secs[i])
  }

  lemma GoodStartsWithText(s: Section)
    requires Good(s)
    ensures s.value[0] != '\n'
  {
  }

  lemma IndexOfAt(s: string, c: char, k: nat)
    requires k < |s| && s[k] == c && c !in s[..k]
    ensures IndexOf(s, c) == k
  {
  }

  /** Lines of a value placed in a text, followed by a newline there, are the value's own lines. */
  lemma LineEndShift(t: string, off: nat, v: string, i: nat)
    requires off + |v| < |t| && t[off..off + |v|] == v && t[off + |v|] == '\n' && i <= |v|
    ensures LineEnd(t, off + i) == off + LineEnd(v, i)
    ensures t[off + i..LineEnd(t, off + i)] == v[i..LineEnd(v, i)]
  {
    var e := LineEnd(v, i);
    var s := t[off + i..];
    assert s[e - i] == '\n' by {
      if e < |v| {
        assert t[off + e] == v[e];
      }
    }
    forall j | 0 <= j < e - i ensures s[j] == v[i + j] {
      assert t[off..off + |v|][i + j] == v[i + j];
    }
    assert s[..e - i] == v[i..e];
    IndexOfAt(s, '\n', e - i);
  }

  // ---------------------------------------------------------------------------
  // Header lines

  lemma NameInjective(k: Key, k': Key)
    requires Name(k) == Name(k')
    ensures k == k'
  {
    assert |Name(k)| == |Name(k')|;
  }

  /** The line `NAME:` is the header `NAME` and no other. */
  lemma {:induction false} LineHeaderOfName(k: Key, ks: seq<Key>)
    ensures LineHeader(Name(k) + ":", ks) == if k in ks then Some(k) else None
  {
    var n := Name(k);
    var l := n + ":";
    NameShape(k);
    if ks != [] {
      var n' := Name(ks[0]);
      if ks[0] == k {
        assert l[0..|n|] == n;
        assert l[|n| + 1..] == [];
      } else {
        NameShape(ks[0]);
        if NameAt(l, 0, n') && |n'| < |l| && l[|n'|] == ':' {
          assert l[0..|n'|] == n;
          NameInjective(k, ks[0]);
        }
        LineHeaderOfName(k, ks[1..]);
      }
    }
  }

  /** A line without a colon is never a header. */
  lemma {:induction false} ColonFreeLine(l: string, ks: seq<Key>)
    requires ':' !in l
    ensures LineHeader(l, ks) == None
  {
    if ks != [] {
      ColonFreeLine(l, ks[1..]);
    }
  }

  lemma ColonFreeText(v: string)
    requires ':' !in v
    ensures NoHeaderLine(v)
  {
    forall i | 0 <= i <= |v| && LineStart(v, i) ensures !IsHeaderLine(v[i..LineEnd(v, i)]) {
      ColonFreeLine(v[i..LineEnd(v, i)], Keys);
    }
  }

  /** Where a header match ends: somewhere in the whitespace run after the colon, where `$` holds. */
  predicate EndsInRun(t: string, m: Match) {
    var c := m.start + |Name(m.key)| + 1;
    c <= m.end <= |t| && m.end <= c + SpaceRun(t, c) && EolAt(t, m.end)
  }

  lemma {:induction false} HeaderFromEnd(t: string, i: nat, ks: seq<Key>)
    requires i <= |t|
    ensures HeaderFrom(t, i, ks).Some? ==> EndsInRun(t, HeaderFrom(t, i, ks).value)
  {
    if ks != [] {
      if HitsAt(t, i, ks[0]) {
        HeaderFromHit(t, i, ks);
      } else {
        HeaderFromMiss(t, i, ks);
        HeaderFromEnd(t, i, ks[1..]);
      }
    }
  }

  // ---------------------------------------------------------------------------
  // Scanning a rendered text

  /** A slice that spells `x + y` spells `x` and then `y`. */
  lemma SliceSplit(t: string, a: nat, x: string, y: string)
    requires a + |x| + |y| <= |t| && t[a..a + |x| + |y|] == x + y
    ensures t[a..a + |x|] == x && t[a + |x|..a + |x| + |y|] == y
  {
    forall j | 0 <= j < |x| ensures t[a + j] == x[j] {
      assert t[a..a + |x| + |y|][j] == (x + y)[j];
    }
    forall j | 0 <= j < |y| ensures t[a + |x| + j] == y[j] {
      assert t[a..a + |x| + |y|][|x| + j] == (x + y)[|x| + j];
    }
  }

  /** The facts about a block placed at `pos` that the scan relies on. */
  lemma BlockChars(t: string, pos: nat, n: string, v: string)
    requires pos + |n| + |v| + 3 <= |t| && t[pos..pos + |n| + |v| + 3] == n + ":\n" + v + "\n"
    ensures var c := pos + |n| + 1;
      t[pos..c] == n + ":" && t[c - 1] == ':' && t[c] == '\n'
      && t[c + 1..c + 1 + |v|] == v && t[c + 1 + |v|] == '\n'
  {
    var c := pos + |n| + 1;
    SliceSplit(t, pos, n + ":\n" + v, "\n");
    assert t[c + 1 + |v|..c + 2 + |v|][0] == t[c + 1 + |v|];
    SliceSplit(t, pos, n + ":\n", v);
    assert n + ":\n" == (n + ":") + "\n";
    SliceSplit(t, pos, n + ":", "\n");
    assert t[c..c + 1][0] == t[c];
    SliceSplit(t, pos, n, ":");
    assert t[c - 1..c][0] == t[c - 1];
  }

  /**
   * The header line of a block ends at its colon, and `\s*$` after the
   * colon can only stop at that line's newline, since the value's first line
   * holds text.
   */
  lemma HeaderLineOfBlock(t: string, pos: nat, n: string, v: string)
    requires '\n' !in n && pos + |n| + |v| + 3 <= |t|
    requires var c := pos + |n| + 1;
      t[pos..c] == n + ":" && t[c] == '\n' && t[c + 1..c + 1 + |v|] == v && FirstLineHasText(v)
    ensures var c := pos + |n| + 1;
      LineEnd(t, pos) == c && t[pos..LineEnd(t, pos)] == n + ":" && RunStopsAt(t, c)
  {
    var c := pos + |n| + 1;
    ColonLineEnd(t, pos, n);
    var q := FirstText(v);
    forall p | c < p <= c + 1 + q ensures t[p] == v[p - c - 1] {
      assert t[c + 1..c + 1 + |v|][p - c - 1] == t[p];
    }
    RunStops(t, c, c + 1 + q);
  }

  /** A line that reads `n:` ends right after the colon. */
  lemma ColonLineEnd(t: string, pos: nat, n: string)
    requires '\n' !in n && pos + |n| + 1 < |t|
    requires t[pos..pos + |n| + 1] == n + ":" && t[pos + |n| + 1] == '\n'
    ensures LineEnd(t, pos) == pos + |n| + 1 && t[pos..LineEnd(t, pos)] == n + ":"
  {
    assert t[pos..][..|n| + 1] == n + ":";
    IndexOfAt(t[pos..], '\n', |n| + 1);
  }

  /** A position on the first line of `v` that holds text. */
  function FirstText(v: string): (q: nat)
    requires FirstLineHasText(v)
    ensures q < |v| && !IsSpace(v[q]) && forall j :: 0 <= j <= q ==> v[j] != '\n'
  {
    var l := v[..LineEnd(v, 0)];
    var q := LeadingSpaces(l);
    assert forall j :: 0 <= j < |l| ==> l[j] == v[j];
    q
  }

  /** After a newline, `\s*$` cannot reach past text that comes before the next newline. */
  lemma RunStops(t: string, c: nat, q: nat)
    requires c < q < |t| && !IsSpace(t[q])
    requires forall p :: c < p <= q ==> t[p] != '\n'
    ensures RunStopsAt(t, c)
  {
    assert c + SpaceRun(t, c) <= q;
  }

  /** The `\s*$` after a colon at `c` can stop nowhere but at `c`. */
  predicate RunStopsAt(t: string, c: nat)
    requires c <= |t|
  {
    forall e :: c <= e <= c + SpaceRun(t, c) && EolAt(t, e) ==> e == c
  }

  /** At a line that is the header of `k`, closed by a colon at `c` where `\s*$` must stop, the pattern matches. */
  lemma BlockHeader(t: string, pos: nat, k: Key, c: nat)
    requires LineStart(t, pos) && c == pos + |Name(k)| + 1 <= |t|
    requires LineHeader(t[pos..LineEnd(t, pos)], Keys) == Some(k) && RunStopsAt(t, c)
    ensures HeaderAt(t, pos) == Some(Match(k, pos, c))
  {
    HeaderAtIsLine(t, pos);
    HeaderAtEnd(t, pos);
    MatchEnd(t, HeaderAt(t, pos).value, k, pos);
  }

  lemma HeaderAtEnd(t: string, pos: nat)
    requires pos <= |t|
    ensures HeaderAt(t, pos).Some? ==> EndsInRun(t, HeaderAt(t, pos).value)
  {
    if LineStart(t, pos) {
      HeaderFromEnd(t, pos, Keys);
    }
  }

  /** When `\s*$` can only stop right after the colon, that is where the match ends. */
  lemma MatchEnd(t: string, m: Match, k: Key, pos: nat)
    requires EndsInRun(t, m) && m.key == k && m.start == pos
    requires var c := pos + |Name(k)| + 1; c <= |t| && RunStopsAt(t, c)
    ensures m == Match(k, pos, pos + |Name(k)| + 1)
  {
  }

  /** Between a header's colon and the next block no match can start. */
  lemma BlockBody(t: string, pos: nat, n: string, v: string, next: nat)
    requires Placed(t, pos, n, v, next)
    requires v != [] && v[|v| - 1] != '\n' && NoHeaderLine(v)
    ensures Quiet(t, pos + |n| + 1, next) && LineStart(t, next)
  {
    forall p | pos + |n| + 1 <= p < next ensures HeaderAt(t, p).None? {
      BodyQuietAt(t, pos, n, v, next, p);
    }
  }

  lemma BodyQuietAt(t: string, pos: nat, n: string, v: string, next: nat, p: nat)
    requires Placed(t, pos, n, v, next)
    requires v != [] && v[|v| - 1] != '\n' && NoHeaderLine(v)
    requires pos + |n| + 1 <= p < next
    ensures HeaderAt(t, p).None?
  {
    var c := pos + |n| + 1;
    var off := c + 1;
    if p == c {
      MidLine(t, p);
    } else if p == off + |v| {
      assert t[p - 1] == v[|v| - 1];
      MidLine(t, p);
    } else {
      ValueQuiet(t, off, v, p);
    }
  }

  /** No match starts in the middle of a line. */
  lemma MidLine(t: string, p: nat)
    requires 0 < p <= |t| && t[p - 1] != '\n'
    ensures HeaderAt(t, p).None?
  {
  }

  /** No match starts inside a value without header lines, placed in a text and followed by a newline. */
  lemma ValueQuiet(t: string, off: nat, v: string, p: nat)
    requires off + |v| < |t| && t[off..off + |v|] == v && t[off + |v|] == '\n' && NoHeaderLine(v)
    requires 0 < off <= p < off + |v| && t[off - 1] == '\n'
    ensures HeaderAt(t, p).None?
  {
    if LineStart(t, p) {
      var i := p - off;
      assert LineStart(v, i) by {
        if i > 0 { assert v[i - 1] == t[p - 1]; }
      }
      LineEndShift(t, off, v, i);
      HeaderAtIsLine(t, p);
    }
  }

  /** Nothing matches anywhere in `[a, b)`. */
  predicate Quiet(t: string, a: nat, b: nat) {
    b <= |t| && forall p :: a <= p < b ==> HeaderAt(t, p).None?
  }

  /**
   * The pattern matches `m` at `pos`, nothing matches from the end of `m` up
   * to `next`, and `next` starts a line.
   */
  predicate Seen(t: string, pos: nat, m: Match, next: nat) {
    pos <= |t| && HeaderAt(t, pos) == Some(m) && m.end <= next && Quiet(t, m.end, next) && LineStart(t, next)
  }

  /** A match at `pos` followed by a stretch where nothing matches: the scan reports it and resumes after the stretch. */
  lemma ScanStep(t: string, pos: nat, m: Match, next: nat)
    requires Seen(t, pos, m, next)
    ensures Scan(t, pos) == [m] + Scan(t, next)
  {
    ScanSkips(t, m.end, next);
  }

  // ---------------------------------------------------------------------------
  // Scanning a rendered text, block by block

  /** The length of a block. */
  function BlockLen(s: Section): nat {
    |Name(s.key)| + |s.value| + 3
  }

  /** The characters of a block `n:`, newline, `v`, newline, placed at `pos` and ending at `next`. */
  predicate Placed(t: string, pos: nat, n: string, v: string, next: nat) {
    var c := pos + |n| + 1;
    next == c + |v| + 2 <= |t| && t[pos..c] == n + ":" && t[c - 1] == ':' && t[c] == '\n'
    && t[c + 1..c + 1 + |v|] == v && t[c + 1 + |v|] == '\n'
  }

  lemma BlockPlaced(t: string, pos: nat, s: Section, next: nat)
    requires next == pos + BlockLen(s) <= |t| && t[pos..next] == Block(s)
    ensures Placed(t, pos, Name(s.key), s.value, next)
  {
    var n := Name(s.key);
    assert next == pos + |n| + |s.value| + 3;
    BlockChars(t, pos, n, s.value);
  }

  /** Where the `i`th block of a document starts: after the blocks before it. */
  function Start(secs: seq<Section>, i: nat): nat
    requires i <= |secs|
  {
    if i == 0 then 0 else Start(secs, i - 1) + BlockLen(secs[i - 1])
  }

  /** The blocks before the `i`th one make up the document up to its start. */
  lemma {:induction false} StartIsPrefix(secs: seq<Section>, i: nat)
    requires i <= |secs|
    ensures Start(secs, i) == |Doc(secs[..i])|
    decreases i
  {
    if i > 0 {
      StartIsPrefix(secs, i - 1);
      TakeSnoc(secs, i);
      DocSnoc(secs[..i - 1], secs[i - 1]);
    }
  }

  lemma TakeSnoc(secs: seq<Section>, i: nat)
    requires 0 < i <= |secs|
    ensures secs[..i] == secs[..i - 1] + [secs[i - 1]]
  {
  }

  /** A document with one more section ends with that section's block. */
  lemma DocSnoc(secs: seq<Section>, s: Section)
    ensures Doc(secs + [s]) == Doc(secs) + Block(s)
  {
    DocAppend(secs, [s]);
    assert Doc([s]) == Block(s) + Doc([]);
  }

  /** The `i`th block of a document sits at its start, and the next block starts right after it. */
  lemma DocAt(secs: seq<Section>, i: nat)
    requires i < |secs|
    ensures Start(secs, i + 1) == Start(secs, i) + BlockLen(secs[i]) <= |Doc(secs)|
    ensures Doc(secs)[Start(secs, i)..Start(secs, i + 1)] == Block(secs[i])
  {
    StartIsPrefix(secs, i);
    DocSplit(secs, i);
    Middle(Doc(secs[..i]), Block(secs[i]), Doc(secs[i + 1..]));
  }

  /** A document is the blocks before the `i`th one, the `i`th block, and the blocks after it. */
  lemma DocSplit(secs: seq<Section>, i: nat)
    requires i < |secs|
    ensures Doc(secs) == Doc(secs[..i]) + Block(secs[i]) + Doc(secs[i + 1..])
  {
    var rest := secs[i..];
    assert rest[0] == secs[i] && rest[1..] == secs[i + 1..];
    assert secs == secs[..i] + rest;
    DocAppend(secs[..i], rest);
    DocCons(rest);
    Assoc(Doc(secs[..i]), Block(secs[i]), Doc(secs[i + 1..]));
  }

  lemma DocCons(secs: seq<Section>)
    requires secs != []
    ensures Doc(secs) == Block(secs[0]) + Doc(secs[1..])
  {
  }

  lemma Assoc(a: string, b: string, c: string)
    ensures a + (b + c) == a + b + c
  {
  }

  /** The middle part of `a + b + r` is `b`. */
  lemma Middle(a: string, b: string, r: string)
    ensures (a + b + r)[|a|..|a| + |b|] == b
  {
  }

  /** The blocks of a document fill it. */
  lemma DocEnd(secs: seq<Section>)
    ensures Start(secs, |secs|) == |Doc(secs)|
  {
    StartIsPrefix(secs, |secs|);
    assert secs[..|secs|] == secs;
  }

  /** `t` is made of the blocks of `secs`, each at its start, and nothing else. */
  predicate Tiled(t: string, secs: seq<Section>) {
    Start(secs, |secs|) == |t| && forall i :: 0 <= i < |secs| ==> TileAt(t, secs, i)
  }

  /** The `i`th block of `secs` sits in `t` from its start up to the next one. */
  predicate TileAt(t: string, secs: seq<Section>, i: nat)
    requires i < |secs|
  {
    Start(secs, i + 1) <= |t| && t[Start(secs, i)..Start(secs, i + 1)] == Block(secs[i])
  }

  lemma DocTiled(secs: seq<Section>)
    ensures Tiled(Doc(secs), secs)
  {
    DocEnd(secs);
    forall i | 0 <= i < |secs| ensures TileAt(Doc(secs), secs, i) {
      DocAt(secs, i);
    }
  }

  /** The `i`th block of a tiled text is placed at its start. */
  lemma TiledPlaced(t: string, secs: seq<Section>, i: nat)
    requires Tiled(t, secs) && i < |secs|
    ensures Placed(t, Start(secs, i), Name(secs[i].key), secs[i].value, Start(secs, i + 1))
  {
    var s := secs[i];
    assert TileAt(t, secs, i);
    assert Start(secs, i + 1) == Start(secs, i) + BlockLen(s);
    BlockPlaced(t, Start(secs, i), s, Start(secs, i + 1));
  }

  /** Every block of a tiled text starts a line. */
  lemma StartsLine(t: string, secs: seq<Section>, i: nat)
    requires Tiled(t, secs) && i <= |secs|
    ensures LineStart(t, Start(secs, i))
  {
    if i > 0 {
      TiledPlaced(t, secs, i - 1);
    }
  }

  /** The header line of a placed block is the header of its key, and `\s*$` stops at its colon. */
  lemma PlacedLine(t: string, pos: nat, k: Key, v: string, next: nat)
    requires Placed(t, pos, Name(k), v, next) && FirstLineHasText(v)
    ensures var c := pos + |Name(k)| + 1;
      c <= |t| && LineHeader(t[pos..LineEnd(t, pos)], Keys) == Some(k) && RunStopsAt(t, c)
  {
    NameShape(k);
    HeaderLineOfBlock(t, pos, Name(k), v);
    LineHeaderOfName(k, Keys);
    assert k in Keys;
  }

  lemma PlacedHeader(t: string, pos: nat, k: Key, v: string, next: nat)
    requires LineStart(t, pos) && Placed(t, pos, Name(k), v, next) && FirstLineHasText(v)
    ensures HeaderAt(t, pos) == Some(Match(k, pos, pos + |Name(k)| + 1))
  {
    PlacedLine(t, pos, k, v, next);
    BlockHeader(t, pos, k, pos + |Name(k)| + 1);
  }

  /** A placed block whose value is good is seen as its header followed by a stretch without matches. */
  lemma PlacedSeen(t: string, pos: nat, k: Key, v: string, next: nat, m: Match)
    requires LineStart(t, pos) && Placed(t, pos, Name(k), v, next)
    requires FirstLineHasText(v) && v[|v| - 1] != '\n' && NoHeaderLine(v)
    requires m == Match(k, pos, pos + |Name(k)| + 1)
    ensures Seen(t, pos, m, next)
  {
    PlacedBounds(t, pos, Name(k), v, next);
    PlacedHeader(t, pos, k, v, next);
    BlockBody(t, pos, Name(k), v, next);
  }

  lemma PlacedBounds(t: string, pos: nat, n: string, v: string, next: nat)
    requires Placed(t, pos, n, v, next)
    ensures pos + |n| + 1 < next <= |t|
  {
  }

  /** The matches the scan should find in a document: the header of each block, where the block starts. */
  function Expected(secs: seq<Section>): (ms: seq<Match>)
    ensures |ms| == |secs|
  {
    seq(|secs|, i requires 0 <= i < |secs| => Match(secs[i].key, Start(secs, i), Start(secs, i) + |Name(secs[i].key)| + 1))
  }

  /** The `i`th match expected in a document is the header of its `i`th block. */
  lemma MatchAt(secs: seq<Section>, i: nat)
    requires i < |secs|
    ensures Expected(secs)[i] == Match(secs[i].key, Start(secs, i), Start(secs, i) + |Name(secs[i].key)| + 1)
  {
  }

  /** Each good block of a tiled text is seen as its header, with nothing matching up to the next block. */
  lemma SeenAt(t: string, secs: seq<Section>, i: nat)
    requires Tiled(t, secs) && i < |secs| && Good(secs[i])
    ensures Seen(t, Start(secs, i), Expected(secs)[i], Start(secs, i + 1))
  {
    MatchAt(secs, i);
    StartsLine(t, secs, i);
    TiledPlaced(t, secs, i);
    PlacedSeen(t, Start(secs, i), secs[i].key, secs[i].value, Start(secs, i + 1), Expected(secs)[i]);
  }

  /** Scanning a tiled text of good sections from its `i`th block finds the headers of that block and the ones after it. */
  lemma {:induction false} ScanFrom(t: string, secs: seq<Section>, i: nat)
    requires Tiled(t, secs) && i <= |secs| && AllGood(secs)
    ensures ScansFrom(t, secs, i)
    decreases |secs| - i
  {
    if i < |secs| {
      ScanFrom(t, secs, i + 1);
      ScanFromStep(t, secs, i);
    } else {
      ScanFromEnd(t, secs);
    }
  }

  /** Scanning from the start of the `i`th block finds the expected matches from the `i`th on. */
  predicate ScansFrom(t: string, secs: seq<Section>, i: nat)
    requires i <= |secs|
  {
    Start(secs, i) <= |t| && Scan(t, Start(secs, i)) == Expected(secs)[i..]
  }

  /** Scanning from a good block finds its header, then what scanning from the next block finds. */
  lemma ScanFromStep(t: string, secs: seq<Section>, i: nat)
    requires Tiled(t, secs) && i < |secs| && AllGood(secs)
    requires ScansFrom(t, secs, i + 1)
    ensures ScansFrom(t, secs, i)
  {
    var ms := Expected(secs);
    assert Good(secs[i]);
    SeenAt(t, secs, i);
    ScanStep(t, Start(secs, i), ms[i], Start(secs, i + 1));
    DropFirst(ms, i);
  }

  /** Past the last block there is nothing left to find. */
  lemma ScanFromEnd(t: string, secs: seq<Section>)
    requires Tiled(t, secs)
    ensures ScansFrom(t, secs, |secs|)
  {
    ScanEnd(t, |t|);
  }

  lemma DropFirst(ms: seq<Match>, i: nat)
    requires i < |ms|
    ensures ms[i..] == [ms[i]] + ms[i + 1..]
  {
  }

  // ---------------------------------------------------------------------------
  // Reading the fields back

  /** A value between two newlines loses exactly those two newlines to `strip("\n")`. */
  lemma StripNewlinesAround(v: string)
    requires v != [] && v[0] != '\n' && v[|v| - 1] != '\n'
    ensures LStripChar("\n" + v + "\n", '\n') == v + "\n"
    ensures StripChar("\n" + v + "\n", '\n') == v
  {
    var w := "\n" + v + "\n";
    var u := v + "\n";
    assert w[1..] == u;
    assert LeadingChars(u, '\n') == 0;
    assert LeadingChars(w, '\n') == 1;
    assert u[..|u| - 1] == v;
    assert TrailingChars(v, '\n') == 0;
    assert TrailingChars(u, '\n') == 1;
  }

  /** `strip()` of an unpadded value followed by a newline is the value. */
  lemma StripBeforeNewline(v: string)
    requires v != [] && !IsSpace(v[0]) && !IsSpace(v[|v| - 1])
    ensures Strip(v + "\n") == v
  {
    var u := v + "\n";
    assert LeadingSpaces(u) == 0;
    assert u[0..] == u;
    assert u[..|u| - 1] == v;
    assert TrailingSpaces(v) == 0;
    assert TrailingSpaces(u) == 1;
  }

  /** The stretch after a placed header's colon is the value between two newlines. */
  lemma PlacedBody(t: string, pos: nat, n: string, v: string, next: nat)
    requires Placed(t, pos, n, v, next)
    ensures pos + |n| + 1 <= next <= |t| && t[pos + |n| + 1..next] == "\n" + v + "\n"
  {
    var c := pos + |n| + 1;
    forall j | 0 <= j < |v| + 2 ensures t[c..next][j] == ("\n" + v + "\n")[j] {
      if 0 < j <= |v| {
        assert t[c + 1..c + 1 + |v|][j - 1] == t[c + j];
      }
    }
  }

  /** What stripping the stretch after a header needs of a value. */
  predicate Unwrapped(s: Section) {
    var v := s.value;
    v != [] && v[0] != '\n' && v[|v| - 1] != '\n' && (IsFlag(s.key) ==> !IsSpace(v[0]) && !IsSpace(v[|v| - 1]))
  }

  lemma GoodUnwrapped(s: Section)
    requires Good(s)
    ensures Unwrapped(s)
  {
  }

  /** What the parser stores for a placed good section is its value. */
  lemma PlacedContent(t: string, pos: nat, m: Match, s: Section, next: nat)
    requires m == Match(s.key, pos, pos + |Name(s.key)| + 1) && Placed(t, pos, Name(s.key), s.value, next) && Unwrapped(s)
    ensures m.end <= next <= |t| && Content(t, s.key, m.end, next) == s.value
  {
    PlacedBody(t, pos, Name(s.key), s.value, next);
    WrappedContent(s);
  }

  /** The parser's stripping undoes the two newlines around an unwrapped value. */
  lemma WrappedContent(s: Section)
    requires Unwrapped(s)
    ensures var w := "\n" + s.value + "\n";
      (if IsFlag(s.key) then Strip(LStripChar(w, '\n')) else StripChar(w, '\n')) == s.value
  {
    StripNewlinesAround(s.value);
    if IsFlag(s.key) {
      StripBeforeNewline(s.value);
    }
  }

  /** Every section of `secs` is what the parser stores for the match at the same index. */
  predicate ReadsBack(t: string, ms: seq<Match>, secs: seq<Section>)
    requires Ordered(t, ms)
  {
    |ms| == |secs|
    && forall i {:trigger secs[i]} :: 0 <= i < |secs| ==>
      ms[i].key == secs[i].key && Content(t, secs[i].key, ms[i].end, SectionEnd(t, ms, i)) == secs[i].value
  }

  /** The parser's content for the `i`th expected match of a tiled text is the `i`th value. */
  lemma ReadAt(t: string, secs: seq<Section>, i: nat)
    requires Tiled(t, secs) && i < |secs| && Good(secs[i])
    ensures var ms := Expected(secs);
      var next := if i + 1 < |secs| then ms[i + 1].start else |t|;
      ms[i].end <= next <= |t| && Content(t, secs[i].key, ms[i].end, next) == secs[i].value
  {
    MatchAt(secs, i);
    NextStart(t, secs, i);
    TiledPlaced(t, secs, i);
    GoodUnwrapped(secs[i]);
    PlacedContent(t, Start(secs, i), Expected(secs)[i], secs[i], Start(secs, i + 1));
  }

  /** What follows the `i`th block of a tiled text is the next expected match, or the end of the text. */
  lemma NextStart(t: string, secs: seq<Section>, i: nat)
    requires Tiled(t, secs) && i < |secs|
    ensures (if i + 1 < |secs| then Expected(secs)[i + 1].start else |t|) == Start(secs, i + 1)
  {
    if i + 1 < |secs| {
      MatchAt(secs, i + 1);
    } else {
      assert i + 1 == |secs|;
    }
  }

  lemma PlacedReadsBack(t: string, secs: seq<Section>)
    requires Tiled(t, secs) && AllGood(secs) && Ordered(t, Expected(secs))
    ensures ReadsBack(t, Expected(secs), secs)
  {
    var ms := Expected(secs);
    forall i | 0 <= i < |secs|
      ensures Content(t, secs[i].key, ms[i].end, SectionEnd(t, ms, i)) == secs[i].value
    {
      ReadAt(t, secs, i);
    }
  }

  /** A document of good sections has no carriage return, so normalising line endings leaves it alone. */
  lemma {:induction false} DocNoCr(secs: seq<Section>)
    requires forall i :: 0 <= i < |secs| ==> '\r' !in secs[i].value
    ensures '\r' !in Doc(secs)
    decreases |secs|
  {
    if secs != [] {
      BlockNoCr(secs[0]);
      DocNoCr(secs[1..]);
    }
  }

  lemma BlockNoCr(s: Section)
    requires '\r' !in s.value
    ensures '\r' !in Block(s)
  {
    assert '\r' !in Name(s.key);
  }

  /** The matches of a document of good sections are the expected ones, and each reads back its section. */
  lemma DocReadsBack(secs: seq<Section>)
    requires AllGood(secs)
    ensures var t := Doc(secs); Ordered(t, Matches(t)) && Matches(t) == Expected(secs)
    ensures var t := Doc(secs); ReadsBack(t, Matches(t), secs)
  {
    var t := Doc(secs);
    DocTiled(secs);
    ScanFrom(t, secs, 0);
    ScanSpec(t, 0);
    PlacedReadsBack(t, secs);
  }

  /** The value of the last section of `secs` whose header is `k`. */
  function LastValue(secs: seq<Section>, k: Key): Option<string> {
    if secs == [] then None
    else if secs[|secs| - 1].key == k then Some(secs[|secs| - 1].value)
    else LastValue(secs[..|secs| - 1], k)
  }

  /** Appending sections overrides a header only if they carry it. */
  lemma {:induction false} LastValueAppend(a: seq<Section>, b: seq<Section>, k: Key)
    ensures LastValue(a + b, k) == if LastValue(b, k).Some? then LastValue(b, k) else LastValue(a, k)
    decreases |b|
  {
    if b == [] {
      assert a + b == a;
    } else {
      var b' := b[..|b| - 1];
      assert (a + b)[..|a + b| - 1] == a + b';
      LastValueAppend(a, b', k);
    }
  }

  /** After the first `n` sections, the parser holds for `k` the last of them carrying `k`. */
  lemma {:induction false} FieldBelowValue(t: string, ms: seq<Match>, secs: seq<Section>, k: Key, n: nat)
    requires Ordered(t, ms) && ReadsBack(t, ms, secs) && n <= |ms|
    ensures FieldBelow(t, ms, k, n) == LastValue(secs[..n], k)
  {
    if n > 0 {
      FieldBelowStep(t, ms, k, n - 1);
      LastValueStep(secs, k, n);
      FieldBelowValue(t, ms, secs, k, n - 1);
    }
  }

  lemma LastValueStep(secs: seq<Section>, k: Key, n: nat)
    requires 0 < n <= |secs|
    ensures LastValue(secs[..n], k) == if secs[n - 1].key == k then Some(secs[n - 1].value) else LastValue(secs[..n - 1], k)
  {
    assert secs[..n][..n - 1] == secs[..n - 1];
  }

  /**
   * Parsing a document of good sections gives each header the value of its
   * last section, and leaves absent headers `None`.
   */
  lemma ParseDoc(secs: seq<Section>, k: Key)
    requires secs != [] && AllGood(secs)
    ensures Parsed(Doc(secs)).Get(k) == LastValue(secs, k)
  {
    var t := Doc(secs);
    assert forall i :: 0 <= i < |secs| ==> Good(secs[i]);
    DocNoCr(secs);
    DocReadsBack(secs);
    ParsedFields(t);
    var ms := Matches(t);
    FieldBelowValue(t, ms, secs, k, |ms|);
    assert secs[..|ms|] == secs;
  }

  // ---------------------------------------------------------------------------
  // The dialog's "Save"

  /**
   * What the dialog holds when "Save" is pressed. `input` and `output` are
   * the text boxes' contents; the two choices are "default" (`Unset`), "yes"
   * or "no"; `mark` and `timeout` are the entry fields as typed.
   */
  datatype Form = Form(
    question: string, name: string, input: string, output: string,
    removeSpaces: TriBool, caseSensitive: TriBool, mark: string, timeout: string)

  /** What pressing "Save" does: warn about a missing field, stop at a declined overwrite, or write a file. */
  datatype SaveOutcome = MissingName | MissingText | Declined | Written(path: string, content: string)

  function InputText(f: Form): string {
    StripChar(f.input, '\n')
  }

  function OutputText(f: Form): string {
    StripChar(f.output, '\n')
  }

  /** The mark as typed, or `1.0` when the field is blank. */
  function MarkText(f: Form): string {
    if Strip(f.mark) == "" then "1.0" else Strip(f.mark)
  }

  function TimeoutText(f: Form): string {
    Strip(f.timeout)
  }

  /** `choice.upper()` of the choices "yes" and "no". */
  function ChoiceWord(b: TriBool): string
    requires b != Unset
  {
    if b == Yes then "YES" else "NO"
  }

  /** `name.lower().endswith(".txt")`. */
  predicate HasTxt(name: string) {
    var l := Lower(name);
    |l| >= 4 && l[|l| - 4..] == ".txt"
  }

  /** The file name: the stripped name, with `.txt` appended unless it already ends so in some case. */
  function FileName(f: Form): string {
    var name := Strip(f.name);
    if HasTxt(name) then name else name + ".txt"
  }

  /** `root / question / "TestCases" / name`. */
  function Target(root: string, f: Form): string {
    root + "/" + f.question + "/TestCases/" + FileName(f)
  }

  /** The sections the dialog writes, in order; a "default" choice or a blank timeout writes none. */
  function FormSections(f: Form): seq<Section> {
    Layout(InputText(f), OutputText(f), f.removeSpaces, f.caseSensitive, MarkText(f), TimeoutText(f))
  }

  /** The sections in the order they are appended; a "default" choice or a blank timeout adds none. */
  function Layout(input: string, output: string, rs: TriBool, cs: TriBool, mark: string, timeout: string): seq<Section> {
    var both := [Section(Input, input), Section(Output, output)];
    var withRs := AppendOpt(both, ChoiceSection(RemoveSpaces, rs));
    var withCs := AppendOpt(withRs, ChoiceSection(CaseSensitive, cs));
    var marked := AppendOpt(withCs, Some(Section(Mark, mark)));
    AppendOpt(marked, TimeoutSection(timeout))
  }

  /** `sections.append(...)` when there is a section to add. */
  function AppendOpt(secs: seq<Section>, o: Option<Section>): seq<Section> {
    if o.None? then secs else secs + [o.value]
  }

  /** The section a choice adds: none for "default". */
  function ChoiceSection(k: Key, b: TriBool): Option<Section> {
    if b == Unset then None else Some(Section(k, ChoiceWord(b)))
  }

  /** The TIMEOUT_MS section: none for a blank timeout. */
  function TimeoutSection(timeout: string): Option<Section> {
    if timeout == "" then None else Some(Section(TimeoutMs, timeout))
  }

  /** The text of the file written for `f`. */
  function FileText(f: Form): string {
    Render(FormSections(f))
  }

  /**
   * What "Save" does for form `f` under `root`, given the paths that already
   * exist and the answer the overwrite question would get.
   */
  function SaveResult(root: string, f: Form, existing: set<string>, overwrite: bool): SaveOutcome {
    if Strip(f.name) == "" then MissingName
    else if InputText(f) == "" || OutputText(f) == "" then MissingText
    else if Target(root, f) in existing && !overwrite then Declined
    else Written(Target(root, f), FileText(f))
  }

  /** `TestcaseDialog.save`: checks the form, then appends the sections one by one and joins them. */
  method Save(root: string, f: Form, existing: set<string>, overwrite: bool) returns (r: SaveOutcome)
    ensures r == SaveResult(root, f, existing, overwrite)
  {
    var name := Strip(f.name);
    if name == "" {
      return MissingName;
    }
    if !HasTxt(name) {
      name := name + ".txt";
    }
    var input := StripChar(f.input, '\n');
    var output := StripChar(f.output, '\n');
    if input == "" || output == "" {
      return MissingText;
    }
    var mark := Strip(f.mark);
    if mark == "" {
      mark := "1.0";
    }
    var timeout := Strip(f.timeout);
    var content := SaveContent(input, output, f.removeSpaces, f.caseSensitive, mark, timeout);
    assert mark == MarkText(f);
    assert content == FileText(f);
    var target := root + "/" + f.question + "/TestCases/" + name;
    assert target == Target(root, f);
    if target in existing && !overwrite {
      return Declined;
    }
    return Written(target, content);
  }

  /** The content building of "Save": appends the sections in order, joins them with newlines, and ends with one. */
  method SaveContent(input: string, output: string, rs: TriBool, cs: TriBool, mark: string, timeout: string)
    returns (content: string)
    ensures content == Render(Layout(input, output, rs, cs, mark, timeout))
  {
    ghost var both := [Section(Input, input), Section(Output, output)];
    ghost var secs := both;
    var sections := [SectionText(Section(Input, input)), SectionText(Section(Output, output))];
    MapPair(SectionText, secs[0], secs[1]);
    var sec: Section;
    if rs != Unset {
      sec := Section(RemoveSpaces, ChoiceWord(rs));
      MapSnoc(SectionText, secs, sec);
      sections, secs := sections + [SectionText(sec)], secs + [sec];
    }
    ghost var withRs := secs;
    if cs != Unset {
      sec := Section(CaseSensitive, ChoiceWord(cs));
      MapSnoc(SectionText, secs, sec);
      sections, secs := sections + [SectionText(sec)], secs + [sec];
    }
    ghost var withCs := secs;
    sec := Section(Mark, mark);
    MapSnoc(SectionText, secs, sec);
    sections, secs := sections + [SectionText(sec)], secs + [sec];
    ghost var marked := secs;
    if timeout != "" {
      sec := Section(TimeoutMs, timeout);
      MapSnoc(SectionText, secs, sec);
      sections, secs := sections + [SectionText(sec)], secs + [sec];
    }
    assert withRs == AppendOpt(both, ChoiceSection(RemoveSpaces, rs));
    assert withCs == AppendOpt(withRs, ChoiceSection(CaseSensitive, cs));
    assert secs == AppendOpt(marked, TimeoutSection(timeout));
    content := TrimRight(Join("\n", sections)) + "\n";
  }

  // ---------------------------------------------------------------------------
  // What "Save" promises

  /** The file name ends in `.txt` in some case, starts with the typed name, and gains `.txt` only when it lacked it. */
  lemma FileNameTxt(f: Form)
    ensures var name := Strip(f.name); var file := FileName(f);
      HasTxt(file) && |name| <= |file| && file[..|name|] == name
      && (file == name <==> HasTxt(name))
      && (file != name ==> file[|name|..] == ".txt")
  {
    var name := Strip(f.name);
    var file := FileName(f);
    if !HasTxt(name) {
      var l := Lower(file);
      assert l[|l| - 4..] == ".txt" by {
        forall j | 0 <= j < 4 ensures l[|l| - 4 + j] == ".txt"[j] {
          assert file[|name| + j] == ".txt"[j];
        }
      }
      assert file[..|name|] == name;
    }
  }

  /** "Save" warns, and writes nothing, when the name, the input or the output is blank. */
  lemma SaveRejects(root: string, f: Form, existing: set<string>, overwrite: bool)
    ensures Strip(f.name) == "" ==> SaveResult(root, f, existing, overwrite) == MissingName
    ensures Strip(f.name) != "" && (InputText(f) == "" || OutputText(f) == "")
      ==> SaveResult(root, f, existing, overwrite) == MissingText
    ensures SaveResult(root, f, existing, overwrite).Written?
      <==> (Strip(f.name) != "" && InputText(f) != "" && OutputText(f) != ""
            && (Target(root, f) !in existing || overwrite))
  {
  }

  /** The written file ends in exactly one newline. */
  lemma FileTextEnding(f: Form)
    ensures var c := FileText(f); c != [] && c[|c| - 1] == '\n' && (|c| == 1 || c[|c| - 2] != '\n')
  {
    RenderEnding(FormSections(f));
  }

  /** A rendered text ends with exactly one newline. */
  lemma RenderEnding(secs: seq<Section>)
    ensures var c := Render(secs); c != [] && c[|c| - 1] == '\n' && (|c| == 1 || c[|c| - 2] != '\n')
  {
    var r := TrimRight(Join("\n", Map(SectionText, secs)));
    assert Render(secs) == r + "\n";
    if r != [] {
      assert Render(secs)[|r| - 1] == r[|r| - 1];
    }
  }

  /** Where a header stands in the order the dialog writes them. */
  function Rank(k: Key): nat {
    match k
    case Input => 0
    case Output => 1
    case RemoveSpaces => 2
    case CaseSensitive => 3
    case Mark => 4
    case TimeoutMs => 5
  }

  predicate InOrder(secs: seq<Section>) {
    forall i, j :: 0 <= i < j < |secs| ==> Rank(secs[i].key) < Rank(secs[j].key)
  }

  lemma InOrderSnoc(secs: seq<Section>, s: Section)
    requires InOrder(secs) && forall i :: 0 <= i < |secs| ==> Rank(secs[i].key) < Rank(s.key)
    ensures InOrder(secs + [s])
  {
  }

  /**
   * The sections come in the order INPUT, OUTPUT, REMOVE_SPACES,
   * CASE_SENSITIVE, MARK, TIMEOUT_MS, each at most once, INPUT and OUTPUT
   * first.
   */
  lemma LayoutOrder(input: string, output: string, rs: TriBool, cs: TriBool, mark: string, timeout: string)
    ensures var secs := Layout(input, output, rs, cs, mark, timeout);
      InOrder(secs) && |secs| >= 3 && secs[0] == Section(Input, input) && secs[1] == Section(Output, output)
  {
    var both := [Section(Input, input), Section(Output, output)];
    var withRs := AppendOpt(both, ChoiceSection(RemoveSpaces, rs));
    var withCs := AppendOpt(withRs, ChoiceSection(CaseSensitive, cs));
    var marked := AppendOpt(withCs, Some(Section(Mark, mark)));
    assert RanksBelow(both, 2);
    AppendOptOrder(both, ChoiceSection(RemoveSpaces, rs), 2);
    AppendOptOrder(withRs, ChoiceSection(CaseSensitive, cs), 3);
    AppendOptOrder(withCs, Some(Section(Mark, mark)), 4);
    AppendOptOrder(marked, TimeoutSection(timeout), 5);
  }

  /** Every header of `secs` comes before rank `r`. */
  predicate RanksBelow(secs: seq<Section>, r: nat) {
    forall i :: 0 <= i < |secs| ==> Rank(secs[i].key) < r
  }

  /** Appending a section of rank `r` after sections that all rank below it keeps the order. */
  lemma AppendOptOrder(secs: seq<Section>, o: Option<Section>, r: nat)
    requires InOrder(secs) && RanksBelow(secs, r) && (o.Some? ==> Rank(o.value.key) == r)
    ensures var secs' := AppendOpt(secs, o);
      InOrder(secs') && RanksBelow(secs', r + 1) && secs'[..|secs|] == secs
  {
    if o.Some? {
      InOrderSnoc(secs, o.value);
    }
  }

  // ---------------------------------------------------------------------------
  // The round trip

  /** A value free of carriage returns and of lines that read as headers. */
  predicate Legible(v: string) {
    '\r' !in v && NoHeaderLine(v)
  }

  /** The record the sections stand for: each written field, `None` for the ones left out. */
  function Wanted(input: string, output: string, rs: TriBool, cs: TriBool, mark: string, timeout: string): TestCase {
    TestCase(
      Some(input), Some(output),
      if rs == Unset then None else Some(ChoiceWord(rs)),
      if cs == Unset then None else Some(ChoiceWord(cs)),
      Some(mark),
      if timeout == "" then None else Some(timeout))
  }

  /** What the form asks the file to say. */
  function Entered(f: Form): TestCase {
    Wanted(InputText(f), OutputText(f), f.removeSpaces, f.caseSensitive, MarkText(f), TimeoutText(f))
  }

  /** A header has a last value exactly when some section carries it. */
  lemma {:induction false} LastValueFound(secs: seq<Section>, k: Key)
    ensures LastValue(secs, k).Some? <==> exists i :: 0 <= i < |secs| && secs[i].key == k
    ensures LastValue(secs, k).Some? ==> Section(k, LastValue(secs, k).value) in secs
  {
    if secs != [] {
      var init := secs[..|secs| - 1];
      LastValueFound(init, k);
      if secs[|secs| - 1].key != k {
        assert forall i :: 0 <= i < |init| ==> init[i] == secs[i];
        if LastValue(secs, k).Some? {
          var i :| 0 <= i < |init| && init[i] == Section(k, LastValue(secs, k).value);
          assert secs[i] == init[i];
        }
      }
    }
  }

  lemma LastValueSnoc(secs: seq<Section>, s: Section, k: Key)
    ensures LastValue(secs + [s], k) == if s.key == k then Some(s.value) else LastValue(secs, k)
  {
    assert (secs + [s])[..|secs|] == secs;
  }

  lemma LastValuePair(a: Section, b: Section, k: Key)
    ensures LastValue([a, b], k) == if b.key == k then Some(b.value) else if a.key == k then Some(a.value) else None
  {
    assert [a, b][..1] == [a];
    assert LastValue([a], k) == if a.key == k then Some(a.value) else LastValue([], k);
  }

  /** The last section with each header carries the value meant for it. */
  lemma LayoutValues(input: string, output: string, rs: TriBool, cs: TriBool, mark: string, timeout: string, k: Key)
    ensures LastValue(Layout(input, output, rs, cs, mark, timeout), k) == Wanted(input, output, rs, cs, mark, timeout).Get(k)
  {
    var a := Section(Input, input);
    var b := Section(Output, output);
    var both := [a, b];
    var withRs := AppendOpt(both, ChoiceSection(RemoveSpaces, rs));
    var withCs := AppendOpt(withRs, ChoiceSection(CaseSensitive, cs));
    var marked := AppendOpt(withCs, Some(Section(Mark, mark)));
    LastValuePair(a, b, k);
    AppendOptValue(both, ChoiceSection(RemoveSpaces, rs), k);
    AppendOptValue(withRs, ChoiceSection(CaseSensitive, cs), k);
    AppendOptValue(withCs, Some(Section(Mark, mark)), k);
    AppendOptValue(marked, TimeoutSection(timeout), k);
  }

  lemma AppendOptValue(secs: seq<Section>, o: Option<Section>, k: Key)
    ensures LastValue(AppendOpt(secs, o), k) == if o.Some? && o.value.key == k then Some(o.value.value) else LastValue(secs, k)
  {
    if o.Some? {
      LastValueSnoc(secs, o.value, k);
    }
  }

  /** A value whose first character is text has text on its first line. */
  lemma StrippedFirstLine(v: string)
    requires v != [] && !IsSpace(v[0])
    ensures FirstLineHasText(v)
  {
    assert v[..LineEnd(v, 0)][0] == v[0];
  }

  /** A value without surrounding whitespace that is legible reads back unchanged under any header. */
  lemma EntryGood(k: Key, v: string)
    requires v != [] && !IsSpace(v[0]) && !IsSpace(v[|v| - 1]) && Legible(v)
    ensures Good(Section(k, v))
  {
    StrippedFirstLine(v);
  }

  lemma ChoiceGood(k: Key, b: TriBool)
    requires b != Unset
    ensures Good(Section(k, ChoiceWord(b)))
  {
    var w := ChoiceWord(b);
    ColonFreeText(w);
    EntryGood(k, w);
  }

  /** A value with surrounding whitespace stripped. */
  predicate Unpadded(v: string) {
    v != [] && !IsSpace(v[0]) && !IsSpace(v[|v| - 1])
  }

  /** The text boxes' values: INPUT and OUTPUT keep inner whitespace but must read back from their first line. */
  predicate TextGood(v: string) {
    v != [] && v[|v| - 1] != '\n' && FirstLineHasText(v) && Legible(v)
  }

  lemma LayoutGood(input: string, output: string, rs: TriBool, cs: TriBool, mark: string, timeout: string)
    requires TextGood(input) && TextGood(output)
    requires Unpadded(mark) && Legible(mark) && (timeout != "" ==> Unpadded(timeout) && Legible(timeout))
    ensures AllGood(Layout(input, output, rs, cs, mark, timeout))
  {
    var both := [Section(Input, input), Section(Output, output)];
    var withRs := AppendOpt(both, ChoiceSection(RemoveSpaces, rs));
    var withCs := AppendOpt(withRs, ChoiceSection(CaseSensitive, cs));
    var marked := AppendOpt(withCs, Some(Section(Mark, mark)));
    TextSectionGood(Input, input);
    TextSectionGood(Output, output);
    AllGoodPair(both[0], both[1]);
    ChoiceSectionGood(RemoveSpaces, rs);
    AllGoodAppendOpt(both, ChoiceSection(RemoveSpaces, rs));
    ChoiceSectionGood(CaseSensitive, cs);
    AllGoodAppendOpt(withRs, ChoiceSection(CaseSensitive, cs));
    EntryGood(Mark, mark);
    AllGoodAppendOpt(withCs, Some(Section(Mark, mark)));
    if timeout != "" {
      EntryGood(TimeoutMs, timeout);
    }
    AllGoodAppendOpt(marked, TimeoutSection(timeout));
  }

  lemma TextSectionGood(k: Key, v: string)
    requires !IsFlag(k) && TextGood(v)
    ensures Good(Section(k, v))
  {
  }

  lemma AllGoodPair(a: Section, b: Section)
    requires Good(a) && Good(b)
    ensures AllGood([a, b])
  {
  }

  lemma ChoiceSectionGood(k: Key, b: TriBool)
    ensures ChoiceSection(k, b).Some? ==> Good(ChoiceSection(k, b).value)
  {
    if b != Unset {
      ChoiceGood(k, b);
    }
  }

  lemma AllGoodAppendOpt(secs: seq<Section>, o: Option<Section>)
    requires AllGood(secs) && (o.Some? ==> Good(o.value))
    ensures AllGood(AppendOpt(secs, o))
  {
  }

  /** The last section is MARK, or TIMEOUT_MS when one is given. */
  lemma LayoutLast(input: string, output: string, rs: TriBool, cs: TriBool, mark: string, timeout: string)
    ensures var secs := Layout(input, output, rs, cs, mark, timeout);
      secs != [] && secs[|secs| - 1].value == if timeout == "" then mark else timeout
  {
  }

  /**
   * A layout of good values renders to exactly its blocks, and parsing them
   * gives back the record they stand for.
   */
  lemma LayoutRoundTrip(input: string, output: string, rs: TriBool, cs: TriBool, mark: string, timeout: string)
    requires TextGood(input) && TextGood(output)
    requires Unpadded(mark) && Legible(mark) && (timeout != "" ==> Unpadded(timeout) && Legible(timeout))
    ensures Parsed(Render(Layout(input, output, rs, cs, mark, timeout))) == Wanted(input, output, rs, cs, mark, timeout)
  {
    var secs := Layout(input, output, rs, cs, mark, timeout);
    var want := Wanted(input, output, rs, cs, mark, timeout);
    LayoutLast(input, output, rs, cs, mark, timeout);
    RenderIsDoc(secs);
    forall k ensures Parsed(Doc(secs)).Get(k) == want.Get(k) {
      LayoutField(input, output, rs, cs, mark, timeout, k);
    }
    TestCaseExt(Parsed(Doc(secs)), want);
  }

  /** Parsing the blocks of a layout of good values gives each header the value meant for it. */
  lemma LayoutField(input: string, output: string, rs: TriBool, cs: TriBool, mark: string, timeout: string, k: Key)
    requires TextGood(input) && TextGood(output)
    requires Unpadded(mark) && Legible(mark) && (timeout != "" ==> Unpadded(timeout) && Legible(timeout))
    ensures Parsed(Doc(Layout(input, output, rs, cs, mark, timeout))).Get(k) == Wanted(input, output, rs, cs, mark, timeout).Get(k)
  {
    LayoutGood(input, output, rs, cs, mark, timeout);
    ParseDoc(Layout(input, output, rs, cs, mark, timeout), k);
    LayoutValues(input, output, rs, cs, mark, timeout, k);
  }

  /** A text box's value after `strip("\\n")` that is non-empty, legible and has text on its first line is good. */
  lemma StrippedTextGood(raw: string)
    requires var v := StripChar(raw, '\n'); v != "" && FirstLineHasText(v) && Legible(v)
    ensures TextGood(StripChar(raw, '\n'))
  {
  }

  /** The mark is never blank, and a given mark or timeout carries no surrounding whitespace. */
  lemma EntriesUnpadded(f: Form)
    ensures Unpadded(MarkText(f))
    ensures TimeoutText(f) != "" ==> Unpadded(TimeoutText(f))
  {
    if Strip(f.mark) == "" {
      assert MarkText(f) == "1.0";
    }
  }

  /**
   * Reading back the file "Save" writes gives the entered INPUT, OUTPUT and
   * MARK, the chosen flags, and the timeout, with the sections that were left
   * out absent, as long as the input and output have text on their first line
   * and no entry holds a carriage return or a line that reads as a header.
   */
  lemma SaveRoundTrip(f: Form)
    requires InputText(f) != "" && FirstLineHasText(InputText(f)) && Legible(InputText(f))
    requires OutputText(f) != "" && FirstLineHasText(OutputText(f)) && Legible(OutputText(f))
    requires Legible(MarkText(f)) && Legible(TimeoutText(f))
    ensures Parsed(FileText(f)) == Entered(f)
  {
    EntriesUnpadded(f);
    StrippedTextGood(f.input);
    StrippedTextGood(f.output);
    LayoutRoundTrip(InputText(f), OutputText(f), f.removeSpaces, f.caseSensitive, MarkText(f), TimeoutText(f));
  }

  /** A choice of "yes" or "no", written in upper case, reads back as that choice. */
  lemma ChoiceWordReads(b: TriBool, default: TriBool)
    requires b != Unset
    ensures ToBool(Some(ChoiceWord(b)), default) == b
  {
    var w := ChoiceWord(b);
    StripUnpadded(w);
    if b == Yes {
      assert Lower(w) == "yes";
    } else {
      assert Lower(w) == "no";
      WordsDisjoint();
    }
  }

  /** The grading engine reads each choice back as it was made; "default" leaves the grading engine's own default. */
  lemma ChoiceReadsBack(f: Form, default: TriBool)
    requires InputText(f) != "" && FirstLineHasText(InputText(f)) && Legible(InputText(f))
    requires OutputText(f) != "" && FirstLineHasText(OutputText(f)) && Legible(OutputText(f))
    requires Legible(MarkText(f)) && Legible(TimeoutText(f))
    ensures ToBool(Parsed(FileText(f)).removeSpaces, default) == if f.removeSpaces == Unset then default else f.removeSpaces
    ensures ToBool(Parsed(FileText(f)).caseSensitive, default) == if f.caseSensitive == Unset then default else f.caseSensitive
  {
    SaveRoundTrip(f);
    if f.removeSpaces != Unset {
      ChoiceWordReads(f.removeSpaces, default);
    }
    if f.caseSensitive != Unset {
      ChoiceWordReads(f.caseSensitive, default);
    }
  }
}
