/**
 * Which directories are questions and the order they are graded and listed
 * in: names whose upper-cased form starts with `Q`, sorted by
 * `(len(name), name)` so that `Q2` comes before `Q10`.
 */
module Ordering {
  import opened Text

  /** An entry of a submission root: its name and whether it is a directory. */
  datatype DirEntry = DirEntry(name: string, isDir: bool)

  /**
   * `name.upper().startswith("Q")`. Only `q` and `Q` upper-case to a string
   * starting with `Q`, so the first character decides.
   */
  predicate IsQuestionName(name: string) {
    |name| > 0 && UpperChar(name[0]) == 'Q'
  }

  /** The question directories among the entries, in directory-listing order. */
  function QuestionDirs(entries: seq<DirEntry>): (r: seq<string>)
    ensures forall x :: x in r ==> IsQuestionName(x) && DirEntry(x, true) in entries
    ensures forall e :: e in entries && e.isDir && IsQuestionName(e.name) ==> e.name in r
  {
    if entries == [] then []
    else
      var rest := QuestionDirs(entries[1..]);
      assert forall e :: e in entries[1..] ==> e in entries;
      if entries[0].isDir && IsQuestionName(entries[0].name) then [entries[0].name] + rest else rest
  }

  /** Python's `<=` on strings: lexicographic by code point. */
  predicate LexLe(a: string, b: string) {
    a == [] || (b != [] && (a[0] < b[0] || (a[0] == b[0] && LexLe(a[1..], b[1..]))))
  }

  /** `(len(a), a) <= (len(b), b)`. */
  predicate OrderLe(a: string, b: string) {
    |a| < |b| || (|a| == |b| && LexLe(a, b))
  }

  predicate Sorted(s: seq<string>) {
    forall i, j :: 0 <= i < j < |s| ==> OrderLe(s[i], s[j])
  }

  lemma {:induction false} LexTotal(a: string, b: string)
    ensures LexLe(a, b) || LexLe(b, a)
  {
    if a != [] && b != [] && a[0] == b[0] {
      LexTotal(a[1..], b[1..]);
    }
  }

  lemma {:induction false} LexTransitive(a: string, b: string, c: string)
    requires LexLe(a, b) && LexLe(b, c)
    ensures LexLe(a, c)
  {
    if a != [] && b != [] && c != [] && a[0] == b[0] && b[0] == c[0] {
      LexTransitive(a[1..], b[1..], c[1..]);
    }
  }

  /** The key order is total and transitive: sorting by it is well defined. */
  lemma OrderTotal(a: string, b: string)
    ensures OrderLe(a, b) || OrderLe(b, a)
  {
    LexTotal(a, b);
  }

  lemma OrderTransitive(a: string, b: string, c: string)
    requires OrderLe(a, b) && OrderLe(b, c)
    ensures OrderLe(a, c)
  {
    if |a| == |b| == |c| {
      LexTransitive(a, b, c);
    }
  }

  function Insert(x: string, s: seq<string>): (r: seq<string>)
    requires Sorted(s)
    ensures Sorted(r) && multiset(r) == multiset(s) + multiset{x}
  {
    if s == [] then [x]
    else if OrderLe(x, s[0]) then
      SortedFront(x, s);
      [x] + s
    else
      OrderTotal(x, s[0]);
      var r' := Insert(x, s[1..]);
      SortedAfter(s, x, r');
      [s[0]] + r'
  }

  /** An element no greater than the head of a sorted list can go in front of it. */
  lemma SortedFront(x: string, s: seq<string>)
    requires Sorted(s) && s != [] && OrderLe(x, s[0])
    ensures Sorted([x] + s)
  {
    var r := [x] + s;
    forall i, j | 0 <= i < j < |r| ensures OrderLe(r[i], r[j]) {
      if i == 0 {
        if j > 1 { OrderTransitive(x, s[0], s[j - 1]); }
      } else {
        assert r[i] == s[i - 1] && r[j] == s[j - 1];
      }
    }
  }

  /** The head of a sorted list can go in front of the rest with `x` inserted, when `x` is not below it. */
  lemma SortedAfter(s: seq<string>, x: string, r': seq<string>)
    requires Sorted(s) && s != [] && OrderLe(s[0], x)
    requires Sorted(r') && multiset(r') == multiset(s[1..]) + multiset{x}
    ensures Sorted([s[0]] + r') && multiset([s[0]] + r') == multiset(s) + multiset{x}
  {
    assert s == [s[0]] + s[1..];
    var r := [s[0]] + r';
    forall i, j | 0 <= i < j < |r| ensures OrderLe(r[i], r[j]) {
      if i == 0 {
        var y := r'[j - 1];
        assert y in multiset(r');
        if y != x {
          assert y in multiset(s[1..]);
          var k :| 0 <= k < |s[1..]| && s[1..][k] == y;
          assert s[k + 1] == y;
        }
      } else {
        assert r[i] == r'[i - 1] && r[j] == r'[j - 1];
      }
    }
  }

  /** `sorted(names, key=lambda s: (len(s), s))`: a sorted permutation of the names. */
  function SortQuestions(names: seq<string>): (r: seq<string>)
    ensures Sorted(r) && multiset(r) == multiset(names)
  {
    if names == [] then []
    else
      assert names == [names[0]] + names[1..];
      Insert(names[0], SortQuestions(names[1..]))
  }

  /** The questions of a submission root, in grading order. */
  function QuestionNames(entries: seq<DirEntry>): seq<string> {
    SortQuestions(QuestionDirs(entries))
  }

  /**
   * Every question directory is graded exactly as often as it is listed, no
   * other name is, and the order is by length and then by name.
   */
  lemma QuestionNamesSpec(entries: seq<DirEntry>)
    ensures Sorted(QuestionNames(entries))
    ensures forall x :: x in QuestionNames(entries) <==> IsQuestionName(x) && DirEntry(x, true) in entries
  {
    var qs := QuestionDirs(entries);
    forall x ensures x in QuestionNames(entries) <==> x in qs {
      assert x in multiset(QuestionNames(entries)) <==> x in multiset(qs);
    }
    forall x | IsQuestionName(x) && DirEntry(x, true) in entries ensures x in qs {
      var e := DirEntry(x, true);
      assert e in entries && e.isDir && IsQuestionName(e.name);
    }
  }

  /** Numbered questions come out in numeric order: `Q2` before `Q10`. */
  lemma ShorterNamesFirst()
    ensures OrderLe("Q2", "Q10") && !OrderLe("Q10", "Q2")
    ensures OrderLe("Q1", "Q2") && !OrderLe("Q2", "Q1")
  {
    assert LexLe("1", "2");
    assert !LexLe("2", "1");
    assert LexLe("Q1", "Q2") && !LexLe("Q2", "Q1");
  }
}
