/**
 * The pure pieces of fb_auto.js: the file-name sanitiser, reading the
 * answers of a join request, choosing the decline reason, mapping the
 * database outcome to the member record, building audit-log entries, the
 * bounded message log and the console class-selection rule.
 */
module Moderation {
  import opened Wrappers
  import opened Registry
  import opened Payments

  // ---------------------------------------------------------------------
  // Characters and strings
  // ---------------------------------------------------------------------

  /** JavaScript's `\s` (also the set `trim` and `parseInt` skip). */
  predicate IsJsSpace(c: char) {
    || c == ' ' || c == '\t' || c == '\n' || c == '\r' || c == '\U{000B}' || c == '\U{000C}'
    || c == '\U{00A0}' || c == '\U{1680}' || ('\U{2000}' <= c <= '\U{200A}')
    || c == '\U{2028}' || c == '\U{2029}' || c == '\U{202F}' || c == '\U{205F}'
    || c == '\U{3000}' || c == '\U{FEFF}'
  }

  /** `[a-zA-Z0-9_]` */
  predicate IsWordChar(c: char) {
    ('a' <= c <= 'z') || ('A' <= c <= 'Z') || ('0' <= c <= '9') || c == '_'
  }

  predicate NoSpace(s: string) {
    forall i :: 0 <= i < |s| ==> !IsJsSpace(s[i])
  }

  predicate AllWordChars(s: string) {
    forall i :: 0 <= i < |s| ==> IsWordChar(s[i])
  }

  /** Drop a leading run of whitespace (the start of `trim`, and what `parseInt` skips). */
  function SkipSpaces(s: string): (r: string)
    ensures |r| <= |s| && r == s[|s| - |r|..]
    ensures forall i :: 0 <= i < |s| - |r| ==> IsJsSpace(s[i])
    ensures r == [] || !IsJsSpace(r[0])
  {
    if s != [] && IsJsSpace(s[0]) then SkipSpaces(s[1..]) else s
  }

  /** Skipping the leading whitespace keeps every other character, as often as it occurs. */
  lemma {:induction false} SkipSpacesKeepsCounts(s: string)
    ensures forall c {:trigger multiset(SkipSpaces(s))[c]} :: !IsJsSpace(c) ==> multiset(SkipSpaces(s))[c] == multiset(s)[c]
  {
    if s != [] && IsJsSpace(s[0]) {
      assert s == [s[0]] + s[1..];
      SkipSpacesKeepsCounts(s[1..]);
    }
  }

  /** `replace(/\s+/g, '_')`: every maximal run of whitespace becomes one underscore. */
  function CollapseSpaces(s: string): (r: string)
    ensures NoSpace(r)
    ensures |r| <= |s|
    ensures forall c {:trigger multiset(r)[c]} :: !IsJsSpace(c) && c != '_' ==> multiset(r)[c] == multiset(s)[c]
    decreases |s|
  {
    if s == [] then []
    else if IsJsSpace(s[0]) then
      SkipSpacesKeepsCounts(s);
      "_" + CollapseSpaces(SkipSpaces(s))
    else
      assert s == [s[0]] + s[1..];
      [s[0]] + CollapseSpaces(s[1..])
  }

  /** `replace(/[^a-zA-Z0-9_]/g, '')`: drop every other character, keeping order. */
  function KeepWordChars(s: string): (r: string)
    ensures AllWordChars(r)
    ensures |r| <= |s|
    ensures |s| == 1 ==> r == if IsWordChar(s[0]) then s else []
    ensures forall c {:trigger multiset(r)[c]} :: multiset(r)[c] == if IsWordChar(c) then multiset(s)[c] else 0
  {
    if s == [] then []
    else
      assert s == [s[0]] + s[1..];
      if IsWordChar(s[0]) then [s[0]] + KeepWordChars(s[1..])
      else KeepWordChars(s[1..])
  }

  /** The filter works character by character: filtering a concatenation concatenates the filtered parts. */
  lemma {:induction false} KeepWordCharsAppend(s: string, t: string)
    ensures KeepWordChars(s + t) == KeepWordChars(s) + KeepWordChars(t)
  {
    if s != [] {
      assert (s + t)[0] == s[0];
      assert (s + t)[1..] == s[1..] + t;
      KeepWordCharsAppend(s[1..], t);
    } else {
      assert s + t == t;
    }
  }

  /**
   * `sanitizeClassName`: the class name as used in log-file names. Only word
   * characters remain, and every letter and digit of the name remains, as
   * often as it occurs.
   */
  function SanitizeClassName(name: string): (r: string)
    ensures AllWordChars(r)
    ensures forall c {:trigger multiset(name)[c]} :: IsWordChar(c) && c != '_' ==> multiset(r)[c] == multiset(name)[c]
  {
    KeepWordChars(CollapseSpaces(name))
  }

  lemma {:induction false} CollapseWithoutSpaces(s: string)
    requires NoSpace(s)
    ensures CollapseSpaces(s) == s
  {
    if s != [] {
      CollapseWithoutSpaces(s[1..]);
    }
  }

  lemma {:induction false} KeepAllWordChars(s: string)
    requires AllWordChars(s)
    ensures KeepWordChars(s) == s
  {
    if s != [] {
      KeepAllWordChars(s[1..]);
    }
  }

  /** A run of whitespace followed by a non-space contributes exactly one underscore. */
  lemma CollapseRun(run: string, rest: string)
    requires run != [] && forall i :: 0 <= i < |run| ==> IsJsSpace(run[i])
    requires rest == [] || !IsJsSpace(rest[0])
    ensures CollapseSpaces(run + rest) == "_" + CollapseSpaces(rest)
  {
    SkipRun(run, rest);
  }

  lemma {:induction false} SkipRun(run: string, rest: string)
    requires forall i :: 0 <= i < |run| ==> IsJsSpace(run[i])
    requires rest == [] || !IsJsSpace(rest[0])
    ensures SkipSpaces(run + rest) == rest
  {
    if run != [] {
      assert (run + rest)[1..] == run[1..] + rest;
      SkipRun(run[1..], rest);
    }
  }

  /** Sanitising twice is sanitising once. */
  lemma SanitizeIdempotent(name: string)
    ensures SanitizeClassName(SanitizeClassName(name)) == SanitizeClassName(name)
  {
    var once := SanitizeClassName(name);
    assert NoSpace(once);
    CollapseWithoutSpaces(once);
    KeepAllWordChars(once);
  }

  /** A space-free prefix passes through unchanged. */
  lemma {:induction false} CollapsePrefix(w: string, rest: string)
    requires NoSpace(w)
    ensures CollapseSpaces(w + rest) == w + CollapseSpaces(rest)
  {
    if w != [] {
      var s := w + rest;
      assert s[0] == w[0] && !IsJsSpace(s[0]);
      assert s[1..] == w[1..] + rest;
      CollapsePrefix(w[1..], rest);
      var tail := CollapseSpaces(rest);
      assert CollapseSpaces(s) == [w[0]] + (w[1..] + tail);
      assert [w[0]] + (w[1..] + tail) == ([w[0]] + w[1..]) + tail;
      assert [w[0]] + w[1..] == w;
    } else {
      assert w + rest == rest;
    }
  }

  /** A word followed by anything passes through the collapse unchanged. */
  lemma CollapseWord(w: string, rest: string)
    requires AllWordChars(w)
    ensures CollapseSpaces(w + rest) == w + CollapseSpaces(rest)
  {
    assert NoSpace(w);
    CollapsePrefix(w, rest);
  }

  /** One space before a word becomes one underscore. */
  lemma CollapseSpaceBeforeWord(rest: string)
    requires rest != [] && IsWordChar(rest[0])
    ensures CollapseSpaces(" " + rest) == "_" + CollapseSpaces(rest)
  {
    CollapseRun(" ", rest);
  }

  lemma CollapseSpacedTail(w2: string, w3: string)
    requires w2 != [] && w3 != [] && AllWordChars(w2) && AllWordChars(w3)
    ensures CollapseSpaces(" " + (w2 + (" " + w3))) == "_" + (w2 + ("_" + w3))
  {
    var r3 := " " + w3;
    assert CollapseSpaces(r3) == "_" + w3 by {
      CollapseSpaceBeforeWord(w3);
      CollapseWord(w3, []);
      assert w3 + [] == w3;
    }
    var r2 := w2 + r3;
    CollapseWord(w2, r3);
    assert r2[0] == w2[0];
    CollapseSpaceBeforeWord(r2);
  }

  /** Words separated by single spaces come out joined by underscores. */
  lemma SanitizeSpacedWords(w1: string, w2: string, w3: string)
    requires w2 != [] && w3 != []
    requires AllWordChars(w1) && AllWordChars(w2) && AllWordChars(w3)
    ensures SanitizeClassName(w1 + (" " + (w2 + (" " + w3)))) == w1 + ("_" + (w2 + ("_" + w3)))
  {
    CollapseSpacedTail(w2, w3);
    CollapseWord(w1, " " + (w2 + (" " + w3)));
    KeepWords(w1, w2, w3);
  }

  lemma KeepWords(w1: string, w2: string, w3: string)
    requires AllWordChars(w1) && AllWordChars(w2) && AllWordChars(w3)
    ensures KeepWordChars(w1 + ("_" + (w2 + ("_" + w3)))) == w1 + ("_" + (w2 + ("_" + w3)))
  {
    var t3 := "_" + w3;
    assert AllWordChars(t3);
    var t2 := w2 + t3;
    assert AllWordChars(t2);
    var t1 := "_" + t2;
    assert AllWordChars(t1);
    var t0 := w1 + t1;
    assert AllWordChars(t0);
    KeepAllWordChars(t0);
  }

  /** The shipped class name sanitises to the expected file stem. */
  lemma SanitizeExample()
    ensures SanitizeClassName("Class 10 Science") == "Class_10_Science"
  {
    var w1, w2, w3 := "Class", "10", "Science";
    ExampleWords();
    SanitizeSpacedWords(w1, w2, w3);
  }

  lemma ExampleWords()
    ensures AllWordChars("Class") && AllWordChars("10") && AllWordChars("Science")
    ensures "Class" + (" " + ("10" + (" " + "Science"))) == "Class 10 Science"
    ensures "Class" + ("_" + ("10" + ("_" + "Science"))) == "Class_10_Science"
  {
  }

  /** The number of whitespace characters `s` starts with. */
  function LeadingSpaceCount(s: string): (k: nat)
    ensures k <= |s|
    ensures forall i :: 0 <= i < k ==> IsJsSpace(s[i])
    ensures k < |s| ==> !IsJsSpace(s[k])
  {
    if s != [] && IsJsSpace(s[0]) then 1 + LeadingSpaceCount(s[1..]) else 0
  }

  /** Where the text of `s[lo..hi]` ends once its trailing whitespace is dropped. */
  function ContentEnd(s: string, lo: nat, hi: nat): (e: nat)
    requires lo <= hi <= |s|
    ensures lo <= e <= hi
    ensures forall i :: e <= i < hi ==> IsJsSpace(s[i])
    ensures e > lo ==> !IsJsSpace(s[e - 1])
    decreases hi
  {
    if hi > lo && IsJsSpace(s[hi - 1]) then ContentEnd(s, lo, hi - 1) else hi
  }

  /** `trim`: the slice of `s` left after dropping whitespace from both ends. */
  function Trim(s: string): (r: string)
    ensures r == [] || (!IsJsSpace(r[0]) && !IsJsSpace(r[|r| - 1]))
    ensures var k := LeadingSpaceCount(s);
            && k + |r| <= |s| && r == s[k..k + |r|]
            && (forall i :: 0 <= i < k ==> IsJsSpace(s[i]))
            && (forall i :: k + |r| <= i < |s| ==> IsJsSpace(s[i]))
  {
    var k := LeadingSpaceCount(s);
    s[k..ContentEnd(s, k, |s|)]
  }

  // ---------------------------------------------------------------------
  // Reading the answers of a join request
  // ---------------------------------------------------------------------

  /**
   * The `answers` object: its own properties as question/answer pairs, in
   * the order they were created, one per question.
   */
  type Answers = seq<(string, string)>

  predicate DistinctQuestions(a: Answers) {
    forall i, j :: 0 <= i < j < |a| ==> a[i].0 != a[j].0
  }

  predicate NonEmptyValues(a: Answers) {
    forall i :: 0 <= i < |a| ==> a[i].1 != ""
  }

  /** Assigning to this key reaches the accessor inherited from `Object.prototype`, which ignores a string. */
  const PROTO_KEY: string := "__proto__"

  /**
   * `answers[q] = v`: a known question keeps its place and takes the new
   * value; a new one goes last; `__proto__` creates no property at all.
   */
  function SetAnswer(a: Answers, q: string, v: string): (r: Answers)
    requires DistinctQuestions(a)
    ensures DistinctQuestions(r)
    ensures q == PROTO_KEY ==> r == a
    ensures q != PROTO_KEY ==> |a| <= |r|
    ensures q != PROTO_KEY ==> forall i :: 0 <= i < |a| ==> r[i] == (if a[i].0 == q then (q, v) else a[i])
    ensures q != PROTO_KEY && (exists i :: 0 <= i < |a| && a[i].0 == q) ==> |r| == |a|
    ensures q != PROTO_KEY && (forall i :: 0 <= i < |a| ==> a[i].0 != q) ==> r == a + [(q, v)]
  {
    if q == PROTO_KEY then a else PutAnswer(a, q, v)
  }

  /** Storing under an ordinary key. */
  function PutAnswer(a: Answers, q: string, v: string): (r: Answers)
    requires DistinctQuestions(a)
    ensures DistinctQuestions(r)
    ensures |a| <= |r|
    ensures forall i :: 0 <= i < |a| ==> r[i] == (if a[i].0 == q then (q, v) else a[i])
    ensures (exists i :: 0 <= i < |a| && a[i].0 == q) ==> |r| == |a|
    ensures (forall i :: 0 <= i < |a| ==> a[i].0 != q) ==> r == a + [(q, v)]
  {
    if a == [] then [(q, v)]
    else if a[0].0 == q then [(q, v)] + a[1..]
    else [a[0]] + PutAnswer(a[1..], q, v)
  }

  /** The answer-collection loop: keep pairs whose trimmed question and answer are both non-empty. */
  function CollectAnswers(items: seq<(string, string)>): (a: Answers)
    ensures DistinctQuestions(a)
    ensures NonEmptyValues(a)
    ensures |a| <= |items|
  {
    if items == [] then []
    else
      var acc := CollectAnswers(items[..|items| - 1]);
      var q := Trim(items[|items| - 1].0);
      var v := Trim(items[|items| - 1].1);
      if q != "" && v != "" then
        SetAnswerKeepsValues(acc, q, v);
        SetAnswer(acc, q, v)
      else acc
  }

  /** Setting a non-empty value keeps every value non-empty. */
  lemma SetAnswerKeepsValues(a: Answers, q: string, v: string)
    requires DistinctQuestions(a) && NonEmptyValues(a) && v != ""
    ensures NonEmptyValues(SetAnswer(a, q, v))
  {
    var r := SetAnswer(a, q, v);
    if q == PROTO_KEY {
    } else if forall i :: 0 <= i < |a| ==> a[i].0 != q {
      assert r == a + [(q, v)];
    } else {
      assert |r| == |a|;
    }
  }

  /** The values of a list of pairs, in the list's order. */
  function AnswerValues(a: Answers): (v: seq<string>)
    ensures |v| == |a| && forall i :: 0 <= i < |a| ==> v[i] == a[i].1
  {
    if a == [] then [] else [a[0].1] + AnswerValues(a[1..])
  }

  // ---- The order of an object's own keys ----

  /** 2^32 - 1: array indices lie below it. */
  const ARRAY_INDEX_BOUND: nat := 4294967295

  /** An array index: the canonical decimal form (no sign, no leading zero) of a number below 2^32 - 1. */
  predicate IsIndexKey(k: string) {
    && k != []
    && (forall i :: 0 <= i < |k| ==> IsDecDigit(k[i]))
    && (k[0] != '0' || |k| == 1)
    && DigitsValue(k, 10) < ARRAY_INDEX_BOUND
  }

  function IndexOf(k: string): nat
    requires IsIndexKey(k)
  {
    DigitsValue(k, 10)
  }

  /** Every key is an array index, and the indices ascend. */
  predicate AscendingIndices(s: Answers) {
    && (forall i :: 0 <= i < |s| ==> IsIndexKey(s[i].0))
    && (forall i, j :: 0 <= i < j < |s| ==> IndexOf(s[i].0) <= IndexOf(s[j].0))
  }

  /** The pairs whose key is an array index, in creation order. */
  function IndexEntries(a: Answers): (r: Answers)
    ensures forall i :: 0 <= i < |r| ==> IsIndexKey(r[i].0)
  {
    if a == [] then []
    else (if IsIndexKey(a[0].0) then [a[0]] else []) + IndexEntries(a[1..])
  }

  /** The pairs whose key is not an array index, in creation order. */
  function OtherEntries(a: Answers): (r: Answers)
    ensures forall i :: 0 <= i < |r| ==> !IsIndexKey(r[i].0)
  {
    if a == [] then []
    else (if IsIndexKey(a[0].0) then [] else [a[0]]) + OtherEntries(a[1..])
  }

  /** Putting a pair in front of an ascending list whose first index is no smaller keeps it ascending. */
  lemma ConsAscending(x: (string, string), t: Answers)
    requires IsIndexKey(x.0) && AscendingIndices(t)
    requires t == [] || IndexOf(x.0) <= IndexOf(t[0].0)
    ensures AscendingIndices([x] + t)
  {
    var r := [x] + t;
    forall i, j | 0 <= i < j < |r|
      ensures IndexOf(r[i].0) <= IndexOf(r[j].0)
    {
      if i == 0 && j > 1 {
        assert r[1] == t[0] && r[j] == t[j - 1];
      }
    }
  }

  function InsertByIndex(e: (string, string), s: Answers): (r: Answers)
    requires IsIndexKey(e.0) && AscendingIndices(s)
    ensures AscendingIndices(r)
    ensures multiset(r) == multiset(s) + multiset{e}
    ensures r[0] == e || (s != [] && r[0] == s[0])
  {
    if s == [] then [e]
    else if IndexOf(e.0) <= IndexOf(s[0].0) then
      ConsAscending(e, s);
      [e] + s
    else
      AscendingTail(s);
      var t := InsertByIndex(e, s[1..]);
      InsertBehind(e, s, t);
      [s[0]] + t
  }

  /** Keeping the first pair in front of the insertion into the rest. */
  lemma InsertBehind(e: (string, string), s: Answers, t: Answers)
    requires IsIndexKey(e.0) && AscendingIndices(s) && s != [] && IndexOf(s[0].0) < IndexOf(e.0)
    requires AscendingIndices(t) && multiset(t) == multiset(s[1..]) + multiset{e}
    requires t != [] && (t[0] == e || (|s| > 1 && t[0] == s[1]))
    ensures AscendingIndices([s[0]] + t)
    ensures multiset([s[0]] + t) == multiset(s) + multiset{e}
  {
    AscendingTail(s);
    assert s == [s[0]] + s[1..];
    ConsAscending(s[0], t);
  }

  lemma AscendingTail(s: Answers)
    requires AscendingIndices(s) && s != []
    ensures AscendingIndices(s[1..])
    ensures |s| > 1 ==> IndexOf(s[0].0) <= IndexOf(s[1].0)
  {
    var t := s[1..];
    assert forall i :: 0 <= i < |t| ==> t[i] == s[i + 1];
  }

  function SortByIndex(s: Answers): (r: Answers)
    requires forall i :: 0 <= i < |s| ==> IsIndexKey(s[i].0)
    ensures AscendingIndices(r)
    ensures multiset(r) == multiset(s)
  {
    if s == [] then []
    else
      assert s == [s[0]] + s[1..];
      InsertByIndex(s[0], SortByIndex(s[1..]))
  }

  lemma {:induction false} EntriesSplit(a: Answers)
    ensures multiset(a) == multiset(IndexEntries(a)) + multiset(OtherEntries(a))
  {
    if a != [] {
      assert a == [a[0]] + a[1..];
      EntriesSplit(a[1..]);
    }
  }

  lemma {:induction false} OtherEntriesAppend(x: Answers, y: Answers)
    ensures OtherEntries(x + y) == OtherEntries(x) + OtherEntries(y)
  {
    if x != [] {
      assert (x + y)[0] == x[0];
      assert (x + y)[1..] == x[1..] + y;
      OtherEntriesAppend(x[1..], y);
    } else {
      assert x + y == y;
    }
  }

  lemma {:induction false} OtherEntriesOfIndices(x: Answers)
    requires forall i :: 0 <= i < |x| ==> IsIndexKey(x[i].0)
    ensures OtherEntries(x) == []
  {
    if x != [] {
      OtherEntriesOfIndices(x[1..]);
    }
  }

  lemma {:induction false} EntriesWithoutIndices(x: Answers)
    requires forall i :: 0 <= i < |x| ==> !IsIndexKey(x[i].0)
    ensures OtherEntries(x) == x && IndexEntries(x) == []
  {
    if x != [] {
      EntriesWithoutIndices(x[1..]);
      assert x == [x[0]] + x[1..];
    }
  }

  /**
   * The order in which `Object.values` visits an object's own keys: the
   * array-index keys first, in ascending numeric order, then the other keys
   * in creation order.
   */
  predicate IndicesFirstAscending(r: Answers) {
    forall i, j :: 0 <= i < j < |r| && IsIndexKey(r[j].0) ==> IsIndexKey(r[i].0) && IndexOf(r[i].0) <= IndexOf(r[j].0)
  }

  function PropertyOrder(a: Answers): (r: Answers)
    ensures multiset(r) == multiset(a)
    ensures IndicesFirstAscending(r)
    ensures OtherEntries(r) == OtherEntries(a)
    ensures (forall i :: 0 <= i < |a| ==> !IsIndexKey(a[i].0)) ==> r == a
  {
    var others := OtherEntries(a);
    var sorted := SortByIndex(IndexEntries(a));
    EntriesSplit(a);
    OtherEntriesAppend(sorted, others);
    OtherEntriesOfIndices(sorted);
    EntriesWithoutIndices(others);
    SortedThenOthers(sorted, others);
    NoIndexKeysKeepOrder(a);
    sorted + others
  }

  lemma SortedThenOthers(sorted: Answers, others: Answers)
    requires AscendingIndices(sorted)
    requires forall i :: 0 <= i < |others| ==> !IsIndexKey(others[i].0)
    ensures IndicesFirstAscending(sorted + others)
  {
    var r := sorted + others;
    assert forall k :: |sorted| <= k < |r| ==> r[k] == others[k - |sorted|];
    forall i, j | 0 <= i < j < |r| && IsIndexKey(r[j].0)
      ensures IsIndexKey(r[i].0) && IndexOf(r[i].0) <= IndexOf(r[j].0)
    {
      assert r[i] == sorted[i] && r[j] == sorted[j];
    }
  }

  lemma NoIndexKeysKeepOrder(a: Answers)
    ensures (forall i :: 0 <= i < |a| ==> !IsIndexKey(a[i].0)) ==> SortByIndex(IndexEntries(a)) + OtherEntries(a) == a
  {
    if forall i :: 0 <= i < |a| ==> !IsIndexKey(a[i].0) {
      EntriesWithoutIndices(a);
      assert [] + a == a;
    }
  }

  /** `Object.values(answers)`: the values, in the order of the object's own keys. */
  function ObjectValues(a: Answers): (v: seq<string>)
    ensures |v| == |a|
    ensures NonEmptyValues(a) ==> forall i :: 0 <= i < |v| ==> v[i] != ""
    ensures (forall i :: 0 <= i < |a| ==> !IsIndexKey(a[i].0)) ==> v == AnswerValues(a)
  {
    var r := PropertyOrder(a);
    assert |r| == |multiset(r)| == |multiset(a)| == |a|;
    assert forall i :: 0 <= i < |r| ==> r[i] in multiset(a);
    AnswerValues(r)
  }

  /** A question such as "2" comes before the questions asked earlier: its answer becomes the first value. */
  lemma IndexKeyComesFirst(x: string, y: string, z: string)
    ensures ObjectValues([("Name?", x), ("2", y), ("Trx?", z)]) == [y, x, z]
  {
    var a := [("Name?", x), ("2", y), ("Trx?", z)];
    var r := [("2", y), ("Name?", x), ("Trx?", z)];
    ExampleOrder(x, y, z);
    ValuesInOrder(a, r);
    ThreeValues(r);
  }

  lemma ValuesInOrder(a: Answers, r: Answers)
    requires PropertyOrder(a) == r
    ensures ObjectValues(a) == AnswerValues(r)
  {
  }

  lemma ThreeValues(r: Answers)
    requires |r| == 3
    ensures AnswerValues(r) == [r[0].1, r[1].1, r[2].1]
  {
    var v := AnswerValues(r);
    assert |v| == 3 && v[0] == r[0].1 && v[1] == r[1].1 && v[2] == r[2].1;
  }

  lemma ExampleOrder(x: string, y: string, z: string)
    ensures PropertyOrder([("Name?", x), ("2", y), ("Trx?", z)]) == [("2", y), ("Name?", x), ("Trx?", z)]
  {
    ExampleEntries(x, y, z);
    var e := ("2", y);
    SingleSorted(e);
    assert [e] + [("Name?", x), ("Trx?", z)] == [("2", y), ("Name?", x), ("Trx?", z)];
  }

  lemma SingleSorted(e: (string, string))
    requires IsIndexKey(e.0)
    ensures SortByIndex([e]) == [e]
  {
    assert [e][1..] == [];
  }

  lemma ExampleKeys()
    ensures !IsIndexKey("Name?") && !IsIndexKey("Trx?") && IsIndexKey("2")
  {
    assert "Name?"[0] == 'N' && "Trx?"[0] == 'T';
    assert "2"[..0] == [];
  }

  lemma ExampleEntries(x: string, y: string, z: string)
    ensures IndexEntries([("Name?", x), ("2", y), ("Trx?", z)]) == [("2", y)]
    ensures OtherEntries([("Name?", x), ("2", y), ("Trx?", z)]) == [("Name?", x), ("Trx?", z)]
  {
    ExampleKeys();
    var a := [("Name?", x), ("2", y), ("Trx?", z)];
    var tail := [("Trx?", z)];
    assert a[1..] == [("2", y)] + tail && a[1..][1..] == tail && tail[1..] == [];
    assert IndexEntries(tail) == [] && OtherEntries(tail) == tail;
    assert IndexEntries(a[1..]) == [("2", y)];
    assert OtherEntries(a[1..]) == tail;
  }

  /** Phone and transaction id by position; "" stands for a missing value. */
  datatype Fields = Fields(phone: string, transactionId: string)

  /** The phone is the second value and the transaction id the third; with exactly two values the id is missing. */
  function ExtractFields(values: seq<string>): (f: Fields)
    ensures |values| < 2 ==> f == Fields("", "")
    ensures |values| == 2 ==> f == Fields(values[1], "")
    ensures |values| > 2 ==> f == Fields(values[1], values[2])
  {
    if |values| >= 2 then Fields(values[1], if |values| > 2 then values[2] else "")
    else Fields("", "")
  }

  /** The missing-information reason (the final branch is the source's unreachable fallback). */
  function MissingReason(f: Fields, msgs: DeclineMessages): (reason: string)
    ensures f.phone == "" && f.transactionId == "" ==> reason == msgs.missingBoth
    ensures f.phone == "" && f.transactionId != "" ==> reason == msgs.missingPhone
    ensures f.phone != "" && f.transactionId == "" ==> reason == msgs.missingTransaction
  {
    if f.phone == "" && f.transactionId == "" then msgs.missingBoth
    else if f.phone == "" then msgs.missingPhone
    else if f.transactionId == "" then msgs.missingTransaction
    else msgs.missingBoth
  }

  /** Which branch of the decision block a request takes before any database call. */
  datatype Route =
    | NoAnswers
    | MissingInfo(fields: Fields, reason: string)
    | Consult(fields: Fields)

  function RouteRequest(a: Answers, msgs: DeclineMessages): (r: Route)
    ensures r.NoAnswers? <==> a == []
    ensures r.Consult? ==> r.fields.phone != "" && r.fields.transactionId != ""
    ensures r.MissingInfo? ==> r.fields.phone == "" || r.fields.transactionId == ""
  {
    if a == [] then NoAnswers
    else
      var f := ExtractFields(ObjectValues(a));
      if f.transactionId != "" && f.phone != "" then Consult(f)
      else MissingInfo(f, MissingReason(f, msgs))
  }

  /**
   * With answers read from the page, a missing phone alone never happens:
   * every collected value is non-empty, so the phone is missing only when
   * the transaction id is missing too.
   */
  lemma MissingPhoneNeverAlone(items: seq<(string, string)>, msgs: DeclineMessages)
    ensures var r := RouteRequest(CollectAnswers(items), msgs);
            r.MissingInfo? ==> r.reason == msgs.missingBoth || r.reason == msgs.missingTransaction
  {
    var a := CollectAnswers(items);
    var v := ObjectValues(a);
    if |v| >= 2 {
      assert v[1] != "";
    }
  }

  /** A lone `__proto__` question stores no property, so the request takes the no-answers path. */
  lemma ProtoOnlyHasNoAnswers(v: string, msgs: DeclineMessages)
    ensures RouteRequest(CollectAnswers([(PROTO_KEY, v)]), msgs) == NoAnswers
  {
    var items := [(PROTO_KEY, v)];
    assert items[..0] == [];
    assert !IsJsSpace(PROTO_KEY[0]) && !IsJsSpace(PROTO_KEY[8]);
    assert Trim(PROTO_KEY) == PROTO_KEY;
  }

  // ---------------------------------------------------------------------
  // The member record after the decision
  // ---------------------------------------------------------------------

  const STATUS_APPROVED: string := "approved"
  const STATUS_DECLINED: string := "declined"
  const STATUS_DECLINE_FAILED: string := "decline_failed"
  const STATUS_DATABASE_ERROR: string := "database_error"
  const STATUS_MISSING_INFO: string := "missing_info"
  const STATUS_NO_ANSWERS: string := "no_answers"
  const DECLINE_BUTTON_FAILED: string := "Decline button click failed"

  /** The record as it stands before the answers are read. */
  function InitialMemberData(memberName: string, facebookUserId: string): (d: MemberData)
    ensures d.memberName == Some(memberName) && d.facebookUserId == Some(facebookUserId)
    ensures d.approvalStatus == Some("unknown") && d.declineReason == None && d.memberUserId == None
    ensures d.memberQA == [] && d.memberPhone == None && d.memberTrxId == None
  {
    MemberData(Some(memberName), None, [], None, None, Some("unknown"), None, Some(facebookUserId))
  }

  /** The record with the answers and the extracted fields filled in. */
  function WithAnswers(d: MemberData, a: Answers, f: Fields): (r: MemberData)
    ensures r.memberQA == a && r.memberPhone == Some(f.phone) && r.memberTrxId == Some(f.transactionId)
    ensures r.(memberQA := d.memberQA, memberPhone := d.memberPhone, memberTrxId := d.memberTrxId) == d
  {
    d.(memberQA := a, memberPhone := Some(f.phone), memberTrxId := Some(f.transactionId))
  }

  /** The status and reason set from the database's answer (or its failure). */
  function AfterDatabase(d: MemberData, out: DbOutcome, msgs: DeclineMessages): (r: MemberData)
    ensures r.memberQA == d.memberQA && r.memberPhone == d.memberPhone && r.memberTrxId == d.memberTrxId
    ensures r.memberName == d.memberName && r.facebookUserId == d.facebookUserId
    ensures out.Threw? ==> r.approvalStatus == Some(STATUS_DATABASE_ERROR) && r.declineReason == Some(msgs.databaseError)
    ensures out.Returned? && out.result.Approved? ==>
              r.approvalStatus == Some(STATUS_APPROVED) && r.memberUserId == Some(out.result.approvedId)
              && r.declineReason == d.declineReason
    ensures out.Returned? && out.result.Declined? && out.result.declineReason != "" ==>
              r.approvalStatus == Some(STATUS_DECLINED) && r.declineReason == Some(out.result.declineReason)
    ensures out.Returned? && out.result.Declined? && out.result.declineReason == "" ==>
              r.approvalStatus == Some(STATUS_DECLINE_FAILED) && r.declineReason == Some(DECLINE_BUTTON_FAILED)
    ensures !(out.Returned? && out.result.Approved?) ==> r.memberUserId == d.memberUserId
  {
    match out
    case Threw => d.(approvalStatus := Some(STATUS_DATABASE_ERROR), declineReason := Some(msgs.databaseError))
    case Returned(Approved(_, approvedId)) => d.(approvalStatus := Some(STATUS_APPROVED), memberUserId := Some(approvedId))
    case Returned(Declined(_, reason)) =>
      if reason != "" then d.(approvalStatus := Some(STATUS_DECLINED), declineReason := Some(reason))
      else d.(approvalStatus := Some(STATUS_DECLINE_FAILED), declineReason := Some(DECLINE_BUTTON_FAILED))
  }

  /** The record for a request that never reaches the database. */
  function WithoutDatabase(d: MemberData, a: Answers, r: Route, msgs: DeclineMessages): (m: MemberData)
    requires !r.Consult?
    ensures r.NoAnswers? ==> m == d.(approvalStatus := Some(STATUS_NO_ANSWERS), declineReason := Some(msgs.noAnswers))
    ensures r.MissingInfo? ==> m.approvalStatus == Some(STATUS_MISSING_INFO) && m.declineReason == Some(r.reason)
                               && m.memberQA == a
  {
    match r
    case NoAnswers => d.(approvalStatus := Some(STATUS_NO_ANSWERS), declineReason := Some(msgs.noAnswers))
    case MissingInfo(f, reason) =>
      WithAnswers(d, a, f).(approvalStatus := Some(STATUS_MISSING_INFO), declineReason := Some(reason))
  }

  /** Against the ledger's own results, the "decline failed" branch is unreachable. */
  lemma DeclineFailedUnreachable(d: MemberData, rows: seq<PaymentRow>, users: set<string>, tx: string,
                                 eligible: seq<string>, approvedId: string, fault: StoreFault,
                                 msgs: DeclineMessages)
    requires AllWorded(msgs)
    ensures AfterDatabase(d, Process(rows, users, tx, eligible, approvedId, fault, msgs).outcome, msgs).approvalStatus
            != Some(STATUS_DECLINE_FAILED)
  {
    DeclinesCarryReason(rows, users, tx, eligible, approvedId, fault, msgs);
  }

  /** Which audit file a final status is written to. */
  datatype AuditKind = ApprovalsLog | DeclinesLog | NoAuditLog

  function AuditKindOf(status: Option<string>): AuditKind {
    if status == Some(STATUS_APPROVED) then ApprovalsLog
    else if status == Some(STATUS_DECLINE_FAILED) then NoAuditLog
    else DeclinesLog
  }

  // ---------------------------------------------------------------------
  // Audit-log entries
  // ---------------------------------------------------------------------

  const PROCESSED_BY: string := "FB-Automation"

  /** The two clock readings an entry carries (`toISOString` and `toLocaleString`). */
  datatype Clock = Clock(iso: string, local: string)

  datatype AuditEntry = AuditEntry(
    timestamp: string,
    date: string,
    className: string,
    memberName: string,
    facebookUserId: string,
    memberUserId: string,
    memberPhone: string,
    memberTrxId: string,
    memberQA: Answers,
    approvalStatus: string,
    declineReason: Option<string>,
    processedBy: string)

  /** `memberData.x || ''` */
  function OrEmpty(x: Option<string>): string {
    OrDefault(x, "")
  }

  /** The entry `logApprovalToJSON` writes. */
  function ApprovalEntry(className: string, d: MemberData, clock: Clock): (e: AuditEntry)
    ensures e.approvalStatus == STATUS_APPROVED && e.declineReason == None
    ensures e.processedBy == PROCESSED_BY && e.className == className && e.memberQA == d.memberQA
    ensures e.memberName != "" && (Truthy(d.memberName) ==> e.memberName == d.memberName.value)
    ensures Truthy(d.memberPhone) ==> e.memberPhone == d.memberPhone.value
    ensures Truthy(d.memberTrxId) ==> e.memberTrxId == d.memberTrxId.value
  {
    AuditEntry(clock.iso, clock.local, className, OrDefault(d.memberName, "Unknown"),
               OrEmpty(d.facebookUserId), OrEmpty(d.memberUserId), OrEmpty(d.memberPhone),
               OrEmpty(d.memberTrxId), d.memberQA, STATUS_APPROVED, None, PROCESSED_BY)
  }

  /** The entry `logDeclineToJSON` writes. */
  function DeclineEntry(className: string, d: MemberData, clock: Clock): (e: AuditEntry)
    ensures e.approvalStatus != "" && e.declineReason.Some? && e.declineReason.value != ""
    ensures e.processedBy == PROCESSED_BY && e.className == className && e.memberQA == d.memberQA
    ensures e.approvalStatus == (if Truthy(d.approvalStatus) then d.approvalStatus.value else STATUS_DECLINED)
    ensures e.declineReason.value == (if Truthy(d.declineReason) then d.declineReason.value else "Unknown reason")
    ensures e.memberName != "" && (Truthy(d.memberName) ==> e.memberName == d.memberName.value)
  {
    AuditEntry(clock.iso, clock.local, className, OrDefault(d.memberName, "Unknown"),
               OrEmpty(d.facebookUserId), OrEmpty(d.memberUserId), OrEmpty(d.memberPhone),
               OrEmpty(d.memberTrxId), d.memberQA, OrDefault(d.approvalStatus, STATUS_DECLINED),
               Some(OrDefault(d.declineReason, "Unknown reason")), PROCESSED_BY)
  }

  function ApprovalsFile(className: string): string {
    SanitizeClassName(className) + "_approvals.json"
  }

  function DeclinesFile(className: string): string {
    SanitizeClassName(className) + "_declines.json"
  }

  /** Approvals and declines never share a file, whatever the two class names. */
  lemma LogFilesDisjoint(c1: string, c2: string)
    ensures ApprovalsFile(c1) != DeclinesFile(c2)
  {
    var a, b := ApprovalsFile(c1), DeclinesFile(c2);
    assert a[|a| - 7] == 'l';
    assert b[|b| - 7] == 'e';
  }

  // ---------------------------------------------------------------------
  // The bounded message log
  // ---------------------------------------------------------------------

  const LOG_LIMIT: nat := 20

  /** The `n` most recent entries of `s`. */
  function LastN(s: seq<string>, n: nat): (r: seq<string>)
    ensures |r| == if |s| < n then |s| else n
    ensures r == s[|s| - |r|..]
  {
    if |s| > n then s[|s| - n..] else s
  }

  /** `addLogMessage`'s buffer update: push, then keep the last 20. */
  function PushBounded(buf: seq<string>, entry: string): (r: seq<string>)
    ensures |buf| <= LOG_LIMIT ==> |r| <= LOG_LIMIT
    ensures r != [] && r[|r| - 1] == entry
    ensures |buf| < LOG_LIMIT ==> r == buf + [entry]
  {
    var grown := buf + [entry];
    if |grown| > LOG_LIMIT then grown[|grown| - LOG_LIMIT..] else grown
  }

  /** Pushing several entries in turn. */
  function PushAll(buf: seq<string>, entries: seq<string>): seq<string>
    decreases |entries|
  {
    if entries == [] then buf else PushAll(PushBounded(buf, entries[0]), entries[1..])
  }

  /** Pushing onto the bounded buffer equals keeping the last 20 of the unbounded log. */
  lemma LastNOfPush(s: seq<string>, e: string)
    ensures PushBounded(LastN(s, LOG_LIMIT), e) == LastN(s + [e], LOG_LIMIT)
  {
    var b := LastN(s, LOG_LIMIT);
    assert b + [e] == (s + [e])[|s + [e]| - |b + [e]|..];
  }

  /** However many messages arrive, the buffer holds exactly the 20 most recent, in order. */
  lemma {:induction false} PushAllKeepsMostRecent(buf: seq<string>, entries: seq<string>)
    ensures PushAll(LastN(buf, LOG_LIMIT), entries) == LastN(buf + entries, LOG_LIMIT)
    decreases |entries|
  {
    if entries != [] {
      var e, rest := entries[0], entries[1..];
      assert entries == [e] + rest;
      assert PushBounded(LastN(buf, LOG_LIMIT), e) == LastN(buf + [e], LOG_LIMIT) by { LastNOfPush(buf, e); }
      assert (buf + [e]) + rest == buf + entries;
      PushAllKeepsMostRecent(buf + [e], rest);
    }
  }

  /** `` `[${timestamp}] ${message}` ``: the timestamp in brackets, one space, then the message. */
  function FormatLogEntry(timestamp: string, message: string): (r: string)
    ensures |r| == |timestamp| + |message| + 3
    ensures r[0] == '[' && r[1..|timestamp| + 1] == timestamp
    ensures r[|timestamp| + 1] == ']' && r[|timestamp| + 2] == ' '
    ensures r[|timestamp| + 3..] == message
  {
    "[" + timestamp + "] " + message
  }

  // ---------------------------------------------------------------------
  // Console class selection
  // ---------------------------------------------------------------------

  /** `toLowerCase` of one character, on the ASCII letters. */
  function LowerChar(c: char): (d: char)
    ensures 'A' <= c <= 'Z' ==> 'a' <= d <= 'z' && d as int == c as int + 32
    ensures !('A' <= c <= 'Z') ==> d == c
  {
    if 'A' <= c <= 'Z' then (c as int + 32) as char else c
  }

  /** `toLowerCase`: every upper-case ASCII letter becomes its lower-case letter, everything else stays. */
  function ToLowerAscii(s: string): (r: string)
    ensures |r| == |s|
    ensures forall i :: 0 <= i < |s| ==> r[i] == LowerChar(s[i])
  {
    if s == [] then [] else [LowerChar(s[0])] + ToLowerAscii(s[1..])
  }

  /** Two strings are equal once lower-cased exactly when they agree letter by letter, ignoring case. */
  lemma LowerEqualIff(a: string, b: string)
    ensures ToLowerAscii(a) == ToLowerAscii(b) <==> |a| == |b| && forall i :: 0 <= i < |a| ==> LowerChar(a[i]) == LowerChar(b[i])
  {
    if |a| == |b| && forall i :: 0 <= i < |a| ==> LowerChar(a[i]) == LowerChar(b[i]) {
      assert ToLowerAscii(a) == ToLowerAscii(b);
    }
  }

  predicate IsDecDigit(c: char) { '0' <= c <= '9' }

  predicate IsHexDigit(c: char) { IsDecDigit(c) || ('a' <= c <= 'f') || ('A' <= c <= 'F') }

  function HexDigitValue(c: char): nat
    requires IsHexDigit(c)
  {
    if IsDecDigit(c) then c as int - '0' as int
    else if 'a' <= c <= 'f' then c as int - 'a' as int + 10
    else c as int - 'A' as int + 10
  }

  /** The longest prefix of `s` whose characters satisfy the digit class. */
  function DigitPrefix(s: string, hex: bool): (r: string)
    ensures |r| <= |s| && r == s[..|r|]
    ensures forall i :: 0 <= i < |r| ==> (if hex then IsHexDigit(r[i]) else IsDecDigit(r[i]))
    ensures |r| < |s| ==> !(if hex then IsHexDigit(s[|r|]) else IsDecDigit(s[|r|]))
  {
    if s != [] && (if hex then IsHexDigit(s[0]) else IsDecDigit(s[0])) then [s[0]] + DigitPrefix(s[1..], hex)
    else []
  }

  /** A non-empty string of decimal digits. */
  predicate IsDecimalNumeral(s: string) {
    s != [] && forall i :: 0 <= i < |s| ==> IsDecDigit(s[i])
  }

  lemma {:induction false} DecimalNumeralPrefix(s: string)
    requires forall i :: 0 <= i < |s| ==> IsDecDigit(s[i])
    ensures DigitPrefix(s, false) == s
  {
    if s != [] {
      DecimalNumeralPrefix(s[1..]);
    }
  }

  lemma DecimalNumeralParts(s: string)
    ensures IsDecimalNumeral(s) ==> SkipSpaces(s) == s && DigitPrefix(s, false) == s
  {
    if IsDecimalNumeral(s) {
      assert IsDecDigit(s[0]);
      assert !IsJsSpace(s[0]);
      assert SkipSpaces(s) == s;
      DecimalNumeralPrefix(s);
    }
  }

  /** The value of a digit string in the given base, most significant digit first. */
  function DigitsValue(d: string, base: nat): nat
    requires forall i :: 0 <= i < |d| ==> IsHexDigit(d[i])
  {
    if d == [] then 0 else DigitsValue(d[..|d| - 1], base) * base + HexDigitValue(d[|d| - 1])
  }

  /**
   * `parseInt(s)` without a radix: leading whitespace and one sign are
   * skipped, a `0x`/`0X` prefix selects base 16, and the longest digit
   * prefix is read; no digit at all is `NaN` (here `None`).
   */
  function ParseIntJs(s: string): (r: Option<int>)
    ensures s == [] ==> r.None?
    ensures s != [] && !IsJsSpace(s[0]) && !IsDecDigit(s[0]) && s[0] != '-' && s[0] != '+' ==> r.None?
    ensures IsDecimalNumeral(s) ==> r == Some(DigitsValue(s, 10))
  {
    DecimalNumeralParts(s);
    var t := SkipSpaces(s);
    var negative := t != [] && t[0] == '-';
    var u := if t != [] && (t[0] == '-' || t[0] == '+') then t[1..] else t;
    var hex := |u| >= 2 && u[0] == '0' && (u[1] == 'x' || u[1] == 'X');
    var digits := DigitPrefix(if hex then u[2..] else u, hex);
    if digits == [] then None
    else
      var n: int := DigitsValue(digits, if hex then 16 else 10);
      Some(if negative then -n else n)
  }

  /**
   * `availableClasses.find(...)`: the first class whose lower-cased name
   * equals the lower-cased answer. Every matching entry sits at or after
   * the first occurrence of the result.
   */
  function FindByName(order: seq<string>, answer: string): (r: Option<string>)
    ensures r.Some? ==> r.value in order && ToLowerAscii(r.value) == ToLowerAscii(answer)
    ensures r.Some? ==> forall j :: 0 <= j < |order| && ToLowerAscii(order[j]) == ToLowerAscii(answer) ==>
                          r.value in order[..j + 1]
    ensures r.None? <==> forall i :: 0 <= i < |order| ==> ToLowerAscii(order[i]) != ToLowerAscii(answer)
  {
    if order == [] then None
    else if ToLowerAscii(order[0]) == ToLowerAscii(answer) then
      Some(order[0])
    else
      var r := FindByName(order[1..], answer);
      if r.Some? then
        FirstInTail(order, n => ToLowerAscii(n) == ToLowerAscii(answer), r.value);
        r
      else r
  }

  /** A value found first in the tail, behind a head that does not match, is found first in the whole list. */
  lemma FirstInTail(order: seq<string>, matches: string -> bool, x: string)
    requires order != [] && !matches(order[0])
    requires forall j :: 0 <= j < |order| - 1 && matches(order[1..][j]) ==> x in order[1..][..j + 1]
    ensures forall j :: 0 <= j < |order| && matches(order[j]) ==> x in order[..j + 1]
  {
    forall j | 0 <= j < |order| && matches(order[j])
      ensures x in order[..j + 1]
    {
      var t := order[1..];
      assert t[j - 1] == order[j];
      assert x in t[..j];
      assert order[..j + 1] == [order[0]] + t[..j];
    }
  }

  /** What one answer to the class prompt resolves to. */
  datatype Selection =
    | AllClasses        // 'ALL_CLASSES'
    | Chosen(name: string)
    | NoClass           // the prompt resolves to null
    | AskAgain          // invalid answer: the prompt is repeated

  /** The answer asks for every class: "0", or "all" or "all classes" in any mix of letter case. */
  function IsAllAnswer(answer: string): (b: bool)
    ensures |answer| == 1 ==> (b <==> answer[0] == '0')
  {
    answer == "0" || ToLowerAscii(answer) == "all" || ToLowerAscii(answer) == "all classes"
  }

  /** The words are compared letter by letter, ignoring the case of each letter. */
  lemma AllAnswerAnyCase(answer: string)
    ensures IsAllAnswer(answer) <==>
              || answer == "0"
              || (|answer| == 3 && forall i :: 0 <= i < 3 ==> LowerChar(answer[i]) == "all"[i])
              || (|answer| == 11 && forall i :: 0 <= i < 11 ==> LowerChar(answer[i]) == "all classes"[i])
  {
    LowerAnswers();
    LowerMatches(answer, "all");
    LowerMatches(answer, "all classes");
  }

  /** Against a word already in lower case, the comparison is letter by letter. */
  lemma LowerMatches(answer: string, w: string)
    requires ToLowerAscii(w) == w
    ensures ToLowerAscii(answer) == w <==> |answer| == |w| && forall i :: 0 <= i < |w| ==> LowerChar(answer[i]) == w[i]
  {
    LowerEqualIff(answer, w);
    assert forall i :: 0 <= i < |w| ==> LowerChar(w[i]) == ToLowerAscii(w)[i];
  }

  lemma LowerAnswers()
    ensures ToLowerAscii("all") == "all" && ToLowerAscii("all classes") == "all classes"
  {
    LowerWord("all");
    LowerWord("all classes");
  }

  lemma LowerWord(w: string)
    requires forall i :: 0 <= i < |w| ==> w[i] == ' ' || 'a' <= w[i] <= 'z'
    ensures ToLowerAscii(w) == w
  {
  }

  /** The class named by an answer: by its 1-based number, else by a case-insensitive name. */
  function PickClass(answer: string, order: seq<string>): (r: Option<string>)
    ensures r.Some? ==> r.value in order
    ensures ParseIntJs(answer).Some? && 1 <= ParseIntJs(answer).value <= |order| ==>
              r == Some(order[ParseIntJs(answer).value - 1])
    ensures r.None? ==> forall i :: 0 <= i < |order| ==> ToLowerAscii(order[i]) != ToLowerAscii(answer)
  {
    match ParseIntJs(answer)
    case Some(n) => if 1 <= n <= |order| then Some(order[n - 1]) else FindByName(order, answer)
    case None => FindByName(order, answer)
  }

  /** The selection rule of `promptClassSelection`. */
  function SelectClass(answer: string, order: seq<string>, classes: map<string, ClassConfig>): (s: Selection)
    requires forall i :: 0 <= i < |order| ==> order[i] in classes
    ensures s.Chosen? ==> s.name in order && IsConfigured(classes[s.name])
    ensures s == AllClasses ==> IsAllAnswer(answer)
  {
    if IsAllAnswer(answer) then
      if ConfiguredClasses(order, classes) != [] then AllClasses else NoClass
    else
      var picked := PickClass(answer, order);
      if picked.None? || picked.value == "" then AskAgain
      else if IsConfigured(classes[picked.value]) then Chosen(picked.value)
      else NoClass
  }

  /** 'ALL' is granted exactly when some class is configured; otherwise the prompt gives up. */
  lemma SelectAllIffConfigured(answer: string, order: seq<string>, classes: map<string, ClassConfig>)
    requires forall i :: 0 <= i < |order| ==> order[i] in classes
    requires IsAllAnswer(answer)
    ensures (SelectClass(answer, order, classes) == AllClasses)
              <==> (exists i :: 0 <= i < |order| && IsConfigured(classes[order[i]]))
    ensures SelectClass(answer, order, classes) != AllClasses ==> SelectClass(answer, order, classes) == NoClass
  {
    var c := ConfiguredClasses(order, classes);
    if exists i :: 0 <= i < |order| && IsConfigured(classes[order[i]]) {
      var i :| 0 <= i < |order| && IsConfigured(classes[order[i]]);
      assert order[i] in c;
    }
    if c != [] {
      assert c[0] in c;
    }
  }

  /** A number k between 1 and the class count picks the k-th class, if it is configured. */
  lemma SelectByNumber(answer: string, order: seq<string>, classes: map<string, ClassConfig>, k: int)
    requires forall i :: 0 <= i < |order| ==> order[i] in classes
    requires !IsAllAnswer(answer) && ParseIntJs(answer) == Some(k) && 1 <= k <= |order|
    requires order[k - 1] != ""
    ensures SelectClass(answer, order, classes)
            == if IsConfigured(classes[order[k - 1]]) then Chosen(order[k - 1]) else NoClass
  {
    assert PickClass(answer, order) == Some(order[k - 1]);
    SelectPicked(answer, order, classes, order[k - 1]);
  }

  /** Otherwise a case-insensitive name picks that class; an answer matching nothing asks again. */
  lemma SelectByName(answer: string, order: seq<string>, classes: map<string, ClassConfig>)
    requires forall i :: 0 <= i < |order| ==> order[i] in classes
    requires forall i :: 0 <= i < |order| ==> order[i] != ""
    requires !IsAllAnswer(answer)
    requires match ParseIntJs(answer) case Some(n) => !(1 <= n <= |order|) case None => true
    ensures var s := SelectClass(answer, order, classes);
            && (FindByName(order, answer).None? ==> s == AskAgain)
            && (FindByName(order, answer).Some? ==>
                  var n := FindByName(order, answer).value;
                  s == if IsConfigured(classes[n]) then Chosen(n) else NoClass)
  {
  }

  /** With the shipped table, answering "5" selects Class 10 Science. */
  lemma ShippedSelectByNumber()
    ensures SelectClass("5", SHIPPED_ORDER, ShippedClasses()) == Chosen(SCIENCE_10)
  {
    ShippedWellOrdered();
    ShippedLookups();
    var five := '5';
    assert "5" == [five];
    SingleDigitPicks(five, SHIPPED_ORDER);
  }

  /** With the shipped table, answering "2" (Class 7, not configured) gives up. */
  lemma ShippedSelectUnconfigured()
    ensures SelectClass("2", SHIPPED_ORDER, ShippedClasses()) == NoClass
  {
    ShippedPicksSecond();
    ShippedSecondUnconfigured();
    SelectPicked("2", SHIPPED_ORDER, ShippedClasses(), SHIPPED_ORDER[1]);
  }

  lemma ShippedPicksSecond()
    ensures !IsAllAnswer("2") && PickClass("2", SHIPPED_ORDER) == Some(SHIPPED_ORDER[1])
  {
    var two := '2';
    assert "2" == [two];
    SingleDigitPicks(two, SHIPPED_ORDER);
  }

  lemma ShippedSecondUnconfigured()
    ensures forall i :: 0 <= i < |SHIPPED_ORDER| ==> SHIPPED_ORDER[i] in ShippedClasses()
    ensures SHIPPED_ORDER[1] != "" && !IsConfigured(ShippedClasses()[SHIPPED_ORDER[1]])
  {
    ShippedWellOrdered();
    ShippedLookups();
  }

  /** Once the answer is not an all-answer and picks a named class, the selection is that class if it is configured. */
  lemma SelectPicked(answer: string, order: seq<string>, classes: map<string, ClassConfig>, n: string)
    requires forall i :: 0 <= i < |order| ==> order[i] in classes
    requires !IsAllAnswer(answer) && PickClass(answer, order) == Some(n) && n != ""
    ensures n in classes
    ensures SelectClass(answer, order, classes) == if IsConfigured(classes[n]) then Chosen(n) else NoClass
  {
  }

  /** A one-digit answer from 1 up to the number of classes picks the class at that position. */
  lemma SingleDigitPicks(c: char, order: seq<string>)
    requires '1' <= c <= '9' && (c as int - '0' as int) <= |order|
    ensures !IsAllAnswer([c])
    ensures PickClass([c], order) == Some(order[c as int - '0' as int - 1])
  {
    assert ToLowerAscii([c]) == [c];
    ParseSingleDigit(c);
  }

  /** `parseInt` of a single decimal digit is that digit's value. */
  lemma ParseSingleDigit(c: char)
    requires IsDecDigit(c)
    ensures ParseIntJs([c]) == Some(c as int - '0' as int)
  {
    SingleDigitParts(c);
  }

  lemma SingleDigitParts(c: char)
    requires IsDecDigit(c)
    ensures SkipSpaces([c]) == [c]
    ensures DigitPrefix([c], false) == [c]
    ensures DigitsValue([c], 10) == c as int - '0' as int
  {
    assert !IsJsSpace(c);
    SingleDigitPrefix(c);
    SingleDigitValue(c);
  }

  lemma SingleDigitPrefix(c: char)
    requires IsDecDigit(c)
    ensures DigitPrefix([c], false) == [c]
  {
    var s := [c];
    assert DigitPrefix(s[1..], false) == [];
  }

  lemma SingleDigitValue(c: char)
    requires IsDecDigit(c)
    ensures DigitsValue([c], 10) == c as int - '0' as int
  {
    var s := [c];
    assert s[..0] == [];
  }

  /** With the shipped table, "ALL" is granted. */
  lemma ShippedSelectAll()
    ensures SelectClass("ALL", SHIPPED_ORDER, ShippedClasses()) == AllClasses
  {
    ShippedWellOrdered();
    ShippedConfiguration();
    assert ToLowerAscii("ALL") == "all";
  }
}
