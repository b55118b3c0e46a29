/**
 * Character classes and string operations shared by the JavaScript frontend
 * and the Python backend, each written out with the exact semantics of the
 * library routine it stands for. Case mapping covers ASCII only.
 */
module Text {
  import opened Wrappers

  type String = seq<char>

  // ---------------------------------------------------------------------------
  // Character classes

  predicate IsDot(c: char) { c == '.' }

  /** JavaScript's `\s` class, which is also the set `String.prototype.trim` removes. */
  predicate IsJsSpace(c: char) {
    c == ' ' || c == '\t' || c == '\n' || c == '\r' || c == '\U{000B}' || c == '\U{000C}'
    || c == '\U{00A0}' || c == '\U{1680}' || ('\U{2000}' <= c <= '\U{200A}')
    || c == '\U{2028}' || c == '\U{2029}' || c == '\U{202F}' || c == '\U{205F}'
    || c == '\U{3000}' || c == '\U{FEFF}'
  }

  /** The JavaScript line terminators: what `.` does not match and where `^`/`$` match in multiline mode. */
  predicate IsLineTerminator(c: char) {
    c == '\n' || c == '\r' || c == '\U{2028}' || c == '\U{2029}'
  }

  /** Python's `str.isspace`, which is also what `\s`, `strip()` and `split()` use on `str`. */
  predicate IsPySpace(c: char) {
    c == ' ' || ('\t' <= c <= '\r') || ('\U{001C}' <= c <= '\U{001F}') || c == '\U{0085}'
    || c == '\U{00A0}' || c == '\U{1680}' || ('\U{2000}' <= c <= '\U{200A}')
    || c == '\U{2028}' || c == '\U{2029}' || c == '\U{202F}' || c == '\U{205F}' || c == '\U{3000}'
  }

  predicate IsUpper(c: char) { 'A' <= c <= 'Z' }
  predicate IsLower(c: char) { 'a' <= c <= 'z' }
  predicate IsLetter(c: char) { IsUpper(c) || IsLower(c) }
  predicate IsDigit(c: char) { '0' <= c <= '9' }
  /** JavaScript's `\w`. */
  predicate IsWordChar(c: char) { IsLetter(c) || IsDigit(c) || c == '_' }

  function Lower(c: char): (r: char)
    ensures !IsUpper(r)
    ensures IsLetter(c) <==> IsLetter(r)
  {
    if IsUpper(c) then (c as int + 32) as char else c
  }

  function Upper(c: char): (r: char)
    ensures !IsLower(r)
    ensures IsLetter(c) <==> IsLetter(r)
  {
    if IsLower(c) then (c as int - 32) as char else c
  }

  function LowerStr(s: String): (r: String)
    ensures |r| == |s| && forall i :: 0 <= i < |s| ==> r[i] == Lower(s[i])
  {
    seq(|s|, i requires 0 <= i < |s| => Lower(s[i]))
  }

  /** Python `str.capitalize()`: the first character upper-cased, the rest lower-cased. */
  function Capitalize(s: String): (r: String)
    ensures |r| == |s|
    ensures |s| > 0 ==> r[0] == Upper(s[0])
    ensures forall i :: 0 < i < |s| ==> r[i] == Lower(s[i])
  {
    if s == [] then [] else [Upper(s[0])] + LowerStr(s[1..])
  }

  function UpperStr(s: String): (r: String)
    ensures |r| == |s| && forall i :: 0 <= i < |s| ==> r[i] == Upper(s[i])
  {
    seq(|s|, i requires 0 <= i < |s| => Upper(s[i]))
  }

  /** Replaces every character satisfying `p` by `c`. */
  function MapChars(s: String, p: char -> bool, c: char): (r: String)
    ensures |r| == |s|
    ensures forall i :: 0 <= i < |s| ==> r[i] == if p(s[i]) then c else s[i]
  {
    seq(|s|, i requires 0 <= i < |s| => if p(s[i]) then c else s[i])
  }

  function ReplaceChar(s: String, a: char, b: char): (r: String)
    ensures |r| == |s| && forall i :: 0 <= i < |s| ==> r[i] == if s[i] == a then b else s[i]
  {
    MapChars(s, x => x == a, b)
  }

  // ---------------------------------------------------------------------------
  // Scanning

  /** The end of the run of `p`-characters that starts at `i`. */
  function SkipWhile(s: String, i: nat, p: char -> bool): (j: nat)
    requires i <= |s|
    ensures i <= j <= |s|
    ensures forall k :: i <= k < j ==> p(s[k])
    ensures j < |s| ==> !p(s[j])
    decreases |s| - i
  {
    if i < |s| && p(s[i]) then SkipWhile(s, i + 1, p) else i
  }

  /** The start of the run of `p`-characters that ends at `j`. */
  function SkipBackWhile(s: String, j: nat, p: char -> bool): (i: nat)
    requires j <= |s|
    ensures i <= j
    ensures forall k :: i <= k < j ==> p(s[k])
    ensures i > 0 ==> !p(s[i - 1])
  {
    if j > 0 && p(s[j - 1]) then SkipBackWhile(s, j - 1, p) else j
  }

  /** The first position at or after `i` holding `c`, or `|s|`. */
  function FindChar(s: String, i: nat, c: char): (j: nat)
    requires i <= |s|
    ensures i <= j <= |s|
    ensures forall k :: i <= k < j ==> s[k] != c
    ensures j < |s| ==> s[j] == c
  {
    SkipWhile(s, i, x => x != c)
  }

  /** The position of the last `c` before `j`, if any. */
  function LastChar(s: String, j: nat, c: char): (r: Option<nat>)
    requires j <= |s|
    ensures r.Some? ==> r.value < j && s[r.value] == c && forall k :: r.value < k < j ==> s[k] != c
    ensures r.None? ==> forall k :: 0 <= k < j ==> s[k] != c
  {
    if j == 0 then None else if s[j - 1] == c then Some(j - 1) else LastChar(s, j - 1, c)
  }

  predicate OccursAt(s: String, pat: String, i: nat) {
    i + |pat| <= |s| && s[i..i + |pat|] == pat
  }

  /** Case-insensitive occurrence of a lower-case `key`. */
  predicate OccursAtCi(s: String, key: String, i: nat) {
    i + |key| <= |s| && LowerStr(s[i..i + |key|]) == key
  }

  /** The first occurrence of `pat` at or after `i`. */
  function IndexOfFrom(s: String, pat: String, i: nat): (r: Option<nat>)
    ensures r.Some? ==> i <= r.value && OccursAt(s, pat, r.value)
    ensures r.Some? ==> forall k :: i <= k < r.value ==> !OccursAt(s, pat, k)
    ensures r.None? ==> forall k :: i <= k ==> !OccursAt(s, pat, k)
    decreases |s| - i
  {
    if i + |pat| > |s| then None
    else if s[i..i + |pat|] == pat then Some(i)
    else IndexOfFrom(s, pat, i + 1)
  }

  /** The first case-insensitive occurrence of the lower-case `key` at or after `i`. */
  function IndexOfCiFrom(s: String, key: String, i: nat): (r: Option<nat>)
    ensures r.Some? ==> i <= r.value && OccursAtCi(s, key, r.value)
    ensures r.Some? ==> forall k :: i <= k < r.value ==> !OccursAtCi(s, key, k)
    ensures r.None? ==> forall k :: i <= k ==> !OccursAtCi(s, key, k)
    decreases |s| - i
  {
    if i + |key| > |s| then None
    else if LowerStr(s[i..i + |key|]) == key then Some(i)
    else IndexOfCiFrom(s, key, i + 1)
  }

  /** `pat in s` in Python, `s.includes(pat)` in JavaScript. */
  predicate Contains(s: String, pat: String) {
    IndexOfFrom(s, pat, 0).Some?
  }

  predicate StartsWith(s: String, pat: String) {
    |pat| <= |s| && s[..|pat|] == pat
  }

  predicate EndsWith(s: String, pat: String) {
    |pat| <= |s| && s[|s| - |pat|..] == pat
  }

  /** The first position whose element satisfies `ok` (Python's `for … : if …: break`). */
  function FirstWhere<T>(xs: seq<T>, ok: T -> bool): (k: Option<nat>)
    ensures k.Some? ==> k.value < |xs| && ok(xs[k.value])
    ensures k.Some? ==> forall j :: 0 <= j < k.value ==> !ok(xs[j])
    ensures k.None? ==> forall j :: 0 <= j < |xs| ==> !ok(xs[j])
  {
    if xs == [] then None
    else if ok(xs[0]) then Some(0)
    else match FirstWhere(xs[1..], ok)
      case Some(k) => Some(k + 1)
      case None => None
  }

  /** The first position is pinned down by its element satisfying `ok` and none before it doing so. */
  lemma FirstWhereAt<T>(xs: seq<T>, ok: T -> bool, k: nat)
    requires k < |xs| && ok(xs[k])
    requires forall j :: 0 <= j < k ==> !ok(xs[j])
    ensures FirstWhere(xs, ok) == Some(k)
  {
  }

  /** A scan that has found nothing in `xs[..k]` either stops at `k` or has found nothing in `xs[..k + 1]`. */
  lemma FirstWhereExtend<T>(xs: seq<T>, ok: T -> bool, k: nat)
    requires k < |xs| && FirstWhere(xs[..k], ok).None?
    ensures ok(xs[k]) ==> FirstWhere(xs, ok) == Some(k)
    ensures !ok(xs[k]) ==> FirstWhere(xs[..k + 1], ok).None?
  {
    forall j | 0 <= j < k
      ensures !ok(xs[j])
    {
      assert xs[..k][j] == xs[j];
    }
    if ok(xs[k]) {
      FirstWhereAt(xs, ok, k);
    } else {
      var ys := xs[..k + 1];
      forall j | 0 <= j < |ys|
        ensures !ok(ys[j])
      {
        assert ys[j] == xs[j];
      }
    }
  }

  /** The characters outside a class, as `[^\s]` is outside `\s`. */
  function Outside(cls: char -> bool): char -> bool {
    c => !cls(c)
  }

  /** JavaScript `filter` and a Python list comprehension with a condition: the elements satisfying `p`, in order. */
  function Filter<T>(xs: seq<T>, p: T -> bool): (r: seq<T>)
    ensures |r| <= |xs|
    ensures forall i :: 0 <= i < |r| ==> p(r[i])
    decreases |xs|
  {
    if xs == [] then [] else (if p(xs[0]) then [xs[0]] else []) + Filter(xs[1..], p)
  }

  /** An element is kept exactly when it is in the input and satisfies `p`. */
  lemma {:induction false} FilterMembers<T>(xs: seq<T>, p: T -> bool, x: T)
    ensures x in Filter(xs, p) <==> x in xs && p(x)
    decreases |xs|
  {
    if xs != [] {
      FilterMembers(xs[1..], p, x);
      assert xs == [xs[0]] + xs[1..];
    }
  }

  /** Filtering commutes with concatenation, so kept elements stay in their input order. */
  lemma {:induction false} FilterAppend<T>(xs: seq<T>, ys: seq<T>, p: T -> bool)
    ensures Filter(xs + ys, p) == Filter(xs, p) + Filter(ys, p)
    decreases |xs|
  {
    if xs == [] {
      assert xs + ys == ys;
    } else {
      FilterAppend(xs[1..], ys, p);
      assert (xs + ys)[1..] == xs[1..] + ys;
    }
  }

  /** A filter that no element passes keeps nothing. */
  lemma {:induction false} FilterNone<T>(xs: seq<T>, p: T -> bool)
    requires forall i :: 0 <= i < |xs| ==> !p(xs[i])
    ensures Filter(xs, p) == []
    decreases |xs|
  {
    if xs != [] {
      FilterNone(xs[1..], p);
    }
  }

  /** Heads with the same filtered elements, followed by tails with the same filtered elements. */
  lemma FilterHeads<T>(h: seq<T>, h': seq<T>, xs: seq<T>, ys: seq<T>, p: T -> bool)
    requires Filter(h, p) == Filter(h', p) && Filter(xs, p) == Filter(ys, p)
    ensures Filter(h + xs, p) == Filter(h' + ys, p)
  {
    FilterAppend(h, xs, p);
    FilterAppend(h', ys, p);
  }

  /** A filter that every element passes keeps the whole sequence. */
  lemma {:induction false} FilterAll<T>(xs: seq<T>, p: T -> bool)
    requires forall i :: 0 <= i < |xs| ==> p(xs[i])
    ensures Filter(xs, p) == xs
    decreases |xs|
  {
    if xs != [] {
      FilterAll(xs[1..], p);
    }
  }

  // ---------------------------------------------------------------------------
  // Trimming and whitespace

  /**
   * Removes the leading run of `lead` characters and the trailing run of
   * `trail` characters, as `replace(/^[lead]+|[trail]+$/g, '')` does: when the
   * two runs overlap, what is left is empty.
   */
  function StripEnds(s: String, lead: char -> bool, trail: char -> bool): (r: String)
    ensures exists a, b :: 0 <= a <= b <= |s| && r == s[a..b]
    ensures |r| <= |s| - SkipWhile(s, 0, lead)
    ensures forall i :: 0 <= i < |r| ==> r[i] == s[SkipWhile(s, 0, lead) + i]
    ensures |r| > 0 ==> !lead(r[0]) && !trail(r[|r| - 1])
  {
    var a := SkipWhile(s, 0, lead);
    var t := SkipBackWhile(s, |s|, trail);
    var b := if a <= t then t else a;
    s[a..b]
  }

  /** What is stripped is a run of `lead` characters in front and a run of `trail` characters behind. */
  lemma StripEndsSlice(s: String, lead: char -> bool, trail: char -> bool)
    ensures var r := StripEnds(s, lead, trail); var a := SkipWhile(s, 0, lead);
      && a + |r| <= |s| && r == s[a..a + |r|]
      && (forall k :: 0 <= k < a ==> lead(s[k]))
      && (forall k :: a + |r| <= k < |s| ==> trail(s[k]))
  {
    var a := SkipWhile(s, 0, lead);
    var t := SkipBackWhile(s, |s|, trail);
    var b := if a <= t then t else a;
    assert StripEnds(s, lead, trail) == s[a..b];
  }

  /** A text with nothing to strip at either end is left as it is. */
  lemma StripEndsBare(s: String, lead: char -> bool, trail: char -> bool)
    requires |s| > 0 ==> !lead(s[0]) && !trail(s[|s| - 1])
    ensures StripEnds(s, lead, trail) == s
  {
    assert SkipWhile(s, 0, lead) == 0;
    assert SkipBackWhile(s, |s|, trail) == |s|;
  }

  /** One `lead` character in front and one `trail` character behind a text with nothing to strip are removed, and only they. */
  lemma StripEndsWrapped(x: char, m: String, y: char, lead: char -> bool, trail: char -> bool)
    requires lead(x) && trail(y) && |m| > 0 && !lead(m[0]) && !trail(m[|m| - 1])
    ensures StripEnds([x] + m + [y], lead, trail) == m
  {
    var s := [x] + m + [y];
    assert s[1] == m[0] && s[|s| - 2] == m[|m| - 1];
    assert SkipWhile(s, 0, lead) == 1 by {
      assert SkipWhile(s, 0, lead) == SkipWhile(s, 1, lead);
    }
    assert SkipBackWhile(s, |s|, trail) == |s| - 1 by {
      assert SkipBackWhile(s, |s|, trail) == SkipBackWhile(s, |s| - 1, trail);
    }
    assert s[1..|s| - 1] == m;
  }

  /** One stripped character after a text with nothing to strip at its ends is removed, and only it. */
  lemma StripEndsOneAfter(n: String, c: char, p: char -> bool)
    requires p(c) && (|n| > 0 ==> !p(n[0]) && !p(n[|n| - 1]))
    ensures StripEnds(n + [c], p, p) == n
  {
    var t := n + [c];
    StripEndsSlice(t, p, p);
    var r := StripEnds(t, p, p);
    if n != [] {
      assert SkipWhile(t, 0, p) == 0 by {
        assert t[0] == n[0];
      }
      assert r == t[..|r|];
      assert !p(t[|n| - 1]) && t[|n|] == c;
      assert |r| == |n|;
      assert r == n;
    }
  }

  /** JavaScript `trim()`. */
  function JsTrim(s: String): (r: String)
    ensures |r| > 0 ==> !IsJsSpace(r[0]) && !IsJsSpace(r[|r| - 1])
    ensures (forall k :: 0 <= k < |s| ==> IsJsSpace(s[k])) <==> r == []
    ensures |r| <= |s| - SkipWhile(s, 0, IsJsSpace)
    ensures forall i :: 0 <= i < |r| ==> r[i] == s[SkipWhile(s, 0, IsJsSpace) + i]
  {
    StripEnds(s, IsJsSpace, IsJsSpace)
  }

  /** Trimming a string with no JavaScript white space changes nothing. */
  lemma JsTrimNoSpace(s: String)
    requires forall k :: 0 <= k < |s| ==> !IsJsSpace(s[k])
    ensures JsTrim(s) == s
  {
    assert SkipWhile(s, 0, IsJsSpace) == 0;
    assert SkipBackWhile(s, |s|, IsJsSpace) == |s|;
    assert s[0..|s|] == s;
  }

  /** Python `strip()` without arguments. */
  function PyStrip(s: String): (r: String)
    ensures |r| > 0 ==> !IsPySpace(r[0]) && !IsPySpace(r[|r| - 1])
    ensures (forall k :: 0 <= k < |s| ==> IsPySpace(s[k])) <==> r == []
  {
    StripEnds(s, IsPySpace, IsPySpace)
  }

  /** Stripping only removes characters. */
  lemma PyStripKeepsAbsent(s: String, x: char)
    requires x !in s
    ensures x !in PyStrip(s)
  {
    var r := PyStrip(s);
    var i, j :| 0 <= i <= j <= |s| && r == s[i..j];
    assert forall k :: 0 <= k < |r| ==> r[k] == s[i + k];
  }

  /** Trimming removes only white space: every other character is kept, in order. */
  lemma JsTrimKeepsText(s: String)
    ensures Filter(JsTrim(s), Outside(IsJsSpace)) == Filter(s, Outside(IsJsSpace))
  {
    StripEndsKeepsText(s, IsJsSpace, IsJsSpace, Outside(IsJsSpace));
  }

  /** Stripping keeps every character the filter keeps, when it keeps no character stripped from either end. */
  lemma StripEndsKeepsText(s: String, lead: char -> bool, trail: char -> bool, keep: char -> bool)
    requires forall c :: keep(c) ==> !lead(c) && !trail(c)
    ensures Filter(StripEnds(s, lead, trail), keep) == Filter(s, keep)
  {
    var r := StripEnds(s, lead, trail);
    var a := SkipWhile(s, 0, lead);
    StripEndsSlice(s, lead, trail);
    FilterDropsEnds(s, a, a + |r|, keep);
  }

  /** Elements the filter rejects at either end of a slice do not change what it keeps. */
  lemma FilterDropsEnds<T>(xs: seq<T>, a: nat, b: nat, p: T -> bool)
    requires a <= b <= |xs|
    requires forall k :: 0 <= k < a ==> !p(xs[k])
    requires forall k :: b <= k < |xs| ==> !p(xs[k])
    ensures Filter(xs[a..b], p) == Filter(xs, p)
  {
    FilterDropsBack(xs, b, p);
    FilterDropsFront(xs[..b], a, p);
    assert xs[..b][a..] == xs[a..b];
  }

  /** A rejected front does not change what the filter keeps. */
  lemma FilterDropsFront<T>(xs: seq<T>, a: nat, p: T -> bool)
    requires a <= |xs|
    requires forall k :: 0 <= k < a ==> !p(xs[k])
    ensures Filter(xs[a..], p) == Filter(xs, p)
  {
    assert xs == xs[..a] + xs[a..];
    FilterNone(xs[..a], p);
    FilterAppend(xs[..a], xs[a..], p);
  }

  /** A rejected back does not change what the filter keeps. */
  lemma FilterDropsBack<T>(xs: seq<T>, b: nat, p: T -> bool)
    requires b <= |xs|
    requires forall k :: b <= k < |xs| ==> !p(xs[k])
    ensures Filter(xs[..b], p) == Filter(xs, p)
  {
    assert xs == xs[..b] + xs[b..];
    assert forall k :: 0 <= k < |xs[b..]| ==> xs[b..][k] == xs[b + k];
    FilterNone(xs[b..], p);
    FilterAppend(xs[..b], xs[b..], p);
  }

  /** Replaces every maximal run of `p`-characters by the single character `c`, as `replace(/\s+/g, ' ')` does. */
  function CollapseRuns(s: String, p: char -> bool, c: char): (r: String)
    ensures |r| <= |s|
    ensures forall k :: 0 <= k < |r| && p(r[k]) ==> r[k] == c
    ensures p(c) ==> forall k :: 0 <= k < |r| - 1 ==> !(p(r[k]) && p(r[k + 1]))
    decreases |s|
  {
    if s == [] then []
    else if p(s[0]) then
      var j := SkipWhile(s, 0, p);
      [c] + CollapseRuns(s[j..], p, c)
    else [s[0]] + CollapseRuns(s[1..], p, c)
  }

  /** Collapsing keeps every character outside the class, in order. */
  lemma {:induction false} CollapseRunsKeepsText(s: String, p: char -> bool, c: char)
    requires p(c)
    ensures Filter(CollapseRuns(s, p, c), Outside(p)) == Filter(s, Outside(p))
    decreases |s|
  {
    if s != [] {
      if p(s[0]) {
        var j := SkipWhile(s, 0, p);
        CollapseRunsKeepsText(s[j..], p, c);
        FilterAppend([c], CollapseRuns(s[j..], p, c), Outside(p));
        FilterAppend(s[..j], s[j..], Outside(p));
        assert s[..j] + s[j..] == s;
        FilterNone([c], Outside(p));
        FilterNone(s[..j], Outside(p));
      } else {
        CollapseRunsKeepsText(s[1..], p, c);
        FilterAppend([s[0]], CollapseRuns(s[1..], p, c), Outside(p));
        FilterAppend([s[0]], s[1..], Outside(p));
        assert [s[0]] + s[1..] == s;
      }
    }
  }

  /** A text whose class characters are all `c` and never adjacent is left as it is. */
  lemma {:induction false} CollapseRunsFixed(s: String, p: char -> bool, c: char)
    requires forall k :: 0 <= k < |s| && p(s[k]) ==> s[k] == c
    requires forall k :: 0 <= k < |s| - 1 ==> !(p(s[k]) && p(s[k + 1]))
    ensures CollapseRuns(s, p, c) == s
    decreases |s|
  {
    if s != [] {
      if p(s[0]) {
        assert SkipWhile(s, 0, p) == 1 by {
          assert |s| > 1 ==> !p(s[1]);
        }
      }
      CollapseRunsFixed(s[1..], p, c);
      assert [s[0]] + s[1..] == s;
    }
  }

  // ---------------------------------------------------------------------------
  // Replacing, splitting, joining

  /** Replaces the occurrences of a non-empty `pat` from left to right without overlap (Python `replace`, JavaScript `/pat/g`). */
  function ReplaceAll(s: String, pat: String, rep: String): (r: String)
    requires |pat| > 0
    decreases |s|
  {
    if |s| < |pat| then s
    else if s[..|pat|] == pat then rep + ReplaceAll(s[|pat|..], pat, rep)
    else [s[0]] + ReplaceAll(s[1..], pat, rep)
  }

  /** JavaScript `replace` with a string pattern: only the first occurrence. */
  function ReplaceFirst(s: String, pat: String, rep: String): (r: String)
  {
    match IndexOfFrom(s, pat, 0)
    case None => s
    case Some(i) => s[..i] + rep + s[i + |pat|..]
  }

  function Join(parts: seq<String>, sep: String): String {
    if |parts| == 0 then []
    else if |parts| == 1 then parts[0]
    else parts[0] + sep + Join(parts[1..], sep)
  }

  /** `s.split(c)` for a one-character separator (the same in Python and JavaScript). */
  function Split(s: String, c: char): (parts: seq<String>)
    ensures |parts| >= 1
    ensures forall k :: 0 <= k < |parts| ==> c !in parts[k]
    decreases |s|
  {
    var j := FindChar(s, 0, c);
    if j == |s| then [s]
    else [s[..j]] + Split(s[j + 1..], c)
  }

  /** Joining the pieces with the separator gives back the text. */
  lemma {:induction false} SplitJoin(s: String, c: char)
    ensures Join(Split(s, c), [c]) == s
    decreases |s|
  {
    var j := FindChar(s, 0, c);
    if j < |s| {
      SplitJoin(s[j + 1..], c);
      assert s == s[..j] + [c] + s[j + 1..];
    }
  }

  /** Splitting a join of separator-free pieces gives the pieces back. */
  lemma {:induction false} JoinSplit(parts: seq<String>, c: char)
    requires |parts| >= 1
    requires forall k :: 0 <= k < |parts| ==> c !in parts[k]
    ensures Split(Join(parts, [c]), c) == parts
    decreases |parts|
  {
    if |parts| == 1 {
      assert Split(parts[0], c) == [parts[0]];
    } else {
      JoinSplit(parts[1..], c);
      SplitAtOnly(parts[0], Join(parts[1..], [c]), c);
      assert Join(parts, [c]) == parts[0] + [c] + Join(parts[1..], [c]);
      assert parts == [parts[0]] + parts[1..];
    }
  }

  /** Every piece of `s.split(c)` is made of characters of `s`. */
  lemma {:induction false} SplitPartsWithin(s: String, c: char, k: nat, x: char)
    requires k < |Split(s, c)| && x in Split(s, c)[k]
    ensures x in s
    decreases |s|
  {
    var j := FindChar(s, 0, c);
    if j < |s| && k > 0 {
      SplitPartsWithin(s[j + 1..], c, k - 1, x);
    }
  }

  /** One step of the split: the text before the first `c`, then the pieces of the rest. */
  lemma SplitStep(s: String, c: char)
    requires FindChar(s, 0, c) < |s|
    ensures Split(s, c) == [s[..FindChar(s, 0, c)]] + Split(s[FindChar(s, 0, c) + 1..], c)
  {
  }

  /** The first `c` of `a + cb` lies in `a` when `a` has one, else it is `cb`'s first character. */
  lemma FindCharAppend(a: String, cb: String, c: char)
    requires |cb| > 0 && cb[0] == c
    ensures FindChar(a + cb, 0, c) == FindChar(a, 0, c)
  {
    var s := a + cb;
    assert s[|a|] == c;
    assert forall k :: 0 <= k < |a| ==> s[k] == a[k];
  }

  /** With no `c` in `a`, splitting `a + [c] + b` gives `a`, then the pieces of `b`. */
  lemma SplitAtOnly(a: String, b: String, c: char)
    requires FindChar(a, 0, c) == |a|
    ensures Split(a + [c] + b, c) == [a] + Split(b, c)
  {
    var s := a + [c] + b;
    FindCharAppend(a, [c] + b, c);
    assert s == a + ([c] + b);
    SplitStep(s, c);
    assert s[..|a|] == a && s[|a| + 1..] == b;
  }

  /** With a first `c` in `a`, splitting `a + [c] + b` starts with the same first piece as `a`. */
  lemma SplitAtEarlier(a: String, b: String, c: char)
    requires FindChar(a, 0, c) < |a|
    ensures var j := FindChar(a, 0, c);
      Split(a + [c] + b, c) == [a[..j]] + Split(a[j + 1..] + [c] + b, c)
  {
    var s := a + [c] + b;
    FindCharAppend(a, [c] + b, c);
    assert s == a + ([c] + b);
    var j := FindChar(a, 0, c);
    SplitStep(s, c);
    assert s[..j] == a[..j];
    assert s[j + 1..] == a[j + 1..] + [c] + b;
  }

  /** Splitting `a`, a separator and a separator-free `b` gives the pieces of `a`, then `b`. */
  lemma {:induction false} SplitAppend(a: String, b: String, c: char)
    requires c !in b
    ensures Split(a + [c] + b, c) == Split(a, c) + [b]
    decreases |a|
  {
    var j := FindChar(a, 0, c);
    assert Split(b, c) == [b];
    if j == |a| {
      SplitAtOnly(a, b, c);
    } else {
      SplitAtEarlier(a, b, c);
      SplitStep(a, c);
      SplitAppend(a[j + 1..], b, c);
    }
  }

  /** The last piece of `a + [c] + b` is `b` when `b` holds no `c`. */
  lemma LastPieceAppend(a: String, b: String, c: char)
    requires c !in b
    ensures LastPiece(a + [c] + b, c) == b
  {
    SplitAppend(a, b, c);
  }

  /** The last piece of `s.split(c)`: what follows the last `c`. */
  function LastPiece(s: String, c: char): (r: String)
    ensures c !in r
  {
    var parts := Split(s, c);
    parts[|parts| - 1]
  }

  /** The first piece of `s.split(c)`: what precedes the first `c`. */
  function FirstPiece(s: String, c: char): (r: String)
    ensures c !in r
  {
    Split(s, c)[0]
  }

  /** The last piece starts after the last `c`. */
  lemma LastPieceAt(s: String, c: char, i: nat)
    requires i < |s| && s[i] == c && c !in s[i + 1..]
    ensures LastPiece(s, c) == s[i + 1..]
  {
    assert s == s[..i] + [c] + s[i + 1..];
    LastPieceAppend(s[..i], s[i + 1..], c);
  }

  /** The first piece ends at the first `c`, or at the end when there is none. */
  lemma FirstPieceAt(s: String, c: char, j: nat)
    requires j <= |s| && c !in s[..j] && (j < |s| ==> s[j] == c)
    ensures FirstPiece(s, c) == s[..j]
  {
    assert FindChar(s, 0, c) == j;
    if j < |s| {
      SplitStep(s, c);
    }
  }

  /** `a || b` in JavaScript and `a or b` in Python on strings: the first non-empty one. */
  function Or(a: String, b: String): (r: String)
    ensures b != [] ==> r != []
  {
    if a != [] then a else b
  }

  /** JavaScript `substring(0, n)` and Python `s[:n]` for `n >= 0`. */
  function Prefix<T>(s: seq<T>, n: nat): (r: seq<T>)
    ensures |r| == if |s| <= n then |s| else n
    ensures r <= s
  {
    if |s| <= n then s else s[..n]
  }

  // ---------------------------------------------------------------------------
  // Numbers

  function DigitChar(d: nat): char
    requires d < 10
  {
    ('0' as int + d) as char
  }

  function NatToString(n: nat): (r: String)
    ensures |r| > 0 && forall k :: 0 <= k < |r| ==> IsDigit(r[k])
    decreases n
  {
    if n < 10 then [DigitChar(n)] else NatToString(n / 10) + [DigitChar(n % 10)]
  }

  /** `String(n)` in JavaScript and `str(n)` in Python for an integer. */
  function IntToString(n: int): (r: String)
    ensures |r| > 0
  {
    if n < 0 then "-" + NatToString(-n) else NatToString(n)
  }

  predicate AllDigits(s: String) {
    forall k :: 0 <= k < |s| ==> IsDigit(s[k])
  }

  /** The value of a string of decimal digits. */
  function DigitsValue(s: String): nat
    requires AllDigits(s)
  {
    if s == [] then 0 else DigitsValue(s[..|s| - 1]) * 10 + (s[|s| - 1] as int - '0' as int)
  }

  /** Reading back the decimal numeral of `n` gives `n`. */
  lemma {:induction false} NatToStringRoundTrip(n: nat)
    ensures AllDigits(NatToString(n)) && DigitsValue(NatToString(n)) == n
    decreases n
  {
    var r := NatToString(n);
    if n >= 10 {
      NatToStringRoundTrip(n / 10);
      assert r[..|r| - 1] == NatToString(n / 10);
    }
  }

  /** Distinct numbers have distinct numerals. */
  lemma NatToStringInjective(a: nat, b: nat)
    requires a != b
    ensures NatToString(a) != NatToString(b)
  {
    NatToStringRoundTrip(a);
    NatToStringRoundTrip(b);
  }
}
