/**
 * Hand-written scanners for the regular expressions the email views apply to
 * raw message text. Each function reproduces what its pattern's leftmost,
 * backtracking match yields; the comment above it names the pattern and the
 * order in which the engine tries alternatives.
 */
module EmailScan {
  import opened Wrappers
  import opened Text

  // ---------------------------------------------------------------------------
  // LinkedIn invitation links:  View profile:https?:\/\/[^\s]+\/in\/([^?\/]+)
  // The frontend compiles it with the `i` flag and JavaScript's `\s`; the
  // backend uses it case-sensitively with Python's `\s`.

  /** Character equality, optionally ignoring ASCII case. */
  predicate SameChar(a: char, b: char, ci: bool) {
    if ci then Lower(a) == Lower(b) else a == b
  }

  predicate WordAt(s: String, w: String, i: nat, ci: bool) {
    i + |w| <= |s| && forall k :: 0 <= k < |w| ==> SameChar(s[i + k], w[k], ci)
  }

  predicate SlugChar(c: char) { c != '?' && c != '/' }

  /** `\/in\/` at `k` followed by at least one slug character. */
  predicate MarkerAt(s: String, k: nat, ci: bool) {
    WordAt(s, "/in/", k, ci) && k + 4 < |s| && SlugChar(s[k + 4])
  }

  /** Where `View profile:https?:\/\/` ends when it starts at `p`. */
  function LinkHead(s: String, p: nat, ci: bool): (u: Option<nat>)
    ensures u.Some? ==> p + 20 <= u.value <= |s|
  {
    if !WordAt(s, "View profile:http", p, ci) then None
    else
      var q := p + 17;
      var q' := if q < |s| && SameChar(s[q], 's', ci) then q + 1 else q;
      if WordAt(s, "://", q', ci) then Some(q' + 3) else None
  }

  /** The largest `k` in `[lo, hi]` where a marker starts: `[^\s]+` is greedy and gives characters back one by one. */
  function LastMarker(s: String, lo: nat, hi: nat, ci: bool): (k: Option<nat>)
    ensures k.Some? ==> lo <= k.value <= hi && MarkerAt(s, k.value, ci)
    ensures k.Some? ==> forall j :: k.value < j <= hi ==> !MarkerAt(s, j, ci)
    ensures k.None? ==> forall j :: lo <= j <= hi ==> !MarkerAt(s, j, ci)
    decreases hi
  {
    if hi < lo then None
    else if MarkerAt(s, hi, ci) then Some(hi)
    else if hi == lo then None
    else LastMarker(s, lo, hi - 1, ci)
  }

  /** A LinkedIn match: where it starts, where its last `/in/` is, and the captured slug. */
  datatype SlugMatch = SlugMatch(start: nat, marker: nat, slug: String)

  /** The `/in/` chosen after a link head ending at `u`: the last one before the first whitespace. */
  function MarkerAfter(s: String, u: nat, ci: bool, space: char -> bool): Option<nat>
    requires u <= |s|
  {
    LastMarker(s, u + 1, SkipWhile(s, u, Outside(space)), ci)
  }

  /** The match attempted at `p`, if one succeeds there. */
  function SlugAt(s: String, p: nat, ci: bool, space: char -> bool): (m: Option<SlugMatch>)
    ensures m.Some? ==> m.value.start == p
    ensures m.Some? ==> MarkerAt(s, m.value.marker, ci)
    ensures m.Some? ==> m.value.slug == s[m.value.marker + 4..SkipWhile(s, m.value.marker + 4, SlugChar)]
  {
    match LinkHead(s, p, ci)
    case None => None
    case Some(u) =>
      match MarkerAfter(s, u, ci, space)
      case None => None
      case Some(k) => Some(SlugMatch(p, k, s[k + 4..SkipWhile(s, k + 4, SlugChar)]))
  }

  /** The first position in `[p, n)` where `attempt` succeeds, with what it yields there. */
  function FirstSome<T>(n: nat, p: nat, attempt: nat -> Option<T>): (r: Option<(nat, T)>)
    ensures r.Some? ==> p <= r.value.0 < n && attempt(r.value.0) == Some(r.value.1)
    ensures r.Some? ==> forall j :: p <= j < r.value.0 ==> attempt(j).None?
    ensures r.None? ==> forall j :: p <= j < n ==> attempt(j).None?
    decreases n - p
  {
    if p >= n then None
    else if attempt(p).Some? then Some((p, attempt(p).value))
    else FirstSome(n, p + 1, attempt)
  }

  /** The leftmost match at or after `p`: the engine tries each start position in turn. */
  function SlugFrom(s: String, p: nat, ci: bool, space: char -> bool): Option<SlugMatch> {
    match FirstSome(|s|, p, j => SlugAt(s, j, ci, space))
    case None => None
    case Some((_, m)) => Some(m)
  }

  /** The match found is the one attempted at its start, and no attempt before it succeeds. */
  lemma SlugFromLeftmost(s: String, p: nat, ci: bool, space: char -> bool, m: SlugMatch)
    requires SlugFrom(s, p, ci, space) == Some(m)
    ensures p <= m.start && SlugAt(s, m.start, ci, space) == Some(m)
    ensures forall j :: p <= j < m.start ==> SlugAt(s, j, ci, space).None?
  {
    var attempt := j => SlugAt(s, j, ci, space);
    var r := FirstSome(|s|, p, attempt);
    var q := r.value.0;
    assert attempt(q) == SlugAt(s, q, ci, space) == Some(m);
    forall j | p <= j < q
      ensures SlugAt(s, j, ci, space).None?
    {
      assert attempt(j).None?;
    }
  }

  /** The match found follows a marker and captures the run of slug characters after it. */
  lemma SlugFromFound(s: String, p: nat, ci: bool, space: char -> bool, m: SlugMatch)
    requires SlugFrom(s, p, ci, space) == Some(m)
    ensures MarkerAt(s, m.marker, ci)
    ensures m.slug == s[m.marker + 4..SkipWhile(s, m.marker + 4, SlugChar)]
  {
    SlugFromLeftmost(s, p, ci, space, m);
    var r := SlugAt(s, m.start, ci, space);
    assert r.Some? && r.value == m;
  }

  /** The captured profile slug of the first LinkedIn link in `s`. */
  function LinkedInSlug(s: String, ci: bool, space: char -> bool): Option<String> {
    match SlugFrom(s, 0, ci, space)
    case None => None
    case Some(m) => Some(m.slug)
  }

  /**
   * The slug is non-empty, holds no '?' or '/', stands right after a `/in/`
   * and runs up to the next '?' or '/' (or the end), whatever lies in between.
   */
  lemma SlugShape(s: String, ci: bool, space: char -> bool, m: SlugMatch)
    requires SlugFrom(s, 0, ci, space) == Some(m)
    ensures |m.slug| > 0 && forall k :: 0 <= k < |m.slug| ==> SlugChar(m.slug[k])
    ensures WordAt(s, "/in/", m.marker, ci) && m.slug <= s[m.marker + 4..]
    ensures m.marker + 4 + |m.slug| == |s| || !SlugChar(s[m.marker + 4 + |m.slug|])
  {
    SlugFromFound(s, 0, ci, space, m);
    MarkedSlugShape(s, ci, m);
  }

  /** The shape of a slug captured after a marker. */
  lemma MarkedSlugShape(s: String, ci: bool, m: SlugMatch)
    requires MarkerAt(s, m.marker, ci)
    requires m.slug == s[m.marker + 4..SkipWhile(s, m.marker + 4, SlugChar)]
    ensures |m.slug| > 0 && forall k :: 0 <= k < |m.slug| ==> SlugChar(m.slug[k])
    ensures WordAt(s, "/in/", m.marker, ci) && m.slug <= s[m.marker + 4..]
    ensures m.marker + 4 + |m.slug| == |s| || !SlugChar(s[m.marker + 4 + |m.slug|])
  {
    CapturedSlugShape(s, ci, m);
    SlugRunEnds(s, m.marker + 4, m.slug);
  }

  /** A slug captured after a marker is a non-empty run of slug characters. */
  lemma CapturedSlugShape(s: String, ci: bool, m: SlugMatch)
    requires MarkerAt(s, m.marker, ci)
    requires m.slug == s[m.marker + 4..SkipWhile(s, m.marker + 4, SlugChar)]
    ensures |m.slug| > 0 && forall k :: 0 <= k < |m.slug| ==> SlugChar(m.slug[k])
    ensures m.slug <= s[m.marker + 4..]
  {
    var a := m.marker + 4;
    var e := SkipWhile(s, a, SlugChar);
    assert a < e by {
      assert SlugChar(s[a]);
      assert e == SkipWhile(s, a + 1, SlugChar);
    }
    forall k | 0 <= k < |m.slug|
      ensures SlugChar(m.slug[k])
    {
      assert m.slug[k] == s[a + k];
    }
  }

  /** A run of slug characters ends at the end of the text or before a character that is not one. */
  lemma SlugRunEnds(s: String, a: nat, slug: String)
    requires a <= |s| && slug == s[a..SkipWhile(s, a, SlugChar)]
    ensures a + |slug| == |s| || !SlugChar(s[a + |slug|])
  {
    var e := SkipWhile(s, a, SlugChar);
    assert a + |slug| == e;
  }

  /** A match's marker is the one chosen after its link head. */
  lemma SlugAtMarker(s: String, p: nat, ci: bool, space: char -> bool, m: SlugMatch, u: nat)
    requires SlugAt(s, p, ci, space) == Some(m)
    requires LinkHead(s, p, ci) == Some(u)
    ensures MarkerAfter(s, u, ci, space) == Some(m.marker)
  {
  }

  /**
   * The `/in/` the slug follows lies after the link head without whitespace in
   * between, and no later `/in/` followed by a slug character is reachable
   * from the head without crossing whitespace: the greedy `[^\s]+` picks the last.
   */
  lemma SlugFollowsLastMarker(s: String, ci: bool, space: char -> bool, m: SlugMatch, u: nat)
    requires SlugFrom(s, 0, ci, space) == Some(m)
    requires LinkHead(s, m.start, ci) == Some(u)
    ensures u < m.marker && forall k :: u <= k < m.marker ==> !space(s[k])
    ensures forall j :: m.marker < j < |s| && (forall k :: u <= k < j ==> !space(s[k])) ==> !MarkerAt(s, j, ci)
  {
    SlugFromLeftmost(s, 0, ci, space, m);
    SlugAtMarker(s, m.start, ci, space, m, u);
    var r := SkipWhile(s, u, Outside(space));
    forall j | m.marker < j < |s| && (forall k :: u <= k < j ==> !space(s[k]))
      ensures !MarkerAt(s, j, ci)
    {
      assert r < |s| ==> !Outside(space)(s[r]);
      assert j <= r;
    }
  }

  /** Position `i` starts a run of `\w` characters: JavaScript's `\b\w`. */
  predicate WordStart(s: String, i: nat)
    requires i < |s|
  {
    IsWordChar(s[i]) && (i == 0 || !IsWordChar(s[i - 1]))
  }

  /** JavaScript `replace(/\b\w/g, c => c.toUpperCase())`: the first character of every run of word characters is upper-cased. */
  function CapitalizeWordsJs(s: String): (r: String)
    ensures |r| == |s|
    ensures forall i :: 0 <= i < |s| && WordStart(s, i) ==> r[i] == Upper(s[i])
    ensures forall i :: 0 <= i < |s| && !WordStart(s, i) ==> r[i] == s[i]
  {
    seq(|s|, i requires 0 <= i < |s| => if WordStart(s, i) then Upper(s[i]) else s[i])
  }

  /** Upper-casing changes neither whether a character is a word character nor its lower-case form. */
  lemma UpperKeepsWordChar(c: char)
    ensures IsWordChar(Upper(c)) <==> IsWordChar(c)
    ensures Lower(Upper(c)) == Lower(c) && Upper(Upper(c)) == Upper(c)
  {
  }

  /** Capitalising words only changes case, and doing it twice is doing it once. */
  lemma {:induction false} CapitalizeWordsJsCaseOnly(s: String)
    ensures LowerStr(CapitalizeWordsJs(s)) == LowerStr(s)
    ensures CapitalizeWordsJs(CapitalizeWordsJs(s)) == CapitalizeWordsJs(s)
  {
    var r := CapitalizeWordsJs(s);
    forall i | 0 <= i < |s|
      ensures Lower(r[i]) == Lower(s[i])
      ensures IsWordChar(r[i]) <==> IsWordChar(s[i])
      ensures Upper(r[i]) == Upper(s[i])
    {
      UpperKeepsWordChar(s[i]);
    }
    var rr := CapitalizeWordsJs(r);
    forall i | 0 <= i < |s|
      ensures rr[i] == r[i]
    {
      assert WordStart(r, i) <==> WordStart(s, i);
    }
  }

  /** Python `str.title()`: a letter after a non-letter is upper-cased, every other letter lower-cased. */
  function TitlePy(s: String): (r: String)
    ensures |r| == |s|
    ensures forall i :: 0 <= i < |s| && !IsLetter(s[i]) ==> r[i] == s[i]
    ensures forall i :: 0 <= i < |s| && IsLetter(s[i]) && (i == 0 || !IsLetter(s[i - 1])) ==> r[i] == Upper(s[i])
    ensures forall i :: 0 < i < |s| && IsLetter(s[i]) && IsLetter(s[i - 1]) ==> r[i] == Lower(s[i])
  {
    seq(|s|, i requires 0 <= i < |s| =>
      if !IsLetter(s[i]) then s[i]
      else if i == 0 || !IsLetter(s[i - 1]) then Upper(s[i])
      else Lower(s[i]))
  }

  /** Title-casing only changes case, and a title-cased text is its own title. */
  lemma {:induction false} TitlePyCaseOnly(s: String)
    ensures LowerStr(TitlePy(s)) == LowerStr(s)
    ensures TitlePy(TitlePy(s)) == TitlePy(s)
  {
    var r := TitlePy(s);
    forall i | 0 <= i < |s|
      ensures Lower(r[i]) == Lower(s[i])
      ensures IsLetter(r[i]) <==> IsLetter(s[i])
    {
    }
    var rr := TitlePy(r);
    forall i | 0 <= i < |s|
      ensures rr[i] == r[i]
    {
    }
  }

  // ---------------------------------------------------------------------------
  // inviterVanityName=([^&]+)

  const VanityKey: String := "inviterVanityName="

  /** The key occurs at `j` and a character other than '&' follows it: the pattern can match at `j`. */
  predicate VanityStart(s: String, j: nat) {
    OccursAt(s, VanityKey, j) && j + |VanityKey| < |s| && s[j + |VanityKey|] != '&'
  }

  /** What the pattern captures at `j`: the run after the key up to the next '&' or the end. */
  function VanityValue(s: String, j: nat): (v: String)
    requires VanityStart(s, j)
    ensures |v| > 0 && '&' !in v
    ensures j + |VanityKey| + |v| <= |s| && v == s[j + |VanityKey|..j + |VanityKey| + |v|]
    ensures j + |VanityKey| + |v| == |s| || s[j + |VanityKey| + |v|] == '&'
  {
    var g := j + |VanityKey|;
    var e := FindChar(s, g, '&');
    assert e == SkipWhile(s, g + 1, x => x != '&');
    s[g..e]
  }

  /** The first `inviterVanityName=` at or after `i` where the pattern matches, and its capture. */
  function VanityFrom(s: String, i: nat): (v: Option<String>)
    ensures v.Some? ==> |v.value| > 0 && '&' !in v.value
    decreases |s| - i
  {
    match IndexOfFrom(s, VanityKey, i)
    case None => None
    case Some(j) =>
      var g := j + |VanityKey|;
      if g < |s| && s[g] != '&' then
        assert VanityStart(s, j);
        Some(VanityValue(s, j))
      else VanityFrom(s, j + 1)
  }

  /** The capture is the one at the leftmost position at or after `i` where the pattern can match, and None means there is none. */
  lemma VanityFromLeftmost(s: String, i: nat)
    ensures var v := VanityFrom(s, i);
      v.Some? ==> exists j: nat :: i <= j && VanityStart(s, j) && v.value == VanityValue(s, j) &&
                                   forall k: nat :: i <= k < j ==> !VanityStart(s, k)
    ensures VanityFrom(s, i).None? ==> forall j: nat :: i <= j ==> !VanityStart(s, j)
  {
    VanityFromFound(s, i);
    VanityFromNowhere(s, i);
  }

  /** A capture comes from the leftmost position where the pattern can match. */
  lemma {:induction false} VanityFromFound(s: String, i: nat)
    ensures var v := VanityFrom(s, i);
      v.Some? ==> exists j: nat :: i <= j && VanityStart(s, j) && v.value == VanityValue(s, j) &&
                                   forall k: nat :: i <= k < j ==> !VanityStart(s, k)
    decreases |s| - i
  {
    var r := IndexOfFrom(s, VanityKey, i);
    if r.Some? {
      var j := r.value;
      var g := j + |VanityKey|;
      forall k: nat | i <= k < j ensures !VanityStart(s, k) {
        assert !OccursAt(s, VanityKey, k);
      }
      if g < |s| && s[g] != '&' {
        assert VanityStart(s, j) && VanityFrom(s, i) == Some(VanityValue(s, j));
      } else {
        assert !VanityStart(s, j);
        VanityFromFound(s, j + 1);
        assert VanityFrom(s, i) == VanityFrom(s, j + 1);
      }
    }
  }

  /** No capture means the pattern can match nowhere at or after `i`. */
  lemma {:induction false} VanityFromNowhere(s: String, i: nat)
    ensures VanityFrom(s, i).None? ==> forall j: nat :: i <= j ==> !VanityStart(s, j)
    decreases |s| - i
  {
    var r := IndexOfFrom(s, VanityKey, i);
    if r.None? {
      forall j: nat | i <= j ensures !VanityStart(s, j) {
        assert !OccursAt(s, VanityKey, j);
      }
    } else {
      var j := r.value;
      var g := j + |VanityKey|;
      if !(g < |s| && s[g] != '&') {
        VanityFromNowhere(s, j + 1);
        assert VanityFrom(s, i) == VanityFrom(s, j + 1);
        forall k: nat | i <= k <= j ensures !VanityStart(s, k) {
          assert k < j ==> !OccursAt(s, VanityKey, k);
        }
      }
    }
  }

  // ---------------------------------------------------------------------------
  // Header fields.
  //   Key:[\s\r\n]*(.*?)(?:\r?\n(?!\s)|$)     (flags i, m) on the header block
  //   ^Key:[\s\r\n]*(.*?)(?:\r?\n|$)           (flags i, m) on the raw text
  //   Key:[\s\r\n]*(.*?)(?=\r?\n\S+:|$)        (flags i, m) on the raw text
  // The greedy whitespace run never needs to give characters back, because the
  // lazy group can always stop at the next line terminator, where the
  // multiline `$` holds. So every pattern captures, from its first admissible
  // occurrence of the key, the text after the whitespace up to the end of that line.

  /** The captured value after a key that ends at `keyEnd`: from the end of the white space run to the end of its line. */
  function FieldAfter(s: String, keyEnd: nat): (v: String)
    requires keyEnd <= |s|
    ensures forall k :: 0 <= k < |v| ==> !IsLineTerminator(v[k])
    ensures |v| > 0 ==> !IsJsSpace(v[0])
    ensures var b := SkipWhile(s, keyEnd, IsJsSpace);
      b + |v| <= |s| && v == s[b..b + |v|] && (b + |v| == |s| || IsLineTerminator(s[b + |v|]))
  {
    var b := SkipWhile(s, keyEnd, IsJsSpace);
    s[b..SkipWhile(s, b, Outside(IsLineTerminator))]
  }

  /** `Key:...` anywhere (first and third forms): the first case-insensitive occurrence of `key`. */
  function HeaderAnywhere(s: String, key: String): (v: Option<String>)
    ensures v.Some? <==> IndexOfCiFrom(s, key, 0).Some?
  {
    match IndexOfCiFrom(s, key, 0)
    case None => None
    case Some(i) => Some(FieldAfter(s, i + |key|))
  }

  predicate AtLineStart(s: String, i: nat) {
    i == 0 || (i <= |s| && IsLineTerminator(s[i - 1]))
  }

  /** `^Key` with the multiline flag can match at `k`. */
  predicate KeyLineAt(s: String, key: String, k: nat) {
    OccursAtCi(s, key, k) && AtLineStart(s, k)
  }

  /** The first case-insensitive occurrence of `key` at a line start, at or after `i`. */
  function KeyAtLineStartFrom(s: String, key: String, i: nat): (r: Option<nat>)
    ensures r.Some? ==> i <= r.value && KeyLineAt(s, key, r.value)
    ensures r.Some? ==> forall k: nat :: i <= k < r.value ==> !KeyLineAt(s, key, k)
    ensures r.None? ==> forall k: nat :: i <= k ==> !KeyLineAt(s, key, k)
    decreases |s| - i
  {
    match IndexOfCiFrom(s, key, i)
    case None => None
    case Some(j) => if AtLineStart(s, j) then Some(j) else KeyAtLineStartFrom(s, key, j + 1)
  }

  /** `^Key:...` with the multiline flag (second form). */
  function HeaderAtLineStart(s: String, key: String): Option<String> {
    match KeyAtLineStartFrom(s, key, 0)
    case None => None
    case Some(i) => Some(FieldAfter(s, i + |key|))
  }

  // ---------------------------------------------------------------------------
  // Key\s*([^X]+)   for a white space class and a set X of excluded characters.
  // The greedy whitespace run gives characters back one by one until a
  // character outside X follows; if none does, the next occurrence is tried.

  /**
   * The group when the white space run may end anywhere from `x` down to `lo`:
   * the largest such end followed by a character outside the excluded set,
   * and the maximal run of such characters from there.
   */
  function BackOff(s: String, lo: nat, x: nat, excl: char -> bool): (v: Option<String>)
    requires lo <= x <= |s|
    ensures v.Some? ==> |v.value| > 0 && forall k :: 0 <= k < |v.value| ==> !excl(v.value[k])
    ensures v.Some? ==> exists y: nat :: lo <= y <= x && y < |s| && !excl(s[y]) &&
                                   v.value == s[y..SkipWhile(s, y, Outside(excl))] &&
                                   forall k :: y < k <= x && k < |s| ==> excl(s[k])
    ensures v.None? ==> forall k :: lo <= k <= x && k < |s| ==> excl(s[k])
    decreases x
  {
    if x < |s| && !excl(s[x]) then
      var e := SkipWhile(s, x, Outside(excl));
      assert e == SkipWhile(s, x + 1, Outside(excl));
      Some(s[x..e])
    else if x == lo then None
    else BackOff(s, lo, x - 1, excl)
  }

  /** What the pattern yields when it is tried at `j`. */
  function ClassAttempt(s: String, key: String, space: char -> bool, excl: char -> bool, j: nat): Option<String> {
    if OccursAtCi(s, key, j) then BackOff(s, j + |key|, SkipWhile(s, j + |key|, space), excl) else None
  }

  /** The leftmost match at or after `i`: the first position whose attempt succeeds. */
  function ClassFieldFrom(s: String, key: String, space: char -> bool, excl: char -> bool, i: nat): (v: Option<String>)
    ensures v.Some? ==> |v.value| > 0 && forall k :: 0 <= k < |v.value| ==> !excl(v.value[k])
    decreases |s| - i
  {
    match IndexOfCiFrom(s, key, i)
    case None => None
    case Some(j) =>
      var attempt := ClassAttempt(s, key, space, excl, j);
      if attempt.Some? then attempt else ClassFieldFrom(s, key, space, excl, j + 1)
  }

  /** The match found is what the first successful attempt at or after `i` yields; without one there is no match. */
  lemma {:induction false} ClassFieldFromLeftmost(s: String, key: String, space: char -> bool, excl: char -> bool, i: nat)
    ensures var v := ClassFieldFrom(s, key, space, excl, i);
      v.Some? ==> exists j: nat :: i <= j && ClassAttempt(s, key, space, excl, j) == v &&
                                   forall k: nat :: i <= k < j ==> ClassAttempt(s, key, space, excl, k).None?
    ensures ClassFieldFrom(s, key, space, excl, i).None? ==> forall j: nat :: i <= j ==> ClassAttempt(s, key, space, excl, j).None?
    decreases |s| - i
  {
    match IndexOfCiFrom(s, key, i)
    case None =>
      forall j: nat | i <= j
        ensures ClassAttempt(s, key, space, excl, j).None?
      {
        assert !OccursAtCi(s, key, j);
      }
    case Some(j) =>
      forall k: nat | i <= k < j
        ensures ClassAttempt(s, key, space, excl, k).None?
      {
        assert !OccursAtCi(s, key, k);
      }
      if ClassAttempt(s, key, space, excl, j).None? {
        ClassFieldFromLeftmost(s, key, space, excl, j + 1);
      }
  }

  // ---------------------------------------------------------------------------
  // ([a-zA-Z0-9._%+-]+@[a-zA-Z0-9.-]+\.[a-zA-Z]{2,})

  predicate LocalChar(c: char) { IsLetter(c) || IsDigit(c) || c == '.' || c == '_' || c == '%' || c == '+' || c == '-' }
  predicate DomainChar(c: char) { IsLetter(c) || IsDigit(c) || c == '.' || c == '-' }

  predicate TldAt(s: String, k: nat) {
    k + 2 < |s| && s[k] == '.' && IsLetter(s[k + 1]) && IsLetter(s[k + 2])
  }

  /** The largest `k` in `[lo, hi]` where `\.[a-zA-Z]{2,}` can start. */
  function LastTld(s: String, lo: nat, hi: nat): (k: Option<nat>)
    ensures k.Some? ==> lo <= k.value <= hi && TldAt(s, k.value)
    ensures k.Some? ==> forall j: nat :: k.value < j <= hi ==> !TldAt(s, j)
    ensures k.None? ==> forall j: nat :: lo <= j <= hi ==> !TldAt(s, j)
    decreases hi
  {
    if hi < lo then None
    else if TldAt(s, hi) then Some(hi)
    else if hi == lo then None
    else LastTld(s, lo, hi - 1)
  }

  /**
   * The address pattern matches from `p` with the '@' at `q` and the dot of the
   * top-level domain at `k`: local characters, '@', at least one domain
   * character, then '.' and two letters.
   */
  predicate AddressAt(s: String, p: nat, q: nat, k: nat) {
    p < q < |s| && (forall m :: p <= m < q ==> LocalChar(s[m])) && s[q] == '@' &&
    q + 2 <= k && TldAt(s, k) && forall m :: q < m < k ==> DomainChar(s[m])
  }

  /** The end of an address match that starts at `p`: the greedy domain run gives back to the last top-level domain. */
  function AddressEndAt(s: String, p: nat): (e: Option<nat>)
    requires p <= |s|
    ensures e.Some? ==> p < e.value <= |s| && '@' in s[p..e.value]
  {
    var q := SkipWhile(s, p, LocalChar);
    if q == p || q >= |s| || s[q] != '@' then None
    else
      var r := SkipWhile(s, q + 1, DomainChar);
      if r < q + 3 then None
      else
        match LastTld(s, q + 2, r - 1)
        case None => None
        case Some(k) =>
          assert s[p..SkipWhile(s, k + 1, IsLetter)][q - p] == '@';
          Some(SkipWhile(s, k + 1, IsLetter))
  }

  /**
   * The pattern matches at `p` exactly when the scanner finds an end there;
   * the end follows the letters after the last top-level domain dot the match can use.
   */
  lemma AddressEndAtMatch(s: String, p: nat)
    requires p <= |s|
    ensures var e := AddressEndAt(s, p);
      e.Some? ==> exists q: nat, k: nat :: AddressAt(s, p, q, k) && e.value == SkipWhile(s, k + 1, IsLetter) &&
                                          forall k': nat :: AddressAt(s, p, q, k') ==> k' <= k
    ensures AddressEndAt(s, p).None? ==> forall q: nat, k: nat :: !AddressAt(s, p, q, k)
  {
    AddressEndAtFound(s, p);
    AddressEndAtNone(s, p);
  }

  /** An end found at `p` comes from the match there with the last top-level domain. */
  lemma AddressEndAtFound(s: String, p: nat)
    requires p <= |s|
    ensures var e := AddressEndAt(s, p);
      e.Some? ==> exists q: nat, k: nat :: AddressAt(s, p, q, k) && e.value == SkipWhile(s, k + 1, IsLetter) &&
                                          forall k': nat :: AddressAt(s, p, q, k') ==> k' <= k
  {
    var q := SkipWhile(s, p, LocalChar);
    AddressNeedsLocalRun(s, p, q);
    if q != p && q < |s| && s[q] == '@' {
      var r := SkipWhile(s, q + 1, DomainChar);
      AddressNeedsDomainRun(s, p, q, r);
      if r >= q + 3 {
        match LastTld(s, q + 2, r - 1)
        case None =>
        case Some(k) =>
          assert AddressAt(s, p, q, k);
      }
    }
  }

  /** No end at `p` means no match starts there. */
  lemma AddressEndAtNone(s: String, p: nat)
    requires p <= |s|
    ensures AddressEndAt(s, p).None? ==> forall q: nat, k: nat :: !AddressAt(s, p, q, k)
  {
    var q := SkipWhile(s, p, LocalChar);
    AddressNeedsLocalRun(s, p, q);
    if q != p && q < |s| && s[q] == '@' {
      var r := SkipWhile(s, q + 1, DomainChar);
      AddressNeedsDomainRun(s, p, q, r);
    }
  }

  /** Any match from `p` has its '@' where the run of local characters ends. */
  lemma AddressNeedsLocalRun(s: String, p: nat, q: nat)
    requires p <= |s| && q == SkipWhile(s, p, LocalChar)
    ensures forall q': nat, k: nat :: AddressAt(s, p, q', k) ==> q' == q
  {
    forall q': nat, k: nat | AddressAt(s, p, q', k)
      ensures q' == q
    {
      assert q < |s| ==> !LocalChar(s[q]);
      assert !LocalChar(s[q']);
    }
  }

  /** Any match from `p` with its '@' at `q` has its top-level domain inside the domain run after `q`. */
  lemma AddressNeedsDomainRun(s: String, p: nat, q: nat, r: nat)
    requires p <= |s| && q == SkipWhile(s, p, LocalChar)
    requires q < |s| && r == SkipWhile(s, q + 1, DomainChar)
    ensures forall q': nat, k: nat :: AddressAt(s, p, q', k) ==> q' == q && q + 2 <= k <= r - 1
  {
    AddressNeedsLocalRun(s, p, q);
    forall q': nat, k: nat | AddressAt(s, p, q', k)
      ensures q + 2 <= k <= r - 1
    {
      assert r == k ==> DomainChar(s[k]);
      assert r < |s| ==> !DomainChar(s[r]);
    }
  }

  /** The text of the leftmost address match at or after `p`. */
  function AddressFrom(s: String, p: nat): (a: Option<String>)
    requires p <= |s|
    ensures a.Some? ==> '@' in a.value
    ensures a.Some? ==> exists t: nat :: p <= t <= |s| && AddressEndAt(s, t).Some? && a.value == s[t..AddressEndAt(s, t).value] &&
                                   forall u: nat :: p <= u < t ==> AddressEndAt(s, u).None?
    ensures a.None? ==> forall t: nat :: p <= t <= |s| ==> AddressEndAt(s, t).None?
    decreases |s| - p
  {
    if p == |s| then None
    else match AddressEndAt(s, p)
      case Some(e) => Some(s[p..e])
      case None => AddressFrom(s, p + 1)
  }

  /** The first bare address in the text, as `match` without the `g` flag finds it. */
  function FirstAddress(s: String): (a: Option<String>)
    ensures a.Some? ==> '@' in a.value
    ensures a.Some? ==> exists t: nat :: t <= |s| && AddressEndAt(s, t).Some? && a.value == s[t..AddressEndAt(s, t).value] &&
                                   forall u: nat :: u < t ==> AddressEndAt(s, u).None?
    ensures a.None? ==> forall t: nat :: t <= |s| ==> AddressEndAt(s, t).None?
  {
    AddressFrom(s, 0)
  }

  // ---------------------------------------------------------------------------
  // ^\s*"?([^"]*?)"?\s*<([^>]+)>
  // The optional opening quote is taken when present; the lazy group then
  // grows one character at a time, never past the next '"', until the rest of
  // the pattern matches. Giving back the opening quote or leading whitespace
  // never produces a match the first choice missed.

  /** `"?\s*<([^>]+)>` at `g`: the captured address. */
  function AngleAddressAt(s: String, g: nat): (a: Option<String>)
    requires g <= |s|
    ensures a.Some? ==> |a.value| > 0 && '>' !in a.value
  {
    var h := if g < |s| && s[g] == '"' then g + 1 else g;
    var lt := SkipWhile(s, h, IsJsSpace);
    if lt < |s| && s[lt] == '<' then
      var m := FindChar(s, lt + 1, '>');
      if lt + 1 < m < |s| then Some(s[lt + 1..m]) else None
    else None
  }

  function NameSearch(s: String, g0: nat, g1: nat, limit: nat): (r: Option<(String, String)>)
    requires g0 <= g1 <= limit <= |s|
    requires forall k :: g0 <= k < limit ==> s[k] != '"'
    ensures r.Some? ==> '"' !in r.value.0 && |r.value.1| > 0 && '>' !in r.value.1
    decreases limit - g1
  {
    match AngleAddressAt(s, g1)
    case Some(a) => Some((s[g0..g1], a))
    case None => if g1 == limit then None else NameSearch(s, g0, g1 + 1, limit)
  }

  /** The display name and the address of a `"Name" <addr>` sender, if the text has that shape. */
  function NameAndAddress(s: String): (r: Option<(String, String)>)
    ensures r.Some? ==> '"' !in r.value.0 && |r.value.1| > 0 && '>' !in r.value.1
  {
    var w0 := SkipWhile(s, 0, IsJsSpace);
    var g0 := if w0 < |s| && s[w0] == '"' then w0 + 1 else w0;
    NameSearch(s, g0, g0, FindChar(s, g0, '"'))
  }

  // ---------------------------------------------------------------------------
  // <[^>]+>  and  \([^)]*\)  removed globally

  /** Removes, left to right, every `open`, at least `minInner` characters other than `close`, then `close`. */
  function RemoveBracketed(s: String, open: char, close: char, minInner: nat): (r: String)
    requires open != close
    ensures |r| <= |s|
    ensures open !in s ==> r == s
    decreases |s|
  {
    if s == [] then []
    else if s[0] == open then
      var m := FindChar(s, 1, close);
      if 1 + minInner <= m < |s| then RemoveBracketed(s[m + 1..], open, close, minInner)
      else [s[0]] + RemoveBracketed(s[1..], open, close, minInner)
    else
      assert open !in s ==> open !in s[1..];
      [s[0]] + RemoveBracketed(s[1..], open, close, minInner)
  }

  /** A text without the opening bracket passes through unchanged, whatever follows it. */
  lemma {:induction false} RemoveBracketedKeepsPrefix(a: String, b: String, open: char, close: char, minInner: nat)
    requires open != close && open !in a
    ensures RemoveBracketed(a + b, open, close, minInner) == a + RemoveBracketed(b, open, close, minInner)
    decreases |a|
  {
    if a != [] {
      assert (a + b)[0] == a[0] && (a + b)[1..] == a[1..] + b;
      RemoveBracketedKeepsPrefix(a[1..], b, open, close, minInner);
    } else {
      assert a + b == b;
    }
  }

  /** A bracketed span with at least `minInner` characters and no closing bracket inside is removed whole. */
  lemma RemoveBracketedDropsSpan(inner: String, b: String, open: char, close: char, minInner: nat)
    requires open != close && close !in inner && |inner| >= minInner
    ensures RemoveBracketed([open] + inner + [close] + b, open, close, minInner) == RemoveBracketed(b, open, close, minInner)
  {
    var s := [open] + inner + [close] + b;
    var m := FindChar(s, 1, close);
    assert s[1 + |inner|] == close;
    forall k | 1 <= k < 1 + |inner| ensures s[k] != close {
      assert s[k] == inner[k - 1];
    }
    assert m == 1 + |inner|;
    assert s[m + 1..] == b;
  }

  /** An opening bracket whose first closing bracket is missing, or comes before `minInner` characters, stays. */
  lemma RemoveBracketedKeepsUnmatched(t: String, open: char, close: char, minInner: nat)
    requires open != close
    requires close in t ==> close in Prefix(t, minInner)
    ensures RemoveBracketed([open] + t, open, close, minInner) == [open] + RemoveBracketed(t, open, close, minInner)
  {
    var s := [open] + t;
    var m := FindChar(s, 1, close);
    assert s[1..] == t;
    if close in t {
      var k :| 0 <= k < |Prefix(t, minInner)| && Prefix(t, minInner)[k] == close;
      assert s[k + 1] == close;
      assert m <= k + 1;
    } else {
      assert forall k :: 1 <= k < |s| ==> s[k] == t[k - 1];
    }
  }

  /** `replace(/<[^>]+>/g, '')` (also Python's `re.sub(r'<[^>]+>', '', …)`). */
  function RemoveAngles(s: String): String {
    RemoveBracketed(s, '<', '>', 1)
  }

  /** `replace(/\([^)]*\)/g, '')`. */
  function RemoveParens(s: String): String {
    RemoveBracketed(s, '(', ')', 0)
  }

  /** An `<address>` at the end is removed and the text before it, free of '<', kept. */
  lemma AnglesDropped(front: String, address: String)
    requires '<' !in front && |address| > 0 && '>' !in address
    ensures RemoveAngles(front + "<" + address + ">") == front
  {
    assert front + "<" + address + ">" == front + (['<'] + address + ['>'] + []);
    RemoveBracketedKeepsPrefix(front, ['<'] + address + ['>'] + [], '<', '>', 1);
    RemoveBracketedDropsSpan(address, [], '<', '>', 1);
  }

  /** A `(comment)` at the end is removed and the text before it, free of '(', kept. */
  lemma ParensDropped(front: String, comment: String)
    requires '(' !in front && ')' !in comment
    ensures RemoveParens(front + "(" + comment + ")") == front
  {
    assert front + "(" + comment + ")" == front + (['('] + comment + [')'] + []);
    RemoveBracketedKeepsPrefix(front, ['('] + comment + [')'] + [], '(', ')', 0);
    RemoveBracketedDropsSpan(comment, [], '(', ')', 0);
  }

  // ---------------------------------------------------------------------------
  // Header/body split:  split(/\r?\n\r?\n/)

  /** `\r?\n` at `i`. */
  function NewlineEnd(s: String, i: nat): (e: Option<nat>)
    ensures e.Some? ==> i < e.value <= |s|
  {
    if i < |s| && s[i] == '\n' then Some(i + 1)
    else if i + 1 < |s| && s[i] == '\r' && s[i + 1] == '\n' then Some(i + 2)
    else None
  }

  /** `\r?\n\r?\n` at `i`: its end. */
  function BlankLineEnd(s: String, i: nat): (e: Option<nat>)
    ensures e.Some? ==> i + 2 <= e.value <= |s|
  {
    match NewlineEnd(s, i)
    case None => None
    case Some(j) => NewlineEnd(s, j)
  }

  /** The first blank-line separator at or after `i`, as (start, end). */
  function FirstBlankLine(s: String, i: nat): (r: Option<(nat, nat)>)
    ensures r.Some? ==> i <= r.value.0 && BlankLineEnd(s, r.value.0) == Some(r.value.1)
    ensures r.Some? ==> forall k :: i <= k < r.value.0 ==> BlankLineEnd(s, k).None?
    decreases |s| - i
  {
    if i >= |s| then None
    else match BlankLineEnd(s, i)
      case Some(e) => Some((i, e))
      case None => FirstBlankLine(s, i + 1)
  }

  /** The pieces of `split(/\r?\n\r?\n/)`. */
  function SplitBlankLines(s: String): (parts: seq<String>)
    ensures |parts| >= 1 && parts[0] <= s
    ensures FirstBlankLine(s, 0).None? <==> parts == [s]
    decreases |s|
  {
    match FirstBlankLine(s, 0)
    case None => [s]
    case Some((i, e)) => [s[..i]] + SplitBlankLines(s[e..])
  }

  // ---------------------------------------------------------------------------
  // Body cleanup

  /** `replace(/\r\n/g, '\n')`. */
  function NormalizeCrLf(s: String): (r: String)
    ensures |s| > 0 ==> |r| > 0
  {
    ReplaceAll(s, "\r\n", "\n")
  }

  /** A text without carriage returns is left as it is. */
  lemma {:induction false} NormalizeCrLfNoCr(s: String)
    requires '\r' !in s
    ensures NormalizeCrLf(s) == s
    decreases |s|
  {
    if |s| >= 2 {
      assert s[..2] != "\r\n" by { assert s[0] != '\r'; }
      assert '\r' !in s[1..];
      NormalizeCrLfNoCr(s[1..]);
    }
  }

  /**
   * Normalising works piece by piece as long as the cut does not split a
   * CRLF pair: a lone carriage return is kept and each pair becomes one line feed.
   */
  lemma {:induction false} NormalizeCrLfAppend(a: String, b: String)
    requires !(|a| > 0 && a[|a| - 1] == '\r' && |b| > 0 && b[0] == '\n')
    ensures NormalizeCrLf(a + b) == NormalizeCrLf(a) + NormalizeCrLf(b)
    decreases |a|
  {
    var s := a + b;
    if a == [] {
      assert s == b;
    } else if |s| < 2 {
      assert b == [] && s == a;
    } else if s[..2] == "\r\n" {
      assert |a| >= 2 && a[..2] == "\r\n" by {
        assert s[0] == a[0] && a[0] == '\r';
        assert forall k :: 0 <= k < |b| ==> s[|a| + k] == b[k];
      }
      NormalizeCrLfAppend(a[2..], b);
      NormalizeCrLfAppendPair(a, b);
    } else {
      assert |a| >= 2 ==> a[..2] == s[..2];
      NormalizeCrLfAppend(a[1..], b);
      NormalizeCrLfAppendChar(a, b);
    }
  }

  /** The step of the above when `a` opens with a CRLF pair. */
  lemma NormalizeCrLfAppendPair(a: String, b: String)
    requires |a| >= 2 && a[..2] == "\r\n"
    requires NormalizeCrLf(a[2..] + b) == NormalizeCrLf(a[2..]) + NormalizeCrLf(b)
    ensures NormalizeCrLf(a + b) == NormalizeCrLf(a) + NormalizeCrLf(b)
  {
    NormalizeCrLfPairThen(a, b);
    NormalizeCrLfPairStep(a);
    var x, y := NormalizeCrLf(a[2..]), NormalizeCrLf(b);
    assert "\n" + (x + y) == ("\n" + x) + y;
  }

  /** A CRLF pair that opens `a` still opens `a + b`. */
  lemma NormalizeCrLfPairThen(a: String, b: String)
    requires |a| >= 2 && a[..2] == "\r\n"
    ensures NormalizeCrLf(a + b) == "\n" + NormalizeCrLf(a[2..] + b)
  {
    var s := a + b;
    assert s[0] == a[0] && s[1] == a[1];
    assert s[2..] == a[2..] + b;
    NormalizeCrLfPairStep(s);
  }

  /** The step of the above when `a` opens with any other character. */
  lemma NormalizeCrLfAppendChar(a: String, b: String)
    requires |a| >= 1 && (|a| >= 2 ==> a[..2] != "\r\n")
    requires !(a[|a| - 1] == '\r' && |b| > 0 && b[0] == '\n')
    requires NormalizeCrLf(a[1..] + b) == NormalizeCrLf(a[1..]) + NormalizeCrLf(b)
    ensures NormalizeCrLf(a + b) == NormalizeCrLf(a) + NormalizeCrLf(b)
  {
    NormalizeCrLfCharThen(a, b);
    NormalizeCrLfCharStep(a);
    var x, y := NormalizeCrLf(a[1..]), NormalizeCrLf(b);
    assert [a[0]] + (x + y) == ([a[0]] + x) + y;
  }

  /** A first character of `a` that opens no CRLF pair still opens none in `a + b`. */
  lemma NormalizeCrLfCharThen(a: String, b: String)
    requires |a| >= 1 && (|a| >= 2 ==> a[..2] != "\r\n")
    requires !(a[|a| - 1] == '\r' && |b| > 0 && b[0] == '\n')
    ensures NormalizeCrLf(a + b) == [a[0]] + NormalizeCrLf(a[1..] + b)
  {
    var s := a + b;
    assert s[0] == a[0];
    assert s[1..] == a[1..] + b;
    assert |s| >= 2 ==> s[..2] != "\r\n" by {
      if |a| >= 2 {
        assert s[..2] == a[..2];
      } else if |b| > 0 {
        assert s[1] == b[0];
      }
    }
    NormalizeCrLfCharStep(s);
  }

  /** A CRLF pair in front becomes one line feed. */
  lemma NormalizeCrLfPairStep(s: String)
    requires |s| >= 2 && s[..2] == "\r\n"
    ensures NormalizeCrLf(s) == "\n" + NormalizeCrLf(s[2..])
  {
  }

  /** Any other first character is kept. */
  lemma NormalizeCrLfCharStep(s: String)
    requires |s| >= 1 && (|s| >= 2 ==> s[..2] != "\r\n")
    ensures NormalizeCrLf(s) == [s[0]] + NormalizeCrLf(s[1..])
  {
    if |s| == 1 {
      assert s[1..] == [];
    }
  }

  /** Every CRLF pair becomes a single line feed, with the text on both sides normalised on its own. */
  lemma NormalizeCrLfPair(a: String, b: String)
    ensures NormalizeCrLf(a + "\r\n" + b) == NormalizeCrLf(a) + "\n" + NormalizeCrLf(b)
  {
    assert a + "\r\n" + b == a + ("\r\n" + b);
    NormalizeCrLfAppend(a, "\r\n" + b);
    var t := "\r\n" + b;
    assert t[..2] == "\r\n" && t[2..] == b;
  }

  /** A carriage return not followed by a line feed is kept. */
  lemma NormalizeCrLfLoneCr(b: String)
    requires |b| == 0 || b[0] != '\n'
    ensures NormalizeCrLf("\r" + b) == "\r" + NormalizeCrLf(b)
  {
    var t := "\r" + b;
    assert |t| >= 2 ==> t[1] == b[0] && t[..2] != "\r\n";
    assert t[1..] == b;
  }

  /**
   * `replace(/^>.*$/gm, '')`: a line that starts with '>' loses everything up
   * to its line terminator. `atStart` tells whether `s` begins at a line start.
   */
  function StripQuotedFrom(s: String, atStart: bool): (r: String)
    ensures |r| <= |s|
    ensures atStart && |r| > 0 ==> r[0] != '>'
    ensures forall i :: 0 < i < |r| && IsLineTerminator(r[i - 1]) ==> r[i] != '>'
    ensures |r| > 0 && !(atStart && s[0] == '>') ==> r[0] == s[0]
    decreases |s|
  {
    if s == [] then []
    else if atStart && s[0] == '>' then
      var e := SkipWhile(s, 0, Outside(IsLineTerminator));
      assert !IsLineTerminator(s[0]);
      assert Outside(IsLineTerminator)(s[0]);
      StripQuotedFrom(s[e..], false)
    else
      var rest := StripQuotedFrom(s[1..], IsLineTerminator(s[0]));
      assert forall i :: 1 <= i <= |rest| ==> ([s[0]] + rest)[i] == rest[i - 1];
      [s[0]] + rest
  }

  /** What blanking leaves of a line: nothing when it starts with '>', otherwise the whole line. */
  function UnquotedLine(line: String): String {
    if |line| > 0 && line[0] == '>' then [] else line
  }

  predicate NoLineTerminator(s: String) {
    forall k :: 0 <= k < |s| ==> !IsLineTerminator(s[k])
  }

  /** Inside a line, after its first character, nothing is removed. */
  lemma {:induction false} StripQuotedKeepsRest(line: String, b: String)
    requires NoLineTerminator(line)
    ensures StripQuotedFrom(line + b, false) == line + StripQuotedFrom(b, false)
    decreases |line|
  {
    if line == [] {
      assert line + b == b;
    } else {
      var s := line + b;
      assert s[0] == line[0] && !IsLineTerminator(line[0]);
      assert s[1..] == line[1..] + b;
      assert StripQuotedFrom(s, false) == [line[0]] + StripQuotedFrom(line[1..] + b, false);
      StripQuotedKeepsRest(line[1..], b);
      assert [line[0]] + (line[1..] + StripQuotedFrom(b, false)) == line + StripQuotedFrom(b, false);
    }
  }

  /** A line followed by its terminator: a quoted line is emptied, any other line kept, and the terminator kept. */
  lemma StripQuotedLine(line: String, t: char, rest: String)
    requires NoLineTerminator(line) && IsLineTerminator(t)
    ensures StripQuotedFrom(line + [t] + rest, true) == UnquotedLine(line) + [t] + StripQuotedFrom(rest, true)
  {
    var s := line + [t] + rest;
    if line == [] {
      assert s == [t] + rest;
      assert s[1..] == rest;
    } else if line[0] == '>' {
      var e := SkipWhile(s, 0, Outside(IsLineTerminator));
      assert s[|line|] == t;
      assert forall k :: 0 <= k < |line| ==> s[k] == line[k];
      assert e == |line|;
      assert s[e..] == [t] + rest;
      assert ([t] + rest)[1..] == rest;
    } else {
      assert s[1..] == line[1..] + ([t] + rest);
      StripQuotedKeepsRest(line[1..], [t] + rest);
      assert ([t] + rest)[1..] == rest;
      assert [line[0]] + line[1..] == line;
    }
  }

  /** The last line, without a terminator, is emptied when quoted and kept otherwise. */
  lemma StripQuotedLastLine(line: String)
    requires NoLineTerminator(line)
    ensures StripQuotedFrom(line, true) == UnquotedLine(line)
  {
    if line != [] {
      if line[0] == '>' {
        var e := SkipWhile(line, 0, Outside(IsLineTerminator));
        assert e == |line|;
      } else {
        StripQuotedKeepsRest(line[1..], []);
        assert line[1..] + [] == line[1..];
      }
    }
  }

  /** A text with no quoted line is left as it is. */
  lemma {:induction false} StripQuotedNone(s: String, atStart: bool)
    requires atStart && |s| > 0 ==> s[0] != '>'
    requires forall i :: 0 < i < |s| && IsLineTerminator(s[i - 1]) ==> s[i] != '>'
    ensures StripQuotedFrom(s, atStart) == s
    decreases |s|
  {
    if s != [] {
      StripQuotedNone(s[1..], IsLineTerminator(s[0]));
      assert [s[0]] + s[1..] == s;
    }
  }

  function StripQuotedLines(s: String): (r: String)
    ensures forall i :: 0 <= i < |r| && AtLineStart(r, i) ==> r[i] != '>'
    ensures |s| > 0 && s[0] != '>' ==> |r| > 0 && r[0] == s[0]
  {
    var r := StripQuotedFrom(s, true);
    assert |r| > 0 ==> r[0] != '>';
    assert forall i :: 0 < i < |r| && IsLineTerminator(r[i - 1]) ==> r[i] != '>';
    r
  }

  predicate IsNewline(c: char) { c == '\n' }

  /** `replace(/\n{3,}/g, '\n\n')`. */
  function CollapseBlankRuns(s: String): (r: String)
    ensures |r| <= |s|
    ensures forall i :: 0 <= i < |r| - 2 ==> !(r[i] == '\n' && r[i + 1] == '\n' && r[i + 2] == '\n')
    ensures |r| > 0 && r[0] == '\n' ==> |s| > 0 && s[0] == '\n'
    decreases |s|
  {
    if s == [] then []
    else if s[0] == '\n' then
      var n := SkipWhile(s, 0, IsNewline);
      (if n >= 3 then "\n\n" else s[..n]) + CollapseBlankRuns(s[n..])
    else [s[0]] + CollapseBlankRuns(s[1..])
  }

  /** Only line feeds are removed: every other character is kept, in order. */
  lemma {:induction false} CollapseBlankRunsKeepsText(s: String)
    ensures Filter(CollapseBlankRuns(s), Outside(IsNewline)) == Filter(s, Outside(IsNewline))
    decreases |s|
  {
    if s != [] {
      if s[0] == '\n' {
        var n := SkipWhile(s, 0, IsNewline);
        var head := if n >= 3 then "\n\n" else s[..n];
        CollapseBlankRunsKeepsText(s[n..]);
        NewlinesKeepText(head, s, n, CollapseBlankRuns(s[n..]));
      } else {
        CollapseBlankRunsKeepsText(s[1..]);
        CollapseCharKeepsText(s);
      }
    }
  }

  /** Line feeds in front of text with the same other characters as the rest of `s` after its leading line feeds. */
  lemma NewlinesKeepText(head: String, s: String, n: nat, rest: String)
    requires n <= |s| && forall i :: 0 <= i < n ==> s[i] == '\n'
    requires forall i :: 0 <= i < |head| ==> head[i] == '\n'
    requires Filter(rest, Outside(IsNewline)) == Filter(s[n..], Outside(IsNewline))
    ensures Filter(head + rest, Outside(IsNewline)) == Filter(s, Outside(IsNewline))
  {
    NewlinesFiltered(head);
    NewlinesFiltered(s[..n]);
    FilterHeads(head, s[..n], rest, s[n..], Outside(IsNewline));
    assert s[..n] + s[n..] == s;
  }

  /** The step over any other character keeps it when the rest of the text keeps the others. */
  lemma CollapseCharKeepsText(s: String)
    requires s != [] && s[0] != '\n'
    requires Filter(CollapseBlankRuns(s[1..]), Outside(IsNewline)) == Filter(s[1..], Outside(IsNewline))
    ensures Filter(CollapseBlankRuns(s), Outside(IsNewline)) == Filter(s, Outside(IsNewline))
  {
    assert CollapseBlankRuns(s) == [s[0]] + CollapseBlankRuns(s[1..]);
    FilterHeads([s[0]], [s[0]], CollapseBlankRuns(s[1..]), s[1..], Outside(IsNewline));
    assert [s[0]] + s[1..] == s;
  }

  /** A run of line feeds leaves nothing through the filter. */
  lemma NewlinesFiltered(h: String)
    requires forall i :: 0 <= i < |h| ==> h[i] == '\n'
    ensures Filter(h, Outside(IsNewline)) == []
  {
    FilterNone(h, Outside(IsNewline));
  }

  /** A text without three line feeds in a row is left as it is. */
  lemma {:induction false} CollapseBlankRunsFixed(s: String)
    requires forall i :: 0 <= i < |s| - 2 ==> !(s[i] == '\n' && s[i + 1] == '\n' && s[i + 2] == '\n')
    ensures CollapseBlankRuns(s) == s
    decreases |s|
  {
    if s != [] {
      var n := if s[0] == '\n' then SkipWhile(s, 0, IsNewline) else 1;
      assert 0 < n < 3 by {
        assert s[0] == '\n' && n >= 3 ==> IsNewline(s[1]) && IsNewline(s[2]);
      }
      var t := s[n..];
      forall i | 0 <= i < |t| - 2 ensures !(t[i] == '\n' && t[i + 1] == '\n' && t[i + 2] == '\n') {
        assert t[i] == s[n + i] && t[i + 1] == s[n + i + 1] && t[i + 2] == s[n + i + 2];
      }
      CollapseBlankRunsFixed(t);
      assert s[..n] + t == s;
    }
  }

  // ---------------------------------------------------------------------------
  // Python patterns of the backend fast search

  /** `Hi [^,]+,\s*([^\n]+) would like to connect`: the captured name. */
  const ConnectTail: String := " would like to connect"

  /** The largest `y` in `(x, hi]` with the tail phrase at `y`. */
  function LastTail(s: String, x: nat, hi: nat): (y: Option<nat>)
    ensures y.Some? ==> x < y.value <= hi && OccursAt(s, ConnectTail, y.value)
    ensures y.Some? ==> forall t: nat :: y.value < t <= hi ==> !OccursAt(s, ConnectTail, t)
    ensures y.None? ==> forall t: nat :: x < t <= hi ==> !OccursAt(s, ConnectTail, t)
    decreases hi
  {
    if hi <= x then None
    else if OccursAt(s, ConnectTail, hi) then Some(hi)
    else LastTail(s, x, hi - 1)
  }

  /** `([^\n]+) would like to connect` matches from `y` with the group ending at `t`. */
  predicate NameAt(s: String, y: nat, t: nat) {
    y < t && OccursAt(s, ConnectTail, t) && forall k :: y <= k < t ==> s[k] != '\n'
  }

  /** Where the greedy group ends when the name starts at `y`: the last tail phrase before the line ends. */
  function NameEndAt(s: String, y: nat): (t: Option<nat>)
    ensures t.Some? ==> NameAt(s, y, t.value) && forall t': nat :: NameAt(s, y, t') ==> t' <= t.value
    ensures t.None? ==> forall t': nat :: !NameAt(s, y, t')
  {
    if y < |s| && s[y] != '\n' then
      var n := FindChar(s, y, '\n');
      forall t': nat | NameAt(s, y, t') ensures t' <= n {
        assert n < |s| ==> s[n] == '\n';
      }
      LastTail(s, y, n)
    else None
  }

  /** The group when `\s*` may end anywhere from `x` down to `lo`: the largest end where a name follows. */
  function ConnectNameBack(s: String, lo: nat, x: nat): (g: Option<String>)
    requires lo <= x <= |s|
    ensures g.Some? ==> |g.value| > 0 && '\n' !in g.value
    decreases x
  {
    match NameEndAt(s, x)
    case Some(t) =>
      assert forall k :: 0 <= k < |s[x..t]| ==> s[x..t][k] == s[x + k];
      Some(s[x..t])
    case None => if x == lo then None else ConnectNameBack(s, lo, x - 1)
  }

  /** The group starts at the largest white space end from which a name can follow; when there is none, nothing matches. */
  lemma {:induction false} ConnectNameBackLargest(s: String, lo: nat, x: nat)
    requires lo <= x <= |s|
    ensures var g := ConnectNameBack(s, lo, x);
      g.Some? ==> exists y: nat :: lo <= y <= x && NameEndAt(s, y).Some? && g.value == s[y..NameEndAt(s, y).value] &&
                                   forall y': nat :: y < y' <= x ==> NameEndAt(s, y').None?
    ensures ConnectNameBack(s, lo, x).None? ==> forall y: nat :: lo <= y <= x ==> NameEndAt(s, y).None?
    decreases x
  {
    if NameEndAt(s, x).None? && x > lo {
      ConnectNameBackLargest(s, lo, x - 1);
    }
  }

  /** What the pattern yields when it is tried at `h`: `[^,]+` runs to the first ',' after `Hi `. */
  function ConnectAttempt(s: String, h: nat): Option<String> {
    if OccursAt(s, "Hi ", h) then
      var c := FindChar(s, h + 3, ',');
      if h + 3 < c < |s| then ConnectNameBack(s, c + 1, SkipWhile(s, c + 1, IsPySpace)) else None
    else None
  }

  /** `re.search`: the leftmost position at or after `p` whose attempt succeeds. */
  function ConnectNameFrom(s: String, p: nat): (g: Option<String>)
    ensures g.Some? ==> |g.value| > 0 && '\n' !in g.value
  {
    match FirstSome(|s|, p, h => ConnectAttempt(s, h))
    case None => None
    case Some((_, g)) => Some(g)
  }

  /** The name found is what the first successful attempt at or after `p` yields; without one there is no name. */
  lemma ConnectNameFromLeftmost(s: String, p: nat)
    ensures var g := ConnectNameFrom(s, p);
      g.Some? ==> exists h: nat :: p <= h && ConnectAttempt(s, h) == g && forall k: nat :: p <= k < h ==> ConnectAttempt(s, k).None?
    ensures ConnectNameFrom(s, p).None? ==> forall h: nat :: p <= h ==> ConnectAttempt(s, h).None?
  {
    var attempt := h => ConnectAttempt(s, h);
    var r := FirstSome(|s|, p, attempt);
    match r
    case Some((h, g)) =>
      assert attempt(h) == ConnectAttempt(s, h) == Some(g);
      forall k: nat | p <= k < h
        ensures ConnectAttempt(s, k).None?
      {
        assert attempt(k).None?;
      }
    case None =>
      forall h: nat | p <= h
        ensures ConnectAttempt(s, h).None?
      {
        if h < |s| {
          assert attempt(h).None?;
        }
      }
  }

  /** `[^\n<]`: the characters the `From:` group excludes. */
  predicate PyFromStop(c: char) { c == '\n' || c == '<' }

  /** `From:\s*([^\n<]+)` with `re.IGNORECASE` and Python's `\s`. */
  function PyFromField(s: String): (v: Option<String>)
    ensures v.Some? ==> |v.value| > 0 && '\n' !in v.value && '<' !in v.value
  {
    var v := ClassFieldFrom(s, "from:", IsPySpace, PyFromStop, 0);
    assert v.Some? ==> forall k :: 0 <= k < |v.value| ==> !PyFromStop(v.value[k]);
    v
  }

  /** The `From:` value is what the first successful attempt yields, with Python's white space and `[^\n<]`; without one there is none. */
  lemma PyFromFieldLeftmost(s: String)
    ensures var v := PyFromField(s);
      v.Some? ==> exists j: nat :: ClassAttempt(s, "from:", IsPySpace, PyFromStop, j) == v &&
                                   forall k: nat :: k < j ==> ClassAttempt(s, "from:", IsPySpace, PyFromStop, k).None?
    ensures PyFromField(s).None? ==> forall j: nat :: ClassAttempt(s, "from:", IsPySpace, PyFromStop, j).None?
  {
    ClassFieldFromLeftmost(s, "from:", IsPySpace, PyFromStop, 0);
  }

  /** `[a-zA-Z0-9_.+-]+@[a-zA-Z0-9-]+\.[a-zA-Z0-9-.]+` as Python's `re.search`. */
  predicate PyLocalChar(c: char) { IsLetter(c) || IsDigit(c) || c == '_' || c == '.' || c == '+' || c == '-' }
  predicate PyHostChar(c: char) { IsLetter(c) || IsDigit(c) || c == '-' }
  predicate PyTailChar(c: char) { PyHostChar(c) || c == '.' }

  /** The pattern matches from `p` with the '@' at `q` and the first '.' after the host at `r`. */
  predicate PyAddressAt(s: String, p: nat, q: nat, r: nat) {
    p < q && q + 1 < r && r + 1 < |s| && (forall m :: p <= m < q ==> PyLocalChar(s[m])) && s[q] == '@' &&
    (forall m :: q < m < r ==> PyHostChar(s[m])) && s[r] == '.' && PyTailChar(s[r + 1])
  }

  /** The end of the match that starts at `p`: the tail run is greedy. */
  function PyAddressEndAt(s: String, p: nat): (e: Option<nat>)
    requires p <= |s|
    ensures e.Some? ==> p < e.value <= |s|
  {
    var q := SkipWhile(s, p, PyLocalChar);
    if q == p || q >= |s| || s[q] != '@' then None
    else
      var r := SkipWhile(s, q + 1, PyHostChar);
      if r == q + 1 || r >= |s| || s[r] != '.' then None
      else
        var e := SkipWhile(s, r + 1, PyTailChar);
        if e == r + 1 then None else Some(e)
  }

  /** The pattern matches at `p` exactly when the scanner finds an end there, and the match ends where the tail run ends. */
  lemma PyAddressEndAtMatch(s: String, p: nat)
    requires p <= |s|
    ensures var e := PyAddressEndAt(s, p);
      e.Some? ==> exists q: nat, r: nat :: PyAddressAt(s, p, q, r) && e.value == SkipWhile(s, r + 1, PyTailChar)
    ensures PyAddressEndAt(s, p).None? ==> forall q: nat, r: nat :: !PyAddressAt(s, p, q, r)
  {
    PyAddressEndAtFound(s, p);
    PyAddressEndAtNone(s, p);
  }

  /** An end found at `p` comes from a match there. */
  lemma PyAddressEndAtFound(s: String, p: nat)
    requires p <= |s|
    ensures var e := PyAddressEndAt(s, p);
      e.Some? ==> exists q: nat, r: nat :: PyAddressAt(s, p, q, r) && e.value == SkipWhile(s, r + 1, PyTailChar)
  {
    var q := SkipWhile(s, p, PyLocalChar);
    if q != p && q < |s| && s[q] == '@' {
      var r := SkipWhile(s, q + 1, PyHostChar);
      if r != q + 1 && r < |s| && s[r] == '.' {
        var e := SkipWhile(s, r + 1, PyTailChar);
        assert e != r + 1 ==> PyAddressAt(s, p, q, r);
      }
    }
  }

  /** No end at `p` means no match starts there. */
  lemma PyAddressEndAtNone(s: String, p: nat)
    requires p <= |s|
    ensures PyAddressEndAt(s, p).None? ==> forall q: nat, r: nat :: !PyAddressAt(s, p, q, r)
  {
    var q := SkipWhile(s, p, PyLocalChar);
    PyAddressNeedsRuns(s, p, q);
    if q != p && q < |s| && s[q] == '@' {
      var r := SkipWhile(s, q + 1, PyHostChar);
      PyAddressNeedsHost(s, p, q, r);
    }
  }

  /** Any match from `p` has its '@' where the run of local characters ends. */
  lemma PyAddressNeedsRuns(s: String, p: nat, q: nat)
    requires p <= |s| && q == SkipWhile(s, p, PyLocalChar)
    ensures forall q': nat, r: nat :: PyAddressAt(s, p, q', r) ==> q' == q
  {
    forall q': nat, r: nat | PyAddressAt(s, p, q', r)
      ensures q' == q
    {
      assert q < |s| ==> !PyLocalChar(s[q]);
      assert !PyLocalChar(s[q']);
    }
  }

  /** Any match with its '@' at `q` has its dot where the run of host characters ends. */
  lemma PyAddressNeedsHost(s: String, p: nat, q: nat, r: nat)
    requires q < |s| && r == SkipWhile(s, q + 1, PyHostChar)
    ensures forall r': nat :: PyAddressAt(s, p, q, r') ==> r' == r
  {
    forall r': nat | PyAddressAt(s, p, q, r')
      ensures r' == r
    {
      assert r < |s| ==> !PyHostChar(s[r]);
      assert !PyHostChar(s[r']);
    }
  }

  /** The leftmost match at or after `p`. */
  function PyAddressFrom(s: String, p: nat): (a: Option<String>)
    requires p <= |s|
    ensures a.Some? ==> |a.value| > 0
    decreases |s| - p
  {
    if p == |s| then None
    else match PyAddressEndAt(s, p)
      case Some(e) => Some(s[p..e])
      case None => PyAddressFrom(s, p + 1)
  }

  /** `re.search` returns the match of the first start position where the pattern matches, and None when it matches nowhere. */
  lemma PyAddressFromLeftmost(s: String, p: nat)
    requires p <= |s|
    ensures var a := PyAddressFrom(s, p);
      a.Some? ==> exists t: nat :: p <= t <= |s| && PyAddressEndAt(s, t).Some? && a.value == s[t..PyAddressEndAt(s, t).value] &&
                                   forall u: nat :: p <= u < t ==> PyAddressEndAt(s, u).None?
    ensures PyAddressFrom(s, p).None? ==> forall t: nat :: p <= t <= |s| ==> PyAddressEndAt(s, t).None?
  {
    PyAddressFromFound(s, p);
    PyAddressFromNowhere(s, p);
  }

  /** A found address is the match at the first start position where one starts. */
  lemma {:induction false} PyAddressFromFound(s: String, p: nat)
    requires p <= |s|
    ensures var a := PyAddressFrom(s, p);
      a.Some? ==> exists t: nat :: p <= t <= |s| && PyAddressEndAt(s, t).Some? && a.value == s[t..PyAddressEndAt(s, t).value] &&
                                   forall u: nat :: p <= u < t ==> PyAddressEndAt(s, u).None?
    decreases |s| - p
  {
    if p < |s| && PyAddressEndAt(s, p).None? {
      PyAddressFromFound(s, p + 1);
    }
  }

  /** No address is found only when no match starts anywhere at or after `p`. */
  lemma {:induction false} PyAddressFromNowhere(s: String, p: nat)
    requires p <= |s|
    ensures PyAddressFrom(s, p).None? ==> forall t: nat :: p <= t <= |s| ==> PyAddressEndAt(s, t).None?
    decreases |s| - p
  {
    if p < |s| && PyAddressEndAt(s, p).None? {
      PyAddressFromNowhere(s, p + 1);
    }
  }
}
