/**
 * The documents page: which document a `?highlight=` link selects, the
 * search and file-type filters over the loaded list, the list update after a
 * delete, the line-by-line highlighting of matching content, and the
 * "Part N" label shown under a chunk's name. Case-insensitive comparisons use
 * JavaScript `toLowerCase`, modelled on ASCII.
 */
module DocumentsPage {
  import opened Wrappers
  import opened Text
  import opened Json
  import opened DocumentService

  // ---------------------------------------------------------------------------
  // Highlight target

  /** The document's name equals the highlight value, ignoring case. */
  predicate NameIs(d: Document, h: String) {
    LowerStr(d.name) == LowerStr(h)
  }

  /** The document's name contains the highlight value, ignoring case. */
  predicate NameHas(d: Document, h: String) {
    Contains(LowerStr(d.name), LowerStr(h))
  }

  /**
   * The id to highlight: the first exact (case-insensitive) name match, else
   * the first name containing the value, else the first exact id match. A
   * missing value or an empty list clears the highlight.
   */
  function Highlight(h: String, docs: seq<Document>): (r: Option<String>)
    ensures h == [] || docs == [] ==> r.None?
    ensures r.Some? ==>
      (exists i :: 0 <= i < |docs| && docs[i].id == r.value && (NameIs(docs[i], h) || NameHas(docs[i], h) || docs[i].id == h))
  {
    if h == [] || docs == [] then None
    else match FirstWhere(docs, d => NameIs(d, h))
      case Some(i) => Some(docs[i].id)
      case None =>
        match FirstWhere(docs, d => NameHas(d, h))
        case Some(i) => Some(docs[i].id)
        case None =>
          match FirstWhere(docs, (d: Document) => d.id == h)
          case Some(i) => Some(docs[i].id)
          case None => None
  }

  /** An exact name match wins, whatever partial or id matches come before it. */
  lemma ExactNameWins(h: String, docs: seq<Document>, i: nat)
    requires h != [] && i < |docs| && NameIs(docs[i], h)
    requires forall j :: 0 <= j < i ==> !NameIs(docs[j], h)
    ensures Highlight(h, docs) == Some(docs[i].id)
  {
    FirstWhereAt(docs, d => NameIs(d, h), i);
  }

  /** Without an exact name match, the first name containing the value wins, even when several do. */
  lemma PartialNameNext(h: String, docs: seq<Document>, i: nat)
    requires h != [] && i < |docs| && NameHas(docs[i], h)
    requires forall j :: 0 <= j < |docs| ==> !NameIs(docs[j], h)
    requires forall j :: 0 <= j < i ==> !NameHas(docs[j], h)
    ensures Highlight(h, docs) == Some(docs[i].id)
  {
    FirstWhereAt(docs, d => NameHas(d, h), i);
  }

  /** Ids are consulted only when no name matches at all. */
  lemma IdMatchLast(h: String, docs: seq<Document>, i: nat)
    requires h != [] && i < |docs| && docs[i].id == h
    requires forall j :: 0 <= j < |docs| ==> !NameIs(docs[j], h) && !NameHas(docs[j], h)
    requires forall j :: 0 <= j < i ==> docs[j].id != h
    ensures Highlight(h, docs) == Some(h)
  {
    FirstWhereAt(docs, (d: Document) => d.id == h, i);
  }

  /** With no name and no id match, the highlight is cleared. */
  lemma NoMatchClears(h: String, docs: seq<Document>)
    requires forall j :: 0 <= j < |docs| ==> !NameIs(docs[j], h) && !NameHas(docs[j], h) && docs[j].id != h
    ensures Highlight(h, docs).None?
  {
  }

  // ---------------------------------------------------------------------------
  // fetchDocumentsList filters

  /** The search filter for an already trimmed and lowercased, non-empty query. */
  predicate MatchesQuery(d: Document, query: String) {
    Contains(LowerStr(d.name), query) || (d.content.Some? && Contains(LowerStr(d.content.value), query))
  }

  /** The search filter: an empty (or blank) query keeps every document. */
  function SearchFilter(docs: seq<Document>, searchQuery: String): (r: seq<Document>)
    ensures |r| <= |docs|
  {
    var query := LowerStr(JsTrim(searchQuery));
    if query == [] then docs else Filter(docs, d => MatchesQuery(d, query))
  }

  /** The documents kept by a non-blank search are exactly those whose name or content contains it. */
  lemma SearchKeepsExactlyMatches(docs: seq<Document>, searchQuery: String, d: Document)
    requires JsTrim(searchQuery) != []
    ensures d in SearchFilter(docs, searchQuery) <==> d in docs && MatchesQuery(d, LowerStr(JsTrim(searchQuery)))
  {
    var query := LowerStr(JsTrim(searchQuery));
    FilterMembers(docs, d => MatchesQuery(d, query), d);
  }

  /** A blank query keeps the list as it is. */
  lemma BlankSearchKeepsAll(docs: seq<Document>, searchQuery: String)
    requires forall k :: 0 <= k < |searchQuery| ==> IsJsSpace(searchQuery[k])
    ensures SearchFilter(docs, searchQuery) == docs
  {
  }

  /** The extension the type filter compares: the source's lowercased extension, else the document type. */
  function Extension(d: Document): String {
    Or(SourceType(d.metadata), d.docType)
  }

  /** The file-type filter: unless it is 'all', only documents with that extension, in order. */
  function TypeFilter(docs: seq<Document>, fileType: String): (r: seq<Document>)
    ensures fileType == "all" ==> r == docs
    ensures forall i :: 0 <= i < |r| && fileType != "all" ==> Extension(r[i]) == fileType
  {
    if fileType == "all" then docs else Filter(docs, d => Extension(d) == fileType)
  }

  /** A document survives the type filter exactly when its extension is the chosen type. */
  lemma TypeFilterKeepsExactly(docs: seq<Document>, fileType: String, d: Document)
    requires fileType != "all"
    ensures d in TypeFilter(docs, fileType) <==> d in docs && Extension(d) == fileType
  {
    FilterMembers(docs, (x: Document) => Extension(x) == fileType, d);
  }

  /**
   * `fetchDocumentsList`: the loaded list (empty when loading failed), then the
   * search filter, then the type filter.
   */
  function DocumentsList(loaded: Result<seq<Document>, String>, searchQuery: String, fileType: String): (r: seq<Document>)
    ensures loaded.Err? ==> r == []
    ensures loaded.Ok? ==> r == TypeFilter(SearchFilter(loaded.value, searchQuery), fileType)
  {
    var docs := if loaded.Ok? then loaded.value else [];
    TypeFilter(SearchFilter(docs, searchQuery), fileType)
  }

  // ---------------------------------------------------------------------------
  // handleDelete

  /** The page state a delete touches: the listed documents and the one open in the viewer. */
  datatype PageState = PageState(docs: seq<Document>, viewing: Option<Document>)

  /**
   * After the user confirms and the backend accepts the delete, every
   * document with that name leaves the list and the viewer closes if it
   * showed that name. Declining or a failed request leaves the page as it was.
   */
  function AfterDelete(st: PageState, name: String, confirmed: bool, ok: bool): (r: PageState)
    ensures !confirmed || !ok ==> r == st
    ensures confirmed && ok ==> forall i :: 0 <= i < |r.docs| ==> r.docs[i].name != name
    ensures confirmed && ok ==> r.viewing == (if st.viewing.Some? && st.viewing.value.name == name then None else st.viewing)
  {
    if !confirmed || !ok then st
    else
      var viewing := if st.viewing.Some? && st.viewing.value.name == name then None else st.viewing;
      PageState(Filter(st.docs, (d: Document) => d.name != name), viewing)
  }

  /** The delete keeps every document with another name, in order. */
  lemma DeleteKeepsOthers(st: PageState, name: String, d: Document)
    ensures d in AfterDelete(st, name, true, true).docs <==> d in st.docs && d.name != name
  {
    FilterMembers(st.docs, (x: Document) => x.name != name, d);
  }

  // ---------------------------------------------------------------------------
  // highlightMatchingContent

  /** A regular-expression metacharacter that the page escapes. */
  predicate IsRegexSpecial(c: char) {
    c in ".*+?^${}()|[]\\"
  }

  /** `query.replace(/[.*+?^${}()|[\]\\]/g, '\\$&')`. */
  function RegexEscape(q: String): (r: String)
    ensures |r| >= |q|
  {
    if q == [] then []
    else (if IsRegexSpecial(q[0]) then ['\\', q[0]] else [q[0]]) + RegexEscape(q[1..])
  }

  /** Reads an escaped pattern back: a backslash stands for the character after it. */
  function RegexUnescape(p: String): String
    decreases |p|
  {
    if p == [] then []
    else if p[0] == '\\' && |p| > 1 then [p[1]] + RegexUnescape(p[2..])
    else [p[0]] + RegexUnescape(p[1..])
  }

  /** Escaping loses nothing: the pattern denotes the query literally. */
  lemma {:induction false} RegexEscapeRoundTrip(q: String)
    ensures RegexUnescape(RegexEscape(q)) == q
    decreases |q|
  {
    if q != [] {
      RegexEscapeRoundTrip(q[1..]);
      var head := if IsRegexSpecial(q[0]) then ['\\', q[0]] else [q[0]];
      assert RegexEscape(q) == head + RegexEscape(q[1..]);
      if IsRegexSpecial(q[0]) {
        assert (head + RegexEscape(q[1..]))[2..] == RegexEscape(q[1..]);
      } else {
        assert (head + RegexEscape(q[1..]))[1..] == RegexEscape(q[1..]);
      }
    }
  }

  /**
   * `line.split(/(escaped)/gi)`: the text between case-insensitive
   * occurrences of the lower-case `key`, with each occurrence kept as its own
   * piece in between, empty pieces included.
   */
  function SplitOnKey(line: String, key: String): (parts: seq<String>)
    requires key != []
    ensures |parts| % 2 == 1
    decreases |line|
  {
    match IndexOfCiFrom(line, key, 0)
    case None => [line]
    case Some(i) => [line[..i], line[i..i + |key|]] + SplitOnKey(line[i + |key|..], key)
  }

  /** The pieces of a split line written one after the other. */
  function Concat(parts: seq<String>): String {
    if parts == [] then [] else parts[0] + Concat(parts[1..])
  }

  /** The pieces put back together give the line. */
  lemma {:induction false} SplitOnKeyJoins(line: String, key: String)
    requires key != []
    ensures Concat(SplitOnKey(line, key)) == line
    decreases |line|
  {
    var r := IndexOfCiFrom(line, key, 0);
    if r.Some? {
      var i := r.value;
      var j := i + |key|;
      SplitOnKeyStep(line, key, i);
      SplitOnKeyJoins(line[j..], key);
      ConcatTwoThen(line[..i], line[i..j], SplitOnKey(line[j..], key));
      assert line == line[..i] + (line[i..j] + line[j..]);
    }
  }

  /** Two pieces in front of the rest. */
  lemma ConcatTwoThen(a: String, b: String, tail: seq<String>)
    ensures Concat([a, b] + tail) == a + (b + Concat(tail))
  {
    var parts := [a, b] + tail;
    assert parts[1..][1..] == tail;
  }

  /** One step of the split, at the first occurrence `i`. */
  lemma SplitOnKeyStep(line: String, key: String, i: nat)
    requires key != [] && IndexOfCiFrom(line, key, 0) == Some(i)
    ensures SplitOnKey(line, key) == [line[..i], line[i..i + |key|]] + SplitOnKey(line[i + |key|..], key)
  {
  }

  /** A piece before the first occurrence is not itself an occurrence. */
  lemma NoEarlierOccurrence(line: String, key: String, i: nat)
    requires key != [] && i <= |line|
    requires forall k :: 0 <= k < i ==> !OccursAtCi(line, key, k)
    requires i == |line| || OccursAtCi(line, key, i)
    ensures LowerStr(line[..i]) != key
  {
    if LowerStr(line[..i]) == key {
      assert line[..i][0..|key|] == line[0..|key|];
      assert OccursAtCi(line, key, 0);
    }
  }

  /** The pieces at odd positions are exactly the ones that equal the query, ignoring case. */
  lemma {:induction false} SplitOnKeyMarksOdd(line: String, key: String, k: nat)
    requires key != [] && LowerStr(key) == key
    requires k < |SplitOnKey(line, key)|
    ensures LowerStr(SplitOnKey(line, key)[k]) == key <==> k % 2 == 1
    decreases |line|
  {
    var r := IndexOfCiFrom(line, key, 0);
    if r.None? {
      NoEarlierOccurrence(line, key, |line|);
      assert line[..|line|] == line;
      assert SplitOnKey(line, key) == [line];
    } else {
      var i := r.value;
      var rest := line[i + |key|..];
      SplitOnKeyStep(line, key, i);
      var parts := SplitOnKey(line, key);
      if k == 0 {
        assert parts[0] == line[..i];
        NoEarlierOccurrence(line, key, i);
      } else if k == 1 {
        assert parts[1] == line[i..i + |key|];
        assert OccursAtCi(line, key, i);
      } else {
        assert (k - 2) % 2 == k % 2;
        assert parts[k] == SplitOnKey(rest, key)[k - 2];
        SplitOnKeyMarksOdd(rest, key, k - 2);
      }
    }
  }

  /** One piece of a displayed line: `marked` pieces are shown highlighted. */
  datatype Piece = Piece(text: String, marked: bool)

  /** A matching line as displayed: its pieces, a piece marked when it equals the query ignoring case. */
  function MarkLine(line: String, query: String): (r: seq<Piece>)
    requires query != []
    ensures |r| == |SplitOnKey(line, LowerStr(query))|
  {
    var parts := SplitOnKey(line, LowerStr(query));
    seq(|parts|, k requires 0 <= k < |parts| => Piece(parts[k], LowerStr(parts[k]) == LowerStr(query)))
  }

  /** A displayed line marks exactly its odd pieces, and its texts rejoin to the line. */
  lemma MarkLineShape(line: String, query: String, k: nat)
    requires query != [] && k < |MarkLine(line, query)|
    ensures MarkLine(line, query)[k].marked <==> k % 2 == 1
    ensures Concat(SplitOnKey(line, LowerStr(query))) == line
  {
    LowerStrIdempotent(query);
    SplitOnKeyMarksOdd(line, LowerStr(query), k);
    SplitOnKeyJoins(line, LowerStr(query));
  }

  lemma LowerStrIdempotent(s: String)
    ensures LowerStr(LowerStr(s)) == LowerStr(s)
  {
  }

  /** What `highlightMatchingContent` renders: the content untouched, or the matching lines. */
  datatype Rendered = Unchanged(content: String) | MatchingLines(lines: seq<seq<Piece>>)

  /** The line contains the query, ignoring case. */
  predicate LineMatches(line: String, query: String) {
    Contains(LowerStr(line), LowerStr(query))
  }

  function HighlightMatchingContent(content: String, query: String): (r: Rendered)
    ensures content == [] || JsTrim(query) == [] ==> r == Unchanged(content)
    ensures r.MatchingLines? ==> |r.lines| <= |Split(content, '\n')|
  {
    if content == [] || JsTrim(query) == [] then Unchanged(content)
    else
      var shown := Filter(Split(content, '\n'), line => LineMatches(line, query));
      MatchingLines(seq(|shown|, i requires 0 <= i < |shown| => MarkLine(shown[i], query)))
  }

  /** A line of the content is displayed exactly when it contains the query. */
  lemma ShownLinesAreMatches(content: String, query: String, line: String)
    requires content != [] && JsTrim(query) != []
    ensures var shown := Filter(Split(content, '\n'), l => LineMatches(l, query));
      && (line in shown <==> line in Split(content, '\n') && LineMatches(line, query))
      && HighlightMatchingContent(content, query).lines == seq(|shown|, i requires 0 <= i < |shown| => MarkLine(shown[i], query))
  {
    FilterMembers(Split(content, '\n'), l => LineMatches(l, query), line);
  }

  // ---------------------------------------------------------------------------
  // "Part N" label

  /**
   * The outcome of JavaScript `Number(s)`, for the forms the model decides:
   * after trimming, the empty string is 0 and an optionally signed run of
   * decimal digits is that integer when it lies within 2^53 - 1; a string with
   * no digit that is not an `Infinity` form is `NaN`. Other strings (longer
   * digit runs, which JavaScript rounds, fractions, exponents, hex, `Infinity`,
   * digits mixed with other characters) are `Undecided`.
   */
  datatype JsNumber = Integer(n: int) | NotANumber | Undecided

  predicate SignedDigits(t: String) {
    if |t| > 0 && (t[0] == '+' || t[0] == '-') then |t| > 1 && AllDigits(t[1..]) else |t| > 0 && AllDigits(t)
  }

  function SignedValue(t: String): int
    requires SignedDigits(t)
  {
    if t[0] == '-' then 0 - DigitsValue(t[1..]) as int else if t[0] == '+' then DigitsValue(t[1..]) else DigitsValue(t)
  }

  /** The largest integer a JavaScript number holds exactly, 2^53 - 1. */
  const MaxSafeInteger: int := 9_007_199_254_740_991

  function ToNumber(s: String): (r: JsNumber)
    ensures JsTrim(s) == [] ==> r == Integer(0)
    ensures r.Integer? ==> -MaxSafeInteger <= r.n <= MaxSafeInteger
    ensures r.Integer? && JsTrim(s) != [] ==> SignedDigits(JsTrim(s)) && r.n == SignedValue(JsTrim(s))
    ensures var t := JsTrim(s); r.NotANumber? ==> t != [] && forall k :: 0 <= k < |t| ==> !IsDigit(t[k])
  {
    var t := JsTrim(s);
    if t == [] then Integer(0)
    else if SignedDigits(t) then
      var v := SignedValue(t);
      if -MaxSafeInteger <= v <= MaxSafeInteger then Integer(v) else Undecided
    else if (forall k :: 0 <= k < |t| ==> !IsDigit(t[k])) && t != "Infinity" && t != "+Infinity" && t != "-Infinity"
    then NotANumber
    else Undecided
  }

  /**
   * The label under a document's name: with an id of more than one
   * '_'-separated piece whose last piece is a number other than the string
   * '0', "Part (n+1)"; otherwise empty. `None` when the last piece is a
   * numeric form the model leaves undecided.
   */
  function PartLabel(id: String): (r: Option<String>)
    ensures '_' !in id ==> r == Some("")
  {
    if id == [] then Some("") else PiecesLabel(Split(id, '_'))
  }

  /** The label for the pieces of a non-empty id. */
  function PiecesLabel(parts: seq<String>): Option<String>
    requires |parts| >= 1
  {
    if |parts| <= 1 then Some("") else LastPieceLabel(parts[|parts| - 1])
  }

  /** The label once the id has more than one piece: it depends on the last piece only. */
  function LastPieceLabel(last: String): Option<String> {
    match ToNumber(last)
    case NotANumber => Some("")
    case Undecided => None
    case Integer(n) => if last == "0" then Some("") else Some("Part " + IntToString(n + 1))
  }

  /** The label of `prefix + '_' + last`, for a last piece without '_'. */
  lemma LabelOfSuffix(prefix: String, last: String)
    requires '_' !in last
    ensures PartLabel(prefix + "_" + last) == LastPieceLabel(last)
  {
    SplitAppend(prefix, last, '_');
    assert prefix + "_" + last == prefix + ['_'] + last;
  }

  /** Writing the separator and the last piece as one literal names the same id. */
  lemma SuffixAfterSeparator(prefix: String, last: String, tail: String)
    requires tail == "_" + last
    ensures prefix + "_" + last == prefix + tail
  {
  }

  /** An empty last piece reads as 0, so it is labelled "Part 1". */
  lemma EmptyPieceLabel()
    ensures LastPieceLabel("") == Some("Part 1")
  {
    assert ToNumber("") == Integer(0);
    assert IntToString(0 + 1) == "1";
    assert "Part " + "1" == "Part 1";
  }

  /** Because `Number('')` is 0, an id ending in '_' is labelled "Part 1". */
  lemma TrailingUnderscoreIsPartOne(prefix: String)
    ensures PartLabel(prefix + "_") == Some("Part 1")
  {
    LabelOfSuffix(prefix, "");
    assert prefix + "_" + "" == prefix + "_";
    EmptyPieceLabel();
  }

  /** A non-empty run of digits converts to its value. */
  lemma UnsignedNumber(t: String)
    requires |t| > 0 && AllDigits(t) && DigitsValue(t) <= MaxSafeInteger
    ensures ToNumber(t) == Integer(DigitsValue(t))
  {
    DigitsTrimmed(t);
    assert t[0] != '+' && t[0] != '-' by { assert IsDigit(t[0]); }
    assert SignedDigits(t) && SignedValue(t) == DigitsValue(t);
  }

  /** Trimming leaves a run of digits as it is. */
  lemma DigitsTrimmed(t: String)
    requires AllDigits(t)
    ensures JsTrim(t) == t
  {
    forall k | 0 <= k < |t| ensures !IsJsSpace(t[k]) {
      assert IsDigit(t[k]);
    }
    JsTrimNoSpace(t);
  }

  /** A run of digits past 2^53 - 1 is rounded by JavaScript; the model leaves it undecided. */
  lemma LongNumeralUndecided(t: String)
    requires |t| > 0 && AllDigits(t) && DigitsValue(t) > MaxSafeInteger
    ensures ToNumber(t) == Undecided
  {
    DigitsTrimmed(t);
    assert t[0] != '+' && t[0] != '-' by { assert IsDigit(t[0]); }
    assert SignedDigits(t) && SignedValue(t) == DigitsValue(t);
  }

  /** A last piece that is the numeral of a positive n gives "Part n+1". */
  lemma NumeralLabel(n: nat)
    requires 0 < n <= MaxSafeInteger
    ensures LastPieceLabel(NatToString(n)) == Some("Part " + NatToString(n + 1))
  {
    var digits := NatToString(n);
    NatToStringRoundTrip(n);
    UnsignedNumber(digits);
    NatToStringInjective(n, 0);
    assert NatToString(0) == "0";
  }

  /** An id ending in '_n' for a positive numeral n is labelled "Part n+1". */
  lemma NumberedChunkLabel(prefix: String, n: nat)
    requires 0 < n <= MaxSafeInteger
    ensures PartLabel(prefix + "_" + NatToString(n)) == Some("Part " + NatToString(n + 1))
  {
    LabelOfSuffix(prefix, NatToString(n));
    NumeralLabel(n);
  }

  /** The first chunk, '_0', has no label. */
  lemma ZeroChunkHasNoLabel(prefix: String)
    ensures PartLabel(prefix + "_0") == Some("")
  {
    LabelOfSuffix(prefix, "0");
    SuffixAfterSeparator(prefix, "0", "_0");
    assert AllDigits("0");
    UnsignedNumber("0");
  }

  /** "00" reads as 0 but is not the string '0', so it gets a label. */
  lemma DoubleZeroPieceLabel()
    ensures LastPieceLabel("00") == Some("Part 1")
  {
    assert AllDigits("00");
    UnsignedNumber("00");
    assert DigitsValue("00") == 0 by {
      assert "00"[..1] == "0";
      assert "0"[..0] == "";
    }
    assert IntToString(0 + 1) == "1";
    assert "Part " + "1" == "Part 1";
  }

  /** Only the exact string '0' is excluded: '_00' reads as 0 and is labelled "Part 1". */
  lemma DoubleZeroIsPartOne(prefix: String)
    ensures PartLabel(prefix + "_00") == Some("Part 1")
  {
    LabelOfSuffix(prefix, "00");
    SuffixAfterSeparator(prefix, "00", "_00");
    DoubleZeroPieceLabel();
  }
}
