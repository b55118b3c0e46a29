/**
 * The inbox view's record normaliser: `parseEmailContent` and the per-record
 * mapping of `fetchEmails` in the frontend's email page. A loosely shaped
 * record (pre-parsed fields and/or raw "headers, blank line, body" text)
 * becomes a complete display record through ordered fallback chains.
 */
module EmailPage {
  import opened Wrappers
  import opened Text
  import opened EmailScan

  /** A record as the search endpoint returns it. An absent field is "" (strings) or 0 (timestamp). */
  datatype Incoming = Incoming(
    id: String, from: String, to: String, subject: String, content: String, body: String,
    preview: String, date: String, timestamp: int, senderEmail: String)

  /** The display record. `senderEmail` is "" where the record has none. */
  datatype Email = Email(
    id: String, from: String, to: String, subject: String, content: String, preview: String,
    date: String, timestamp: int, read: bool, rawContent: String, senderEmail: String)

  /**
   * The environment: `Date.now()`, `new Date().toISOString()`, the timestamp
   * `new Date(text).getTime()` yields when it is not NaN, and `toISOString()`
   * of a timestamp.
   */
  datatype Clock = Clock(nowMs: int, nowIso: String, parseDate: String -> Option<int>, isoOf: int -> String)

  const UnknownSender: String := "Unknown Sender"
  const UnknownRecipient: String := "Unknown Recipient"
  const NoSubject: String := "No Subject"
  const NoContent: String := "No content available"
  const Ellipsis: String := "..."

  function DefaultId(clock: Clock): String {
    "email-" + IntToString(clock.nowMs)
  }

  /** `text.substring(0, 200) + '...'`. */
  function PreviewOf(text: String): (p: String)
    ensures EndsWith(p, Ellipsis) && |p| <= 203
    ensures |text| <= 200 ==> p == text + Ellipsis
    ensures |text| > 200 ==> p == text[..200] + Ellipsis
  {
    Prefix(text, 200) + Ellipsis
  }

  // ---------------------------------------------------------------------------
  // LinkedIn sender repair

  /** The display name made from a profile slug: '-' becomes ' ', words are capitalised, the result trimmed. */
  function LinkedInName(slug: String): (name: String)
    ensures |name| <= |slug|
    ensures |name| > 0 ==> !IsJsSpace(name[0]) && !IsJsSpace(name[|name| - 1])
  {
    JsTrim(CapitalizeWordsJs(ReplaceChar(slug, '-', ' ')))
  }

  /**
   * The name before trimming, character by character: a '-' of the slug is a
   * space, the first character of each run of word characters is upper-cased,
   * every other character is kept.
   */
  lemma LinkedInNameSpelling(slug: String)
    ensures var t := CapitalizeWordsJs(ReplaceChar(slug, '-', ' '));
      && LinkedInName(slug) == JsTrim(t) && |t| == |slug|
      && (forall i :: 0 <= i < |slug| && slug[i] == '-' ==> t[i] == ' ')
      && (forall i :: 0 <= i < |slug| && WordStart(slug, i) ==> t[i] == Upper(slug[i]))
      && (forall i :: 0 <= i < |slug| && slug[i] != '-' && !WordStart(slug, i) ==> t[i] == slug[i])
  {
    var d := ReplaceChar(slug, '-', ' ');
    assert forall i :: 0 <= i < |slug| ==> (WordStart(d, i) <==> WordStart(slug, i));
  }

  function ProfileSlug(text: String): Option<String> {
    LinkedInSlug(text, true, IsJsSpace)
  }

  /** `<vanity>@linkedin.com` when the text carries `inviterVanityName=`, else "". */
  function VanityAddress(text: String): (a: String)
    ensures a == [] <==> forall j: nat :: !VanityStart(text, j)
    ensures a != [] ==> exists j: nat :: VanityStart(text, j) && a == VanityValue(text, j) + "@linkedin.com" &&
                                         forall k: nat :: k < j ==> !VanityStart(text, k)
  {
    VanityFromLeftmost(text, 0);
    match VanityFrom(text, 0)
    case Some(v) => v + "@linkedin.com"
    case None => ""
  }

  /** The LinkedIn address when the text carries `inviterVanityName=`, else the sender address already there. */
  function VanitySender(content: String, fallback: String): String {
    var v := VanityFrom(content, 0);
    if v.Some? then v.value + "@linkedin.com" else fallback
  }

  predicate HasParsedFields(e: Incoming) {
    e.content != [] && (e.from != [] || e.to != [] || e.subject != [])
  }

  /** What the shortcut leaves in the input record: a LinkedIn link in the content repairs a missing sender. */
  function Repaired(e: Incoming): Incoming {
    var linkedIn := ProfileSlug(e.content);
    if HasParsedFields(e) && (e.from == [] || e.from == UnknownSender) && linkedIn.Some? then
      e.(from := LinkedInName(linkedIn.value), senderEmail := VanitySender(e.content, e.senderEmail))
    else e
  }

  // ---------------------------------------------------------------------------
  // The header searches

  /** The first of the three header patterns that matches; a match with an empty value still ends the chain. */
  function HeaderChain(headers: String, raw: String, key: String): Option<String> {
    OrElse(HeaderAnywhere(headers, key), OrElse(HeaderAtLineStart(raw, key), HeaderAnywhere(raw, key)))
  }

  /** From: the three header patterns, then the first bare address anywhere. */
  function FromSearch(headers: String, raw: String): (m: Option<String>)
    ensures IndexOfCiFrom(raw, "from:", 0).Some? ==> m.Some?
    ensures IndexOfCiFrom(headers, "from:", 0).None? && IndexOfCiFrom(raw, "from:", 0).None? ==> m == FirstAddress(raw)
  {
    var k := KeyAtLineStartFrom(raw, "from:", 0);
    assert k.Some? ==> OccursAtCi(raw, "from:", k.value);
    OrElse(HeaderChain(headers, raw, "from:"), FirstAddress(raw))
  }

  /** To: the first two header patterns, then `To:[\s\r\n]*([^<\r\n]+)`. */
  function ToSearch(headers: String, raw: String): Option<String> {
    OrElse(HeaderAnywhere(headers, "to:"),
      OrElse(HeaderAtLineStart(raw, "to:"), ClassFieldFrom(raw, "to:", IsJsSpace, c => c == '<' || c == '\r' || c == '\n', 0)))
  }

  predicate QuoteOrSpace(c: char) { IsJsSpace(c) || c == '"' || c == '\'' }
  predicate SubjectLead(c: char) { QuoteOrSpace(c) || c == '[' }
  predicate SubjectTrail(c: char) { QuoteOrSpace(c) || c == ']' }

  /** Whitespace is single spaces only, as collapsing leaves it. */
  predicate Collapsed(s: String) {
    && (forall k :: 0 <= k < |s| && IsJsSpace(s[k]) ==> s[k] == ' ')
    && (forall k :: 0 <= k < |s| - 1 ==> !(IsJsSpace(s[k]) && IsJsSpace(s[k + 1])))
  }

  /** Every whitespace character is a single space between two non-spaces: no leading, trailing or doubled whitespace. */
  predicate Tidy(s: String) {
    (|s| > 0 ==> !IsJsSpace(s[0]) && !IsJsSpace(s[|s| - 1])) && Collapsed(s)
  }

  /** Trimming a whitespace-collapsed text leaves it tidy. */
  lemma {:induction false} TrimCollapsedIsTidy(s: String)
    requires Collapsed(s)
    ensures Tidy(JsTrim(s))
  {
    var r := JsTrim(s);
    var a := SkipWhile(s, 0, IsJsSpace);
    forall k | 0 <= k < |r| - 1 ensures !(IsJsSpace(r[k]) && IsJsSpace(r[k + 1])) {
      assert r[k] == s[a + k] && r[k + 1] == s[a + k + 1];
    }
  }

  /** `replace(/\s+/g, ' ')`: every run of whitespace becomes one space; nothing else changes. */
  function CollapseSpaces(s: String): (r: String)
    ensures Collapsed(r)
    ensures Filter(r, Outside(IsJsSpace)) == Filter(s, Outside(IsJsSpace))
    ensures r == s <==> Collapsed(s)
  {
    CollapseRunsKeepsText(s, IsJsSpace, ' ');
    if Collapsed(s) then
      CollapseRunsFixed(s, IsJsSpace, ' ');
      CollapseRuns(s, IsJsSpace, ' ')
    else CollapseRuns(s, IsJsSpace, ' ')
  }

  /** A tidy text is settled: collapsing and trimming give it back, also with one space after it. */
  lemma SettledText(n: String)
    requires Tidy(n)
    ensures JsTrim(CollapseSpaces(n)) == n
    ensures JsTrim(CollapseSpaces(n + " ")) == n
  {
    assert CollapseSpaces(n) == n;
    StripEndsBare(n, IsJsSpace, IsJsSpace);
    var t := n + " ";
    CollapsedSpaceAfter(n);
    assert CollapseSpaces(t) == t;
    StripEndsOneAfter(n, ' ', IsJsSpace);
  }

  /** One space after a tidy text keeps it collapsed. */
  lemma CollapsedSpaceAfter(n: String)
    requires Tidy(n)
    ensures Collapsed(n + " ")
  {
    var t := n + " ";
    forall k | 0 <= k < |t| && IsJsSpace(t[k]) ensures t[k] == ' ' {
      if k < |n| {
        assert t[k] == n[k];
      }
    }
    forall k | 0 <= k < |t| - 1 ensures !(IsJsSpace(t[k]) && IsJsSpace(t[k + 1])) {
      assert t[k] == n[k];
      if k + 1 < |n| {
        assert t[k + 1] == n[k + 1];
        assert !(IsJsSpace(n[k]) && IsJsSpace(n[k + 1]));
      } else {
        assert !IsJsSpace(n[|n| - 1]);
      }
    }
  }

  /** Subject cleanup: strip leading whitespace, quotes and '[' and trailing whitespace, quotes and ']', collapse whitespace, trim. */
  function CleanSubject(s: String): (r: String)
    ensures Tidy(r)
    ensures Filter(r, Outside(IsJsSpace)) == Filter(StripEnds(s, SubjectLead, SubjectTrail), Outside(IsJsSpace))
  {
    JsTrimKeepsText(CollapseSpaces(StripEnds(s, SubjectLead, SubjectTrail)));
    TrimCollapsedIsTidy(CollapseSpaces(StripEnds(s, SubjectLead, SubjectTrail)));
    JsTrim(CollapseSpaces(StripEnds(s, SubjectLead, SubjectTrail)))
  }

  /** What the display cleanup keeps before whitespace is collapsed: quotes and whitespace stripped from the ends, `<…>` and `(…)` removed. */
  function DisplayCore(s: String): String {
    RemoveParens(RemoveAngles(StripEnds(s, QuoteOrSpace, QuoteOrSpace)))
  }

  /** Sender and recipient cleanup: strip whitespace and quotes, remove `<…>` and `(…)`, collapse whitespace, trim. */
  function CleanDisplay(s: String): (r: String)
    ensures Tidy(r)
    ensures Filter(r, Outside(IsJsSpace)) == Filter(DisplayCore(s), Outside(IsJsSpace))
  {
    var t := DisplayCore(s);
    JsTrimKeepsText(CollapseSpaces(t));
    TrimCollapsedIsTidy(CollapseSpaces(t));
    JsTrim(CollapseSpaces(t))
  }

  /** A subject the cleanup leaves alone. */
  predicate PlainSubject(n: String) {
    n != [] && Tidy(n) && !SubjectLead(n[0]) && !SubjectTrail(n[|n| - 1])
  }

  /** A plain subject is kept, and brackets or quotes around it are removed. */
  lemma CleanSubjectUnwraps(n: String)
    requires PlainSubject(n)
    ensures CleanSubject(n) == n
    ensures CleanSubject("[" + n + "]") == n
    ensures CleanSubject("\"" + n + "\"") == n
  {
    SettledText(n);
    assert CleanSubject(n) == n by {
      SubjectEndsUnwrap(n);
    }
    assert CleanSubject("[" + n + "]") == n by {
      SubjectEndsUnwrap(n);
    }
    assert CleanSubject("\"" + n + "\"") == n by {
      SubjectEndsUnwrap(n);
    }
  }

  lemma SubjectEndsUnwrap(n: String)
    requires PlainSubject(n)
    ensures StripEnds(n, SubjectLead, SubjectTrail) == n
    ensures StripEnds("[" + n + "]", SubjectLead, SubjectTrail) == n
    ensures StripEnds("\"" + n + "\"", SubjectLead, SubjectTrail) == n
  {
    StripEndsBare(n, SubjectLead, SubjectTrail);
    StripEndsWrapped('[', n, ']', SubjectLead, SubjectTrail);
    StripEndsWrapped('"', n, '"', SubjectLead, SubjectTrail);
    assert "[" + n + "]" == ['['] + n + [']'];
    assert "\"" + n + "\"" == ['"'] + n + ['"'];
  }

  /** A display name the cleanup leaves alone: tidy, without '<' or '(', no quote at either end. */
  predicate PlainName(n: String) {
    n != [] && Tidy(n) && '<' !in n && '(' !in n && !QuoteOrSpace(n[0]) && !QuoteOrSpace(n[|n| - 1])
  }

  /** A plain name is kept, and quotes around it are removed. */
  lemma CleanDisplayUnquotes(n: String)
    requires PlainName(n)
    ensures CleanDisplay(n) == n
    ensures CleanDisplay("\"" + n + "\"") == n
  {
    DisplayCoreUnquotes(n);
    SettledText(n);
  }

  lemma DisplayCoreUnquotes(n: String)
    requires PlainName(n)
    ensures DisplayCore(n) == n && DisplayCore("\"" + n + "\"") == n
  {
    StripEndsBare(n, QuoteOrSpace, QuoteOrSpace);
    StripEndsWrapped('"', n, '"', QuoteOrSpace, QuoteOrSpace);
    assert "\"" + n + "\"" == ['"'] + n + ['"'];
  }

  /** An `<address>` after a plain name is removed. */
  lemma CleanDisplayDropsAddress(n: String, address: String)
    requires PlainName(n) && |address| > 0 && '>' !in address
    ensures CleanDisplay(n + " <" + address + ">") == n
  {
    DisplayCoreDropsAddress(n, address);
    SettledText(n);
  }

  lemma DisplayCoreDropsAddress(n: String, address: String)
    requires PlainName(n) && |address| > 0 && '>' !in address
    ensures DisplayCore(n + " <" + address + ">") == n + " "
  {
    var spaced := n + " ";
    var angled := n + " <" + address + ">";
    assert angled == n + " " + ['<'] + address + ['>'] == spaced + "<" + address + ">";
    TrailingBracketsBare(n, '<', address, '>');
    AnglesDropped(spaced, address);
    assert '(' !in spaced;
  }

  /** A plain name followed by a space and a bracketed part has nothing to strip at its ends. */
  lemma TrailingBracketsBare(n: String, open: char, inner: String, close: char)
    requires PlainName(n) && !QuoteOrSpace(close)
    ensures var s := n + " " + [open] + inner + [close]; StripEnds(s, QuoteOrSpace, QuoteOrSpace) == s
  {
    var s := n + " " + [open] + inner + [close];
    assert s[0] == n[0] && s[|s| - 1] == close;
    StripEndsBare(s, QuoteOrSpace, QuoteOrSpace);
  }

  /** A `(comment)` after a plain name is removed. */
  lemma CleanDisplayDropsComment(n: String, comment: String)
    requires PlainName(n) && '<' !in comment && ')' !in comment
    ensures CleanDisplay(n + " (" + comment + ")") == n
  {
    DisplayCoreDropsComment(n, comment);
    SettledText(n);
  }

  lemma DisplayCoreDropsComment(n: String, comment: String)
    requires PlainName(n) && '<' !in comment && ')' !in comment
    ensures DisplayCore(n + " (" + comment + ")") == n + " "
  {
    var spaced := n + " ";
    var commented := n + " (" + comment + ")";
    assert commented == n + " " + ['('] + comment + [')'] == spaced + "(" + comment + ")";
    TrailingBracketsBare(n, '(', comment, ')');
    assert '<' !in commented by {
      assert forall k :: 0 <= k < |commented| ==> commented[k] in spaced || commented[k] in comment || commented[k] in "()";
    }
    ParensDropped(spaced, comment);
  }

  predicate AddressSeparator(c: char) { c == '.' || c == '_' || c == '-' }

  /** A name made from an address's local part: '.', '_', '-' become spaces, words are capitalised, the result trimmed. */
  function LocalPartName(address: String): (name: String)
    ensures forall k :: 0 <= k < |name| ==> name[k] != '@' && !AddressSeparator(name[k])
    ensures |name| > 0 ==> !IsJsSpace(name[0]) && !IsJsSpace(name[|name| - 1])
  {
    var local := FirstPiece(address, '@');
    var spaced := MapChars(local, AddressSeparator, ' ');
    var t := CapitalizeWordsJs(spaced);
    assert forall k :: 0 <= k < |t| ==> t[k] != '@' && !AddressSeparator(t[k]) by {
      forall k | 0 <= k < |t| ensures t[k] != '@' && !AddressSeparator(t[k]) {
        assert local[k] != '@' by {
          assert local[k] in local;
        }
      }
    }
    JsTrim(CapitalizeWordsJs(MapChars(FirstPiece(address, '@'), AddressSeparator, ' ')))
  }

  /** The sender's display text and address, from the captured From value. */
  function SenderParts(g: String): (r: (String, String))
    ensures NameAndAddress(g).Some? ==> r.1 == JsTrim(NameAndAddress(g).value.1)
    ensures NameAndAddress(g).None? ==> r.1 == if FirstAddress(g).Some? then FirstAddress(g).value else ""
    ensures NameAndAddress(g).None? ==> Tidy(r.0) || (r.1 != [] && r.0 == LocalPartName(r.1))
  {
    match NameAndAddress(g)
    case Some(na) =>
      (if JsTrim(na.0) != [] then JsTrim(na.0) else g, JsTrim(na.1))
    case None =>
      var found := FirstAddress(g);
      var address := if found.Some? then found.value else "";
      var rest := if found.Some? then JsTrim(ReplaceFirst(g, address, "")) else g;
      var cleaned := CleanDisplay(rest);
      var sender :=
        if cleaned == [] && address != [] && LocalPartName(address) != [] then LocalPartName(address) else cleaned;
      (sender, address)
  }

  // ---------------------------------------------------------------------------
  // The subject fallback patterns (tried in order until one yields a non-blank value)

  function SubjectPattern(raw: String, k: nat): Option<String>
    requires k < 3
  {
    if k < 2 then HeaderAnywhere(raw, "subject:")
    else ClassFieldFrom(raw, "subject:", IsJsSpace, c => c == '\r' || c == '\n', 0)
  }

  function SubjectFallbackFrom(raw: String, k: nat): (s: Option<String>)
    requires k <= 3
    ensures s.Some? ==> Tidy(s.value)
    decreases 3 - k
  {
    if k == 3 then None
    else
      var m := SubjectPattern(raw, k);
      if m.Some? && m.value != [] && JsTrim(m.value) != [] then Some(CleanSubject(JsTrim(m.value)))
      else SubjectFallbackFrom(raw, k + 1)
  }

  // ---------------------------------------------------------------------------
  // The body

  /** CRLF to LF, quoted lines emptied, runs of three or more newlines made two, trimmed. */
  function CleanBody(text: String): (r: String)
    ensures forall i :: 0 <= i < |r| - 2 ==> !(r[i] == '\n' && r[i + 1] == '\n' && r[i + 2] == '\n')
  {
    var c := CollapseBlankRuns(StripQuotedLines(NormalizeCrLf(text)));
    var r := JsTrim(c);
    var a := SkipWhile(c, 0, IsJsSpace);
    assert forall i :: 0 <= i < |r| ==> r[i] == c[a + i];
    r
  }

  /**
   * A body the cleanup leaves alone: no carriage return, no line starting
   * with '>', no three line feeds in a row, no white space at either end.
   */
  predicate CleanText(t: String) {
    && '\r' !in t
    && (forall i :: 0 <= i < |t| && AtLineStart(t, i) ==> t[i] != '>')
    && (forall i :: 0 <= i < |t| - 2 ==> !(t[i] == '\n' && t[i + 1] == '\n' && t[i + 2] == '\n'))
    && (|t| > 0 ==> !IsJsSpace(t[0]) && !IsJsSpace(t[|t| - 1]))
  }

  /** A clean body comes through the cleanup unchanged. */
  lemma CleanBodyKeepsCleanText(t: String)
    requires CleanText(t)
    ensures CleanBody(t) == t
  {
    NormalizeCrLfNoCr(t);
    StripQuotedNone(t, true);
    assert StripQuotedLines(t) == t;
    CollapseBlankRunsFixed(t);
    StripEndsBare(t, IsJsSpace, IsJsSpace);
  }

  /** A CRLF pair in the body is cleaned exactly like a lone '\n'. */
  lemma CleanBodyCrLf(a: String, b: String)
    requires |a| == 0 || a[|a| - 1] != '\r'
    ensures CleanBody(a + "\r\n" + b) == CleanBody(a + "\n" + b)
  {
    NormalizeCrLfPair(a, b);
    NormalizeCrLfNoCr("\n");
    NormalizeCrLfAppend("\n", b);
    assert a + "\n" + b == a + ("\n" + b);
    NormalizeCrLfAppend(a, "\n" + b);
    assert NormalizeCrLf(a + "\r\n" + b) == NormalizeCrLf(a + "\n" + b);
  }

  /** Everything after the first blank line, pieces re-joined with "\n\n", trimmed. */
  function BodyText(raw: String): (body: String)
    ensures FirstBlankLine(raw, 0).None? ==> body == []
    ensures |body| > 0 ==> !IsJsSpace(body[0]) && !IsJsSpace(body[|body| - 1])
    ensures var f := FirstBlankLine(raw, 0);
      f.Some? && FirstBlankLine(raw[f.value.1..], 0).None? ==> body == JsTrim(raw[f.value.1..])
  {
    var parts := SplitBlankLines(raw);
    JsTrim(Join(parts[1..], "\n\n"))
  }

  // ---------------------------------------------------------------------------
  // The parse, as a function of the input record

  function RawOf(e: Incoming): String {
    Or(e.content, e.body)
  }

  /** The record `parseEmailContent` returns. */
  function Parsed(e: Incoming, clock: Clock): (r: Email)
    ensures r.content != [] && !r.read
    ensures HasParsedFields(e) ==> r.content == e.content && r.rawContent == e.content
    ensures HasParsedFields(e) ==> r.from != [] && r.to != [] && r.subject != []
    ensures !HasParsedFields(e) ==> r.rawContent == RawOf(e)
    ensures !HasParsedFields(e) && RawOf(e) != [] ==> r.from != []
  {
    if HasParsedFields(e) then Shortcut(Repaired(e), clock) else FullParse(e, clock)
  }

  /** The shortcut taken when content and one of from/to/subject are already present. */
  function Shortcut(e: Incoming, clock: Clock): (r: Email)
    requires e.content != []
    ensures r.id != [] && r.from != [] && r.to != [] && r.subject != [] && r.preview != []
    ensures r.content == e.content && r.rawContent == e.content && !r.read && r.senderEmail == e.senderEmail
    ensures e.from == [] ==> r.from == UnknownSender
    ensures e.from != [] ==> r.from == e.from
    ensures e.subject == [] ==> r.subject == NoSubject
    ensures e.to == [] ==> r.to == UnknownRecipient
  {
    Email(
      id := Or(e.id, DefaultId(clock)),
      from := Or(e.from, UnknownSender),
      to := Or(e.to, UnknownRecipient),
      subject := Or(e.subject, NoSubject),
      content := e.content,
      preview := Or(e.preview, PreviewOf(e.content)),
      date := Or(e.date, clock.nowIso),
      timestamp := if e.timestamp != 0 then e.timestamp else clock.nowMs,
      read := false,
      rawContent := e.content,
      senderEmail := e.senderEmail)
  }

  /** The result before any parsing: given fields, the raw text as content, LinkedIn repair of an empty sender. */
  function Initial(e: Incoming, clock: Clock): (r: Email)
    ensures r.content == RawOf(e) && r.rawContent == RawOf(e) && r.preview == [] && !r.read
    ensures r.to == e.to && r.subject == e.subject
    ensures r.from != e.from ==> ProfileSlug(RawOf(e)).Some? && (e.from == [] || e.from == UnknownSender)
    ensures r.senderEmail != [] ==> r.senderEmail == VanityAddress(RawOf(e))
  {
    var raw := RawOf(e);
    var r := Email(
      id := Or(e.id, DefaultId(clock)), from := e.from, to := e.to, subject := e.subject,
      content := raw, preview := "", date := Or(e.date, clock.nowIso),
      timestamp := if e.timestamp != 0 then e.timestamp else clock.nowMs,
      read := false, rawContent := raw, senderEmail := "");
    var linkedIn := ProfileSlug(raw);
    if linkedIn.Some? && (r.from == [] || r.from == UnknownSender) then
      r.(from := LinkedInName(linkedIn.value), senderEmail := VanityAddress(raw))
    else r
  }

  /** The From step: a non-empty LinkedIn name wins; otherwise the header chain. */
  function FromStep(r: Email, headers: String, raw: String): (r': Email)
    ensures r'.from != []
    ensures r' == r.(from := r'.from, senderEmail := r'.senderEmail)
    ensures var slug := ProfileSlug(raw);
      slug.Some? && LinkedInName(slug.value) != [] ==> r'.from == LinkedInName(slug.value)
    ensures var slug := ProfileSlug(raw); var m := FromSearch(headers, raw);
      (slug.None? || LinkedInName(slug.value) == []) && (m.None? || m.value == []) ==>
        r'.from == UnknownSender && r'.senderEmail == r.senderEmail
    ensures var slug := ProfileSlug(raw); var m := FromSearch(headers, raw);
      (slug.None? || LinkedInName(slug.value) == []) && m.Some? && m.value != [] ==>
        r'.from == Or(SenderParts(m.value).0, UnknownSender) && r'.senderEmail == Or(SenderParts(m.value).1, r.senderEmail)
  {
    var linkedIn := ProfileSlug(raw);
    var fromName := if linkedIn.Some? then LinkedInName(linkedIn.value) else "";
    var fromEmail := if linkedIn.Some? then VanityAddress(raw) else "";
    if fromName != [] then
      r.(from := fromName, senderEmail := Or(fromEmail, r.senderEmail))
    else
      var m := FromSearch(headers, raw);
      if m.Some? && m.value != [] then
        var parts := SenderParts(m.value);
        r.(from := Or(parts.0, UnknownSender), senderEmail := Or(parts.1, r.senderEmail))
      else r.(from := UnknownSender)
  }

  function SubjectStep(r: Email, headers: String, raw: String): (r': Email)
    ensures r' == r.(subject := r'.subject)
  {
    var m := HeaderChain(headers, raw, "subject:");
    if m.Some? && m.value != [] then r.(subject := CleanSubject(m.value)) else r
  }

  function ToStep(r: Email, headers: String, raw: String): (r': Email)
    ensures r' == r.(to := r'.to)
  {
    var m := ToSearch(headers, raw);
    if m.Some? && m.value != [] then r.(to := CleanDisplay(m.value)) else r
  }

  function DateStep(r: Email, headers: String, raw: String, clock: Clock): (r': Email)
    ensures r' == r.(date := r'.date, timestamp := r'.timestamp)
  {
    var m := HeaderChain(headers, raw, "date:");
    if m.Some? && m.value != [] then
      match clock.parseDate(JsTrim(RemoveParens(m.value)))
      case Some(ms) => r.(date := clock.isoOf(ms), timestamp := ms)
      case None => r
    else r
  }

  function FallbackStep(r: Email, raw: String): (r': Email)
    ensures r' == r.(subject := r'.subject)
  {
    if r.subject == [] then
      match SubjectFallbackFrom(raw, 0)
      case Some(s) => r.(subject := s)
      case None => r
    else r
  }

  function BodyStep(r: Email, raw: String): (r': Email)
    requires raw != []
    ensures r'.content != []
    ensures r' == r.(content := r'.content, preview := r'.preview)
    ensures var body := BodyText(raw);
      && (body != [] && CleanBody(body) != [] ==> r'.content == CleanBody(body))
      && (body != [] && CleanBody(body) == [] ==> r'.content == body)
      && (body != [] ==> r'.preview == PreviewOf(r'.content))
      && (body == [] ==> r'.content == NormalizeCrLf(raw) && r'.preview == PreviewOf(raw))
  {
    var body := BodyText(raw);
    if body != [] then
      var clean := CleanBody(body);
      r.(content := Or(clean, body), preview := PreviewOf(Or(clean, body)))
    else
      r.(content := NormalizeCrLf(raw), preview := PreviewOf(raw))
  }

  /** The full parse of the raw text. */
  function FullParse(e: Incoming, clock: Clock): (r: Email)
    ensures r.content != [] && !r.read && r.rawContent == RawOf(e)
    ensures RawOf(e) != [] ==> r.from != []
  {
    var raw := RawOf(e);
    var r0 := Initial(e, clock);
    var r1 :=
      if raw != [] then
        var headers := SplitBlankLines(raw)[0];
        BodyStep(FallbackStep(DateStep(ToStep(SubjectStep(FromStep(r0, headers, raw), headers, raw), headers, raw), headers, raw, clock), raw), raw)
      else r0;
    if r1.content == [] then r1.(content := NoContent, preview := NoContent) else r1
  }

  // ---------------------------------------------------------------------------
  // Properties of the parse

  /** The shortcut keeps the given content as content and raw text and fills the defaults. */
  lemma ShortcutFields(e: Incoming, clock: Clock)
    requires HasParsedFields(e)
    ensures var r := Parsed(e, clock);
      && r.content == e.content && r.rawContent == e.content && !r.read
      && r.to == Or(e.to, UnknownRecipient) && r.subject == Or(e.subject, NoSubject)
      && r.preview == Or(e.preview, PreviewOf(e.content))
      && r.from == Or(Repaired(e).from, UnknownSender) && r.senderEmail == Repaired(e).senderEmail
  {
  }

  /** In the full parse a non-empty LinkedIn name is the sender, whatever the From headers say, and the vanity address (if any) its address. */
  lemma LinkedInWins(e: Incoming, clock: Clock, slug: String)
    requires !HasParsedFields(e) && ProfileSlug(RawOf(e)) == Some(slug) && LinkedInName(slug) != []
    ensures Parsed(e, clock).from == LinkedInName(slug)
    ensures VanityAddress(RawOf(e)) != [] ==> Parsed(e, clock).senderEmail == VanityAddress(RawOf(e))
  {
    var raw := RawOf(e);
    var headers := SplitBlankLines(raw)[0];
    var r1 := FromStep(Initial(e, clock), headers, raw);
    assert r1.from == LinkedInName(slug);
  }

  /** A bare `<addr>` sender keeps the brackets as its display text; the address is taken from inside them. */
  lemma BareAngleSender(a: String)
    requires |a| > 0 && '>' !in a
    ensures SenderParts("<" + a + ">") == ("<" + a + ">", JsTrim(a))
  {
    var s := "<" + a + ">";
    assert SkipWhile(s, 0, IsJsSpace) == 0;
    var m := FindChar(s, 1, '>');
    assert forall k :: 1 <= k < |s| - 1 ==> s[k] == a[k - 1];
    assert s[|s| - 1] == '>';
    assert forall k :: 0 <= k < |a| ==> a[k] != '>';
    assert forall k :: 1 <= k < |s| - 1 ==> s[k] != '>';
    assert AngleAddressAt(s, 0) == Some(a);
    assert NameAndAddress(s) == Some(([], a));
  }

  /** With a "Name" <addr> sender the trimmed name is the display text and the trimmed address the sender address. */
  lemma NamedSender(g: String, name: String, address: String)
    requires NameAndAddress(g) == Some((name, address)) && JsTrim(name) != []
    ensures SenderParts(g) == (JsTrim(name), JsTrim(address))
  {
  }

  /** Without a blank line the whole raw text, line endings normalised, is the content. */
  lemma NoBlankLineKeepsRawText(e: Incoming, clock: Clock)
    requires !HasParsedFields(e) && RawOf(e) != [] && FirstBlankLine(RawOf(e), 0).None?
    ensures Parsed(e, clock).content == NormalizeCrLf(RawOf(e))
    ensures Parsed(e, clock).preview == PreviewOf(RawOf(e))
  {
    var raw := RawOf(e);
    assert SplitBlankLines(raw) == [raw];
    assert BodyText(raw) == [];
  }

  /** An empty record (no content, no body) keeps its given fields and gets the placeholder content. */
  lemma EmptyRecord(e: Incoming, clock: Clock)
    requires e.content == [] && e.body == []
    ensures var r := Parsed(e, clock);
      && r.content == NoContent && r.preview == NoContent && r.rawContent == []
      && r.from == e.from && r.to == e.to && r.subject == e.subject && r.senderEmail == []
  {
    assert ProfileSlug([]) == None;
  }

  // ---------------------------------------------------------------------------
  // The mapping in fetchEmails

  /** One record of the search response as the inbox stores it. */
  function FetchRecord(e: Incoming, clock: Clock): (r: Email)
    ensures r.from != [] && r.subject != [] && r.content != [] && !r.read && r.senderEmail == []
    ensures r.id == Or(e.id, DefaultId(clock))
    ensures e.content != [] ==> r.content == e.content && r.rawContent == e.content && r.to == e.to
    ensures e.content != [] ==> r.preview == Or(e.preview, PreviewOf(e.content))
    ensures e.content != [] ==> r.from == Or(e.from, UnknownSender) && r.subject == Or(e.subject, NoSubject)
    ensures e.content != [] ==> r.date == Or(e.date, clock.nowIso)
    ensures e.content != [] ==> r.timestamp == if e.timestamp != 0 then e.timestamp else clock.nowMs
    ensures e.content == [] ==> var p := Parsed(e, clock);
      && r.rawContent == [] && r.content == p.content && r.preview == p.preview && r.to == p.to
      && r.from == Or(p.from, UnknownSender) && r.subject == Or(p.subject, NoSubject)
      && r.date == p.date && r.timestamp == p.timestamp
  {
    if e.content != [] then
      Email(
        id := Or(e.id, DefaultId(clock)), from := Or(e.from, UnknownSender), to := e.to,
        subject := Or(e.subject, NoSubject), content := e.content,
        preview := Or(e.preview, PreviewOf(e.content)), date := Or(e.date, clock.nowIso),
        timestamp := if e.timestamp != 0 then e.timestamp else clock.nowMs,
        read := false, rawContent := e.content, senderEmail := "")
    else
      var parsed := Parsed(e, clock);
      Email(
        id := Or(e.id, DefaultId(clock)), from := Or(parsed.from, UnknownSender), to := parsed.to,
        subject := Or(parsed.subject, NoSubject), content := parsed.content, preview := parsed.preview,
        date := parsed.date, timestamp := parsed.timestamp, read := false, rawContent := "",
        senderEmail := "")
  }

  /** `fetchEmails`: a response without an `emails` array gives the empty list; otherwise each record is mapped. */
  function FetchEmails(emails: Option<seq<Incoming>>, clock: Clock): (r: seq<Email>)
    ensures emails.None? ==> r == []
    ensures emails.Some? ==> |r| == |emails.value|
    ensures emails.Some? ==> forall i :: 0 <= i < |r| ==> r[i] == FetchRecord(emails.value[i], clock)
  {
    match emails
    case None => []
    case Some(list) => seq(|list|, i requires 0 <= i < |list| => FetchRecord(list[i], clock))
  }

  // ---------------------------------------------------------------------------
  // The input object and the imperative parser

  /** The loosely typed input object; the shortcut path writes `from` and `senderEmail` back into it. */
  class EmailInput {
    var id: String
    var from: String
    var to: String
    var subject: String
    var content: String
    var body: String
    var preview: String
    var date: String
    var timestamp: int
    var senderEmail: String

    function Value(): Incoming
      reads this
    {
      Incoming(id, from, to, subject, content, body, preview, date, timestamp, senderEmail)
    }

    constructor (v: Incoming)
      ensures Value() == v
    {
      id, from, to, subject, content, body := v.id, v.from, v.to, v.subject, v.content, v.body;
      preview, date, timestamp, senderEmail := v.preview, v.date, v.timestamp, v.senderEmail;
    }
  }

  /** The sender block of `parseEmailContent`: LinkedIn name first, else the From chain and its cleanup. */
  method ParseSender(r0: Email, headers: String, raw: String) returns (result: Email)
    ensures result == FromStep(r0, headers, raw)
  {
    result := r0;
    var fromEmail, fromName := "", "";
    var linkedIn := ProfileSlug(raw);
    if linkedIn.Some? {
      fromName := LinkedInName(linkedIn.value);
      var vanity := VanityFrom(raw, 0);
      if vanity.Some? {
        fromEmail := vanity.value + "@linkedin.com";
      }
    }
    var fromMatch: Option<String> := None;
    if fromName == [] {
      fromMatch := FromSearch(headers, raw);
    }
    if fromName != [] {
      result := result.(from := fromName);
      if fromEmail != [] {
        result := result.(senderEmail := fromEmail);
      }
    } else if fromMatch.Some? && fromMatch.value != [] {
      var parts := SenderParts(fromMatch.value);
      result := result.(from := if parts.0 != [] then parts.0 else UnknownSender);
      if parts.1 != [] {
        result := result.(senderEmail := parts.1);
      }
    } else {
      result := result.(from := UnknownSender);
    }
  }

  /** The subject fallback loop: the first pattern whose value is not blank sets the subject, then the loop stops. */
  method SubjectFallback(r0: Email, raw: String) returns (result: Email)
    ensures result == FallbackStep(r0, raw)
  {
    result := r0;
    if result.subject == [] {
      for k := 0 to 3
        invariant result == r0 && SubjectFallbackFrom(raw, k) == SubjectFallbackFrom(raw, 0)
      {
        var m := SubjectPattern(raw, k);
        if m.Some? && m.value != [] {
          var subject := JsTrim(m.value);
          if subject != [] {
            result := result.(subject := CleanSubject(subject));
            break;
          }
        }
      }
    }
  }

  /** The shortcut's repair of the input object: a LinkedIn link in the content fills a missing sender. */
  method RepairSender(email: EmailInput)
    requires HasParsedFields(email.Value())
    modifies email
    ensures email.Value() == Repaired(old(email.Value()))
  {
    if email.from == [] || email.from == UnknownSender {
      var linkedIn := ProfileSlug(email.content);
      if linkedIn.Some? {
        var name := LinkedInName(linkedIn.value);
        var sender := VanitySender(email.content, email.senderEmail);
        email.from, email.senderEmail := name, sender;
      }
    }
  }

  /** The result before parsing: given fields, the raw text as content, the LinkedIn repair of an empty sender. */
  method InitialResult(email: Incoming, clock: Clock) returns (result: Email)
    ensures result == Initial(email, clock)
  {
    var raw := if email.content != [] then email.content else email.body;
    result := Email(
      id := if email.id != [] then email.id else DefaultId(clock),
      from := email.from, to := email.to, subject := email.subject,
      content := raw, preview := "",
      date := if email.date != [] then email.date else clock.nowIso,
      timestamp := if email.timestamp != 0 then email.timestamp else clock.nowMs,
      read := false, rawContent := raw, senderEmail := "");
    assert raw == RawOf(email) && result.id == Or(email.id, DefaultId(clock)) && result.date == Or(email.date, clock.nowIso);
    ghost var base := result;
    var linkedIn := ProfileSlug(raw);
    if linkedIn.Some? {
      var name := LinkedInName(linkedIn.value);
      if result.from == [] || result.from == UnknownSender {
        result := result.(from := name);
        var vanity := VanityFrom(raw, 0);
        if vanity.Some? {
          result := result.(senderEmail := vanity.value + "@linkedin.com");
        }
        assert result == base.(from := name, senderEmail := VanityAddress(raw));
      }
    }
  }

  /** Subject, To and Date from the header chains. */
  method ParseHeaderFields(r0: Email, headers: String, raw: String, clock: Clock) returns (result: Email)
    ensures result == DateStep(ToStep(SubjectStep(r0, headers, raw), headers, raw), headers, raw, clock)
  {
    result := r0;
    var subjectMatch := HeaderChain(headers, raw, "subject:");
    if subjectMatch.Some? && subjectMatch.value != [] {
      result := result.(subject := CleanSubject(subjectMatch.value));
    }
    ghost var r1 := result;
    var toMatch := ToSearch(headers, raw);
    if toMatch.Some? && toMatch.value != [] {
      result := result.(to := CleanDisplay(toMatch.value));
    }
    ghost var r2 := result;
    var dateMatch := HeaderChain(headers, raw, "date:");
    if dateMatch.Some? && dateMatch.value != [] {
      var when := clock.parseDate(JsTrim(RemoveParens(dateMatch.value)));
      if when.Some? {
        result := result.(date := clock.isoOf(when.value), timestamp := when.value);
      }
    }
  }

  /** The body: text after the first blank line, cleaned, else the whole raw text. */
  method ParseBody(r0: Email, raw: String) returns (result: Email)
    requires raw != []
    ensures result == BodyStep(r0, raw)
  {
    result := r0;
    var contentMatch := BodyText(raw);
    if contentMatch != [] {
      var cleanContent := CleanBody(contentMatch);
      result := result.(content := if cleanContent != [] then cleanContent else contentMatch);
      result := result.(preview := PreviewOf(if cleanContent != [] then cleanContent else contentMatch));
    } else {
      result := result.(content := NormalizeCrLf(raw), preview := PreviewOf(raw));
    }
  }

  /** The full parse of the raw text, step by step. */
  method ParseRaw(email: Incoming, clock: Clock) returns (result: Email)
    ensures result == FullParse(email, clock)
  {
    var raw := if email.content != [] then email.content else email.body;
    result := InitialResult(email, clock);
    if raw != [] {
      var headers := SplitBlankLines(raw)[0];
      result := ParseSender(result, headers, raw);
      result := ParseHeaderFields(result, headers, raw, clock);
      result := SubjectFallback(result, raw);
      result := ParseBody(result, raw);
    }
    if result.content == [] {
      result := result.(content := NoContent, preview := NoContent);
    }
  }

  /** `parseEmailContent`: the shortcut for records that are already parsed, else the full parse. */
  method ParseEmailContent(email: EmailInput, clock: Clock) returns (r: Email)
    modifies email
    ensures email.Value() == Repaired(old(email.Value()))
    ensures r == Parsed(old(email.Value()), clock)
  {
    if email.content != [] && (email.from != [] || email.to != [] || email.subject != []) {
      RepairSender(email);
      r := Shortcut(email.Value(), clock);
      return;
    }
    r := ParseRaw(email.Value(), clock);
  }
}
