/**
 * The fast email search route: it reads the stored JSON messages one by one,
 * rebuilds sender, recipient, subject and date from the stored fields and a
 * header dictionary parsed from the raw text, and keeps at most `limit`
 * entries that pass the date and query filters. As written, the route's own
 * `import re` leaves `re` unbound until a message with an invitation link has
 * been read, and every other message read before that is skipped.
 */
module EmailFastSearch {
  import opened Wrappers
  import opened Text
  import opened EmailScan
  import EmailSearch

  /** A stored message's date: missing or falsy, a number, or text. */
  datatype StoredDate = NoDate | NumDate(n: int) | TextDate(s: String)

  /**
   * The fields of one stored message the route reads; a missing, `None` or
   * empty value is "".
   */
  datatype StoredEmail = StoredEmail(
    content: String, body: String, text: String, rawContent: String,
    from: String, sender: String, to: String, subject: String, date: StoredDate)

  /** One `*.json` file: its stem and its parsed object, `None` when it is not valid JSON or not an object. */
  datatype EmailFile = EmailFile(stem: String, data: Option<StoredEmail>)

  /** A parsed ISO date: milliseconds, and whether it carried a UTC offset. */
  datatype ParsedDate = ParsedDate(ms: int, aware: bool)

  /** The entry the route returns for one message. */
  datatype FastHit = FastHit(id: String, from: String, to: String, subject: String,
                             content: String, date: StoredDate, timestamp: int)

  /** The raw text: 'content', else 'body', else 'text', else 'raw_content'. */
  function RawText(d: StoredEmail): String {
    Or(Or(Or(d.content, d.body), d.text), d.rawContent)
  }

  /** `headers.get(key, default)`. */
  function Get(headers: map<String, String>, key: String, default: String): String {
    if key in headers then headers[key] else default
  }

  // ---------------------------------------------------------------------------
  // Header dictionary

  /** The header block: the text before the first blank line, when that line does not start the text. */
  function HeaderBlock(raw: String): Option<String> {
    match IndexOfFrom(raw, "\n\n", 0)
    case Some(e) => if e > 0 then Some(raw[..e]) else None
    case None => None
  }

  /** `key, value = line.split(':', 1)` for a line holding ':', with the key stripped and lower-cased and the value stripped. */
  function HeaderEntry(line: String): Option<(String, String)> {
    if ':' in line then
      var c := FindChar(line, 0, ':');
      Some((LowerStr(PyStrip(line[..c])), PyStrip(line[c + 1..])))
    else None
  }

  /** A line is split at its first ':', so the value may itself hold colons. */
  lemma HeaderEntrySplitsAtFirstColon(k: String, v: String)
    requires ':' !in k
    ensures HeaderEntry(k + ":" + v) == Some((LowerStr(PyStrip(k)), PyStrip(v)))
  {
    var line := k + ":" + v;
    assert line[|k|] == ':';
    assert forall i :: 0 <= i < |k| ==> line[i] == k[i];
    assert FindChar(line, 0, ':') == |k|;
    assert line[..|k|] == k;
    assert line[|k| + 1..] == v;
  }

  /** The dictionary built from `lines`, `entry` reading one line; a later line overwrites an earlier key. */
  function Overwrite(lines: seq<String>, entry: String -> Option<(String, String)>): map<String, String> {
    if lines == [] then map[]
    else
      var m := Overwrite(lines[..|lines| - 1], entry);
      match entry(lines[|lines| - 1])
      case Some(e) => m[e.0 := e.1]
      case None => m
  }

  function Headers(raw: String): map<String, String> {
    match HeaderBlock(raw)
    case Some(h) => Overwrite(Split(h, '\n'), HeaderEntry)
    case None => map[]
  }

  /** Some line has the key. */
  predicate HasKey(lines: seq<String>, entry: String -> Option<(String, String)>, key: String) {
    exists j :: 0 <= j < |lines| && entry(lines[j]).Some? && entry(lines[j]).value.0 == key
  }

  /** A key is in the dictionary exactly when some line has it. */
  lemma {:induction false} OverwriteKeys(lines: seq<String>, entry: String -> Option<(String, String)>, key: String)
    ensures key in Overwrite(lines, entry) <==> HasKey(lines, entry, key)
  {
    if lines != [] {
      var n := |lines| - 1;
      OverwriteKeys(lines[..n], entry, key);
      if HasKey(lines[..n], entry, key) {
        var j :| 0 <= j < n && entry(lines[..n][j]).Some? && entry(lines[..n][j]).value.0 == key;
        assert lines[j] == lines[..n][j];
      }
      if HasKey(lines, entry, key) {
        var j :| 0 <= j < |lines| && entry(lines[j]).Some? && entry(lines[j]).value.0 == key;
        if j < n {
          assert lines[..n][j] == lines[j];
        }
      }
    }
  }

  /** The value of a key is the one on the last line that has that key. */
  lemma {:induction false} OverwriteLastWins(lines: seq<String>, entry: String -> Option<(String, String)>, j: nat)
    requires j < |lines| && entry(lines[j]).Some?
    requires forall k :: j < k < |lines| && entry(lines[k]).Some? ==> entry(lines[k]).value.0 != entry(lines[j]).value.0
    ensures entry(lines[j]).value.0 in Overwrite(lines, entry)
    ensures Overwrite(lines, entry)[entry(lines[j]).value.0] == entry(lines[j]).value.1
  {
    var n := |lines| - 1;
    if j < n {
      forall k | j < k < n && entry(lines[..n][k]).Some?
        ensures entry(lines[..n][k]).value.0 != entry(lines[..n][j]).value.0
      {
        assert lines[..n][k] == lines[k];
      }
      assert lines[..n][j] == lines[j];
      OverwriteLastWins(lines[..n], entry, j);
    }
  }

  /** Text without a blank line, or starting with one, yields no headers. */
  lemma NoBlankLineNoHeaders(raw: String)
    requires forall k :: 0 < k ==> !OccursAt(raw, "\n\n", k)
    ensures Headers(raw) == map[]
  {
  }

  /** The route's header parse: the loop over the header block's lines, if there is a block. */
  method ParseHeaders(raw: String) returns (headers: map<String, String>)
    ensures headers == Headers(raw)
  {
    headers := map[];
    var found := IndexOfFrom(raw, "\n\n", 0);
    if found.Some? && found.value > 0 {
      assert HeaderBlock(raw) == Some(raw[..found.value]);
      headers := HeaderLoop(Split(raw[..found.value], '\n'));
    }
  }

  /** The header loop: each line holding ':' sets its key. */
  method HeaderLoop(lines: seq<String>) returns (headers: map<String, String>)
    ensures headers == Overwrite(lines, HeaderEntry)
  {
    headers := map[];
    for k := 0 to |lines|
      invariant headers == Overwrite(lines[..k], HeaderEntry)
    {
      assert lines[..k + 1][..k] == lines[..k];
      var line := lines[k];
      if ':' in line {
        var c := FindChar(line, 0, ':');
        headers := headers[LowerStr(PyStrip(line[..c])) := PyStrip(line[c + 1..])];
      }
    }
    assert lines[..|lines|] == lines;
  }

  // ---------------------------------------------------------------------------
  // Sender, recipient and subject

  /** The marker of a LinkedIn invitation in the raw text. */
  const Invitation: String := "linkedin.com/invite/"

  /** The LinkedIn repair: the profile slug as a title-cased name, else the 'would like to connect' name if still no sender. */
  function LinkedInSender(from: String, raw: String): String {
    var a :=
      match LinkedInSlug(raw, false, IsPySpace)
      case Some(slug) => TitlePy(ReplaceChar(slug, '-', ' '))
      case None => from;
    if a == "" || a == EmailSearch.UnknownSender then
      match ConnectNameFrom(raw, 0)
      case Some(g) => PyStrip(g)
      case None => a
    else a
  }

  /** A sender with both '<' and '>' keeps the text between the last '<' and the next '>'. */
  function Unbracket(from: String): String {
    if '<' in from && '>' in from then PyStrip(FirstPiece(LastPiece(from, '<'), '>')) else from
  }

  /** The sender before the `From:` line fallback: the stored or header sender, the LinkedIn repair, and the bracket cleanup. */
  function Repaired(d: StoredEmail, headers: map<String, String>): String {
    var raw := RawText(d);
    var f0 := Or(Or(d.from, d.sender), Get(headers, "from", ""));
    Unbracket(if Contains(raw, Invitation) then LinkedInSender(f0, raw) else f0)
  }

  /** A `From:` line of the text, stripped, or `fallback` when the text has none. */
  function FromLineOr(raw: String, fallback: String): String {
    match PyFromField(raw)
    case Some(g) => PyStrip(g)
    case None => fallback
  }

  /**
   * The sender: 'from', else 'sender', else the 'from' header; the LinkedIn
   * repair when the text holds an invitation link; the bracket cleanup; and
   * a `From:` line of the text when nothing usable was found.
   */
  function Sender(d: StoredEmail, headers: map<String, String>): (r: String)
    // the stored sender wins whenever it is usable as it stands
    ensures (d.from != "" && d.from != EmailSearch.UnknownSender && !('<' in d.from && '>' in d.from)
             && !Contains(RawText(d), Invitation)) ==> r == d.from
    // with no stored sender, a usable 'sender' field comes next
    ensures (d.from == "" && d.sender != "" && d.sender != EmailSearch.UnknownSender && !('<' in d.sender && '>' in d.sender)
             && !Contains(RawText(d), Invitation)) ==> r == d.sender
    // with neither, a usable 'from' header
    ensures (d.from == "" && d.sender == "" && "from" in headers && headers["from"] != "" && headers["from"] != EmailSearch.UnknownSender
             && !('<' in headers["from"] && '>' in headers["from"]) && !Contains(RawText(d), Invitation)) ==> r == headers["from"]
    // with none of the three, a `From:` line of the text, else ''
    ensures (d.from == "" && d.sender == "" && Get(headers, "from", "") == "" && !Contains(RawText(d), Invitation))
            ==> r == FromLineOr(RawText(d), "")
    // a stored 'Unknown Sender' gives way to a `From:` line of the text
    ensures (d.from == EmailSearch.UnknownSender && !Contains(RawText(d), Invitation))
            ==> r == FromLineOr(RawText(d), EmailSearch.UnknownSender)
    // whatever the repair left, an empty or 'Unknown Sender' value gives way to a `From:` line
    ensures var c := Repaired(d, headers);
      (c == "" || c == EmailSearch.UnknownSender ==> r == FromLineOr(RawText(d), c))
      && (c != "" && c != EmailSearch.UnknownSender ==> r == c)
  {
    UnknownSenderUnbracketed();
    var c := Repaired(d, headers);
    if c == "" || c == EmailSearch.UnknownSender then FromLineOr(RawText(d), c) else c
  }

  /** The default sender holds no bracket, so the cleanup keeps it. */
  lemma UnknownSenderUnbracketed()
    ensures Unbracket(EmailSearch.UnknownSender) == EmailSearch.UnknownSender
  {
    var u := EmailSearch.UnknownSender;
    assert forall k :: 0 <= k < |u| ==> u[k] != '<';
  }

  /** A bracketed sender comes out free of both brackets; any other sender is left as it is. */
  lemma UnbracketRemovesBrackets(from: String)
    ensures '<' in from && '>' in from ==> '<' !in Unbracket(from) && '>' !in Unbracket(from)
    ensures !('<' in from && '>' in from) ==> Unbracket(from) == from
  {
    if '<' in from && '>' in from {
      var p1 := LastPiece(from, '<');
      var p2 := FirstPiece(p1, '>');
      if '<' in p2 {
        SplitPartsWithin(p1, '>', 0, '<');
      }
      PyStripKeepsAbsent(p2, '<');
      PyStripKeepsAbsent(p2, '>');
    }
  }

  /**
   * The cleaned sender is the stripped text between the last '<', at `i`, and
   * the first '>' after it, at `j` (or the end when no '>' follows).
   */
  lemma UnbracketValue(from: String, i: nat, j: nat)
    requires '>' in from
    requires i < j <= |from| && from[i] == '<' && '<' !in from[i + 1..]
    requires '>' !in from[i + 1..j] && (j < |from| ==> from[j] == '>')
    ensures Unbracket(from) == PyStrip(from[i + 1..j])
  {
    LastPieceAt(from, '<', i);
    var p := from[i + 1..];
    assert p[..j - i - 1] == from[i + 1..j];
    FirstPieceAt(p, '>', j - i - 1);
  }

  /** The cleanup is idempotent: a cleaned sender is left alone. */
  lemma UnbracketIdempotent(from: String)
    ensures Unbracket(Unbracket(from)) == Unbracket(from)
  {
    UnbracketRemovesBrackets(from);
    UnbracketRemovesBrackets(Unbracket(from));
  }

  /** The recipient: 'to', else the 'to' header. */
  function Recipient(d: StoredEmail, headers: map<String, String>): String {
    Or(d.to, Get(headers, "to", ""))
  }

  /** `^(Re:|Fwd:)\s*` case-sensitively, then `strip()`: one leading prefix dropped. */
  function CleanSubject(s: String): (r: String)
    ensures |r| <= |s|
  {
    var p := if StartsWith(s, "Re:") then 3 else if StartsWith(s, "Fwd:") then 4 else 0;
    PyStrip(s[p..])
  }

  /** The subject: 'subject', else the 'subject' header (which may be empty), else 'No Subject'; then cleaned. */
  function Subject(d: StoredEmail, headers: map<String, String>): (r: String)
    ensures d.subject != "" ==> r == CleanSubject(d.subject) && |r| <= |d.subject|
    ensures d.subject == "" && "subject" in headers ==> r == CleanSubject(headers["subject"])
    ensures d.subject == "" && "subject" !in headers ==> r == EmailSearch.NoSubject
    ensures d.subject == "" && "subject" in headers && headers["subject"] == "" ==> r == ""
  {
    NoSubjectKept();
    CleanSubject(Or(d.subject, Get(headers, "subject", EmailSearch.NoSubject)))
  }

  /** The default 'No Subject' comes through the cleanup unchanged. */
  lemma NoSubjectKept()
    ensures CleanSubject(EmailSearch.NoSubject) == EmailSearch.NoSubject
  {
    var n := EmailSearch.NoSubject;
    assert !StartsWith(n, "Re:") && !StartsWith(n, "Fwd:") by { assert n[0] == 'N'; }
    UnprefixedSubjectIsStripped(n);
    assert !IsPySpace(n[0]) && !IsPySpace(n[|n| - 1]);
    StripEndsBare(n, IsPySpace, IsPySpace);
  }

  /** Only one prefix is dropped: 'Re: Re: x' keeps its second 'Re:'. */
  lemma OnePrefixDropped(t: String)
    ensures CleanSubject("Re:" + t) == PyStrip(t)
    ensures CleanSubject("Fwd:" + t) == PyStrip(t)
  {
    assert ("Re:" + t)[3..] == t;
    assert StartsWith("Re:" + t, "Re:");
    assert ("Fwd:" + t)[4..] == t;
    assert !StartsWith("Fwd:" + t, "Re:") by { assert ("Fwd:" + t)[0] == 'F'; }
  }

  /** A subject without either prefix is only stripped; the match is case-sensitive, so 're:' stays. */
  lemma UnprefixedSubjectIsStripped(s: String)
    requires !StartsWith(s, "Re:") && !StartsWith(s, "Fwd:")
    ensures CleanSubject(s) == PyStrip(s)
  {
    assert s[0..] == s;
  }

  // ---------------------------------------------------------------------------
  // Dates

  const MsPerDay: int := 86_400_000

  /** The first second `datetime` can hold, 0001-01-01T00:00:00 UTC, and the first one past 9999-12-31T23:59:59 UTC. */
  const MinSeconds: int := -62_135_596_800
  const EndSeconds: int := 253_402_300_800

  /** A millisecond instant within the years 1 to 9999. */
  predicate Representable(ms: int) {
    -62_135_596_800_000 <= ms < 253_402_300_800_000
  }

  /**
   * A number above 10^12 is read as milliseconds, otherwise as seconds;
   * `datetime.fromtimestamp` raises `ValueError` for an instant outside the
   * years 1 to 9999, which gives `None` here.
   */
  function NumericMs(n: int): Option<int> {
    var m := if n > 1_000_000_000_000 then n else n * 1000;
    if Representable(m) then Some(m) else None
  }

  /** How a number is read: milliseconds above 10^12, seconds otherwise, and only within the years 1 to 9999. */
  lemma NumericMsReading(n: int)
    ensures var ms := NumericMs(n);
      && (ms.Some? ==> Representable(ms.value))
      && (n > 1_000_000_000_000 ==> (ms.Some? <==> n < EndSeconds * 1000) && (ms.Some? ==> ms.value == n))
      && (n <= 1_000_000_000_000 ==> (ms.Some? <==> MinSeconds <= n < EndSeconds) && (ms.Some? ==> ms.value == n * 1000))
  {
  }

  /**
   * Every number from just past year 9999 in seconds up to 10^12 is read as
   * seconds and so falls out of range: a millisecond stamp of 1978 to 2001
   * (800000000000 is in 1995) loses its date.
   */
  lemma SecondsPastYear9999Rejected(n: int)
    requires EndSeconds <= n <= 1_000_000_000_000
    ensures NumericMs(n).None?
  {
  }

  /** Whole days from `ms` to `nowMs`, rounded down as `timedelta.days` does. */
  function AgeDays(nowMs: int, ms: int): int {
    (nowMs - ms) / MsPerDay
  }

  /** The timestamp entered for a message, and whether the day filter drops it. */
  datatype DateOutcome = DateOutcome(timestamp: int, dropped: bool)

  /**
   * The date handling: a number as seconds or milliseconds; text through the
   * ISO parser after 'Z' becomes '+00:00' (a parse failure gives timestamp 0
   * and no filtering). Comparing the clock's naive time with an offset-carrying
   * date raises the caught `TypeError`, so such dates are never dropped.
   */
  function DateStep(date: StoredDate, days: int, nowMs: int, parseIso: String -> Option<ParsedDate>): (o: DateOutcome)
    ensures o.dropped ==> days > 0
  {
    match date
    case NoDate => DateOutcome(0, false)
    case NumDate(n) =>
      var ms := NumericMs(n);
      if ms.None? then DateOutcome(0, false)
      else DateOutcome(ms.value, days > 0 && AgeDays(nowMs, ms.value) > days)
    case TextDate(s) =>
      match parseIso(ReplaceAll(s, "Z", "+00:00"))
      case None => DateOutcome(0, false)
      case Some(p) => DateOutcome(p.ms, days > 0 && !p.aware && AgeDays(nowMs, p.ms) > days)
  }

  /** A number outside the years 1 to 9999 leaves the timestamp at 0 and is never filtered; one inside gives its instant. */
  lemma NumericDateStep(n: int, days: int, nowMs: int, parseIso: String -> Option<ParsedDate>)
    ensures var o := DateStep(NumDate(n), days, nowMs, parseIso);
      && (NumericMs(n).None? ==> o == DateOutcome(0, false))
      && (NumericMs(n).Some? ==> o.timestamp == NumericMs(n).value && Representable(o.timestamp))
  {
  }

  /** A date that counts as present: Python's truthiness of the stored value. */
  predicate Truthy(date: StoredDate) {
    match date
    case NoDate => false
    case NumDate(n) => n != 0
    case TextDate(s) => s != ""
  }

  /** 'date', else the 'date' header. */
  function DateOf(d: StoredEmail, headers: map<String, String>): StoredDate {
    if Truthy(d.date) then d.date
    else
      var h := Get(headers, "date", "");
      if h != "" then TextDate(h) else NoDate
  }

  // ---------------------------------------------------------------------------
  // One file, and the whole listing

  /** The lower-cased query occurs in the lower-cased subject, sender, recipient or text. */
  predicate MatchesQuery(h: FastHit, q: String) {
    Contains(LowerStr(h.subject), q) || Contains(LowerStr(h.from), q)
    || Contains(LowerStr(h.to), q) || Contains(LowerStr(h.content), q)
  }

  /** The date outcome of a stored message. */
  function Outcome(d: StoredEmail, days: int, nowMs: int, parseIso: String -> Option<ParsedDate>): DateOutcome {
    DateStep(DateOf(d, Headers(RawText(d))), days, nowMs, parseIso)
  }

  /** The entry built for a stored message. */
  function EntryFor(stem: String, d: StoredEmail, timestamp: int): (h: FastHit)
    ensures h.id == stem && h.content == RawText(d) && h.timestamp == timestamp
  {
    var raw := RawText(d);
    var headers := Headers(raw);
    FastHit(stem, Sender(d, headers), Recipient(d, headers), Subject(d, headers), raw, DateOf(d, headers), timestamp)
  }

  /**
   * The entry for one file once the name `re` is bound, or `None` when it is
   * skipped: unreadable, dropped by the date filter, or not matching the query.
   */
  function Process(f: EmailFile, query: String, days: int, nowMs: int, parseIso: String -> Option<ParsedDate>): (r: Option<FastHit>)
    ensures f.data.None? ==> r.None?
    ensures r.Some? ==> r.value.id == f.stem && r.value.content == RawText(f.data.value)
                        && !Outcome(f.data.value, days, nowMs, parseIso).dropped
                        && (query == "" || MatchesQuery(r.value, LowerStr(query)))
  {
    match f.data
    case None => None
    case Some(d) =>
      var o := Outcome(d, days, nowMs, parseIso);
      if o.dropped then None
      else
        var h := EntryFor(f.stem, d, o.timestamp);
        if query != "" && !MatchesQuery(h, LowerStr(query)) then None else Some(h)
  }

  // ---------------------------------------------------------------------------
  // The function-local `import re`

  /**
   * A file whose processing binds the name `re`: a readable message whose raw
   * text holds an invitation link reaches the `import re` of the invitation
   * branch.
   */
  predicate BindsRe(f: EmailFile) {
    f.data.Some? && Contains(RawText(f.data.value), Invitation)
  }

  /** Some file among `files` has bound `re`. */
  predicate ReBoundBy(files: seq<EmailFile>) {
    exists j :: 0 <= j < |files| && BindsRe(files[j])
  }

  /**
   * The entry for one file as the route is written. Its `import re` makes
   * `re` a local name of the whole function, so while no file has bound it, a
   * readable message without an invitation link raises `UnboundLocalError` at
   * the subject cleanup (or at the `From:` search before it), and the handler
   * for any exception skips the file.
   */
  function ProcessAsWritten(f: EmailFile, reBound: bool, query: String, days: int, nowMs: int, parseIso: String -> Option<ParsedDate>): (r: Option<FastHit>)
    ensures reBound || BindsRe(f) ==> r == Process(f, query, days, nowMs, parseIso)
    ensures !reBound && !BindsRe(f) ==> r.None?
  {
    if !reBound && !BindsRe(f) then None else Process(f, query, days, nowMs, parseIso)
  }

  /**
   * Once `re` is bound, a readable file kept by the date filter whose entry
   * matches the query is kept; an invitation message binds it itself.
   */
  lemma ProcessComplete(f: EmailFile, reBound: bool, query: String, days: int, nowMs: int, parseIso: String -> Option<ParsedDate>)
    requires reBound || BindsRe(f)
    requires f.data.Some? && !Outcome(f.data.value, days, nowMs, parseIso).dropped
    requires var h := EntryFor(f.stem, f.data.value, Outcome(f.data.value, days, nowMs, parseIso).timestamp);
      query == "" || MatchesQuery(h, LowerStr(query))
    ensures ProcessAsWritten(f, reBound, query, days, nowMs, parseIso).Some?
  {
  }

  /** `re` is bound after the first `k + 1` files exactly when it was after `k`, or file `k` binds it. */
  lemma ReBoundByStep(files: seq<EmailFile>, k: nat)
    requires k < |files|
    ensures ReBoundBy(files[..k + 1]) <==> ReBoundBy(files[..k]) || BindsRe(files[k])
  {
    assert files[..k + 1] == files[..k] + [files[k]];
  }

  // ---------------------------------------------------------------------------
  // The whole listing

  /** The outcome of each file as intended, in file order. */
  function Outcomes(files: seq<EmailFile>, query: String, days: int, nowMs: int, parseIso: String -> Option<ParsedDate>): (o: seq<Option<FastHit>>)
    ensures |o| == |files| && forall i :: 0 <= i < |files| ==> o[i] == Process(files[i], query, days, nowMs, parseIso)
  {
    seq(|files|, i requires 0 <= i < |files| => Process(files[i], query, days, nowMs, parseIso))
  }

  /** The entries of all files that are not skipped, as intended, in file order. */
  function Selected(files: seq<EmailFile>, query: String, days: int, nowMs: int, parseIso: String -> Option<ParsedDate>): seq<FastHit> {
    Somes(Outcomes(files, query, days, nowMs, parseIso))
  }

  /** The outcome of each file as written: `re` is bound once any earlier file has bound it. */
  function AsWrittenOutcomes(files: seq<EmailFile>, query: String, days: int, nowMs: int, parseIso: String -> Option<ParsedDate>): (o: seq<Option<FastHit>>)
    ensures |o| == |files|
    ensures forall i :: 0 <= i < |files| ==> o[i] == ProcessAsWritten(files[i], ReBoundBy(files[..i]), query, days, nowMs, parseIso)
  {
    seq(|files|, i requires 0 <= i < |files| => ProcessAsWritten(files[i], ReBoundBy(files[..i]), query, days, nowMs, parseIso))
  }

  /** The entries of all files that are not skipped, as written, in file order. */
  function AsWrittenSelected(files: seq<EmailFile>, query: String, days: int, nowMs: int, parseIso: String -> Option<ParsedDate>): seq<FastHit> {
    Somes(AsWrittenOutcomes(files, query, days, nowMs, parseIso))
  }

  /** The outcomes of a prefix of the files are a prefix of the outcomes. */
  lemma OutcomesPrefix(files: seq<EmailFile>, k: nat, query: String, days: int, nowMs: int, parseIso: String -> Option<ParsedDate>)
    requires k <= |files|
    ensures Outcomes(files[..k], query, days, nowMs, parseIso) == Outcomes(files, query, days, nowMs, parseIso)[..k]
    ensures AsWrittenOutcomes(files[..k], query, days, nowMs, parseIso) == AsWrittenOutcomes(files, query, days, nowMs, parseIso)[..k]
  {
    forall i | 0 <= i < k
      ensures files[..k][..i] == files[..i]
    {
    }
  }

  /** The entries of a prefix of the files are a prefix of the entries. */
  lemma SelectedPrefix(files: seq<EmailFile>, k: nat, query: String, days: int, nowMs: int, parseIso: String -> Option<ParsedDate>)
    requires k <= |files|
    ensures Selected(files[..k], query, days, nowMs, parseIso) <= Selected(files, query, days, nowMs, parseIso)
    ensures AsWrittenSelected(files[..k], query, days, nowMs, parseIso) <= AsWrittenSelected(files, query, days, nowMs, parseIso)
  {
    OutcomesPrefix(files, k, query, days, nowMs, parseIso);
    SomesPrefix(Outcomes(files, query, days, nowMs, parseIso), k);
    SomesPrefix(AsWrittenOutcomes(files, query, days, nowMs, parseIso), k);
  }

  /** One more file adds its entry, when it is kept, at the end. */
  lemma SelectedGrows(files: seq<EmailFile>, k: nat, query: String, days: int, nowMs: int, parseIso: String -> Option<ParsedDate>)
    requires k < |files|
    ensures var h := Process(files[k], query, days, nowMs, parseIso);
      Selected(files[..k + 1], query, days, nowMs, parseIso)
      == if h.Some? then Selected(files[..k], query, days, nowMs, parseIso) + [h.value] else Selected(files[..k], query, days, nowMs, parseIso)
  {
    OutcomesPrefix(files, k, query, days, nowMs, parseIso);
    OutcomesPrefix(files, k + 1, query, days, nowMs, parseIso);
    SomesStep(Outcomes(files, query, days, nowMs, parseIso), k);
  }

  /** As written, one more file adds its entry, when it is kept with `re` as the earlier files left it, at the end. */
  lemma AsWrittenSelectedGrows(files: seq<EmailFile>, k: nat, query: String, days: int, nowMs: int, parseIso: String -> Option<ParsedDate>)
    requires k < |files|
    ensures var h := ProcessAsWritten(files[k], ReBoundBy(files[..k]), query, days, nowMs, parseIso);
      AsWrittenSelected(files[..k + 1], query, days, nowMs, parseIso)
      == if h.Some? then AsWrittenSelected(files[..k], query, days, nowMs, parseIso) + [h.value] else AsWrittenSelected(files[..k], query, days, nowMs, parseIso)
  {
    OutcomesPrefix(files, k, query, days, nowMs, parseIso);
    OutcomesPrefix(files, k + 1, query, days, nowMs, parseIso);
    SomesStep(AsWrittenOutcomes(files, query, days, nowMs, parseIso), k);
  }

  /** Every entry comes from some file and passes the query, as intended and as written. */
  lemma SelectedMatch(files: seq<EmailFile>, query: String, days: int, nowMs: int, parseIso: String -> Option<ParsedDate>, i: nat)
    requires i < |Selected(files, query, days, nowMs, parseIso)|
    ensures var h := Selected(files, query, days, nowMs, parseIso)[i];
      (query == "" || MatchesQuery(h, LowerStr(query))) && exists j :: 0 <= j < |files| && files[j].stem == h.id
  {
    var o := Outcomes(files, query, days, nowMs, parseIso);
    SomesFrom(o, i);
    var j :| 0 <= j < |o| && o[j] == Some(Somes(o)[i]);
  }

  /** An entry kept as written is the entry kept as intended, so it too comes from a file and passes the query. */
  lemma AsWrittenSelectedMatch(files: seq<EmailFile>, query: String, days: int, nowMs: int, parseIso: String -> Option<ParsedDate>, i: nat)
    requires i < |AsWrittenSelected(files, query, days, nowMs, parseIso)|
    ensures var h := AsWrittenSelected(files, query, days, nowMs, parseIso)[i];
      (query == "" || MatchesQuery(h, LowerStr(query))) && exists j :: 0 <= j < |files| && files[j].stem == h.id
  {
    var o := AsWrittenOutcomes(files, query, days, nowMs, parseIso);
    SomesFrom(o, i);
    var j :| 0 <= j < |o| && o[j] == Some(Somes(o)[i]);
    assert o[j] == Process(files[j], query, days, nowMs, parseIso);
  }

  /** As intended, every readable message kept by the date filter whose entry matches the query is listed. */
  lemma SelectedKeepsEveryMatch(files: seq<EmailFile>, k: nat, query: String, days: int, nowMs: int, parseIso: String -> Option<ParsedDate>)
    requires k < |files| && files[k].data.Some?
    requires !Outcome(files[k].data.value, days, nowMs, parseIso).dropped
    requires var h := EntryFor(files[k].stem, files[k].data.value, Outcome(files[k].data.value, days, nowMs, parseIso).timestamp);
      query == "" || MatchesQuery(h, LowerStr(query))
    ensures EntryFor(files[k].stem, files[k].data.value, Outcome(files[k].data.value, days, nowMs, parseIso).timestamp)
      in Selected(files, query, days, nowMs, parseIso)
  {
    SomesHas(Outcomes(files, query, days, nowMs, parseIso), k);
  }

  /** As written, a listing without an invitation message keeps nothing: every readable message raises. */
  lemma NoInvitationNothingKept(files: seq<EmailFile>, query: String, days: int, nowMs: int, parseIso: String -> Option<ParsedDate>)
    requires !ReBoundBy(files)
    ensures AsWrittenSelected(files, query, days, nowMs, parseIso) == []
  {
    var o := AsWrittenOutcomes(files, query, days, nowMs, parseIso);
    forall i | 0 <= i < |o|
      ensures o[i].None?
    {
      assert !BindsRe(files[i]);
    }
    SomesAllNone(o);
  }

  /** From the first invitation message on, every file is processed as intended. */
  lemma AsWrittenAfterInvitation(files: seq<EmailFile>, j: nat, i: nat, query: String, days: int, nowMs: int, parseIso: String -> Option<ParsedDate>)
    requires j <= i < |files| && BindsRe(files[j])
    ensures AsWrittenOutcomes(files, query, days, nowMs, parseIso)[i] == Outcomes(files, query, days, nowMs, parseIso)[i]
  {
    if j < i {
      assert files[..i][j] == files[j];
    }
  }

  /** What the route returns as written: nothing for a missing directory, else the first `limit` entries kept as written. */
  function FastSearch(dirExists: bool, files: seq<EmailFile>, query: String, limit: int, days: int, nowMs: int,
                      parseIso: String -> Option<ParsedDate>): (r: seq<FastHit>)
    ensures |r| <= (if limit < 0 then 0 else limit)
    ensures !dirExists ==> r == []
    ensures dirExists && |AsWrittenSelected(files, query, days, nowMs, parseIso)| <= limit ==> r == AsWrittenSelected(files, query, days, nowMs, parseIso)
    ensures dirExists && |AsWrittenSelected(files, query, days, nowMs, parseIso)| > limit ==>
      |r| == (if limit < 0 then 0 else limit) && r == AsWrittenSelected(files, query, days, nowMs, parseIso)[..|r|]
  {
    if !dirExists || limit <= 0 then []
    else Prefix(AsWrittenSelected(files, query, days, nowMs, parseIso), limit)
  }

  /** What the route evidently means to return: the first `limit` entries kept as intended. */
  function IntendedFastSearch(dirExists: bool, files: seq<EmailFile>, query: String, limit: int, days: int, nowMs: int,
                              parseIso: String -> Option<ParsedDate>): (r: seq<FastHit>)
    ensures |r| <= (if limit < 0 then 0 else limit)
    ensures !dirExists ==> r == []
    ensures dirExists && |Selected(files, query, days, nowMs, parseIso)| <= limit ==> r == Selected(files, query, days, nowMs, parseIso)
    ensures dirExists && |Selected(files, query, days, nowMs, parseIso)| > limit ==>
      |r| == (if limit < 0 then 0 else limit) && r == Selected(files, query, days, nowMs, parseIso)[..|r|]
  {
    if !dirExists || limit <= 0 then []
    else Prefix(Selected(files, query, days, nowMs, parseIso), limit)
  }

  /** Every entry the route returns matches a non-empty query. */
  lemma FastSearchMatches(dirExists: bool, files: seq<EmailFile>, query: String, limit: int, days: int, nowMs: int,
                          parseIso: String -> Option<ParsedDate>)
    ensures forall i :: 0 <= i < |FastSearch(dirExists, files, query, limit, days, nowMs, parseIso)| ==>
      query == "" || MatchesQuery(FastSearch(dirExists, files, query, limit, days, nowMs, parseIso)[i], LowerStr(query))
  {
    var r := FastSearch(dirExists, files, query, limit, days, nowMs, parseIso);
    var s := AsWrittenSelected(files, query, days, nowMs, parseIso);
    forall i | 0 <= i < |r| ensures query == "" || MatchesQuery(r[i], LowerStr(query)) {
      assert r[i] == s[i];
      AsWrittenSelectedMatch(files, query, days, nowMs, parseIso, i);
    }
  }

  /** `{"subject": "Hello", "content": "hi"}`, stored as `a.json`. */
  const PlainMessage: EmailFile := EmailFile("a", Some(StoredEmail("hi", "", "", "", "", "", "", "Hello", NoDate)))

  /**
   * With that one file, no query and no day filter, the route as written
   * returns nothing, while the intended listing returns its entry.
   */
  lemma PlainMessageSkipped(nowMs: int, parseIso: String -> Option<ParsedDate>)
    ensures FastSearch(true, [PlainMessage], "", 50, 0, nowMs, parseIso) == []
    ensures |IntendedFastSearch(true, [PlainMessage], "", 50, 0, nowMs, parseIso)| == 1
  {
    var files := [PlainMessage];
    assert !Contains(RawText(PlainMessage.data.value), Invitation);
    assert !ReBoundBy(files);
    NoInvitationNothingKept(files, "", 0, nowMs, parseIso);
    SelectedKeepsEveryMatch(files, 0, "", 0, nowMs, parseIso);
    SomesLength(Outcomes(files, "", 0, nowMs, parseIso));
  }

  /**
   * The route's loop over the files, newest first: it stops as soon as
   * `limit` entries are collected, and otherwise appends each kept entry;
   * `reBound` is whether the local `re` has been bound yet.
   */
  method FastSearchEmails(dirExists: bool, files: seq<EmailFile>, query: String, limit: int, days: int, nowMs: int,
                          parseIso: String -> Option<ParsedDate>) returns (results: seq<FastHit>)
    ensures results == FastSearch(dirExists, files, query, limit, days, nowMs, parseIso)
  {
    results := [];
    if !dirExists {
      return;
    }
    var reBound := false;
    for k := 0 to |files|
      invariant results == AsWrittenSelected(files[..k], query, days, nowMs, parseIso)
      invariant reBound == ReBoundBy(files[..k])
      invariant |results| <= (if limit < 0 then 0 else limit)
    {
      if |results| >= limit {
        SelectedPrefix(files, k, query, days, nowMs, parseIso);
        return;
      }
      AsWrittenSelectedGrows(files, k, query, days, nowMs, parseIso);
      ReBoundByStep(files, k);
      var h;
      h, reBound := ProcessFile(files[k], reBound, query, days, nowMs, parseIso);
      if h.Some? {
        results := results + [h.value];
      }
    }
    assert files[..|files|] == files;
  }

  /** The body of the loop for one file, which binds `re` when it reaches the invitation branch. */
  method ProcessFile(f: EmailFile, reBound: bool, query: String, days: int, nowMs: int, parseIso: String -> Option<ParsedDate>)
    returns (h: Option<FastHit>, bound: bool)
    ensures h == ProcessAsWritten(f, reBound, query, days, nowMs, parseIso)
    ensures bound == (reBound || BindsRe(f))
  {
    bound := reBound;
    if f.data.None? {
      return None, bound;
    }
    var d := f.data.value;
    var raw := RawText(d);
    var headers := ParseHeaders(raw);
    if Contains(raw, Invitation) {
      bound := true;
    }
    if !bound {
      // the subject cleanup uses the unbound `re`: the file is skipped
      return None, bound;
    }
    var o := DateStep(DateOf(d, headers), days, nowMs, parseIso);
    if o.dropped {
      return None, bound;
    }
    var entry := EntryFor(f.stem, d, o.timestamp);
    if query != "" {
      var q := LowerStr(query);
      if !MatchesQuery(entry, q) {
        return None, bound;
      }
    }
    h := Some(entry);
  }
}
