/**
 * The semantic email search route: the vector-store filter it builds, the
 * query it sends, and how it turns each stored document and its metadata
 * back into a display record.
 */
module EmailSearch {
  import opened Wrappers
  import opened Text
  import opened EmailScan

  // ---------------------------------------------------------------------------
  // Request parameters and the where clause

  datatype SearchParams = SearchParams(
    query: String, fromEmail: String, to: String, subject: String,
    days: int, limit: int, unread: Option<bool>)

  datatype Operand = StrValue(s: String) | BoolValue(b: bool) | IntValue(n: int)

  /** The metadata keys the route filters on. */
  datatype Field = Source | From | To | Subject | Read | Date

  function FieldName(f: Field): String {
    match f
    case Source => "source"
    case From => "from"
    case To => "to"
    case Subject => "subject"
    case Read => "read"
    case Date => "date"
  }

  datatype Condition =
    | Equals(field: Field, value: Operand)
    | MatchesRegex(field: Field, pattern: String)
    | AtLeast(field: Field, bound: int)

  datatype Where = Single(c: Condition) | All(cs: seq<Condition>)

  /** The characters Python's `re.escape` prefixes with a backslash. */
  predicate RegexSpecial(c: char) {
    c in "()[]{}?*+-|^$\\.&~# \t\n\r" || c == '\U{000B}' || c == '\U{000C}'
  }

  /** `re.escape`. */
  function RegexEscape(s: String): (r: String)
    ensures |r| >= |s|
  {
    if s == [] then []
    else (if RegexSpecial(s[0]) then ['\\', s[0]] else [s[0]]) + RegexEscape(s[1..])
  }

  /** Reading an escaped pattern back as a literal: a backslash takes the next character as it is. */
  function RegexUnescape(r: String): String {
    if r == [] then []
    else if r[0] == '\\' && |r| > 1 then [r[1]] + RegexUnescape(r[2..])
    else [r[0]] + RegexUnescape(r[1..])
  }

  /** The escaped value matches exactly its own text: escaping loses nothing. */
  lemma {:induction false} EscapeRoundTrip(s: String)
    ensures RegexUnescape(RegexEscape(s)) == s
  {
    if s != [] {
      EscapeRoundTrip(s[1..]);
      var head := if RegexSpecial(s[0]) then ['\\', s[0]] else [s[0]];
      assert RegexEscape(s) == head + RegexEscape(s[1..]);
      if RegexSpecial(s[0]) {
        assert (head + RegexEscape(s[1..]))[2..] == RegexEscape(s[1..]);
      } else {
        assert s[0] != '\\';
        assert (head + RegexEscape(s[1..]))[1..] == RegexEscape(s[1..]);
      }
    }
  }

  /** `make_regex_pattern(value)`. */
  function CaseInsensitive(value: String): String {
    "(?i)" + RegexEscape(value)
  }

  const GmailOnly: Condition := Equals(Source, StrValue("gmail"))

  /** `if cond: filters.append(c)`. */
  function AppendIf(fs: seq<Condition>, cond: bool, c: Condition): seq<Condition> {
    if cond then fs + [c] else fs
  }

  /**
   * The filters in the order they are appended; `threshold` is the millisecond
   * cut-off computed from the clock, `None` when computing it raised.
   */
  function Filters(p: SearchParams, threshold: Option<int>): (fs: seq<Condition>)
    ensures 1 <= |fs| <= 6 && fs[0] == GmailOnly
  {
    var f1 := AppendIf([GmailOnly], p.fromEmail != "", MatchesRegex(From, CaseInsensitive(p.fromEmail)));
    var f2 := AppendIf(f1, p.to != "", MatchesRegex(To, CaseInsensitive(p.to)));
    var f3 := AppendIf(f2, p.subject != "", MatchesRegex(Subject, CaseInsensitive(p.subject)));
    var f4 := AppendIf(f3, p.unread.Some?, Equals(Read, BoolValue(p.unread.Some? && !p.unread.value)));
    AppendIf(f4, p.days > 0 && threshold.Some?, AtLeast(Date, threshold.GetOr(0)))
  }

  /** The first condition on `field`. */
  function ConditionOn(fs: seq<Condition>, field: Field): Option<Condition> {
    if fs == [] then None
    else if fs[0].field == field then Some(fs[0])
    else ConditionOn(fs[1..], field)
  }

  /** Appending a condition leaves an earlier condition on the field in place, and otherwise supplies it. */
  lemma {:induction false} ConditionOnAppendIf(fs: seq<Condition>, cond: bool, c: Condition, field: Field)
    ensures ConditionOn(AppendIf(fs, cond, c), field) ==
      if ConditionOn(fs, field).Some? then ConditionOn(fs, field)
      else if cond && c.field == field then Some(c) else None
  {
    if cond && fs != [] {
      assert (fs + [c])[0] == fs[0];
      assert (fs + [c])[1..] == fs[1..] + [c];
      ConditionOnAppendIf(fs[1..], cond, c, field);
    } else if cond {
      assert fs + [c] == [c];
    }
  }

  /** A condition on another field does not change the first condition on `field`. */
  lemma AppendOther(fs: seq<Condition>, cond: bool, c: Condition, field: Field)
    requires c.field != field
    ensures ConditionOn(AppendIf(fs, cond, c), field) == ConditionOn(fs, field)
  {
    ConditionOnAppendIf(fs, cond, c, field);
  }

  /** With no condition on its field yet, an appended condition is the first one on it. */
  lemma AppendFirst(fs: seq<Condition>, cond: bool, c: Condition)
    requires ConditionOn(fs, c.field).None?
    ensures ConditionOn(AppendIf(fs, cond, c), c.field) == if cond then Some(c) else None
  {
    ConditionOnAppendIf(fs, cond, c, c.field);
  }

  /** The condition each field is expected to carry, independently of the append order. */
  function ExpectedCondition(p: SearchParams, t: Option<int>, field: Field): Option<Condition> {
    match field
    case Source => Some(GmailOnly)
    case From => if p.fromEmail != "" then Some(MatchesRegex(From, CaseInsensitive(p.fromEmail))) else None
    case To => if p.to != "" then Some(MatchesRegex(To, CaseInsensitive(p.to))) else None
    case Subject => if p.subject != "" then Some(MatchesRegex(Subject, CaseInsensitive(p.subject))) else None
    case Read => if p.unread.Some? then Some(Equals(Read, BoolValue(!p.unread.value))) else None
    case Date => if p.days > 0 && t.Some? then Some(AtLeast(Date, t.value)) else None
  }

  /**
   * Each field is filtered at most once, and only when its parameter is given:
   * the source is always 'gmail', sender/recipient/subject are case-insensitive
   * literal matches, `unread = u` asks for `read == !u`, and the date bound
   * appears only for a positive day count whose cut-off could be computed.
   */
  lemma FiltersByField(p: SearchParams, t: Option<int>, field: Field)
    ensures ConditionOn(Filters(p, t), field) == ExpectedCondition(p, t, field)
  {
    match field {
      case Source => FiltersOnSource(p, t);
      case From => FiltersOnFrom(p, t);
      case To => FiltersOnTo(p, t);
      case Subject => FiltersOnSubject(p, t);
      case Read => FiltersOnRead(p, t);
      case Date => FiltersOnDate(p, t);
    }
  }

  lemma FiltersOnSource(p: SearchParams, t: Option<int>)
    ensures ConditionOn(Filters(p, t), Source) == ExpectedCondition(p, t, Source)
  {
    var c1 := MatchesRegex(From, CaseInsensitive(p.fromEmail));
    var c2 := MatchesRegex(To, CaseInsensitive(p.to));
    var c3 := MatchesRegex(Subject, CaseInsensitive(p.subject));
    var c4 := Equals(Read, BoolValue(p.unread.Some? && !p.unread.value));
    var c5 := AtLeast(Date, t.GetOr(0));
    var b1, b2, b3, b4, b5 := p.fromEmail != "", p.to != "", p.subject != "", p.unread.Some?, p.days > 0 && t.Some?;
    var f1 := AppendIf([GmailOnly], b1, c1);
    var f2 := AppendIf(f1, b2, c2);
    var f3 := AppendIf(f2, b3, c3);
    var f4 := AppendIf(f3, b4, c4);
    assert ConditionOn([GmailOnly], Source) == Some(GmailOnly);
    AppendOther([GmailOnly], b1, c1, Source); AppendOther(f1, b2, c2, Source);
    AppendOther(f2, b3, c3, Source); AppendOther(f3, b4, c4, Source);
    AppendOther(f4, b5, c5, Source);
  }

  lemma FiltersOnFrom(p: SearchParams, t: Option<int>)
    ensures ConditionOn(Filters(p, t), From) == ExpectedCondition(p, t, From)
  {
    var c1 := MatchesRegex(From, CaseInsensitive(p.fromEmail));
    var c2 := MatchesRegex(To, CaseInsensitive(p.to));
    var c3 := MatchesRegex(Subject, CaseInsensitive(p.subject));
    var c4 := Equals(Read, BoolValue(p.unread.Some? && !p.unread.value));
    var c5 := AtLeast(Date, t.GetOr(0));
    var b1, b2, b3, b4, b5 := p.fromEmail != "", p.to != "", p.subject != "", p.unread.Some?, p.days > 0 && t.Some?;
    var f1 := AppendIf([GmailOnly], b1, c1);
    var f2 := AppendIf(f1, b2, c2);
    var f3 := AppendIf(f2, b3, c3);
    var f4 := AppendIf(f3, b4, c4);
    assert ConditionOn([GmailOnly], From) == None;
    AppendFirst([GmailOnly], b1, c1); AppendOther(f1, b2, c2, From);
    AppendOther(f2, b3, c3, From); AppendOther(f3, b4, c4, From);
    AppendOther(f4, b5, c5, From);
  }

  lemma FiltersOnTo(p: SearchParams, t: Option<int>)
    ensures ConditionOn(Filters(p, t), To) == ExpectedCondition(p, t, To)
  {
    var c1 := MatchesRegex(From, CaseInsensitive(p.fromEmail));
    var c2 := MatchesRegex(To, CaseInsensitive(p.to));
    var c3 := MatchesRegex(Subject, CaseInsensitive(p.subject));
    var c4 := Equals(Read, BoolValue(p.unread.Some? && !p.unread.value));
    var c5 := AtLeast(Date, t.GetOr(0));
    var b1, b2, b3, b4, b5 := p.fromEmail != "", p.to != "", p.subject != "", p.unread.Some?, p.days > 0 && t.Some?;
    var f1 := AppendIf([GmailOnly], b1, c1);
    var f2 := AppendIf(f1, b2, c2);
    var f3 := AppendIf(f2, b3, c3);
    var f4 := AppendIf(f3, b4, c4);
    assert ConditionOn([GmailOnly], To) == None;
    AppendOther([GmailOnly], b1, c1, To); AppendFirst(f1, b2, c2);
    AppendOther(f2, b3, c3, To); AppendOther(f3, b4, c4, To);
    AppendOther(f4, b5, c5, To);
  }

  lemma FiltersOnSubject(p: SearchParams, t: Option<int>)
    ensures ConditionOn(Filters(p, t), Subject) == ExpectedCondition(p, t, Subject)
  {
    var c1 := MatchesRegex(From, CaseInsensitive(p.fromEmail));
    var c2 := MatchesRegex(To, CaseInsensitive(p.to));
    var c3 := MatchesRegex(Subject, CaseInsensitive(p.subject));
    var c4 := Equals(Read, BoolValue(p.unread.Some? && !p.unread.value));
    var c5 := AtLeast(Date, t.GetOr(0));
    var b1, b2, b3, b4, b5 := p.fromEmail != "", p.to != "", p.subject != "", p.unread.Some?, p.days > 0 && t.Some?;
    var f1 := AppendIf([GmailOnly], b1, c1);
    var f2 := AppendIf(f1, b2, c2);
    var f3 := AppendIf(f2, b3, c3);
    var f4 := AppendIf(f3, b4, c4);
    assert ConditionOn([GmailOnly], Subject) == None;
    AppendOther([GmailOnly], b1, c1, Subject); AppendOther(f1, b2, c2, Subject);
    AppendFirst(f2, b3, c3); AppendOther(f3, b4, c4, Subject);
    AppendOther(f4, b5, c5, Subject);
  }

  lemma FiltersOnRead(p: SearchParams, t: Option<int>)
    ensures ConditionOn(Filters(p, t), Read) == ExpectedCondition(p, t, Read)
  {
    var c1 := MatchesRegex(From, CaseInsensitive(p.fromEmail));
    var c2 := MatchesRegex(To, CaseInsensitive(p.to));
    var c3 := MatchesRegex(Subject, CaseInsensitive(p.subject));
    var c4 := Equals(Read, BoolValue(p.unread.Some? && !p.unread.value));
    var c5 := AtLeast(Date, t.GetOr(0));
    var b1, b2, b3, b4, b5 := p.fromEmail != "", p.to != "", p.subject != "", p.unread.Some?, p.days > 0 && t.Some?;
    var f1 := AppendIf([GmailOnly], b1, c1);
    var f2 := AppendIf(f1, b2, c2);
    var f3 := AppendIf(f2, b3, c3);
    var f4 := AppendIf(f3, b4, c4);
    assert ConditionOn([GmailOnly], Read) == None;
    AppendOther([GmailOnly], b1, c1, Read); AppendOther(f1, b2, c2, Read);
    AppendOther(f2, b3, c3, Read); AppendFirst(f3, b4, c4);
    AppendOther(f4, b5, c5, Read);
  }

  lemma FiltersOnDate(p: SearchParams, t: Option<int>)
    ensures ConditionOn(Filters(p, t), Date) == ExpectedCondition(p, t, Date)
  {
    var c1 := MatchesRegex(From, CaseInsensitive(p.fromEmail));
    var c2 := MatchesRegex(To, CaseInsensitive(p.to));
    var c3 := MatchesRegex(Subject, CaseInsensitive(p.subject));
    var c4 := Equals(Read, BoolValue(p.unread.Some? && !p.unread.value));
    var c5 := AtLeast(Date, t.GetOr(0));
    var b1, b2, b3, b4, b5 := p.fromEmail != "", p.to != "", p.subject != "", p.unread.Some?, p.days > 0 && t.Some?;
    var f1 := AppendIf([GmailOnly], b1, c1);
    var f2 := AppendIf(f1, b2, c2);
    var f3 := AppendIf(f2, b3, c3);
    var f4 := AppendIf(f3, b4, c4);
    assert ConditionOn([GmailOnly], Date) == None;
    AppendOther([GmailOnly], b1, c1, Date); AppendOther(f1, b2, c2, Date);
    AppendOther(f2, b3, c3, Date); AppendOther(f3, b4, c4, Date);
    AppendFirst(f4, b5, c5);
  }

  /** The filter list built by appending, as the route does. */
  method BuildFilters(p: SearchParams, threshold: Option<int>) returns (filters: seq<Condition>)
    ensures filters == Filters(p, threshold)
  {
    filters := [];
    filters := filters + [GmailOnly];
    assert filters == [GmailOnly];
    ghost var f0 := filters;
    if p.fromEmail != "" {
      filters := filters + [MatchesRegex(From, CaseInsensitive(p.fromEmail))];
    }
    assert filters == AppendIf(f0, p.fromEmail != "", MatchesRegex(From, CaseInsensitive(p.fromEmail)));
    ghost var f1 := filters;
    if p.to != "" {
      filters := filters + [MatchesRegex(To, CaseInsensitive(p.to))];
    }
    assert filters == AppendIf(f1, p.to != "", MatchesRegex(To, CaseInsensitive(p.to)));
    ghost var f2 := filters;
    if p.subject != "" {
      filters := filters + [MatchesRegex(Subject, CaseInsensitive(p.subject))];
    }
    assert filters == AppendIf(f2, p.subject != "", MatchesRegex(Subject, CaseInsensitive(p.subject)));
    ghost var f3 := filters;
    if p.unread.Some? {
      filters := filters + [Equals(Read, BoolValue(!p.unread.value))];
    }
    assert filters == AppendIf(f3, p.unread.Some?, Equals(Read, BoolValue(p.unread.Some? && !p.unread.value)));
    ghost var f4 := filters;
    if p.days > 0 && threshold.Some? {
      filters := filters + [AtLeast(Date, threshold.value)];
    }
    assert filters == AppendIf(f4, p.days > 0 && threshold.Some?, AtLeast(Date, threshold.GetOr(0)));
  }

  /** `{"$and": filters} if len(filters) > 1 else filters[0]`, added only for a non-empty list. */
  function WhereClause(fs: seq<Condition>): (w: Option<Where>)
    ensures w.None? <==> fs == []
    ensures w.Some? && w.value.Single? ==> |fs| == 1 && w.value.c == fs[0]
    ensures w.Some? && w.value.All? ==> |fs| > 1 && w.value.cs == fs
  {
    if fs == [] then None
    else if |fs| > 1 then Some(All(fs))
    else Some(Single(fs[0]))
  }

  /** With no optional filter the source condition is sent bare; otherwise all filters go under '$and', source first. */
  lemma WhereShape(p: SearchParams, t: Option<int>)
    ensures var noFilter := p.fromEmail == "" && p.to == "" && p.subject == "" && p.unread.None? && !(p.days > 0 && t.Some?);
      WhereClause(Filters(p, t)) == if noFilter then Some(Single(GmailOnly)) else Some(All(Filters(p, t)))
  {
  }

  /** What the vector store is asked: an embedding of the query, or the catch-all text. */
  datatype QueryPlan = Embed(text: String) | MatchAll(texts: seq<String>)

  /** A query is embedded only when it is non-empty and not 'all' in any letter case. */
  function PlanFor(query: String): (q: QueryPlan)
    ensures q.Embed? <==> query != "" && LowerStr(query) != "all"
    ensures q.Embed? ==> q.text == query
    ensures q.MatchAll? ==> q.texts == ["*"]
  {
    if query != "" && LowerStr(query) != "all" then Embed(query) else MatchAll(["*"])
  }

  /** 'ALL', 'All' and 'all' all mean "no query". */
  lemma AllInAnyCase()
    ensures PlanFor("ALL") == MatchAll(["*"]) && PlanFor("All") == MatchAll(["*"]) && PlanFor("") == MatchAll(["*"])
    ensures PlanFor("alls") == Embed("alls")
  {
    assert LowerStr("ALL") == "all";
    assert LowerStr("All") == "all";
    assert LowerStr("alls") != "all";
  }

  datatype StoreRequest = StoreRequest(nResults: int, plan: QueryPlan, where: Option<Where>)

  /** The parameters of `collection.query`. */
  method BuildRequest(p: SearchParams, threshold: Option<int>) returns (req: StoreRequest)
    ensures req.nResults == p.limit && req.plan == PlanFor(p.query)
    ensures req.where == WhereClause(Filters(p, threshold))
    ensures req.where.Some?
  {
    var filters := BuildFilters(p, threshold);
    var plan := PlanFor(p.query);
    req := StoreRequest(p.limit, plan, WhereClause(filters));
  }

  // ---------------------------------------------------------------------------
  // Stored results

  /** The `date` metadata value: absent, a number, or a string. */
  datatype DateValue = NoDate | IntDate(n: int) | StrDate(s: String)

  /** The metadata of one stored email; absent strings are "". */
  datatype Meta = Meta(from: String, sender: String, to: String, recipient: String, subject: String, date: DateValue, dateStr: String)

  const EmptyMeta: Meta := Meta("", "", "", "", "", NoDate, "")

  datatype Hit = Hit(
    id: String, from: String, to: String, subject: String, date: String,
    timestamp: DateValue, preview: String, content: String, rawContent: String)

  const UnknownSender: String := "Unknown Sender"
  const NoSubject: String := "No Subject"

  /** The list preview: the content itself up to 200 characters, else its first 200 and '...'. */
  function Preview(content: String): (p: String)
    ensures |content| <= 200 ==> p == content
    ensures |content| > 200 ==> |p| == 203 && p[..200] == content[..200] && p[200..] == "..."
  {
    if |content| > 200 then content[..200] + "..." else content
  }

  /**
   * What formatting a millisecond time does: it gives the text, or raises the
   * `ValueError` the date handler catches, or raises an error it does not
   * catch (`OverflowError` for a number too large for a float, `OSError` past
   * the platform's `localtime` range), which the handler of the whole result
   * catches instead.
   */
  datatype DateFormat = Shown(text: String) | Rejected | Raised

  /** The date text a formatting gives, with `fallback` for a caught failure, or `None` when the error escapes. */
  function FormattedOr(f: DateFormat, fallback: String): (r: Option<String>)
    ensures r.None? <==> f.Raised?
  {
    match f
    case Shown(t) => Some(t)
    case Rejected => Some(fallback)
    case Raised => None
  }

  /**
   * The date text: a number (or a string of digits) is formatted as a
   * millisecond time by `formatMs`; a caught failure, or a non-numeric
   * string, falls back to the `date_str` metadata; an error the date handler
   * does not catch gives `None`.
   */
  function DateText(m: Meta, formatMs: int -> DateFormat): (r: Option<String>)
    ensures m.date.NoDate? || m.date == IntDate(0) || m.date == StrDate("") ==> r == Some("")
    ensures m.date.StrDate? && m.date.s != "" && !AllDigits(m.date.s) ==>
      r.Some? && r.value != "" && (m.dateStr != "" ==> r.value == m.dateStr) && (m.dateStr == "" ==> r.value == m.date.s)
    ensures m.date.IntDate? && m.date.n != 0 && formatMs(m.date.n).Rejected? ==> r == Some(m.dateStr)
    ensures m.date.IntDate? && m.date.n != 0 && formatMs(m.date.n).Shown? ==> r == Some(formatMs(m.date.n).text)
    ensures r.None? <==> (m.date.IntDate? && m.date.n != 0 && formatMs(m.date.n).Raised?)
                         || (m.date.StrDate? && m.date.s != "" && AllDigits(m.date.s) && formatMs(DigitsValue(m.date.s)).Raised?)
  {
    match m.date
    case NoDate => Some("")
    case IntDate(n) =>
      if n == 0 then Some("") else FormattedOr(formatMs(n), m.dateStr)
    case StrDate(s) =>
      if s == "" then Some("")
      else if AllDigits(s) then FormattedOr(formatMs(DigitsValue(s)), m.dateStr)
      else if m.dateStr != "" then Some(m.dateStr)
      else Some(s)
  }

  /**
   * A string of digits is dated like the number it spells, except that the
   * string "0" (or "00" …) is truthy and is formatted while the number 0 is not.
   */
  lemma DateTextDigitString(m: Meta, s: String, formatMs: int -> DateFormat)
    requires s != "" && AllDigits(s)
    ensures DigitsValue(s) != 0 ==> DateText(m.(date := StrDate(s)), formatMs) == DateText(m.(date := IntDate(DigitsValue(s))), formatMs)
    ensures DigitsValue(s) == 0 ==> DateText(m.(date := IntDate(0)), formatMs) == Some("")
                                    && DateText(m.(date := StrDate(s)), formatMs) == FormattedOr(formatMs(0), m.dateStr)
  {
  }

  /** `content.replace('\r\n', '\n').replace('\r', '\n')`. */
  function NormalizeNewlines(s: String): (r: String)
    ensures '\r' !in r
    ensures |s| > 0 ==> |r| > 0
    ensures '\r' !in s ==> r == s
  {
    var r := ReplaceChar(NormalizeCrLf(s), '\r', '\n');
    assert forall k :: 0 <= k < |r| ==> r[k] != '\r';
    if '\r' !in s then
      NormalizeCrLfNoCr(s);
      assert r == s;
      r
    else r
  }

  /** `ReplaceChar` works character by character, so it distributes over concatenation. */
  lemma ReplaceCharAppend(a: String, b: String, x: char, y: char)
    ensures ReplaceChar(a + b, x, y) == ReplaceChar(a, x, y) + ReplaceChar(b, x, y)
  {
  }

  /** A CRLF pair becomes one line feed. */
  lemma NormalizeNewlinesCrLf(a: String, b: String)
    ensures NormalizeNewlines(a + "\r\n" + b) == NormalizeNewlines(a) + "\n" + NormalizeNewlines(b)
  {
    NormalizeCrLfPair(a, b);
    ReplaceCharAppend(NormalizeCrLf(a) + "\n", NormalizeCrLf(b), '\r', '\n');
    ReplaceCharAppend(NormalizeCrLf(a), "\n", '\r', '\n');
  }

  /** A carriage return not followed by a line feed becomes one line feed. */
  lemma NormalizeNewlinesLoneCr(a: String, b: String)
    requires |b| == 0 || b[0] != '\n'
    ensures NormalizeNewlines(a + "\r" + b) == NormalizeNewlines(a) + "\n" + NormalizeNewlines(b)
  {
    var t := "\r" + b;
    assert a + "\r" + b == a + t;
    NormalizeCrLfAppend(a, t);
    NormalizeCrLfLoneCr(b);
    ReplaceCharAppend(NormalizeCrLf(a), NormalizeCrLf(t), '\r', '\n');
    ReplaceCharAppend("\r", NormalizeCrLf(b), '\r', '\n');
  }

  // ---------------------------------------------------------------------------
  // Line classification

  const FooterTerms: seq<String> := ["unsubscribe", "privacy", "policy", "terms", "conditions", "copyright"]
  const HeaderPrefixes: seq<String> := ["from:", "to:", "subject:", "date:", "return-path:"]

  predicate HasAnyTerm(s: String, terms: seq<String>) {
    exists k :: 0 <= k < |terms| && Contains(s, terms[k])
  }

  predicate StartsWithAny(s: String, prefixes: seq<String>) {
    exists k :: 0 <= k < |prefixes| && StartsWith(s, prefixes[k])
  }

  /** `line.startswith((' ', '\t', '-', '_', '*', '#'))`. */
  predicate DecoratedStart(line: String) {
    |line| > 0 && line[0] in " \t-_*#"
  }

  /** A stripped line that may serve as a subject in the header scan. */
  predicate Meaningful(line: String) {
    line != "" && |line| < 100 && !DecoratedStart(line) && !HasAnyTerm(LowerStr(line), FooterTerms)
  }

  /** A raw line that may serve as a subject in the Pinterest scan. */
  predicate PinterestCandidate(raw: String) {
    var line := PyStrip(raw);
    line != "" && !StartsWithAny(LowerStr(line), HeaderPrefixes) && !HasAnyTerm(LowerStr(line), FooterTerms)
    && 5 < |line| < 100
  }

  /** A raw line that may serve as a subject in the body fallback (a shorter footer list). */
  predicate FallbackCandidate(raw: String) {
    var line := PyStrip(raw);
    line != "" && |line| < 100 && !DecoratedStart(line) && !HasAnyTerm(LowerStr(line), FooterTerms[..4])
  }

  predicate BlankLine(raw: String) {
    PyStrip(raw) == ""
  }

  // ---------------------------------------------------------------------------
  // The header scan of an ordinary email

  datatype Fields = Fields(from: String, to: String, subject: String)

  /** A line starts with at most one of the three header prefixes. */
  lemma HeaderPrefixesExclusive(low: String)
    ensures StartsWith(low, "from:") ==> !StartsWith(low, "to:") && !StartsWith(low, "subject:")
    ensures StartsWith(low, "to:") ==> !StartsWith(low, "subject:")
  {
    if StartsWith(low, "from:") {
      assert low[0] == 'f';
    }
    if StartsWith(low, "to:") {
      assert low[0] == 't';
    }
  }

  /** The header prefixes of one stripped line: 'from:'/'to:'/'subject:' fill that field if it is still empty. */
  function HeaderStep(f: Fields, line: String): (g: Fields)
    ensures f.from != "" ==> g.from == f.from
    ensures f.to != "" ==> g.to == f.to
    ensures f.subject != "" ==> g.subject == f.subject
    ensures f.from == "" && StartsWith(LowerStr(line), "from:") ==> g.from == PyStrip(line[5..])
    ensures f.to == "" && StartsWith(LowerStr(line), "to:") ==> g.to == PyStrip(line[3..])
    ensures f.subject == "" && StartsWith(LowerStr(line), "subject:") ==> g.subject == PyStrip(line[8..])
  {
    var low := LowerStr(line);
    HeaderPrefixesExclusive(low);
    if StartsWith(low, "from:") && f.from == "" then f.(from := PyStrip(line[5..]))
    else if StartsWith(low, "to:") && f.to == "" then f.(to := PyStrip(line[3..]))
    else if StartsWith(low, "subject:") && f.subject == "" then f.(subject := PyStrip(line[8..]))
    else f
  }

  /** With no sender yet, a line holding '@' or 'from:' gives its first address, if it has one. */
  function AddressStep(f: Fields, line: String): (g: Fields)
    ensures g.to == f.to && g.subject == f.subject
    ensures f.from != "" ==> g.from == f.from
  {
    if f.from == "" && ('@' in line || Contains(LowerStr(line), "from:")) then
      match PyAddressFrom(line, 0)
      case Some(a) => f.(from := a)
      case None => f
    else f
  }

  /** With no subject yet, a meaningful line becomes the subject. */
  function SubjectStep(f: Fields, line: String): (g: Fields)
    ensures g.from == f.from && g.to == f.to
    ensures f.subject != "" ==> g.subject == f.subject
    ensures f.subject == "" && Meaningful(line) ==> g.subject == line
  {
    if f.subject == "" && Meaningful(line) then f.(subject := line) else f
  }

  /** One line of the scan; a field once filled is never changed. */
  function ScanStep(f: Fields, raw: String): (g: Fields)
    ensures f.subject != "" ==> g.subject == f.subject
    ensures Meaningful(PyStrip(raw)) ==> g.subject != ""
  {
    var line := PyStrip(raw);
    SubjectStep(AddressStep(HeaderStep(f, line), line), line)
  }

  /** The scan over all lines, as a left fold. */
  function Scan(f: Fields, lines: seq<String>): (r: Fields)
    ensures f.from != "" ==> r.from == f.from
    ensures f.to != "" ==> r.to == f.to
    ensures f.subject != "" ==> r.subject == f.subject
  {
    if lines == [] then f else ScanStep(Scan(f, lines[..|lines| - 1]), lines[|lines| - 1])
  }

  /** Any meaningful line gives the scan a subject. */
  lemma {:induction false} ScanFindsSubject(f: Fields, lines: seq<String>, k: nat)
    requires k < |lines| && Meaningful(PyStrip(lines[k]))
    ensures Scan(f, lines).subject != ""
  {
    var n := |lines| - 1;
    if k < n {
      assert lines[..n][k] == lines[k];
      ScanFindsSubject(f, lines[..n], k);
    }
  }

  /**
   * Header lines are not excluded from the subject search: with nothing found
   * yet, a meaningful 'From: …' line fills the sender and also becomes the subject.
   */
  lemma FromLineAlsoBecomesSubject(raw: String)
    requires StartsWith(LowerStr(PyStrip(raw)), "from:") && PyStrip(PyStrip(raw)[5..]) != ""
    requires Meaningful(PyStrip(raw))
    ensures ScanStep(Fields("", "", ""), raw) == Fields(PyStrip(PyStrip(raw)[5..]), "", PyStrip(raw))
  {
    var line := PyStrip(raw);
    var f1 := HeaderStep(Fields("", "", ""), line);
    assert f1 == Fields(PyStrip(line[5..]), "", "");
    var f2 := AddressStep(f1, line);
    assert f2 == f1;
  }

  /** The scan loop; `i` is the loop variable the route shares with the outer loop, left at the last line. */
  method ScanLines(f0: Fields, lines: seq<String>, i0: int) returns (f: Fields, i: int)
    ensures f == Scan(f0, lines)
    ensures i == if lines == [] then i0 else |lines| - 1
  {
    f := f0;
    i := i0;
    for k := 0 to |lines|
      invariant f == Scan(f0, lines[..k])
      invariant i == if k == 0 then i0 else k - 1
    {
      assert lines[..k + 1][..k] == lines[..k];
      i := k;
      f := ScanLine(f, lines[k]);
    }
    assert lines[..|lines|] == lines;
  }

  /** The body of the scan loop. */
  method ScanLine(f: Fields, raw: String) returns (g: Fields)
    ensures g == ScanStep(f, raw)
  {
    var line := PyStrip(raw);
    var low := LowerStr(line);
    g := f;
    if StartsWith(low, "from:") && g.from == "" {
      g := g.(from := PyStrip(line[5..]));
    } else if StartsWith(low, "to:") && g.to == "" {
      g := g.(to := PyStrip(line[3..]));
    } else if StartsWith(low, "subject:") && g.subject == "" {
      g := g.(subject := PyStrip(line[8..]));
    }
    assert g == HeaderStep(f, line);
    ghost var h := g;
    if g.from == "" && ('@' in line || Contains(low, "from:")) {
      var m := PyAddressFrom(line, 0);
      if m.Some? && g.from == "" {
        g := g.(from := m.value);
      }
    }
    assert g == AddressStep(h, line);
    if g.subject == "" && line != "" && |line| < 100 && !DecoratedStart(line) {
      if !HasAnyTerm(low, FooterTerms) {
        g := g.(subject := line);
      }
    }
  }

  // ---------------------------------------------------------------------------
  // Pinterest emails

  /** The subject a Pinterest email gets: the first candidate among its first 20 lines, stripped. */
  function PinterestSubject(lines: seq<String>): (s: String)
    ensures s != "" ==> 5 < |s| < 100 && !HasAnyTerm(LowerStr(s), FooterTerms)
  {
    match FirstWhere(Prefix(lines, 20), PinterestCandidate)
    case Some(k) => PyStrip(Prefix(lines, 20)[k])
    case None => ""
  }

  /** The Pinterest loop: it breaks at the first candidate, and sets the subject only if there was none. */
  method PinterestLoop(lines: seq<String>, subject0: String) returns (subject: String)
    ensures subject == if subject0 != "" then subject0 else PinterestSubject(lines)
  {
    subject := subject0;
    var first := Prefix(lines, 20);
    for k := 0 to |first|
      invariant subject == subject0
      invariant subject0 == "" ==> FirstWhere(first[..k], PinterestCandidate).None?
    {
      if subject0 == "" {
        FirstWhereExtend(first, PinterestCandidate, k);
      }
      var line := PyStrip(first[k]);
      if line == "" {
        continue;
      }
      if StartsWithAny(LowerStr(line), HeaderPrefixes) {
        continue;
      }
      if HasAnyTerm(LowerStr(line), FooterTerms) {
        continue;
      }
      if 5 < |line| < 100 && subject == "" {
        subject := line;
        return;
      }
    }
    assert first[..|first|] == first;
  }

  // ---------------------------------------------------------------------------
  // Subject from the start of the body

  /** Where the body starts: after the first blank line, else at the top. */
  function BodyStart(lines: seq<String>): (b: nat)
    ensures b <= |lines|
  {
    match FirstWhere(lines, BlankLine)
    case Some(k) => k + 1
    case None => 0
  }

  /** The body starts just after the first blank line, or at the top when there is none. */
  lemma BodyStartFollowsFirstBlank(lines: seq<String>)
    ensures var b := BodyStart(lines);
      (b > 0 ==> BlankLine(lines[b - 1]) && forall j :: 0 <= j < b - 1 ==> !BlankLine(lines[j])) &&
      (b == 0 ==> forall j :: 0 <= j < |lines| ==> !BlankLine(lines[j]))
  {
  }

  /** The first candidate among the five lines from the body start, stripped. */
  function FallbackSubject(lines: seq<String>): (s: String)
    ensures s != "" ==> |s| < 100 && !DecoratedStart(s)
  {
    var b := BodyStart(lines);
    var window := lines[b..if b + 5 <= |lines| then b + 5 else |lines|];
    match FirstWhere(window, FallbackCandidate)
    case Some(k) => PyStrip(window[k])
    case None => ""
  }

  /** Where the shared loop variable ends after the blank-line search: at the blank line, else at the last line. */
  function FallbackIndex(lines: seq<String>, i0: int): int {
    match FirstWhere(lines, BlankLine)
    case Some(k) => k
    case None => if lines == [] then i0 else |lines| - 1
  }

  /** The first fallback loop: the first blank line gives the body start; `i` is left where the loop stopped. */
  method FindBodyStart(lines: seq<String>, i0: int) returns (bodyStart: nat, i: int)
    ensures bodyStart == BodyStart(lines)
    ensures i == FallbackIndex(lines, i0)
  {
    bodyStart := 0;
    i := i0;
    for k := 0 to |lines|
      invariant FirstWhere(lines[..k], BlankLine).None?
      invariant i == if k == 0 then i0 else k - 1
    {
      FirstWhereExtend(lines, BlankLine, k);
      i := k;
      if PyStrip(lines[k]) == "" {
        bodyStart := k + 1;
        return;
      }
    }
    assert lines[..|lines|] == lines;
  }

  /** The second fallback loop: the first candidate of the window, stripped. */
  method FirstFallbackLine(window: seq<String>) returns (subject: String)
    ensures subject == match FirstWhere(window, FallbackCandidate) case Some(k) => PyStrip(window[k]) case None => ""
  {
    subject := "";
    for k := 0 to |window|
      invariant FirstWhere(window[..k], FallbackCandidate).None?
    {
      FirstWhereExtend(window, FallbackCandidate, k);
      var line := PyStrip(window[k]);
      if line != "" && |line| < 100 && !DecoratedStart(line) {
        if !HasAnyTerm(LowerStr(line), FooterTerms[..4]) {
          subject := line;
          return;
        }
      }
    }
    assert window[..|window|] == window;
  }

  /** The two fallback loops: find the body start (moving `i`), then take the first candidate in the next five lines. */
  method FallbackLoops(lines: seq<String>, i0: int) returns (subject: String, i: int)
    ensures subject == FallbackSubject(lines)
    ensures i == FallbackIndex(lines, i0)
  {
    var bodyStart;
    bodyStart, i := FindBodyStart(lines, i0);
    var window := lines[bodyStart..if bodyStart + 5 <= |lines| then bodyStart + 5 else |lines|];
    subject := FirstFallbackLine(window);
  }

  // ---------------------------------------------------------------------------
  // Field cleanup

  /** The local part of a lone address, capitalised part by part: 'first.last' gives 'First Last'. */
  function DottedName(local: String): String {
    Join(CapitalizeAll(Split(local, '.')), " ")
  }

  function CapitalizeAll(parts: seq<String>): (r: seq<String>)
    ensures |r| == |parts| && forall k :: 0 <= k < |parts| ==> r[k] == Capitalize(parts[k])
  {
    if parts == [] then [] else [Capitalize(parts[0])] + CapitalizeAll(parts[1..])
  }

  /**
   * Sender cleanup: `<…>` removed, whitespace collapsed and stripped; a lone
   * address whose local part has a '.' becomes its capitalised dot parts.
   */
  function CleanFrom(from: String): (r: String)
    ensures !LoneDottedAddress(r)
  {
    var b := Settle(from);
    if LoneDottedAddress(b) then DottedNameHasNoAt(FirstPiece(b, '@')); DottedName(FirstPiece(b, '@')) else b
  }

  /** The first steps of the sender cleanup: `<…>` removed, stripped, white space runs collapsed, stripped again. */
  function Settle(from: String): String {
    PyStrip(CollapseRuns(PyStrip(RemoveAngles(from)), IsPySpace, ' '))
  }

  /** What the cleanup rewrites: an '@' and no space, with a '.' before the first '@'. */
  predicate LoneDottedAddress(s: String) {
    '@' in s && ' ' !in s && '.' in FirstPiece(s, '@')
  }

  /** Whitespace is single spaces between non-spaces, with none at either end: what stripping and collapsing leave. */
  predicate PySettled(s: String) {
    && (|s| > 0 ==> !IsPySpace(s[0]) && !IsPySpace(s[|s| - 1]))
    && (forall k :: 0 <= k < |s| && IsPySpace(s[k]) ==> s[k] == ' ')
    && (forall k :: 0 <= k < |s| - 1 ==> !(IsPySpace(s[k]) && IsPySpace(s[k + 1])))
  }

  /** A settled text comes through stripping, collapsing and stripping again unchanged; one space after it is stripped. */
  lemma PySettledKept(n: String)
    requires PySettled(n)
    ensures PyStrip(n) == n && PyStrip(n + " ") == n
    ensures PyStrip(CollapseRuns(n, IsPySpace, ' ')) == n
  {
    StripEndsBare(n, IsPySpace, IsPySpace);
    assert n + " " == n + [' '];
    StripEndsOneAfter(n, ' ', IsPySpace);
    CollapseRunsFixed(n, IsPySpace, ' ');
  }

  /** A settled name without '<' or '@' is kept, and an `<address>` after it is removed. */
  lemma CleanFromKeepsName(n: String, address: String)
    requires PySettled(n) && '<' !in n && '@' !in n
    requires |address| > 0 && '>' !in address
    ensures CleanFrom(n) == n
    ensures CleanFrom(n + " <" + address + ">") == n
  {
    assert n + " <" + address + ">" == (n + " ") + "<" + address + ">";
    PySettledKept(n);
    assert RemoveAngles(n + " <" + address + ">") == n + " " by {
      assert '<' !in n + " ";
      AnglesDropped(n + " ", address);
    }
  }

  /** A lone address with a '.' before its '@' becomes the capitalised dot parts of its local part, joined by spaces. */
  lemma CleanFromDottedAddress(a: String)
    requires '<' !in a && forall k :: 0 <= k < |a| ==> !IsPySpace(a[k])
    requires '@' in a && '.' in FirstPiece(a, '@')
    ensures CleanFrom(a) == DottedName(FirstPiece(a, '@'))
  {
    UnspacedSettled(a);
    SettledKept(a);
    assert LoneDottedAddress(a);
  }

  /** A settled text without '<' comes through the first steps of the cleanup unchanged. */
  lemma SettledKept(a: String)
    requires PySettled(a) && '<' !in a
    ensures Settle(a) == a
  {
    PySettledKept(a);
    assert RemoveAngles(a) == a;
  }

  /** A text without white space is settled and holds no space. */
  lemma UnspacedSettled(a: String)
    requires forall k :: 0 <= k < |a| ==> !IsPySpace(a[k])
    ensures PySettled(a) && ' ' !in a
  {
    assert IsPySpace(' ');
  }

  /** The capitalised dot parts of an '@'-free local part hold no '@'. */
  lemma DottedNameHasNoAt(local: String)
    requires '@' !in local
    ensures '@' !in DottedName(local)
  {
    var parts := Split(local, '.');
    forall k | 0 <= k < |parts| ensures '@' !in parts[k] {
      if '@' in parts[k] {
        SplitPartsWithin(local, '.', k, '@');
      }
    }
    CapitalizedPartsHaveNoAt(parts);
    JoinHasNoAt(CapitalizeAll(parts), " ");
  }

  lemma CapitalizedPartsHaveNoAt(parts: seq<String>)
    requires forall k :: 0 <= k < |parts| ==> '@' !in parts[k]
    ensures forall k :: 0 <= k < |parts| ==> '@' !in CapitalizeAll(parts)[k]
  {
    forall k | 0 <= k < |parts| ensures '@' !in CapitalizeAll(parts)[k] {
      var c := Capitalize(parts[k]);
      forall i | 0 <= i < |c| ensures c[i] != '@' {
        assert parts[k][i] != '@';
      }
    }
  }

  lemma {:induction false} JoinHasNoAt(parts: seq<String>, sep: String)
    requires '@' !in sep
    requires forall k :: 0 <= k < |parts| ==> '@' !in parts[k]
    ensures '@' !in Join(parts, sep)
  {
    if |parts| > 1 {
      JoinHasNoAt(parts[1..], sep);
    }
  }

  /** `^(re:|fw:|fwd:)\s*` case-insensitively: where the subject proper starts. */
  function ReplyPrefixEnd(s: String): (n: nat)
    ensures n <= |s|
    ensures StartsWith(LowerStr(s), "re:") || StartsWith(LowerStr(s), "fw:") ==> n == SkipWhile(s, 3, IsPySpace)
    ensures StartsWith(LowerStr(s), "fwd:") ==> n == SkipWhile(s, 4, IsPySpace)
    ensures !StartsWith(LowerStr(s), "re:") && !StartsWith(LowerStr(s), "fw:") && !StartsWith(LowerStr(s), "fwd:") ==> n == 0
  {
    var low := LowerStr(s);
    assert StartsWith(low, "fwd:") ==> low[0] == 'f' && low[2] == 'd';
    var p := if StartsWith(low, "re:") then 3 else if StartsWith(low, "fw:") then 3 else if StartsWith(low, "fwd:") then 4 else 0;
    if p == 0 then 0 else SkipWhile(s, p, IsPySpace)
  }

  /** Subject cleanup: one reply/forward prefix dropped, whitespace collapsed, at most 100 characters. */
  function CleanSubject(s: String): (r: String)
    ensures |r| <= 100
    ensures |r| > 0 ==> !IsPySpace(r[0]) && !IsPySpace(r[|r| - 1])
  {
    var a := PyStrip(s[ReplyPrefixEnd(s)..]);
    var b := PyStrip(CollapseRuns(a, IsPySpace, ' '));
    if |b| > 100 then b[..97] + "..." else b
  }

  /** After a reply or forward prefix (any case) and the white space that follows it, the subject proper starts. */
  lemma ReplyPrefixSkipped(p: String, w: String, t: String)
    requires LowerStr(p) == "re:" || LowerStr(p) == "fw:" || LowerStr(p) == "fwd:"
    requires w == "" || w == " "
    requires |t| > 0 && !IsPySpace(t[0])
    ensures ReplyPrefixEnd(p + w + t) == |p| + |w|
  {
    var s := p + w + t;
    var low := LowerStr(s);
    assert low[..|p|] == LowerStr(p);
    assert low[..3] == LowerStr(p)[..3];
    assert s[|p| + |w|] == t[0];
    assert |w| == 1 ==> IsPySpace(s[|p|]);
  }

  /** A settled subject of at most 100 characters that starts with no reply prefix is kept. */
  lemma CleanSubjectKeepsPlain(t: String)
    requires PySettled(t) && |t| <= 100 && ReplyPrefixEnd(t) == 0
    ensures CleanSubject(t) == t
  {
    assert t[0..] == t;
    var a := PyStrip(t[ReplyPrefixEnd(t)..]);
    assert a == t by {
      PySettledKept(t);
    }
    assert PyStrip(CollapseRuns(a, IsPySpace, ' ')) == t by {
      PySettledKept(t);
    }
  }

  /** One reply or forward prefix, in any case, with or without a space after it, is dropped from a settled subject. */
  lemma CleanSubjectDropsReplyPrefix(p: String, w: String, t: String)
    requires LowerStr(p) == "re:" || LowerStr(p) == "fw:" || LowerStr(p) == "fwd:"
    requires w == "" || w == " "
    requires PySettled(t) && |t| > 0 && |t| <= 100
    ensures CleanSubject(p + w + t) == t
  {
    ReplyPrefixSkipped(p, w, t);
    PrefixDropped(p + w, t);
    PySettledKept(t);
  }

  /** What follows a prefix. */
  lemma PrefixDropped(q: String, t: String)
    ensures (q + t)[|q|..] == t
  {
  }

  /** 'Pinterest' is a settled name: the cleanup keeps it. */
  lemma PinterestIsClean()
    ensures CleanFrom("Pinterest") == "Pinterest"
  {
    var n := "Pinterest";
    assert forall k :: 0 <= k < |n| ==> !IsPySpace(n[k]);
    CleanFromKeepsName(n, "a");
  }

  // ---------------------------------------------------------------------------
  // One result

  /** What the content parse yields: the three fields, and where it left the loop variable shared with the results loop. */
  datatype Extraction = Extraction(fields: Fields, index: int)

  /** The fields (and the shared loop variable, which starts at `pos`) after the content parse and cleanup, before the defaults. */
  function Extract(content: String, f0: Fields, pos: nat): (x: Extraction)
    ensures content == "" ==> x == Extraction(f0, pos)
    ensures content != "" ==> |x.fields.subject| <= 100
    ensures content != "" && IndexOfCiFrom(NormalizeNewlines(content), "pinterest.com", 0).Some? ==> x.fields.from == "Pinterest"
  {
    if content == "" then Extraction(f0, pos)
    else
      var text := NormalizeNewlines(content);
      var lines := Split(text, '\n');
      Cleaned(WithFallbackSubject(lines, Scanned(text, lines, f0, pos)))
  }

  /** The line scan: the Pinterest shortcut or the header scan, and where it leaves the loop variable. */
  function Scanned(text: String, lines: seq<String>, f0: Fields, pos: nat): Extraction {
    if IndexOfCiFrom(text, "pinterest.com", 0).Some? then
      Extraction(Fields("Pinterest", f0.to, if f0.subject != "" then f0.subject else PinterestSubject(lines)), pos)
    else Extraction(Scan(f0, lines), |lines| - 1)
  }

  /** The subject fallbacks, run when the scan found no subject. */
  function WithFallbackSubject(lines: seq<String>, x: Extraction): Extraction {
    if x.fields.subject == "" then Extraction(x.fields.(subject := FallbackSubject(lines)), FallbackIndex(lines, x.index))
    else x
  }

  /** The cleanup of a non-empty sender and a non-empty subject. */
  function Cleaned(x: Extraction): (r: Extraction)
    ensures |r.fields.subject| <= 100
    ensures x.fields.from == "Pinterest" ==> r.fields.from == "Pinterest"
  {
    PinterestIsClean();
    var g := x.fields;
    Extraction(Fields(if g.from != "" then CleanFrom(g.from) else "", g.to, if g.subject != "" then CleanSubject(g.subject) else ""),
               x.index)
  }

  /** The sender, recipient and subject a result starts from: its metadata, with 'sender' and 'recipient' as fallbacks. */
  function MetaFields(m: Meta): Fields {
    Fields(if m.from != "" then m.from else m.sender, if m.to != "" then m.to else m.recipient, m.subject)
  }

  function MetaAt(metas: seq<Meta>, pos: nat): Meta {
    if pos < |metas| then metas[pos] else EmptyMeta
  }

  /** `ids[i]` if in range, else `str(i)`. */
  function IdFor(ids: seq<String>, i: int): String {
    if 0 <= i < |ids| then ids[i] else IntToString(i)
  }

  /**
   * The display record for the result at `pos`, as written: its id is taken at
   * the index where the content parse left the shared loop variable. There is
   * no record when formatting the date raises an error its handler does not
   * catch: the handler of the whole result drops it.
   */
  function HitAt(docs: seq<String>, metas: seq<Meta>, ids: seq<String>, pos: nat, formatMs: int -> DateFormat): (h: Option<Hit>)
    requires pos < |docs|
    ensures h.None? <==> DateText(MetaAt(metas, pos), formatMs).None?
    ensures h.Some? ==> h.value.from != "" && h.value.subject != "" && h.value.date == DateText(MetaAt(metas, pos), formatMs).value
    ensures var x := Extract(docs[pos], MetaFields(MetaAt(metas, pos)), pos);
      h.Some? ==>
      && (x.fields.from == "" ==> h.value.from == UnknownSender) && (x.fields.from != "" ==> h.value.from == x.fields.from)
      && (x.fields.subject == "" ==> h.value.subject == NoSubject) && (x.fields.subject != "" ==> h.value.subject == x.fields.subject)
    ensures h.Some? && IndexOfCiFrom(NormalizeNewlines(docs[pos]), "pinterest.com", 0).Some? ==> h.value.from == "Pinterest"
    ensures h.Some? && docs[pos] != "" ==> |h.value.subject| <= 100
    ensures h.Some? && docs[pos] == "" ==> h.value.id == IdFor(ids, pos) && h.value.to == MetaFields(MetaAt(metas, pos)).to
    ensures h.Some? ==> h.value.preview == Preview(docs[pos]) && h.value.rawContent == h.value.content
  {
    var content := docs[pos];
    var m := MetaAt(metas, pos);
    var x := Extract(content, MetaFields(m), pos);
    match DateText(m, formatMs)
    case None => None
    case Some(date) =>
      var shown := if content == "" then content else NormalizeNewlines(content);
      Some(Hit(IdFor(ids, x.index),
               if x.fields.from != "" then x.fields.from else UnknownSender,
               x.fields.to,
               if x.fields.subject != "" then x.fields.subject else NoSubject,
               date, m.date, Preview(content), shown, shown))
  }

  /**
   * One iteration of the results loop, with the loop variable `i` that the
   * inner loops reassign: the result's record is appended to `hits`, unless
   * the result is dropped.
   */
  method ProcessResult(docs: seq<String>, metas: seq<Meta>, ids: seq<String>, pos: nat, formatMs: int -> DateFormat, hits: seq<Hit>)
    returns (next: seq<Hit>)
    requires pos < |docs|
    ensures var h := HitAt(docs, metas, ids, pos, formatMs); next == if h.Some? then hits + [h.value] else hits
  {
    var i: int := pos;
    var m := MetaAt(metas, pos);
    var content := docs[pos];
    var preview := Preview(content);
    var date := DateText(m, formatMs);
    if date.None? {
      return hits;
    }
    var dateStr := date.value;
    var f := MetaFields(m);
    if content != "" {
      f, i := ParseContent(content, f, pos);
      content := NormalizeNewlines(content);
    }
    var from := if f.from != "" then f.from else UnknownSender;
    var subject := if f.subject != "" then f.subject else NoSubject;
    next := hits + [Hit(IdFor(ids, i), from, f.to, subject, dateStr, m.date, preview, content, content)];
  }

  /** The content parse of one result: the line scans, the subject fallbacks and the cleanup. */
  method ParseContent(content: String, f0: Fields, pos: nat) returns (f: Fields, i: int)
    requires content != ""
    ensures Extraction(f, i) == Extract(content, f0, pos)
  {
    f, i := f0, pos;
    var text := NormalizeNewlines(content);
    var lines := Split(text, '\n');
    if IndexOfCiFrom(text, "pinterest.com", 0).Some? {
      var subject := PinterestLoop(lines, f.subject);
      f := Fields("Pinterest", f.to, subject);
    } else {
      f, i := ScanLines(f, lines, i);
    }
    ghost var scanned := Extraction(f, i);
    assert scanned == Scanned(text, lines, f0, pos);
    if f.subject == "" {
      var subject;
      subject, i := FallbackLoops(lines, i);
      f := f.(subject := subject);
    }
    assert Extraction(f, i) == WithFallbackSubject(lines, scanned);
    if f.from != "" {
      f := f.(from := CleanFrom(f.from));
    }
    if f.subject != "" {
      f := f.(subject := CleanSubject(f.subject));
    }
  }

  /** The record of each stored document, in the store's order, or `None` where it is dropped. */
  function HitsAt(docs: seq<String>, metas: seq<Meta>, ids: seq<String>, formatMs: int -> DateFormat): (o: seq<Option<Hit>>)
    ensures |o| == |docs| && forall k :: 0 <= k < |docs| ==> o[k] == HitAt(docs, metas, ids, k, formatMs)
  {
    seq(|docs|, k requires 0 <= k < |docs| => HitAt(docs, metas, ids, k, formatMs))
  }

  /**
   * The results loop: the record of each stored document, in the store's
   * order, leaving out those whose date raised an error the date handler does
   * not catch; when no date does, one record per document.
   */
  method FormatResults(docs: seq<String>, metas: seq<Meta>, ids: seq<String>, formatMs: int -> DateFormat)
    returns (hits: seq<Hit>)
    ensures hits == Somes(HitsAt(docs, metas, ids, formatMs))
    ensures |hits| <= |docs|
    ensures (forall k :: 0 <= k < |docs| ==> DateText(MetaAt(metas, k), formatMs).Some?) ==>
      |hits| == |docs| && forall k :: 0 <= k < |docs| ==> Some(hits[k]) == HitAt(docs, metas, ids, k, formatMs)
  {
    hits := [];
    for pos := 0 to |docs|
      invariant hits == Somes(HitsAt(docs, metas, ids, formatMs)[..pos])
    {
      HitsStep(docs, metas, ids, formatMs, pos);
      hits := ProcessResult(docs, metas, ids, pos, formatMs, hits);
    }
    assert HitsAt(docs, metas, ids, formatMs)[..|docs|] == HitsAt(docs, metas, ids, formatMs);
    HitsCount(docs, metas, ids, formatMs);
  }

  /** One turn of the results loop adds the record of the document at `pos`, if it has one. */
  lemma HitsStep(docs: seq<String>, metas: seq<Meta>, ids: seq<String>, formatMs: int -> DateFormat, pos: nat)
    requires pos < |docs|
    ensures var h := HitAt(docs, metas, ids, pos, formatMs);
      Somes(HitsAt(docs, metas, ids, formatMs)[..pos + 1])
      == if h.Some? then Somes(HitsAt(docs, metas, ids, formatMs)[..pos]) + [h.value] else Somes(HitsAt(docs, metas, ids, formatMs)[..pos])
  {
    SomesStep(HitsAt(docs, metas, ids, formatMs), pos);
  }

  /** At most one record per document, and the record of every document when no date raises. */
  lemma HitsCount(docs: seq<String>, metas: seq<Meta>, ids: seq<String>, formatMs: int -> DateFormat)
    ensures |Somes(HitsAt(docs, metas, ids, formatMs))| <= |docs|
    ensures (forall k :: 0 <= k < |docs| ==> DateText(MetaAt(metas, k), formatMs).Some?) ==>
      |Somes(HitsAt(docs, metas, ids, formatMs))| == |docs|
      && forall k :: 0 <= k < |docs| ==> Some(Somes(HitsAt(docs, metas, ids, formatMs))[k]) == HitAt(docs, metas, ids, k, formatMs)
  {
    var all := HitsAt(docs, metas, ids, formatMs);
    SomesLength(all);
    if forall k :: 0 <= k < |docs| ==> DateText(MetaAt(metas, k), formatMs).Some? {
      SomesAllSome(all);
    }
  }

  /**
   * For non-empty single-line content that does not mention Pinterest, the
   * parse leaves the shared loop variable at 0 whatever the result's position,
   * so every such result is given the first id.
   */
  lemma SingleLineResultsGetFirstId(docs: seq<String>, metas: seq<Meta>, ids: seq<String>, pos: nat, formatMs: int -> DateFormat)
    requires pos < |docs| && |ids| > 0
    requires docs[pos] != "" && '\n' !in docs[pos] && '\r' !in docs[pos]
    requires IndexOfCiFrom(docs[pos], "pinterest.com", 0).None?
    ensures HitAt(docs, metas, ids, pos, formatMs).Some? ==> HitAt(docs, metas, ids, pos, formatMs).value.id == ids[0]
  {
    SingleLineParseEndsAtZero(docs[pos], MetaFields(MetaAt(metas, pos)), pos);
  }

  /** On one line, both the scan and the blank-line search leave the shared loop variable at 0. */
  lemma SingleLineParseEndsAtZero(content: String, f0: Fields, pos: nat)
    requires content != "" && '\n' !in content && '\r' !in content
    requires IndexOfCiFrom(content, "pinterest.com", 0).None?
    ensures Extract(content, f0, pos).index == 0
  {
    NormalizedWithoutCr(content);
    SingleLineSplit(content);
    SingleLineFallbackIndex(content, 0);
  }

  /** Text without a '\r' is left as it is by the newline normalisation. */
  lemma NormalizedWithoutCr(content: String)
    requires '\r' !in content
    ensures NormalizeNewlines(content) == content
  {
    NoCrLfUnchanged(content);
    var r := ReplaceChar(content, '\r', '\n');
    assert forall k :: 0 <= k < |content| ==> r[k] == content[k];
  }

  lemma SingleLineSplit(line: String)
    requires '\n' !in line
    ensures Split(line, '\n') == [line]
  {
    assert FindChar(line, 0, '\n') == |line|;
  }

  /** On a single line the shared loop variable always ends at zero. */
  lemma SingleLineFallbackIndex(line: String, i0: int)
    ensures FallbackIndex([line], i0) == 0
  {
  }

  lemma {:induction false} NoCrLfUnchanged(s: String)
    requires '\r' !in s
    ensures ReplaceAll(s, "\r\n", "\n") == s
    decreases |s|
  {
    if |s| >= 2 {
      assert s[..2] != "\r\n" by { assert s[0] != '\r'; }
      NoCrLfUnchanged(s[1..]);
      assert s == [s[0]] + s[1..];
    }
  }

  /** The evidently intended record: the same fields, with the id of the result's own position. */
  function IntendedHitAt(docs: seq<String>, metas: seq<Meta>, ids: seq<String>, pos: nat, formatMs: int -> DateFormat): (h: Option<Hit>)
    requires pos < |docs|
    ensures h.Some? <==> HitAt(docs, metas, ids, pos, formatMs).Some?
    ensures h.Some? ==> h.value.id == IdFor(ids, pos)
  {
    match HitAt(docs, metas, ids, pos, formatMs)
    case Some(hit) => Some(hit.(id := IdFor(ids, pos)))
    case None => None
  }

  /**
   * With the intended ids, two results get distinct ids whenever the store's
   * ids are distinct and both positions are inside the id list or both outside
   * it (in particular when the store returns no ids at all).
   */
  lemma IntendedIdsAreDistinct(docs: seq<String>, metas: seq<Meta>, ids: seq<String>, p: nat, q: nat, formatMs: int -> DateFormat)
    requires p < q < |docs|
    requires q < |ids| || |ids| <= p
    requires forall a, b :: 0 <= a < b < |ids| ==> ids[a] != ids[b]
    ensures IntendedHitAt(docs, metas, ids, p, formatMs).Some? && IntendedHitAt(docs, metas, ids, q, formatMs).Some? ==>
      IntendedHitAt(docs, metas, ids, p, formatMs).value.id != IntendedHitAt(docs, metas, ids, q, formatMs).value.id
  {
    if |ids| <= p {
      NatToStringInjective(p, q);
    }
  }
}
