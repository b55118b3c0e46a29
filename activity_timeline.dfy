/**
 * The dashboard's activity timeline: each recent activity is shown as a card
 * with an icon, a message, a link and a button label, all chosen from the
 * activity's type; the list itself comes from the activity endpoint.
 *
 * A missing `type` or `page` is the empty string. The fetch is reduced to
 * its outcome, and icons to which of the four pictures is shown.
 */
module ActivityTimeline {
  import opened Wrappers
  import opened Text

  datatype Activity = Activity(id: String, kind: String, page: String, timestamp: String)

  // ---------------------------------------------------------------------------
  // Icon, route and button

  datatype Icon = MessageSquare | FileText | Mail | ActivityIcon

  /** `getActivityIcon`. */
  function IconOf(kind: String): Icon {
    var t := LowerStr(kind);
    if t == "chat" then MessageSquare
    else if t == "document" || t == "documentpageview" then FileText
    else if t == "email" || t == "emailinboxview" then Mail
    else ActivityIcon
  }

  /** `getActivityRoute`. */
  function RouteOf(kind: String): String {
    var t := LowerStr(kind);
    if t == "chat" then "/chats"
    else if t == "document" || t == "documentpageview" then "/documents"
    else if t == "email" || t == "emailinboxview" then "/emails"
    else "/"
  }

  /** `getButtonText`. */
  function ButtonText(kind: String): String {
    var t := LowerStr(kind);
    if t == "chat" then "Open Chat"
    else if t == "document" || t == "documentpageview" then "View Documents"
    else if t == "email" || t == "emailinboxview" then "Check Emails"
    else "View"
  }

  /** The link, its label and the icon of a type always belong to the same section. */
  lemma RouteLabelIconAgree(kind: String)
    ensures RouteOf(kind) == "/chats" <==> ButtonText(kind) == "Open Chat"
    ensures RouteOf(kind) == "/chats" <==> IconOf(kind) == MessageSquare
    ensures RouteOf(kind) == "/documents" <==> ButtonText(kind) == "View Documents"
    ensures RouteOf(kind) == "/documents" <==> IconOf(kind) == FileText
    ensures RouteOf(kind) == "/emails" <==> ButtonText(kind) == "Check Emails"
    ensures RouteOf(kind) == "/emails" <==> IconOf(kind) == Mail
    ensures RouteOf(kind) == "/" <==> ButtonText(kind) == "View"
    ensures RouteOf(kind) == "/" <==> IconOf(kind) == ActivityIcon
  {
  }

  /** What a card shows: the icon (chosen from the type, or the page when the type is empty), the link and the label. */
  datatype Card = Card(icon: Icon, message: String, route: String, button: String)

  function CardOf(a: Activity): Card {
    Card(IconOf(if a.kind != "" then a.kind else a.page), Message(a), RouteOf(a.kind), ButtonText(a.kind))
  }

  /** With a type, the card's icon matches its link; without one the link is "/" while the icon follows the page. */
  lemma CardIconMatchesRoute(a: Activity)
    ensures a.kind != "" ==> (CardOf(a).icon == ActivityIcon <==> CardOf(a).route == "/")
    ensures a.kind == "" ==> CardOf(a).route == "/" && CardOf(a).button == "View" && CardOf(a).icon == IconOf(a.page)
  {
    RouteLabelIconAgree(a.kind);
  }

  // ---------------------------------------------------------------------------
  // Messages

  /** `replace(/([A-Z])/g, ' $1')`: a space before every capital letter. */
  function SpaceBeforeCapitals(s: String): (r: String)
    ensures forall i :: 0 <= i < |r| && IsUpper(r[i]) ==> i > 0 && r[i - 1] == ' '
    ensures |r| >= |s|
  {
    if s == [] then []
    else (if IsUpper(s[0]) then [' ', s[0]] else [s[0]]) + SpaceBeforeCapitals(s[1..])
  }

  predicate NotSpace(c: char) { c != ' ' }

  /** Only spaces are inserted: dropping the spaces of both sides gives the same text. */
  lemma {:induction false} SpacingOnlyAddsSpaces(s: String)
    ensures Filter(SpaceBeforeCapitals(s), NotSpace) == Filter(s, NotSpace)
    ensures |SpaceBeforeCapitals(s)| == |s| + |Filter(s, IsUpper)|
    decreases |s|
  {
    if s != [] {
      var head := if IsUpper(s[0]) then [' ', s[0]] else [s[0]];
      SpacingOnlyAddsSpaces(s[1..]);
      FilterAppend(head, SpaceBeforeCapitals(s[1..]), NotSpace);
      FilterAppend([s[0]], s[1..], NotSpace);
      FilterAppend([s[0]], s[1..], IsUpper);
      assert s == [s[0]] + s[1..];
      if IsUpper(s[0]) {
        assert head == [' '] + [s[0]];
        FilterAppend([' '], [s[0]], NotSpace);
      }
    }
  }

  /** `replace(/^./, c => c.toUpperCase())`: the first character, unless it is a line terminator. */
  function UpperFirst(s: String): (r: String)
    ensures |r| == |s| && (s != [] ==> r[1..] == s[1..])
  {
    if s != [] && !IsLineTerminator(s[0]) then [Upper(s[0])] + s[1..] else s
  }

  /** The default message: the page name spaced at its capitals, capitalised and trimmed. */
  function PageTitle(page: String): String {
    JsTrim(UpperFirst(SpaceBeforeCapitals(page)))
  }

  predicate NoCapitals(s: String) {
    s == [] || (!IsUpper(s[0]) && NoCapitals(s[1..]))
  }

  /** A text without capitals is left as it is. */
  lemma {:induction false} NoCapitalsUnspaced(s: String)
    requires NoCapitals(s)
    ensures SpaceBeforeCapitals(s) == s
    decreases |s|
  {
    if s != [] {
      NoCapitalsUnspaced(s[1..]);
    }
  }

  /** A capitalised word gains one space in front. */
  lemma CapitalWordSpaced(c: char, w: String)
    requires IsUpper(c) && NoCapitals(w)
    ensures SpaceBeforeCapitals([c] + w) == [' ', c] + w
  {
    NoCapitalsUnspaced(w);
    assert ([c] + w)[1..] == w;
  }

  /** A page name that begins with a letter gives a title that begins with that letter, capitalised. */
  lemma PageTitleStartsCapitalised(page: String)
    requires page != [] && IsLetter(page[0])
    ensures PageTitle(page) != [] && PageTitle(page)[0] == Upper(page[0])
  {
    var spaced := SpaceBeforeCapitals(page);
    var up := UpperFirst(spaced);
    assert page == [page[0]] + page[1..];
    SpacedAppend([page[0]], page[1..]);
    if IsUpper(page[0]) {
      assert spaced[..2] == [' ', page[0]];
      assert up[0] == ' ' && up[1] == page[0];
      TrimmedStartsAt(up, 1);
    } else {
      assert spaced[0] == page[0];
      assert up[0] == Upper(page[0]);
      TrimmedStartsAt(up, 0);
    }
  }

  /** When the first non-space is at `j`, the trimmed text begins with it. */
  lemma TrimmedStartsAt(s: String, j: nat)
    requires j < |s| && !IsJsSpace(s[j]) && forall k :: 0 <= k < j ==> IsJsSpace(s[k])
    ensures JsTrim(s) != [] && JsTrim(s)[0] == s[j]
  {
    assert SkipWhile(s, 0, IsJsSpace) == j;
  }

  lemma {:induction false} SpacedAppend(a: String, b: String)
    ensures SpaceBeforeCapitals(a + b) == SpaceBeforeCapitals(a) + SpaceBeforeCapitals(b)
    decreases |a|
  {
    if a == [] {
      assert a + b == b;
    } else {
      var head := if IsUpper(a[0]) then [' ', a[0]] else [a[0]];
      SpacedAppend(a[1..], b);
      assert (a + b)[0] == a[0] && (a + b)[1..] == a[1..] + b;
      calc {
        SpaceBeforeCapitals(a + b);
        head + SpaceBeforeCapitals(a[1..] + b);
        head + (SpaceBeforeCapitals(a[1..]) + SpaceBeforeCapitals(b));
        (head + SpaceBeforeCapitals(a[1..])) + SpaceBeforeCapitals(b);
      }
    }
  }

  /** `formatActivityMessage`: fixed text for three types, otherwise the page's title. */
  function Message(a: Activity): String {
    var t := LowerStr(a.kind);
    if t == "chat" then "Chat session"
    else if t == "documentpageview" then "Viewed documents"
    else if t == "emailinboxview" then "Checked emails"
    else PageTitle(a.page)
  }

  /** The types "document" and "email" have no fixed message and show their page's title. */
  lemma DocumentAndEmailShowPage(a: Activity)
    requires LowerStr(a.kind) == "document" || LowerStr(a.kind) == "email"
    ensures Message(a) == PageTitle(a.page)
    ensures RouteOf(a.kind) != "/"
  {
    var t := LowerStr(a.kind);
    assert |t| == 8 || |t| == 5;
    assert |"chat"| == 4 && |"documentpageview"| == 16 && |"emailinboxview"| == 14;
  }

  // ---------------------------------------------------------------------------
  // Loading

  /**
   * How the request ended: an HTTP error with its status text, an exception (with its message,
   * or `None` when what was thrown is not an `Error`), or a JSON body, `None` when not an array.
   */
  datatype FetchOutcome = NotOk(statusText: String) | Thrown(message: Option<String>) | Body(data: Option<seq<Activity>>)

  datatype Timeline = Timeline(activities: seq<Activity>, isLoading: bool, error: Option<String>)

  const LoadFailed: String := "Failed to load activities"

  /** `fetchActivities`: the new state once the request has ended. */
  function Fetched(s: Timeline, o: FetchOutcome): (r: Timeline)
    ensures !r.isLoading
    ensures r.error.None? <==> o.Body?
    ensures o.Body? ==> r.activities == o.data.GetOr([])
    ensures !o.Body? ==> r.activities == s.activities
  {
    match o
    case NotOk(status) => Timeline(s.activities, false, Some("Failed to fetch activities: " + status))
    case Thrown(m) => Timeline(s.activities, false, Some(if m.Some? then m.value else LoadFailed))
    case Body(data) => Timeline(data.GetOr([]), false, None)
  }
}
