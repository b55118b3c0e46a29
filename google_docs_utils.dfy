/**
 * The Google Docs helpers of the backend: reading a document id out of a
 * Docs URL, and flattening a fetched document's body into text.
 *
 * URL parsing follows CPython 3.12's `urllib.parse.urlparse` and
 * `parse_qs` on the parts the id extraction reads. The OAuth flow and the
 * Docs and Drive API calls are not modelled: their answers (the file name
 * and the document body) are parameters.
 */
module GoogleDocsUtils {
  import opened Wrappers
  import opened Text

  // ---------------------------------------------------------------------------
  // urlparse

  /** The parts of a parsed URL. */
  datatype Url = Url(scheme: String, netloc: String, path: String, params: String, query: String, fragment: String)

  /** The characters `urlsplit` strips from the front (C0 controls and space). */
  predicate IsC0OrSpace(c: char) { c <= ' ' }

  /** The characters `urlsplit` deletes everywhere. */
  predicate IsUnsafe(c: char) { c == '\t' || c == '\r' || c == '\n' }

  predicate IsSchemeChar(c: char) {
    IsLetter(c) || IsDigit(c) || c == '+' || c == '-' || c == '.'
  }

  /** The schemes for which `urlparse` splits `;params` off the last path segment. */
  const UsesParams: seq<String> := ["", "ftp", "hdl", "prospero", "http", "imap", "https", "shttp", "rtsp",
                                    "rtsps", "rtspu", "sip", "sips", "mms", "sftp", "tel"]

  /** Leading C0/space characters stripped, then tabs and line breaks removed. */
  function Clean(url: String): (r: String)
    ensures forall k :: 0 <= k < |r| ==> !IsUnsafe(r[k])
  {
    Filter(url[SkipWhile(url, 0, IsC0OrSpace)..], c => !IsUnsafe(c))
  }

  /** The scheme, lowercased, when the text before the first ':' is a letter followed by scheme characters. */
  function SplitScheme(url: String): (String, String) {
    var i := FindChar(url, 0, ':');
    if 0 < i < |url| && IsLetter(url[0]) && forall k :: 0 <= k < i ==> IsSchemeChar(url[k])
    then (LowerStr(url[..i]), url[i + 1..])
    else ("", url)
  }

  /** After "//", the network location runs to the first '/', '?' or '#'. */
  function SplitNetloc(rest: String): (String, String) {
    if StartsWith(rest, "//") then
      var d := SkipWhile(rest, 2, c => c != '/' && c != '?' && c != '#');
      (rest[2..d], rest[d..])
    else ("", rest)
  }

  /** `s.split(c, 1)` when `c` occurs: the text before and after the first `c`; otherwise `s` and "". */
  function SplitOnce(s: String, c: char): (r: (String, String))
    ensures c !in r.0
  {
    var i := FindChar(s, 0, c);
    if i < |s| then (s[..i], s[i + 1..]) else (s, "")
  }

  /** `_splitparams`: the ';' searched from the last '/' (or from the start) separates the params. */
  function SplitParams(path: String): (String, String) {
    var from := match LastChar(path, |path|, '/') case Some(j) => j case None => 0;
    var i := FindChar(path, from, ';');
    if i < |path| then (path[..i], path[i + 1..]) else (path, "")
  }

  /** `urlparse(url)`; `None` where it raises `ValueError` for an unbalanced '[' or ']' in the network location. */
  function UrlParse(url: String): Option<Url> {
    var (scheme, rest) := SplitScheme(Clean(url));
    var (netloc, rest2) := SplitNetloc(rest);
    if ('[' in netloc) != (']' in netloc) then None
    else
      var (rest3, fragment) := SplitOnce(rest2, '#');
      var (rest4, query) := SplitOnce(rest3, '?');
      var (path, params) := if scheme in UsesParams && ';' in rest4 then SplitParams(rest4) else (rest4, "");
      Some(Url(scheme, netloc, path, params, query, fragment))
  }

  // ---------------------------------------------------------------------------
  // parse_qs

  /** One `name=value` pair of a query string; `None` for a piece that `parse_qs` drops (empty, no '=', or empty value). */
  function QueryPair(piece: String): Option<(String, String)> {
    var i := FindChar(piece, 0, '=');
    if piece == "" || i == |piece| || i + 1 == |piece| then None
    else Some((ReplaceChar(piece[..i], '+', ' '), ReplaceChar(piece[i + 1..], '+', ' ')))
  }

  /** `parse_qs(query)[key][0]`: the value of the first kept pair named `key`. */
  function FirstValue(pieces: seq<String>, key: String): (r: Option<String>)
    ensures r.Some? ==> r.value != ""
  {
    if pieces == [] then None
    else match QueryPair(pieces[0])
      case Some(p) => if p.0 == key then Some(p.1) else FirstValue(pieces[1..], key)
      case None => FirstValue(pieces[1..], key)
  }

  // ---------------------------------------------------------------------------
  // extract_document_id

  const IdError: String := "Could not extract document ID from URL"

  /** Text starting "d/" splits into "d" followed by at least one more piece. */
  lemma SplitStartsWithD(t: String)
    requires |t| >= 2 && t[0] == 'd' && t[1] == '/'
    ensures |Split(t, '/')| >= 2 && Split(t, '/')[0] == "d"
  {
    assert FindChar(t, 0, '/') == 1;
    SplitStep(t, '/');
    assert t[..1] == "d";
  }

  /** The pieces of a text after its first separator are its own pieces, shifted by one. */
  lemma SplitShift(s: String, k: nat)
    requires FindChar(s, 0, '/') < |s|
    requires k < |Split(s[FindChar(s, 0, '/') + 1..], '/')|
    ensures k + 1 < |Split(s, '/')| && Split(s, '/')[k + 1] == Split(s[FindChar(s, 0, '/') + 1..], '/')[k]
    ensures |Split(s, '/')| == |Split(s[FindChar(s, 0, '/') + 1..], '/')| + 1
  {
    SplitStep(s, '/');
  }

  /** A path containing "/d/" has a piece "d" that is not its last piece; `k` is one such. */
  lemma {:induction false} SplitHasD(s: String, j: nat) returns (k: nat)
    requires j + 3 <= |s| && s[j] == '/' && s[j + 1] == 'd' && s[j + 2] == '/'
    ensures k < |Split(s, '/')| - 1 && Split(s, '/')[k] == "d"
    decreases |s|
  {
    var f := FindChar(s, 0, '/');
    var t := s[f + 1..];
    if f == j {
      SplitStartsWithD(t);
      SplitShift(s, 0);
      k := 1;
    } else {
      var k' := SplitHasD(t, j - f - 1);
      SplitShift(s, k');
      k := k' + 1;
    }
  }

  /** The piece after the first piece "d" of a path containing "/document/d/". */
  function PathId(path: String): (r: String)
    requires Contains(path, "/document/d/")
  {
    var p := IndexOfFrom(path, "/document/d/", 0).value;
    assert path[p + 9] == '/' && path[p + 10] == 'd' && path[p + 11] == '/' by {
      assert path[p..p + 12] == "/document/d/";
    }
    var parts := Split(path, '/');
    assert FirstWhere(parts, IsD).Some? && FirstWhere(parts, IsD).value + 1 < |parts| by {
      var i := SplitHasD(path, p + 9);
      assert IsD(parts[i]);
    }
    parts[FirstWhere(parts, IsD).value + 1]
  }

  predicate IsD(piece: String) { piece == "d" }

  /**
   * `extract_document_id(url)`: on a host containing "docs.google.com", the
   * path form "/document/d/<id>" first, then an `id` query parameter;
   * anything else fails with the one error message.
   */
  function ExtractDocumentId(url: String): (r: Result<String, String>)
    ensures r.Err? ==> r.error == IdError
    ensures r.Ok? ==> UrlParse(url).Some? && Contains(UrlParse(url).value.netloc, "docs.google.com")
  {
    match UrlParse(url)
    case None => Err(IdError)
    case Some(u) =>
      if !Contains(u.netloc, "docs.google.com") then Err(IdError)
      else if Contains(u.path, "/document/d/") then Ok(PathId(u.path))
      else if Contains(u.query, "id=") then
        match FirstValue(Split(u.query, '&'), "id")
        case Some(v) => Ok(v)
        case None => Err(IdError)
      else Err(IdError)
  }

  /** The path form never fails and wins over any `id` parameter. */
  lemma PathFormWins(url: String)
    requires UrlParse(url).Some?
    requires Contains(UrlParse(url).value.netloc, "docs.google.com") && Contains(UrlParse(url).value.path, "/document/d/")
    ensures ExtractDocumentId(url) == Ok(PathId(UrlParse(url).value.path))
  {
  }

  /** A query-form id is never empty, as `parse_qs` drops blank values. */
  lemma QueryIdNotEmpty(url: String)
    requires UrlParse(url).Some? && !Contains(UrlParse(url).value.path, "/document/d/")
    requires ExtractDocumentId(url).Ok?
    ensures ExtractDocumentId(url).value != ""
  {
  }

  /** "/document/d/<id>" is the '/'-join of its pieces. */
  lemma JoinDocumentPath(id: String)
    ensures Join(["", "document", "d", id], "/") == "/document/d/" + id
  {
    var parts := ["", "document", "d", id];
    assert Join(parts[2..], "/") == "d/" + id by {
      assert parts[2..] == ["d", id];
      assert ["d", id][1..] == [id];
    }
    assert Join(parts[1..], "/") == "document/d/" + id by {
      assert parts[1..][1..] == parts[2..];
    }
  }

  /** The pieces of "/document/d/<id>". */
  lemma SplitDocumentPath(id: String)
    requires '/' !in id
    ensures Split("/document/d/" + id, '/') == ["", "document", "d", id]
  {
    JoinSplit(["", "document", "d", id], '/');
    JoinDocumentPath(id);
  }

  /** "/document/d/<id>/edit" is the '/'-join of its pieces. */
  lemma JoinEditPath(id: String)
    ensures Join(["", "document", "d", id, "edit"], "/") == "/document/d/" + id + "/edit"
  {
    var parts := ["", "document", "d", id, "edit"];
    assert Join(parts[3..], "/") == id + "/edit" by {
      assert parts[3..] == [id, "edit"];
      assert [id, "edit"][1..] == ["edit"];
    }
    assert Join(parts[2..], "/") == "d/" + id + "/edit" by {
      assert parts[2..][1..] == parts[3..];
    }
    assert Join(parts[1..], "/") == "document/d/" + id + "/edit" by {
      assert parts[1..][1..] == parts[2..];
    }
  }

  /** In "/document/d/<id>" the id is the segment after "d"; for a path ending in "/d/" it is "". */
  lemma PathIdAfterD(id: String)
    requires '/' !in id
    ensures Contains("/document/d/" + id, "/document/d/") && PathId("/document/d/" + id) == id
  {
    var path := "/document/d/" + id;
    assert OccursAt(path, "/document/d/", 0);
    SplitDocumentPath(id);
    FirstWhereAt(Split(path, '/'), x => x == "d", 2);
  }

  /** In the usual "/document/d/<id>/edit" the id is the segment after "d". */
  lemma PathIdEditForm(id: String)
    requires '/' !in id
    ensures Contains("/document/d/" + id + "/edit", "/document/d/") && PathId("/document/d/" + id + "/edit") == id
  {
    var path := "/document/d/" + id + "/edit";
    assert OccursAt(path, "/document/d/", 0);
    var parts := ["", "document", "d", id, "edit"];
    JoinSplit(parts, '/');
    JoinEditPath(id);
    FirstWhereAt(parts, x => x == "d", 2);
  }

  /** A URL that starts with a visible character and holds no tab or line break is left as it is by cleaning. */
  lemma CleanKeeps(url: String)
    requires |url| > 0 && !IsC0OrSpace(url[0])
    requires forall k :: 0 <= k < |url| ==> !IsUnsafe(url[k])
    ensures Clean(url) == url
  {
    assert SkipWhile(url, 0, IsC0OrSpace) == 0;
    assert url[0..] == url;
    FilterAll(url, c => !IsUnsafe(c));
  }

  /** A scheme of scheme characters followed by ':' is split off and lowercased. */
  lemma SchemeSplits(scheme: String, rest: String)
    requires |scheme| > 0 && IsLetter(scheme[0]) && forall k :: 0 <= k < |scheme| ==> IsSchemeChar(scheme[k])
    ensures SplitScheme(scheme + ":" + rest) == (LowerStr(scheme), rest)
  {
    var url := scheme + ":" + rest;
    assert url[|scheme|] == ':';
    assert forall k :: 0 <= k < |scheme| ==> url[k] == scheme[k];
    assert FindChar(url, 0, ':') == |scheme|;
    assert url[..|scheme|] == scheme;
    assert url[|scheme| + 1..] == rest;
  }

  /** After "//", a host without '/', '?' or '#' is the network location and the path follows it. */
  lemma NetlocSplits(host: String, path: String)
    requires forall k :: 0 <= k < |host| ==> host[k] !in "/?#"
    requires path == "" || path[0] == '/'
    ensures SplitNetloc("//" + host + path) == (host, path)
  {
    var rest := "//" + host + path;
    assert forall k :: 2 <= k < 2 + |host| ==> rest[k] == host[k - 2];
    assert 2 + |host| < |rest| ==> rest[2 + |host|] == '/';
    assert SkipWhile(rest, 2, c => c != '/' && c != '?' && c != '#') == 2 + |host|;
    assert rest[2..2 + |host|] == host;
    assert rest[2 + |host|..] == path;
  }

  /** The pieces of a plain URL hold no tab or line break, so neither does the URL. */
  lemma PlainUrlSafe(scheme: String, host: String, path: String)
    requires forall k :: 0 <= k < |scheme| ==> IsSchemeChar(scheme[k])
    requires forall k :: 0 <= k < |host| ==> !IsUnsafe(host[k])
    requires forall k :: 0 <= k < |path| ==> !IsUnsafe(path[k])
    ensures var url := scheme + "://" + host + path; forall k :: 0 <= k < |url| ==> !IsUnsafe(url[k])
  {
    var url := scheme + "://" + host + path;
    forall k | 0 <= k < |url|
      ensures !IsUnsafe(url[k])
    {
      if k < |scheme| {
        assert url[k] == scheme[k];
      } else if k >= |scheme| + 3 + |host| {
        assert url[k] == path[k - |scheme| - 3 - |host|];
      } else if k >= |scheme| + 3 {
        assert url[k] == host[k - |scheme| - 3];
      }
    }
  }

  /** A URL "<scheme>://<host><path>" without query, fragment or params parses into exactly those parts. */
  lemma UrlParsePlain(scheme: String, host: String, path: String)
    requires |scheme| > 0 && IsLetter(scheme[0]) && forall k :: 0 <= k < |scheme| ==> IsSchemeChar(scheme[k])
    requires forall k :: 0 <= k < |host| ==> host[k] !in "/?#[]\t\r\n"
    requires path == "" || path[0] == '/'
    requires forall k :: 0 <= k < |path| ==> path[k] !in "?#;\t\r\n"
    ensures UrlParse(scheme + "://" + host + path) == Some(Url(LowerStr(scheme), host, path, "", "", ""))
  {
    var rest := "//" + host + path;
    var url := scheme + ":" + rest;
    assert url == scheme + "://" + host + path;
    PlainUrlSafe(scheme, host, path);
    CleanKeeps(url);
    SchemeSplits(scheme, rest);
    NetlocSplits(host, path);
    HostUnbracketed(host);
    PathUnsplit(path);
  }

  lemma HostUnbracketed(host: String)
    requires forall k :: 0 <= k < |host| ==> host[k] !in "/?#[]\t\r\n"
    ensures '[' !in host && ']' !in host
  {
  }

  /** A path without '#', '?' or ';' is left whole by the fragment, query and params splits. */
  lemma PathUnsplit(path: String)
    requires forall k :: 0 <= k < |path| ==> path[k] !in "?#;\t\r\n"
    ensures SplitOnce(path, '#') == (path, "") && SplitOnce(path, '?') == (path, "") && ';' !in path
  {
    assert '#' !in path && '?' !in path;
  }

  // ---------------------------------------------------------------------------
  // get_document_content

  /** One entry of a paragraph's `elements`: a text run with or without `content`, or anything else. */
  datatype Run = TextRun(content: Option<String>) | OtherRun

  /** One entry of the body's `content`: a paragraph (a missing `elements` list is empty) or anything else. */
  datatype Element = Paragraph(runs: seq<Run>) | OtherElement

  const UntitledDocument: String := "Untitled Document"

  /** The contents of the runs that carry one, in order. */
  function RunTexts(runs: seq<Run>): seq<String>
  {
    if runs == [] then []
    else
      var last := runs[|runs| - 1];
      RunTexts(runs[..|runs| - 1]) + (if last.TextRun? && last.content.Some? then [last.content.value] else [])
  }

  /** The run contents of the paragraphs, paragraph by paragraph. */
  function ElementTexts(elements: seq<Element>): seq<String>
  {
    if elements == [] then []
    else
      var last := elements[|elements| - 1];
      ElementTexts(elements[..|elements| - 1]) + (if last.Paragraph? then RunTexts(last.runs) else [])
  }

  /** A text is collected exactly when some run of a paragraph carries it. */
  lemma {:induction false} RunTextsMembers(runs: seq<Run>, t: String)
    ensures t in RunTexts(runs) <==> TextRun(Some(t)) in runs
    decreases |runs|
  {
    if runs != [] {
      var init := runs[..|runs| - 1];
      RunTextsMembers(init, t);
      assert runs == init + [runs[|runs| - 1]];
    }
  }

  lemma {:induction false} ElementTextsMembers(elements: seq<Element>, t: String)
    ensures t in ElementTexts(elements) <==> exists i :: 0 <= i < |elements| && elements[i].Paragraph? && TextRun(Some(t)) in elements[i].runs
    decreases |elements|
  {
    if elements != [] {
      var n := |elements| - 1;
      var init := elements[..n];
      ElementTextsMembers(init, t);
      if elements[n].Paragraph? {
        RunTextsMembers(elements[n].runs, t);
      }
      assert forall i :: 0 <= i < n ==> elements[i] == init[i];
    }
  }

  /** Flattening distributes over concatenating two parts of a body. */
  lemma {:induction false} ElementTextsAppend(a: seq<Element>, b: seq<Element>)
    ensures ElementTexts(a + b) == ElementTexts(a) + ElementTexts(b)
    decreases |b|
  {
    if b == [] {
      assert a + b == a;
    } else {
      var n := |b| - 1;
      var ab := a + b;
      var tail := if b[n].Paragraph? then RunTexts(b[n].runs) else [];
      ElementTextsAppend(a, b[..n]);
      assert ab[..|ab| - 1] == a + b[..n] && ab[|ab| - 1] == b[n];
      assert ElementTexts(ab) == ElementTexts(a + b[..n]) + tail;
      assert ElementTexts(b) == ElementTexts(b[..n]) + tail;
    }
  }

  /** The nested loops over the body's paragraphs and their runs. */
  method FlattenParagraphs(elements: seq<Element>) returns (content: seq<String>)
    ensures content == ElementTexts(elements)
  {
    content := [];
    for i := 0 to |elements|
      invariant content == ElementTexts(elements[..i])
    {
      assert elements[..i + 1][..i] == elements[..i];
      var element := elements[i];
      if element.Paragraph? {
        var before := content;
        for j := 0 to |element.runs|
          invariant content == before + RunTexts(element.runs[..j])
        {
          assert element.runs[..j + 1][..j] == element.runs[..j];
          var run := element.runs[j];
          if run.TextRun? && run.content.Some? {
            content := content + [run.content.value];
          }
        }
        assert element.runs[..|element.runs|] == element.runs;
      }
    }
    assert elements[..|elements|] == elements;
  }

  /**
   * The title and text of a fetched document: the Drive `name` (when the key is present) or
   * "Untitled Document", and the flattened runs joined with '\n'. `body` is `None` when the
   * document lacks `body` or `body.content`.
   */
  method GetDocumentContent(name: Option<String>, body: Option<seq<Element>>) returns (title: String, text: String)
    ensures title == (if name.Some? then name.value else UntitledDocument)
    ensures text == Join(if body.Some? then ElementTexts(body.value) else [], "\n")
  {
    title := if name.Some? then name.value else UntitledDocument;
    var content: seq<String> := [];
    if body.Some? {
      content := FlattenParagraphs(body.value);
    }
    text := Join(content, "\n");
  }

  /** When no run holds a line break, splitting the text on '\n' gives back the runs. */
  lemma TextSplitsIntoRuns(elements: seq<Element>)
    requires ElementTexts(elements) != []
    requires forall t :: t in ElementTexts(elements) ==> '\n' !in t
    ensures Split(Join(ElementTexts(elements), "\n"), '\n') == ElementTexts(elements)
  {
    JoinSplit(ElementTexts(elements), '\n');
  }
}
