/**
 * The Slack integration of the backend: the link extractor run over message
 * text, the two extension classifiers, the file name and store id given to
 * a fetched document, the per-team token table filled by the OAuth callback,
 * and the early returns that decide whether a message is handled at all.
 *
 * HTTP calls to Slack, downloads and the store are not performed: a handled
 * message yields the list of fetch jobs the route would start.
 */
module Slack {
  import opened Wrappers
  import opened Text

  // ---------------------------------------------------------------------------
  // extract_links: re.findall(r'https?://[^\s<>"]+|www\.[^\s<>"]+', text)

  /** A character the URL body class `[^\s<>"]` accepts. */
  predicate IsUrlChar(c: char) {
    !IsPySpace(c) && c != '<' && c != '>' && c != '"'
  }

  /** Where the literal start of a link (`https://`, `http://` or `www.`) found at `i` ends. */
  function PrefixEnd(s: String, i: nat): (r: Option<nat>)
    ensures r.Some? ==> i < r.value <= |s|
  {
    if OccursAt(s, "https://", i) then Some(i + 8)
    else if OccursAt(s, "http://", i) then Some(i + 7)
    else if OccursAt(s, "www.", i) then Some(i + 4)
    else None
  }

  /** The end of the link the pattern matches at `i`: a prefix and then the longest non-empty run of URL characters. */
  function LinkEnd(s: String, i: nat): (r: Option<nat>)
    ensures r.Some? ==> i < r.value <= |s|
  {
    match PrefixEnd(s, i)
    case None => None
    case Some(p) =>
      var e := SkipWhile(s, p, IsUrlChar);
      if e > p then Some(e) else None
  }

  /** A link starts with one of the prefixes, has a non-empty body, consists of URL characters and cannot be extended. */
  lemma LinkEndShape(s: String, i: nat)
    requires LinkEnd(s, i).Some?
    ensures var e := LinkEnd(s, i).value;
      var link := s[i..e];
      ((StartsWith(link, "https://") && |link| > 8) || (StartsWith(link, "http://") && |link| > 7) ||
       (StartsWith(link, "www.") && |link| > 4)) &&
      (forall k :: 0 <= k < |link| ==> IsUrlChar(link[k])) &&
      (e == |s| || !IsUrlChar(s[e]))
  {
    var e := LinkEnd(s, i).value;
    var p := PrefixEnd(s, i).value;
    var link := s[i..e];
    var pre := s[i..p];
    assert pre == "https://" || pre == "http://" || pre == "www.";
    assert link[..p - i] == pre;
    forall k | 0 <= k < |link|
      ensures IsUrlChar(link[k])
    {
      if k < p - i {
        assert link[k] == pre[k];
      } else {
        assert link[k] == s[i + k];
      }
    }
  }

  /**
   * `re.findall` as a scan from `i`: where a link matches it is taken whole and
   * the scan resumes after it; elsewhere the scan moves one character on.
   */
  function Spans(s: String, i: nat): (sp: seq<(nat, nat)>)
    requires i <= |s|
    ensures forall k :: 0 <= k < |sp| ==> i <= sp[k].0 < sp[k].1 <= |s| && LinkEnd(s, sp[k].0) == Some(sp[k].1)
    ensures forall k :: 0 <= k < |sp| - 1 ==> sp[k].1 <= sp[k + 1].0
    decreases |s| - i
  {
    if i == |s| then []
    else match LinkEnd(s, i)
      case Some(e) => [(i, e)] + Spans(s, e)
      case None => Spans(s, i + 1)
  }

  /** `extract_links(text)`: the matched links, left to right. */
  function ExtractLinks(text: String): (links: seq<String>)
    ensures |links| == |Spans(text, 0)|
  {
    var sp := Spans(text, 0);
    seq(|sp|, k requires 0 <= k < |sp| => text[sp[k].0..sp[k].1])
  }

  /** Nothing is missed: every position where a link could start lies within a returned span. */
  lemma {:induction false} SpansComplete(s: String, i: nat, j: nat)
    requires i <= j < |s| && LinkEnd(s, j).Some?
    ensures exists k :: 0 <= k < |Spans(s, i)| && Spans(s, i)[k].0 <= j < Spans(s, i)[k].1
    decreases |s| - i
  {
    var sp := Spans(s, i);
    match LinkEnd(s, i)
    case Some(e) =>
      assert sp[0] == (i, e);
      if j >= e {
        SpansComplete(s, e, j);
        var k :| 0 <= k < |Spans(s, e)| && Spans(s, e)[k].0 <= j < Spans(s, e)[k].1;
        assert sp[k + 1] == Spans(s, e)[k];
      }
    case None =>
      assert j != i;
      SpansComplete(s, i + 1, j);
  }

  /** A message that is one link and nothing else yields exactly that link. */
  lemma WholeTextIsOneLink(body: String)
    requires |body| > 0 && forall k :: 0 <= k < |body| ==> IsUrlChar(body[k])
    ensures ExtractLinks("https://" + body) == ["https://" + body]
  {
    var s := "https://" + body;
    assert OccursAt(s, "https://", 0);
    assert forall k :: 8 <= k < |s| ==> s[k] == body[k - 8];
    assert SkipWhile(s, 8, IsUrlChar) == |s|;
    assert LinkEnd(s, 0) == Some(|s|);
    assert Spans(s, |s|) == [];
    assert Spans(s, 0) == [(0, |s|)];
    assert s[0..|s|] == s;
  }

  // ---------------------------------------------------------------------------
  // The extension classifiers

  const DocExtensions: seq<String> := [".pdf", ".doc", ".docx", ".txt", ".md", ".csv", ".xls", ".xlsx", ".ppt", ".pptx"]
  const SupportedExtensions: seq<String> := [".pdf", ".txt", ".md", ".csv", ".doc", ".docx", ".xls", ".xlsx", ".ppt", ".pptx"]

  /** `is_document_link(url)`: the lowercased URL ends with one of the document extensions. */
  predicate IsDocumentLink(url: String) {
    exists k :: 0 <= k < |DocExtensions| && EndsWith(LowerStr(url), DocExtensions[k])
  }

  /** `is_supported_file(name)`: the lowercased name ends with one of the supported extensions. */
  predicate IsSupportedFile(name: String) {
    exists k :: 0 <= k < |SupportedExtensions| && EndsWith(LowerStr(name), SupportedExtensions[k])
  }

  /** The two lists hold the same ten extensions, so the classifiers agree on every string. */
  lemma ClassifiersAgree(s: String)
    ensures IsDocumentLink(s) <==> IsSupportedFile(s)
  {
    var l := LowerStr(s);
    if IsDocumentLink(s) {
      var k :| 0 <= k < |DocExtensions| && EndsWith(l, DocExtensions[k]);
      var ext := DocExtensions[k];
      assert ext in SupportedExtensions;
      var j :| 0 <= j < |SupportedExtensions| && SupportedExtensions[j] == ext;
    }
    if IsSupportedFile(s) {
      var k :| 0 <= k < |SupportedExtensions| && EndsWith(l, SupportedExtensions[k]);
      var ext := SupportedExtensions[k];
      assert ext in DocExtensions;
      var j :| 0 <= j < |DocExtensions| && DocExtensions[j] == ext;
    }
  }

  /** Upper-casing a name does not change whether it is a document link. */
  lemma DocumentLinkIgnoresCase(s: String)
    ensures IsDocumentLink(UpperStr(s)) <==> IsDocumentLink(s)
  {
    assert LowerStr(UpperStr(s)) == LowerStr(s);
  }

  /** A name ending in ".PDF" is a supported file. */
  lemma UpperCasePdfIsSupported(stem: String)
    ensures IsSupportedFile(stem + ".PDF")
  {
    var l := LowerStr(stem + ".PDF");
    assert l[|l| - 4..] == ".pdf";
    assert EndsWith(l, SupportedExtensions[0]);
  }

  // ---------------------------------------------------------------------------
  // The name and id of a fetched document

  /** `url.split("/")[-1].split("?")[0] or "document"`. */
  function FileName(url: String): (r: String)
    ensures r != "" && '/' !in r && '?' !in r
  {
    var last := LastPiece(url, '/');
    var name := FirstPiece(last, '?');
    assert '/' !in name by {
      if '/' in name {
        SplitPartsWithin(last, '?', 0, '/');
      }
    }
    Or(name, "document")
  }

  /** A URL whose path ends in '/' gets the default name. */
  lemma TrailingSlashIsDefaultName(url: String)
    ensures FileName(url + "/") == "document"
  {
    LastPieceAppend(url, "", '/');
    assert url + "/" == url + ['/'] + "";
  }

  /** The last segment of a URL without a query is its file name. */
  lemma FileNameOfPlainSegment(prefix: String, name: String)
    requires name != "" && '/' !in name && '?' !in name
    ensures FileName(prefix + "/" + name) == name
  {
    LastPieceAppend(prefix, name, '/');
    assert prefix + "/" + name == prefix + ['/'] + name;
    assert Split(name, '?') == [name];
  }

  /** The store id `slack_<channel>_<ts>`. */
  function DocId(channel: String, ts: String): (r: String)
    ensures StartsWith(r, "slack_")
  {
    "slack_" + channel + "_" + ts
  }

  /** Channels without '_' (as Slack's channel ids are) give distinct ids to distinct messages. */
  lemma DocIdInjective(c1: String, t1: String, c2: String, t2: String)
    requires '_' !in c1 && '_' !in c2
    requires DocId(c1, t1) == DocId(c2, t2)
    ensures c1 == c2 && t1 == t2
  {
    var s := DocId(c1, t1);
    assert forall k :: 6 <= k < 6 + |c1| ==> s[k] == c1[k - 6];
    assert forall k :: 6 <= k < 6 + |c2| ==> s[k] == c2[k - 6];
    assert s[6 + |c1|] == '_' && s[6 + |c2|] == '_';
    assert FindChar(s, 6, '_') == 6 + |c1|;
    assert FindChar(s, 6, '_') == 6 + |c2|;
    assert c1 == s[6..6 + |c1|] == c2;
    assert t1 == s[7 + |c1|..] == t2;
  }

  // ---------------------------------------------------------------------------
  // Handling a message

  /** A fetch the message handler starts. */
  datatype Job =
    | FetchLink(url: String, fileName: String, docId: String) // a document link in the text
    | FetchFile(name: String)                                 // a supported attachment

  /** The jobs for the document links among `links`, in order. */
  function LinkJobs(links: seq<String>, channel: String, ts: String): seq<Job> {
    if links == [] then []
    else
      var url := links[|links| - 1];
      LinkJobs(links[..|links| - 1], channel, ts) +
      (if IsDocumentLink(url) then [FetchLink(url, FileName(url), DocId(channel, ts))] else [])
  }

  /** The jobs for the supported attachments; one without a name raises and is skipped. */
  function FileJobs(files: seq<Option<String>>): seq<Job> {
    if files == [] then []
    else
      var f := files[|files| - 1];
      FileJobs(files[..|files| - 1]) + (if f.Some? && IsSupportedFile(f.value) then [FetchFile(f.value)] else [])
  }

  /** A message is handled when team, channel and ts are all non-empty and the team has a non-empty token. */
  predicate Accepted(tokens: map<String, String>, team: String, channel: String, ts: String) {
    team != "" && channel != "" && ts != "" && team in tokens && tokens[team] != ""
  }

  /** What `process_slack_message` starts for one message. */
  function MessageJobs(tokens: map<String, String>, text: String, team: String, channel: String, ts: String,
                       files: seq<Option<String>>): seq<Job> {
    if !Accepted(tokens, team, channel, ts) then []
    else LinkJobs(ExtractLinks(text), channel, ts) + FileJobs(files)
  }

  /** The link jobs are the document links, each named after its URL and all under the message's id. */
  lemma {:induction false} LinkJobsExact(links: seq<String>, channel: String, ts: String, j: Job)
    ensures j in LinkJobs(links, channel, ts) <==>
      j.FetchLink? && j.url in links && IsDocumentLink(j.url) && j.fileName == FileName(j.url) && j.docId == DocId(channel, ts)
    decreases |links|
  {
    if links != [] {
      var init := links[..|links| - 1];
      LinkJobsExact(init, channel, ts, j);
      assert links == init + [links[|links| - 1]];
    }
  }

  /** The file jobs are the attachments with a supported name. */
  lemma {:induction false} FileJobsExact(files: seq<Option<String>>, j: Job)
    ensures j in FileJobs(files) <==> j.FetchFile? && Some(j.name) in files && IsSupportedFile(j.name)
    decreases |files|
  {
    if files != [] {
      var init := files[..|files| - 1];
      FileJobsExact(init, j);
      assert files == init + [files[|files| - 1]];
    }
  }

  /** A handled message fetches exactly its document links and supported attachments; an ignored one fetches nothing. */
  lemma MessageJobsExact(tokens: map<String, String>, text: String, team: String, channel: String, ts: String,
                         files: seq<Option<String>>, j: Job)
    ensures j in MessageJobs(tokens, text, team, channel, ts, files) <==>
      Accepted(tokens, team, channel, ts) &&
      ((j.FetchLink? && j.url in ExtractLinks(text) && IsDocumentLink(j.url) && j.fileName == FileName(j.url) &&
        j.docId == DocId(channel, ts)) ||
       (j.FetchFile? && Some(j.name) in files && IsSupportedFile(j.name)))
  {
    LinkJobsExact(ExtractLinks(text), channel, ts, j);
    FileJobsExact(files, j);
  }

  /** The loop over the extracted links: a fetch for each document link. */
  method DocumentLinkJobs(links: seq<String>, channel: String, ts: String) returns (jobs: seq<Job>)
    ensures jobs == LinkJobs(links, channel, ts)
  {
    jobs := [];
    for k := 0 to |links|
      invariant jobs == LinkJobs(links[..k], channel, ts)
    {
      assert links[..k + 1][..k] == links[..k];
      if IsDocumentLink(links[k]) {
        jobs := jobs + [FetchLink(links[k], FileName(links[k]), DocId(channel, ts))];
      }
    }
    assert links[..|links|] == links;
  }

  /** The loop over the attachments: a fetch for each supported one. */
  method AttachmentJobs(files: seq<Option<String>>) returns (jobs: seq<Job>)
    ensures jobs == FileJobs(files)
  {
    jobs := [];
    for k := 0 to |files|
      invariant jobs == FileJobs(files[..k])
    {
      assert files[..k + 1][..k] == files[..k];
      var f := files[k];
      if f.Some? && IsSupportedFile(f.value) {
        jobs := jobs + [FetchFile(f.value)];
      }
    }
    assert files[..|files|] == files;
  }

  /**
   * The token table, a module-level dictionary in the source. `teams` keeps
   * its keys in insertion order, which `list(slack_tokens.keys())` reports.
   */
  class SlackTokens {
    var teams: seq<String>
    var tokens: map<String, String>

    ghost predicate Valid()
      reads this
    {
      (forall a, b :: 0 <= a < b < |teams| ==> teams[a] != teams[b]) &&
      (forall t :: t in teams <==> t in tokens)
    }

    constructor()
      ensures Valid() && teams == [] && tokens == map[]
    {
      teams := [];
      tokens := map[];
    }

    /** `GET /slack/status`: connected exactly when some team has a token; the teams in insertion order. */
    method Status() returns (connected: bool, teamIds: seq<String>)
      requires Valid()
      ensures connected <==> |tokens| > 0
      ensures connected <==> teamIds != []
      ensures teamIds == teams
    {
      connected := |tokens| > 0;
      teamIds := teams;
      if teamIds != [] {
        assert teamIds[0] in tokens;
      }
    }

    /**
     * The OAuth callback once the code exchange has answered: a successful
     * answer stores the token under the team id; a failed HTTP call or an
     * answer with `ok` false ends in a 500, because the 400 raised for the
     * latter is caught by the handler's generic `except`.
     */
    method Callback(httpOk: bool, apiOk: bool, teamId: String, accessToken: String) returns (r: Result<String, nat>)
      requires Valid()
      modifies this
      ensures Valid()
      ensures !(httpOk && apiOk) ==> r == Err(500) && tokens == old(tokens) && teams == old(teams)
      ensures httpOk && apiOk ==>
        r == Ok(teamId) && tokens == old(tokens)[teamId := accessToken] &&
        teams == (if teamId in old(tokens) then old(teams) else old(teams) + [teamId])
    {
      if !httpOk || !apiOk {
        return Err(500);
      }
      if teamId !in tokens {
        teams := teams + [teamId];
      }
      tokens := tokens[teamId := accessToken];
      r := Ok(teamId);
    }

    /** `process_slack_message`: the early returns, then one loop over the links and one over the attachments. */
    method ProcessMessage(text: String, team: String, channel: String, ts: String, files: seq<Option<String>>)
      returns (jobs: seq<Job>)
      ensures jobs == MessageJobs(tokens, text, team, channel, ts, files)
    {
      jobs := [];
      if team == "" || channel == "" || ts == "" {
        return;
      }
      var token := if team in tokens then tokens[team] else "";
      if token == "" {
        return;
      }
      var links := ExtractLinks(text);
      var linkJobs := DocumentLinkJobs(links, channel, ts);
      var fileJobs := AttachmentJobs(files);
      jobs := linkJobs + fileJobs;
    }
  }
}
