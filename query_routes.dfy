/**
 * The query routes of the backend: `/search` shapes the vector store's
 * answer into one result per matched document, `/documents` lists the
 * regular files of "uploaded_docs" in path order with a type and a short
 * preview and returns one page of them, and `/search-similar` asks the
 * language model about the matched documents.
 *
 * The directory is a map from entry names to what `is_file`, `stat` and the
 * readers find there; the embedding service, the store query and the chat
 * model are parameters.
 */
module QueryRoutes {
  import opened Wrappers
  import opened Text
  import opened PyPath
  import opened Json

  // ---------------------------------------------------------------------------
  // Python slicing

  /** A slice bound as Python normalises it: negative counts from the end, then clamped to `[0, n]`. */
  function SliceBound(i: int, n: nat): (r: nat)
    ensures r <= n
    ensures 0 <= i <= n ==> r == i
  {
    if i < 0 then (if i + n < 0 then 0 else i + n)
    else if i > n then n
    else i
  }

  /** `xs[start:stop]`. */
  function PySlice<T>(xs: seq<T>, start: int, stop: int): (r: seq<T>)
  {
    var a := SliceBound(start, |xs|);
    var b := SliceBound(stop, |xs|);
    if a < b then xs[a..b] else []
  }

  /**
   * A page with a non-negative offset and limit holds at most `limit` entries, the ones from
   * position `offset` on, and is empty once the offset passes the end.
   */
  lemma PageContents<T>(xs: seq<T>, offset: int, limit: int)
    requires offset >= 0 && limit >= 0
    ensures var page := PySlice(xs, offset, offset + limit);
      |page| <= limit &&
      (offset >= |xs| ==> page == []) &&
      (offset + limit <= |xs| ==> |page| == limit) &&
      forall k :: 0 <= k < |page| ==> offset + k < |xs| && page[k] == xs[offset + k]
  {
  }

  /** Consecutive pages tile the list: nothing is skipped and nothing is repeated. */
  lemma PagesTile<T>(xs: seq<T>, a: int, b: int, c: int)
    requires 0 <= a <= b <= c
    ensures PySlice(xs, a, b) + PySlice(xs, b, c) == PySlice(xs, a, c)
  {
    var n := |xs|;
    var (x, y, z) := (SliceBound(a, n), SliceBound(b, n), SliceBound(c, n));
    assert x <= y <= z;
    if x < y && y < z {
      assert xs[x..y] + xs[y..z] == xs[x..z];
    }
  }

  /** With a negative offset Python counts from the end, so a long listing gives an empty page. */
  lemma NegativeOffsetPage<T>(xs: seq<T>)
    requires |xs| >= 12
    ensures PySlice(xs, -2, -2 + 10) == []
  {
  }

  // ---------------------------------------------------------------------------
  // Path order

  /** The order `sorted` gives paths of one directory: their names compared code point by code point. */
  predicate Less(a: String, b: String)
    decreases |a|
  {
    if b == [] then false
    else if a == [] then true
    else if a[0] != b[0] then a[0] < b[0]
    else Less(a[1..], b[1..])
  }

  lemma {:induction false} LessIrreflexive(a: String)
    ensures !Less(a, a)
    decreases |a|
  {
    if a != [] {
      LessIrreflexive(a[1..]);
    }
  }

  lemma {:induction false} LessTransitive(a: String, b: String, c: String)
    requires Less(a, b) && Less(b, c)
    ensures Less(a, c)
    decreases |a|
  {
    if a != [] && a[0] == b[0] && b[0] == c[0] {
      LessTransitive(a[1..], b[1..], c[1..]);
    }
  }

  lemma {:induction false} LessTotal(a: String, b: String)
    requires a != b
    ensures Less(a, b) || Less(b, a)
    decreases |a|
  {
    if a != [] && b != [] && a[0] == b[0] {
      assert a == [a[0]] + a[1..] && b == [b[0]] + b[1..];
      LessTotal(a[1..], b[1..]);
    }
  }

  predicate StrictlySorted(names: seq<String>) {
    forall i, j :: 0 <= i < j < |names| ==> Less(names[i], names[j])
  }

  /** The least name of a non-empty set. */
  method LeastName(names: set<String>) returns (m: String)
    requires names != {}
    ensures m in names
    ensures forall x :: x in names && x != m ==> Less(m, x)
  {
    m :| m in names;
    var todo := names - {m};
    while todo != {}
      invariant todo <= names && m in names && m !in todo
      invariant forall x :: x in names && x !in todo && x != m ==> Less(m, x)
      decreases |todo|
    {
      var x :| x in todo;
      if Less(x, m) {
        forall y | y in names && y !in todo && y != m
          ensures Less(x, y)
        {
          LessTransitive(x, m, y);
        }
        m := x;
      } else {
        LessTotal(x, m);
      }
      todo := todo - {x};
    }
  }

  /** `sorted(...)` on the entry names: every name once, in increasing order. */
  method SortNames(names: set<String>) returns (r: seq<String>)
    ensures StrictlySorted(r)
    ensures forall x :: x in r <==> x in names
    ensures |r| == |names|
  {
    r := [];
    var rest := names;
    while rest != {}
      invariant rest <= names
      invariant forall x :: x in names <==> x in r || x in rest
      invariant forall x :: x in r ==> x !in rest
      invariant StrictlySorted(r)
      invariant forall i, y :: 0 <= i < |r| && y in rest ==> Less(r[i], y)
      invariant |r| + |rest| == |names|
      decreases |rest|
    {
      var m := LeastName(rest);
      r := r + [m];
      rest := rest - {m};
    }
  }

  /** No two names are each below the other. */
  lemma {:induction false} LessAsymmetric(x: String, y: String)
    ensures !(Less(x, y) && Less(y, x))
    decreases |x|
  {
    if x != [] && y != [] && x[0] == y[0] {
      LessAsymmetric(x[1..], y[1..]);
    }
  }

  /** Two strictly sorted lists of the same names are the same list. */
  lemma {:induction false} SortedUnique(a: seq<String>, b: seq<String>)
    requires StrictlySorted(a) && StrictlySorted(b)
    requires forall x :: x in a <==> x in b
    ensures a == b
    decreases |a|
  {
    if a + b != [] {
      var first := (a + b)[0];
      assert first in a && first in b by { assert first in a + b; }
      assert a[0] in b && b[0] in a;
      LessAsymmetric(a[0], b[0]);
      assert a[0] == b[0];
      forall x | x in a[1..]
        ensures x in b[1..]
      {
        var i :| 1 <= i < |a| && a[i] == x;
        assert x != a[0] by { LessIrreflexive(x); }
        assert x in b;
      }
      forall x | x in b[1..]
        ensures x in a[1..]
      {
        var i :| 1 <= i < |b| && b[i] == x;
        assert x != b[0] by { LessIrreflexive(x); }
        assert x in a;
      }
      SortedUnique(a[1..], b[1..]);
      assert a == [a[0]] + a[1..] && b == [b[0]] + b[1..];
    }
  }

  // ---------------------------------------------------------------------------
  // Type and preview

  const UploadDir: String := "uploaded_docs"
  const NoPreview: String := "No preview available."
  const NoPdfContent: String := "No content extracted from PDF."
  const CouldNotExtract: String := "Could not extract content: "
  const TxtPreviewLength: nat := 1000
  const PdfPreviewPages: nat := 2

  /** What `page.extract_text() or ""` gives for one page, or the message of what it raises. */
  datatype PdfPage = Extracted(text: String) | ExtractFails(msg: String)

  /** What `PdfReader` finds: its pages, or the message of what opening raises. */
  datatype PdfFile = Unreadable(msg: String) | PdfPages(pages: seq<PdfPage>)

  /**
   * One directory entry: a regular file with its `stat` size and modification time, what
   * `read_text` gives (or raises) and what the PDF reader finds; or anything else.
   */
  datatype Entry = RegularFile(size: nat, mtime: int, text: Result<String, String>, pdf: PdfFile) | OtherEntry

  /** `s.lstrip('.')`. */
  function LStripDots(s: String): (r: String)
    ensures r == [] || r[0] != '.'
    ensures r <= s || exists k :: 0 <= k <= |s| && r == s[k..]
  {
    s[SkipWhile(s, 0, IsDot)..]
  }

  /** `file_path.suffix.lower().lstrip('.')`. */
  function TypeOf(name: String): String {
    LStripDots(LowerStr(Suffix(name)))
  }

  /** The type is the lower-cased suffix without its one dot; it holds no dot itself. */
  lemma TypeShape(name: String)
    ensures Suffix(name) == "" ==> TypeOf(name) == ""
    ensures Suffix(name) != "" ==> TypeOf(name) == LowerStr(Suffix(name)[1..]) && TypeOf(name) != ""
    ensures '.' !in TypeOf(name)
  {
    var s := Suffix(name);
    var l := LowerStr(s);
    if s != "" {
      assert l[0] == '.';
      assert forall k :: 1 <= k < |s| ==> s[k] in s[1..];
      assert forall k :: 1 <= k < |l| ==> l[k] != '.';
      assert SkipWhile(l, 0, IsDot) == 1 by {
        assert SkipWhile(l, 1, IsDot) == 1;
      }
      assert l[1..] == LowerStr(s[1..]);
    }
  }

  /** The text of the given pages, concatenated; the first failure's message if one raises. */
  function PagesText(pages: seq<PdfPage>): (r: Result<String, String>)
  {
    if pages == [] then Ok("")
    else
      match PagesText(pages[..|pages| - 1])
      case Err(m) => Err(m)
      case Ok(t) =>
        match pages[|pages| - 1]
        case Extracted(x) => Ok(t + x)
        case ExtractFails(m) => Err(m)
  }

  /** The page loop of the PDF preview: only the first two pages are read. */
  method FirstPagesText(pages: seq<PdfPage>) returns (r: Result<String, String>)
    ensures r == PagesText(Prefix(pages, PdfPreviewPages))
  {
    var n := if |pages| <= PdfPreviewPages then |pages| else PdfPreviewPages;
    assert Prefix(pages, PdfPreviewPages) == pages[..n];
    var text := "";
    for i := 0 to n
      invariant PagesText(pages[..i]) == Ok(text)
    {
      assert pages[..i + 1][..i] == pages[..i];
      match pages[i]
      case ExtractFails(m) =>
        return Err(m);
      case Extracted(x) =>
        text := text + x;
    }
    r := Ok(text);
  }

  /** The PDF preview: the stripped text of the first two pages, or a fixed note when that is blank. */
  function PdfPreview(pdf: PdfFile): (r: Result<String, String>)
    ensures r.Ok? ==> r.value != ""
  {
    match pdf
    case Unreadable(m) => Err(m)
    case PdfPages(pages) =>
      match PagesText(Prefix(pages, PdfPreviewPages))
      case Err(m) => Err(m)
      case Ok(t) =>
        var s := PyStrip(t);
        Ok(if s != "" then s else NoPdfContent)
  }

  /** Pages after the second never change the preview. */
  lemma PdfPreviewReadsTwoPages(first: seq<PdfPage>, later: seq<PdfPage>)
    requires |first| == PdfPreviewPages
    ensures PdfPreview(PdfPages(first + later)) == PdfPreview(PdfPages(first))
  {
    assert Prefix(first + later, PdfPreviewPages) == first;
    assert Prefix(first, PdfPreviewPages) == first;
  }

  /** The content shown for a regular file of the given type. */
  function Preview(fileType: String, e: Entry): String
    requires e.RegularFile?
  {
    var r :=
      if fileType == "pdf" then PdfPreview(e.pdf)
      else if fileType == "txt" then
        (match e.text
         case Ok(t) => Ok(Prefix(t, TxtPreviewLength))
         case Err(m) => Err(m))
      else Ok(NoPreview);
    match r
    case Ok(c) => c
    case Err(m) => CouldNotExtract + m
  }

  /**
   * What a preview is for each type: the first 1000 characters of a readable text file, the
   * non-blank PDF text or the PDF note, the fixed note for other types, and otherwise the
   * failure's message behind "Could not extract content: ".
   */
  lemma PreviewCases(fileType: String, e: Entry)
    requires e.RegularFile?
    ensures fileType == "txt" && e.text.Ok? ==>
      Preview(fileType, e) <= e.text.value && |Preview(fileType, e)| <= TxtPreviewLength &&
      (|e.text.value| >= TxtPreviewLength ==> |Preview(fileType, e)| == TxtPreviewLength)
    ensures fileType == "txt" && e.text.Err? ==> Preview(fileType, e) == CouldNotExtract + e.text.error
    ensures fileType == "pdf" && PdfPreview(e.pdf).Ok? ==>
      Preview(fileType, e) != "" && (Preview(fileType, e) == NoPdfContent || Preview(fileType, e) == PyStrip(PagesText(Prefix(e.pdf.pages, PdfPreviewPages)).value))
    ensures fileType == "pdf" && PdfPreview(e.pdf).Err? ==> Preview(fileType, e) == CouldNotExtract + PdfPreview(e.pdf).error
    ensures fileType != "pdf" && fileType != "txt" ==> Preview(fileType, e) == NoPreview
  {
  }

  /** The PDF preview as the route computes it: the reader, the page loop and the strip. */
  method ExtractPdfPreview(pdf: PdfFile) returns (r: Result<String, String>)
    ensures r == PdfPreview(pdf)
  {
    match pdf
    case Unreadable(m) =>
      return Err(m);
    case PdfPages(pages) =>
      var text := FirstPagesText(pages);
      if text.Err? {
        return Err(text.error);
      }
      var s := PyStrip(text.value);
      r := Ok(if s != "" then s else NoPdfContent);
  }

  // ---------------------------------------------------------------------------
  // /documents

  /** One listed document; the random `id` is not modelled and `last_modified` is the raw time. */
  datatype Document = Document(name: String, path: String, sizeBytes: nat, lastModified: int, fileType: String, content: String)

  /** The listing of the regular file `name`. */
  function DocumentOf(name: String, e: Entry): Document
    requires e.RegularFile?
  {
    Document(name, UploadDir + "/" + name, e.size, e.mtime, TypeOf(name), Preview(TypeOf(name), e))
  }

  /** The documents for the regular files among `names`, in the order of `names`. */
  function Catalogue(dir: map<String, Entry>, names: seq<String>): seq<Document>
    requires forall x :: x in names ==> x in dir
  {
    if names == [] then []
    else
      var name := names[|names| - 1];
      Catalogue(dir, names[..|names| - 1]) + (if dir[name].RegularFile? then [DocumentOf(name, dir[name])] else [])
  }

  /** A document is listed exactly when it describes a regular file among `names`. */
  lemma {:induction false} CatalogueMembers(dir: map<String, Entry>, names: seq<String>, d: Document)
    requires forall x :: x in names ==> x in dir
    ensures d in Catalogue(dir, names) <==> d.name in names && dir[d.name].RegularFile? && d == DocumentOf(d.name, dir[d.name])
    decreases |names|
  {
    if names != [] {
      var init := names[..|names| - 1];
      var name := names[|names| - 1];
      CatalogueMembers(dir, init, d);
      assert names == init + [name];
      assert d.name in names <==> d.name in init || d.name == name;
      CatalogueStep(dir, names, d);
    }
  }

  /** The last name adds its own document, if it is a regular file, to those of the names before it. */
  lemma CatalogueStep(dir: map<String, Entry>, names: seq<String>, d: Document)
    requires names != [] && forall x :: x in names ==> x in dir
    ensures var name := names[|names| - 1];
      d in Catalogue(dir, names) <==>
      d in Catalogue(dir, names[..|names| - 1]) || (dir[name].RegularFile? && d == DocumentOf(name, dir[name]))
  {
  }

  /** Listed in the order of the names: sorted names give a sorted listing. */
  lemma {:induction false} CatalogueSorted(dir: map<String, Entry>, names: seq<String>)
    requires forall x :: x in names ==> x in dir
    requires StrictlySorted(names)
    ensures var all := Catalogue(dir, names);
      forall i, j :: 0 <= i < j < |all| ==> Less(all[i].name, all[j].name)
    decreases |names|
  {
    if names != [] {
      var init := names[..|names| - 1];
      var name := names[|names| - 1];
      CatalogueSorted(dir, init);
      var prev := Catalogue(dir, init);
      forall k | 0 <= k < |prev|
        ensures Less(prev[k].name, name)
      {
        CatalogueMembers(dir, init, prev[k]);
        var i :| 0 <= i < |init| && init[i] == prev[k].name;
        assert names[i] == prev[k].name;
      }
    }
  }

  /** The listing depends on the directory alone: any sorting of its names gives the same one. */
  lemma CatalogueDetermined(dir: map<String, Entry>, a: seq<String>, b: seq<String>)
    requires StrictlySorted(a) && StrictlySorted(b)
    requires forall x :: (x in a <==> x in dir) && (x in b <==> x in dir)
    ensures Catalogue(dir, a) == Catalogue(dir, b)
  {
    SortedUnique(a, b);
  }

  /** The response of `/documents`. */
  datatype Listing = Listing(total: nat, documents: seq<Document>, limit: int, offset: int)

  /**
   * `list_documents`: `dir` is the upload directory, or `None` when it does not exist. The
   * regular files are listed in path order (`all`), `total` counts them all and the page is
   * `all[offset:offset + limit]`; `limit` and `offset` are echoed.
   */
  method ListDocuments(dir: Option<map<String, Entry>>, limit: int, offset: int)
    returns (listing: Listing, ghost names: seq<String>)
    ensures dir.None? ==> listing == Listing(0, [], limit, offset)
    ensures dir.Some? ==>
      StrictlySorted(names) && (forall x :: x in names <==> x in dir.value) &&
      var all := Catalogue(dir.value, names);
      listing == Listing(|all|, PySlice(all, offset, offset + limit), limit, offset)
  {
    names := [];
    if dir.None? {
      return Listing(0, [], limit, offset), names;
    }
    var entries := dir.value;
    var sorted := SortNames(entries.Keys);
    var files: seq<Document> := [];
    for i := 0 to |sorted|
      invariant files == Catalogue(entries, sorted[..i])
    {
      var name := sorted[i];
      var e := entries[name];
      assert sorted[..i + 1][..i] == sorted[..i];
      if e.RegularFile? {
        var fileType := TypeOf(name);
        var content := Preview(fileType, e);
        files := files + [Document(name, UploadDir + "/" + name, e.size, e.mtime, fileType, content)];
      }
    }
    assert sorted[..|sorted|] == sorted;
    names := sorted;
    listing := Listing(|files|, PySlice(files, offset, offset + limit), limit, offset);
  }

  // ---------------------------------------------------------------------------
  // /search and /search-similar

  /**
   * The vector store's answer to one query, each list holding one inner list per query; `None`
   * for a key the answer lacks. The whole answer is `None` when it is falsy.
   */
  datatype QueryResult = QueryResult(
    documents: Option<seq<seq<String>>>,
    metadatas: Option<seq<seq<Metadata>>>,
    distances: Option<seq<seq<real>>>)

  const IndexOutOfRange: String := "list index out of range"

  /**
   * Whether `xs[0][i]` can be read for every `i < n` when the route reads it: `/search` reads it
   * whenever `xs` is a non-empty list, `/search-similar` only when `xs[0]` is non-empty too.
   */
  predicate Readable<T>(xs: Option<seq<seq<T>>>, n: nat, innerChecked: bool) {
    xs.None? || xs.value == [] || (innerChecked && xs.value[0] == []) || n <= |xs.value[0]|
  }

  /** Whether the route reads `xs[0][i]` at all. */
  predicate Reads<T>(xs: Option<seq<seq<T>>>, innerChecked: bool) {
    xs.Some? && xs.value != [] && !(innerChecked && xs.value[0] == [])
  }

  /** One `/search` result. */
  datatype Hit = Hit(content: String, metadata: Metadata, distance: Option<real>)

  /** The `i`-th result of an answer whose lists are long enough. */
  function HitAt(q: QueryResult, i: nat): Hit
    requires q.documents.Some? && q.documents.value != [] && i < |q.documents.value[0]|
    requires Readable(q.metadatas, i + 1, false) && Readable(q.distances, i + 1, false)
  {
    Hit(q.documents.value[0][i],
        if Reads(q.metadatas, false) then q.metadatas.value[0][i] else map[],
        if Reads(q.distances, false) then Some(q.distances.value[0][i]) else None)
  }

  /**
   * The formatting loop of `search_documents`: no answer or no documents give no results;
   * otherwise one result per document of the first query, in order, unless a list is too short,
   * which raises `IndexError`.
   */
  method FormatResults(results: Option<QueryResult>) returns (r: Result<seq<Hit>, String>)
    ensures results.None? || results.value.documents.None? ==> r == Ok([])
    ensures results.Some? && results.value.documents.Some? ==>
      var q := results.value;
      var docs := q.documents.value;
      (r.Ok? <==> docs != [] && Readable(q.metadatas, |docs[0]|, false) && Readable(q.distances, |docs[0]|, false)) &&
      (r.Err? ==> r.error == IndexOutOfRange) &&
      (r.Ok? ==> |r.value| == |docs[0]| && forall i :: 0 <= i < |docs[0]| ==> r.value[i] == HitAt(q, i))
  {
    if results.None? || results.value.documents.None? {
      return Ok([]);
    }
    var q := results.value;
    var docs := q.documents.value;
    if docs == [] {
      return Err(IndexOutOfRange);
    }
    var hits: seq<Hit> := [];
    for i := 0 to |docs[0]|
      invariant Readable(q.metadatas, i, false) && Readable(q.distances, i, false)
      invariant |hits| == i && forall k :: 0 <= k < i ==> hits[k] == HitAt(q, k)
    {
      if Reads(q.metadatas, false) && i >= |q.metadatas.value[0]| {
        return Err(IndexOutOfRange);
      }
      if Reads(q.distances, false) && i >= |q.distances.value[0]| {
        return Err(IndexOutOfRange);
      }
      hits := hits + [HitAt(q, i)];
    }
    r := Ok(hits);
  }

  /** The response of `/search`, or the detail of its 500. */
  datatype SearchReply = SearchResults(query: String, results: seq<Hit>) | SearchError(detail: String)

  /** `search_documents`: `answer` is the store's answer, or the message of what embedding or querying raised. */
  method SearchDocuments(query: String, answer: Result<Option<QueryResult>, String>) returns (reply: SearchReply)
    ensures answer.Err? ==> reply == SearchError(answer.error)
    ensures answer.Ok? && reply.SearchResults? ==> reply.query == query
    ensures answer.Ok? && (answer.value.None? || answer.value.value.documents.None?) ==> reply == SearchResults(query, [])
    ensures answer.Ok? && answer.value.Some? && answer.value.value.documents.Some? ==>
      var q := answer.value.value;
      var docs := q.documents.value;
      (reply.SearchResults? <==> docs != [] && Readable(q.metadatas, |docs[0]|, false) && Readable(q.distances, |docs[0]|, false)) &&
      (reply.SearchError? ==> reply.detail == IndexOutOfRange) &&
      (reply.SearchResults? ==> |reply.results| == |docs[0]| && forall i :: 0 <= i < |docs[0]| ==> reply.results[i].content == docs[0][i])
  {
    if answer.Err? {
      return SearchError(answer.error);
    }
    var r := FormatResults(answer.value);
    match r
    case Ok(hits) =>
      reply := SearchResults(query, hits);
    case Err(m) =>
      reply := SearchError(m);
  }

  const NoMatchAnswer: String := "No relevant information found."
  const SimilarErrorPrefix: String := "Error in similarity search: "
  const ContextSeparator: String := "\n\n"
  const Instructions: String := "You are an assistant that extracts specific answers based on files and documents."

  /** The prompt sent to the chat model, with the matched documents fenced in triple quotes. */
  function Prompt(context: String, query: String): String {
    Instructions + ":\n\n        \"\"\"\n        " + context + "\n        \"\"\"\n        \nAnswer this question briefly and clearly: \"" + query + "\"\n"
  }

  /** The response of `/search-similar`, or the detail of its 500. */
  datatype SimilarReply = NoMatch(query: String) | Answered(answer: String) | SimilarError(detail: String)

  /** What the chat model's reply becomes. */
  function ChatReply(reply: Result<String, String>): SimilarReply {
    match reply
    case Ok(a) => Answered(a)
    case Err(m) => SimilarError(SimilarErrorPrefix + m)
  }

  /** Whether `search_similar` takes its early "no relevant information" exit. */
  predicate NoDocuments(results: Option<QueryResult>) {
    results.None? || results.value.documents.None? || results.value.documents.value == []
  }

  /**
   * `search_similar`: `answer` is the store's answer (or the message of what embedding or querying
   * raised) and `chat` the model's reply to a prompt (or the message of what it raised).
   */
  method SearchSimilar(query: String, answer: Result<Option<QueryResult>, String>, chat: String -> Result<String, String>)
    returns (reply: SimilarReply)
    ensures answer.Err? ==> reply == SimilarError(SimilarErrorPrefix + answer.error)
    ensures answer.Ok? ==> (reply == NoMatch(query) <==> NoDocuments(answer.value))
    ensures answer.Ok? && !NoDocuments(answer.value) ==>
      var q := answer.value.value;
      var docs := q.documents.value[0];
      if Readable(q.metadatas, |docs|, true) && Readable(q.distances, |docs|, true)
      then reply == ChatReply(chat(Prompt(Join(docs, ContextSeparator), query)))
      else reply == SimilarError(SimilarErrorPrefix + IndexOutOfRange)
  {
    if answer.Err? {
      return SimilarError(SimilarErrorPrefix + answer.error);
    }
    var results := answer.value;
    if NoDocuments(results) {
      return NoMatch(query);
    }
    var q := results.value;
    var docs := q.documents.value[0];
    var documents: seq<String> := [];
    for i := 0 to |docs|
      invariant documents == docs[..i]
      invariant Readable(q.metadatas, i, true) && Readable(q.distances, i, true)
    {
      documents := documents + [docs[i]];
      if Reads(q.metadatas, true) && i >= |q.metadatas.value[0]| {
        return SimilarError(SimilarErrorPrefix + IndexOutOfRange);
      }
      if Reads(q.distances, true) && i >= |q.distances.value[0]| {
        return SimilarError(SimilarErrorPrefix + IndexOutOfRange);
      }
    }
    assert documents == docs;
    var context := Join(documents, ContextSeparator);
    reply := ChatReply(chat(Prompt(context, query)));
  }

  /** Whether no document matched: no answer, no document lists, or an empty first list. */
  predicate NoMatches(results: Option<QueryResult>) {
    NoDocuments(results) || results.value.documents.value[0] == []
  }

  /** `search_similar` with the early exit also taken when the first query matched nothing. */
  function SimilarIntended(query: String, answer: Result<Option<QueryResult>, String>, chat: String -> Result<String, String>)
    : (r: SimilarReply)
    ensures answer.Err? ==> r == SimilarError(SimilarErrorPrefix + answer.error)
    ensures answer.Ok? ==> (r == NoMatch(query) <==> NoMatches(answer.value))
    ensures answer.Ok? && !NoMatches(answer.value) ==>
      var q := answer.value.value;
      var docs := q.documents.value[0];
      if Readable(q.metadatas, |docs|, true) && Readable(q.distances, |docs|, true)
      then r == ChatReply(chat(Prompt(Join(docs, ContextSeparator), query))) && Contains(Prompt(Join(docs, ContextSeparator), query), docs[0])
      else r == SimilarError(SimilarErrorPrefix + IndexOutOfRange)
  {
    if answer.Err? then SimilarError(SimilarErrorPrefix + answer.error)
    else if NoMatches(answer.value) then NoMatch(query)
    else
      var q := answer.value.value;
      var docs := q.documents.value[0];
      if Readable(q.metadatas, |docs|, true) && Readable(q.distances, |docs|, true) then
        PromptHoldsFirstDocument(docs, query);
        ChatReply(chat(Prompt(Join(docs, ContextSeparator), query)))
      else SimilarError(SimilarErrorPrefix + IndexOutOfRange)
  }

  /** The prompt quotes the documents, the first one included. */
  lemma PromptHoldsFirstDocument(docs: seq<String>, query: String)
    requires docs != []
    ensures Contains(Prompt(Join(docs, ContextSeparator), query), docs[0])
  {
    var context := Join(docs, ContextSeparator);
    var pre := Instructions + ":\n\n        \"\"\"\n        ";
    var p := Prompt(context, query);
    assert p == pre + context + ("\n        \"\"\"\n        \nAnswer this question briefly and clearly: \"" + query + "\"\n");
    assert context[..|docs[0]|] == docs[0];
    assert p[|pre|..|pre| + |docs[0]|] == docs[0];
    assert OccursAt(p, docs[0], |pre|);
  }

  /**
   * The store answers a query that matches nothing with one empty inner list. As written that
   * answer passes the early exit and the model is asked about an empty context; the intended
   * route answers "No relevant information found."
   */
  lemma EmptyMatchAsksModel(query: String, chat: String -> Result<String, String>)
    ensures var q := QueryResult(Some([[]]), Some([[]]), Some([[]]));
      !NoDocuments(Some(q)) &&
      Readable(q.metadatas, 0, true) && Readable(q.distances, 0, true) &&
      Join([], ContextSeparator) == "" &&
      SimilarIntended(query, Ok(Some(q)), chat) == NoMatch(query)
  {
  }
}
