/**
 * The frontend document service: the de-duplication of the document list
 * returned by the backend (one entry per key, the most recently modified
 * winning), the mapping of semantic-search results to documents, and the
 * choice of listing URL.
 *
 * Absent string fields are modelled as "", so `x || y` is `Or(x, y)`. Date
 * parsing (`new Date(s)`) is a parameter returning milliseconds, or `None`
 * for an invalid date.
 */
module DocumentService {
  import opened Wrappers
  import opened Text
  import opened Json

  /** A document as the backend sends it; a missing `size_bytes` is `None`. */
  datatype RawDoc = RawDoc(
    id: String, name: String, path: String, docType: String, sizeBytes: Option<int>,
    lastModified: String, content: Option<String>, metadata: Metadata)

  /** A document as the pages display it. */
  datatype Document = Document(
    id: String, name: String, path: String, docType: String, sizeBytes: int,
    lastModified: String, content: Option<String>, metadata: Metadata)

  const ApiBase: String := "http://localhost:8000/api"
  const Untitled: String := "Untitled Document"
  const SearchResultName: String := "Search Result"
  const DefaultType: String := "txt"

  // ---------------------------------------------------------------------------
  // Field defaults shared by both mappings

  /** `metadata?.source` when it is a string, else "". */
  function Source(meta: Metadata): String {
    if "source" in meta && meta["source"].Str? then meta["source"].s else ""
  }

  /** `source?.split('/').pop()`: the last path segment of the source. */
  function SourceName(meta: Metadata): (r: String)
    ensures '/' !in r
  {
    LastPiece(Source(meta), '/')
  }

  /** `source?.split('.').pop()?.toLowerCase()`: the lowercased text after the last dot. */
  function SourceType(meta: Metadata): (r: String)
    ensures '.' !in r
  {
    var t := LastPiece(Source(meta), '.');
    LowerKeepsAbsent(t, '.');
    LowerStr(t)
  }

  lemma LowerKeepsAbsent(s: String, x: char)
    requires x !in s && !IsLetter(x)
    ensures x !in LowerStr(s)
  {
  }

  // ---------------------------------------------------------------------------
  // processDocuments

  /** The de-duplication key: `path || name || id`. */
  function DocKey(d: RawDoc): String {
    Or(Or(d.path, d.name), d.id)
  }

  /** `new Date(a) > new Date(b)`: false whenever either date is invalid. */
  predicate Later(parse: String -> Option<int>, a: String, b: String) {
    parse(a).Some? && parse(b).Some? && parse(a).value > parse(b).value
  }

  /** The document stored for one input record, with its defaults filled in. */
  function Processed(d: RawDoc): Document {
    Document(d.id, DocName(d), d.path, DocType(d), d.sizeBytes.GetOr(0), d.lastModified, d.content, DocMetadata(d))
  }

  /** `name || source's last segment || 'Untitled Document'`. */
  function DocName(d: RawDoc): String {
    Or(d.name, Or(SourceName(d.metadata), Untitled))
  }

  /** `type || source's lowercased extension || 'txt'`. */
  function DocType(d: RawDoc): String {
    Or(d.docType, Or(SourceType(d.metadata), DefaultType))
  }

  /** The input metadata with `original_id` and `document_id` set. */
  function DocMetadata(d: RawDoc): Metadata {
    var documentId :=
      if "document_id" in d.metadata && Truthy(d.metadata["document_id"]) then d.metadata["document_id"] else Str(d.id);
    d.metadata["original_id" := Str(d.id)]["document_id" := documentId]
  }

  /**
   * The defaults of a processed record: `name || source's last segment ||
   * 'Untitled Document'`, `type || source's lowercased extension || 'txt'`,
   * `size_bytes || 0`; the metadata keeps every input key and gains
   * `original_id` and `document_id`.
   */
  lemma ProcessedFields(d: RawDoc)
    ensures Processed(d).id == d.id && Processed(d).path == d.path && Processed(d).lastModified == d.lastModified && Processed(d).content == d.content
    ensures Processed(d).name != "" && (d.name != "" ==> Processed(d).name == d.name)
    ensures Processed(d).docType != "" && (d.docType != "" ==> Processed(d).docType == d.docType)
    ensures d.sizeBytes.Some? ==> Processed(d).sizeBytes == d.sizeBytes.value
    ensures d.sizeBytes.None? ==> Processed(d).sizeBytes == 0
    ensures Processed(d).metadata.Keys == d.metadata.Keys + {"original_id", "document_id"}
    ensures forall k :: k in d.metadata && k != "original_id" && k != "document_id" ==> Processed(d).metadata[k] == d.metadata[k]
    ensures Processed(d).metadata["original_id"] == Str(d.id)
    ensures "document_id" in d.metadata && Truthy(d.metadata["document_id"]) ==> Processed(d).metadata["document_id"] == d.metadata["document_id"]
    ensures !("document_id" in d.metadata && Truthy(d.metadata["document_id"])) ==> Processed(d).metadata["document_id"] == Str(d.id)
  {
  }

  /**
   * The `Map` of `processDocuments`: its keys in insertion order, and for each
   * key the record whose processed form is stored under it. A processed
   * record keeps `last_modified`, so comparing against the stored document is
   * comparing against this record.
   */
  datatype Store = Store(keys: seq<String>, winners: map<String, RawDoc>)

  predicate NoDuplicates<T(==)>(xs: seq<T>) {
    forall i, j :: 0 <= i < j < |xs| ==> xs[i] != xs[j]
  }

  ghost predicate Valid(st: Store) {
    NoDuplicates(st.keys) && (forall k :: k in st.keys <==> k in st.winners)
  }

  /** One `forEach` step: store the record if its key is new or its date strictly later. */
  function Step(st: Store, d: RawDoc, parse: String -> Option<int>): Store {
    var k := DocKey(d);
    if k !in st.winners then Store(st.keys + [k], st.winners[k := d])
    else if Later(parse, d.lastModified, st.winners[k].lastModified) then Store(st.keys, st.winners[k := d])
    else st
  }

  /** The map after the records `docs`, in order. */
  function Fold(docs: seq<RawDoc>, parse: String -> Option<int>): Store {
    if docs == [] then Store([], map[])
    else Step(Fold(docs[..|docs| - 1], parse), docs[|docs| - 1], parse)
  }

  /** A step keeps the keys distinct and in step with the map. */
  lemma StepValid(st: Store, d: RawDoc, parse: String -> Option<int>)
    requires Valid(st)
    ensures Valid(Step(st, d, parse))
  {
    var k := DocKey(d);
    if k !in st.winners {
      var keys := st.keys + [k];
      assert k !in st.keys;
      forall i, j | 0 <= i < j < |keys|
        ensures keys[i] != keys[j]
      {
        if j == |st.keys| {
          assert keys[i] in st.keys;
        }
      }
    }
  }

  /** Folding any records gives a valid store. */
  lemma {:induction false} FoldValid(docs: seq<RawDoc>, parse: String -> Option<int>)
    ensures Valid(Fold(docs, parse))
  {
    if docs != [] {
      FoldValid(docs[..|docs| - 1], parse);
      StepValid(Fold(docs[..|docs| - 1], parse), docs[|docs| - 1], parse);
    }
  }

  /** `Array.from(uniqueDocs.values())`: the stored documents in key insertion order. */
  function Values(st: Store): (r: seq<Document>)
    requires Valid(st)
    ensures |r| == |st.keys|
  {
    seq(|st.keys|, i requires 0 <= i < |st.keys| => Processed(st.winners[st.keys[i]]))
  }

  function ProcessDocuments(docs: seq<RawDoc>, parse: String -> Option<int>): seq<Document> {
    FoldValid(docs, parse);
    Values(Fold(docs, parse))
  }

  /** `f` applied to every value of `m`. */
  function MapValues<K, A, B>(m: map<K, A>, f: A -> B): (r: map<K, B>)
    ensures r.Keys == m.Keys && forall k :: k in m ==> r[k] == f(m[k])
  {
    map k | k in m :: f(m[k])
  }

  lemma MapValuesUpdate<K, A, B>(m: map<K, A>, f: A -> B, k: K, v: A)
    ensures MapValues(m, f)[k := f(v)] == MapValues(m[k := v], f)
  {
  }

  /** The processed form of every stored record. */
  function ProcessedMap(winners: map<String, RawDoc>): map<String, Document> {
    MapValues(winners, Processed)
  }

  /** `processDocuments`, updating a map of processed documents record by record. */
  method ProcessDocumentsLoop(docs: seq<RawDoc>, parse: String -> Option<int>) returns (out: seq<Document>)
    ensures out == ProcessDocuments(docs, parse)
  {
    var keys: seq<String> := [];
    var unique: map<String, Document> := map[];
    for i := 0 to |docs|
      invariant keys == Fold(docs[..i], parse).keys
      invariant unique == ProcessedMap(Fold(docs[..i], parse).winners)
    {
      ghost var st := Fold(docs[..i], parse);
      assert docs[..i + 1][..i] == docs[..i];
      FoldLast(docs[..i + 1], parse);
      var d := docs[i];
      var k := DocKey(d);
      assert Fold(docs[..i + 1], parse) == Step(st, d, parse);
      if k in unique {
        ProcessedFields(st.winners[k]);
      }
      if k !in unique || Later(parse, d.lastModified, unique[k].lastModified) {
        if k !in unique {
          keys := keys + [k];
        }
        MapValuesUpdate(st.winners, Processed, k, d);
        unique := unique[k := Processed(d)];
      }
    }
    assert docs[..|docs|] == docs;
    FoldValid(docs, parse);
    out := seq(|keys|, i requires 0 <= i < |keys| => unique[keys[i]]);
  }

  // ---------------------------------------------------------------------------
  // Properties of processDocuments

  function KeysOf(docs: seq<RawDoc>): (ks: seq<String>)
    ensures |ks| == |docs| && forall i :: 0 <= i < |docs| ==> ks[i] == DocKey(docs[i])
  {
    seq(|docs|, i requires 0 <= i < |docs| => DocKey(docs[i]))
  }

  /** The values of `xs` in order of first appearance. */
  function Distinct<T(==,!new)>(xs: seq<T>): (r: seq<T>)
    ensures NoDuplicates(r)
    ensures forall x :: x in r <==> x in xs
    ensures |r| <= |xs|
  {
    if xs == [] then []
    else
      var p := Distinct(xs[..|xs| - 1]);
      var x := xs[|xs| - 1];
      assert forall y :: y in xs <==> y in xs[..|xs| - 1] || y == x by {
        assert xs == xs[..|xs| - 1] + [x];
      }
      if x in p then p else p + [x]
  }

  /** The stored keys are the input keys in order of first appearance. */
  lemma {:induction false} FoldKeys(docs: seq<RawDoc>, parse: String -> Option<int>)
    ensures Fold(docs, parse).keys == Distinct(KeysOf(docs))
  {
    if docs != [] {
      var front := docs[..|docs| - 1];
      FoldKeys(front, parse);
      FoldValid(front, parse);
      FoldLast(docs, parse);
      var ks := KeysOf(docs);
      assert ks[..|docs| - 1] == KeysOf(front);
      assert ks[|docs| - 1] == DocKey(docs[|docs| - 1]);
    }
  }

  /**
   * The output holds one document per distinct key, in first-appearance
   * order, and is no longer than the input.
   */
  lemma OutputShape(docs: seq<RawDoc>, parse: String -> Option<int>)
    ensures |ProcessDocuments(docs, parse)| == |Distinct(KeysOf(docs))| <= |docs|
    ensures forall i :: 0 <= i < |ProcessDocuments(docs, parse)| ==>
      var k := Distinct(KeysOf(docs))[i];
      k in Fold(docs, parse).winners && ProcessDocuments(docs, parse)[i] == Processed(Fold(docs, parse).winners[k])
  {
    FoldKeys(docs, parse);
    FoldValid(docs, parse);
  }

  /** What one step does to the entry under key `k`. */
  lemma StepAt(st: Store, d: RawDoc, parse: String -> Option<int>, k: String)
    ensures k in Step(st, d, parse).winners <==> k in st.winners || k == DocKey(d)
    ensures k != DocKey(d) && k in st.winners ==> Step(st, d, parse).winners[k] == st.winners[k]
    ensures k == DocKey(d) && (k !in st.winners || Later(parse, d.lastModified, st.winners[k].lastModified)) ==>
      Step(st, d, parse).winners[k] == d
    ensures k == DocKey(d) && k in st.winners && !Later(parse, d.lastModified, st.winners[k].lastModified) ==>
      Step(st, d, parse).winners[k] == st.winners[k]
  {
  }

  lemma FoldLast(docs: seq<RawDoc>, parse: String -> Option<int>)
    requires docs != []
    ensures Fold(docs, parse) == Step(Fold(docs[..|docs| - 1], parse), docs[|docs| - 1], parse)
  {
  }

  /** Every stored record is an input record with that key. */
  lemma {:induction false} StoredComesFromInput(docs: seq<RawDoc>, parse: String -> Option<int>, k: String)
    requires k in Fold(docs, parse).winners
    ensures exists i :: 0 <= i < |docs| && DocKey(docs[i]) == k && Fold(docs, parse).winners[k] == docs[i]
  {
    var n := |docs| - 1;
    var front := docs[..n];
    FoldLast(docs, parse);
    StepAt(Fold(front, parse), docs[n], parse, k);
    if Fold(docs, parse).winners[k] == docs[n] && DocKey(docs[n]) == k {
    } else {
      StoredComesFromInput(front, parse, k);
      var i :| 0 <= i < |front| && DocKey(front[i]) == k && Fold(front, parse).winners[k] == front[i];
      assert docs[i] == front[i];
    }
  }

  /** Every record with key `k` has a date that parses. */
  ghost predicate DatesParse(docs: seq<RawDoc>, parse: String -> Option<int>, k: String) {
    forall i :: 0 <= i < |docs| && DocKey(docs[i]) == k ==> parse(docs[i].lastModified).Some?
  }

  /**
   * When every date under a key parses, the record stored under it is at
   * least as recent as every record with that key.
   */
  lemma {:induction false} StoredIsNewest(docs: seq<RawDoc>, parse: String -> Option<int>, i: nat)
    requires i < |docs|
    requires DatesParse(docs, parse, DocKey(docs[i]))
    ensures DocKey(docs[i]) in Fold(docs, parse).winners
    ensures parse(Fold(docs, parse).winners[DocKey(docs[i])].lastModified).Some?
    ensures parse(Fold(docs, parse).winners[DocKey(docs[i])].lastModified).value >= parse(docs[i].lastModified).value
  {
    var n := |docs| - 1;
    var front := docs[..n];
    var k := DocKey(docs[i]);
    var before := Fold(front, parse);
    FoldLast(docs, parse);
    assert Fold(docs, parse) == Step(before, docs[n], parse);
    if i < n {
      assert front[i] == docs[i];
      DatesParseFront(docs, parse, k);
      StoredIsNewest(front, parse, i);
      StepKeepsNewest(before, docs[n], parse, k);
    } else {
      if k in before.winners {
        StoredComesFromInput(front, parse, k);
        var j :| 0 <= j < |front| && DocKey(front[j]) == k && before.winners[k] == front[j];
        assert front[j] == docs[j];
      }
      StepStoresNewest(before, docs[n], parse);
    }
  }

  /** A record whose date parses is stored by its step, or a record at least as recent is kept. */
  lemma StepStoresNewest(st: Store, d: RawDoc, parse: String -> Option<int>)
    requires parse(d.lastModified).Some?
    requires DocKey(d) in st.winners ==> parse(st.winners[DocKey(d)].lastModified).Some?
    ensures DocKey(d) in Step(st, d, parse).winners
    ensures parse(Step(st, d, parse).winners[DocKey(d)].lastModified).Some?
    ensures parse(Step(st, d, parse).winners[DocKey(d)].lastModified).value >= parse(d.lastModified).value
  {
    StepAt(st, d, parse, DocKey(d));
  }

  /** Dates that parse under a key still parse on a prefix. */
  lemma DatesParseFront(docs: seq<RawDoc>, parse: String -> Option<int>, k: String)
    requires docs != [] && DatesParse(docs, parse, k)
    ensures DatesParse(docs[..|docs| - 1], parse, k)
  {
    var front := docs[..|docs| - 1];
    forall j | 0 <= j < |front| && DocKey(front[j]) == k
      ensures parse(front[j].lastModified).Some?
    {
      assert front[j] == docs[j];
    }
  }

  /** One step never replaces a stored record by one with an earlier or unparsed date. */
  lemma StepKeepsNewest(st: Store, d: RawDoc, parse: String -> Option<int>, k: String)
    requires k in st.winners && parse(st.winners[k].lastModified).Some?
    requires DocKey(d) == k ==> parse(d.lastModified).Some?
    ensures k in Step(st, d, parse).winners
    ensures parse(Step(st, d, parse).winners[k].lastModified).Some?
    ensures parse(Step(st, d, parse).winners[k].lastModified).value >= parse(st.winners[k].lastModified).value
  {
    StepAt(st, d, parse, k);
  }

  /**
   * The first record with some key stays stored as long as no later record
   * with that key is strictly later than it: ties and invalid dates keep it.
   */
  lemma {:induction false} FirstSticks(docs: seq<RawDoc>, parse: String -> Option<int>, first: nat)
    requires first < |docs|
    requires forall i :: 0 <= i < first ==> DocKey(docs[i]) != DocKey(docs[first])
    requires forall i :: first < i < |docs| && DocKey(docs[i]) == DocKey(docs[first]) ==>
      !Later(parse, docs[i].lastModified, docs[first].lastModified)
    ensures DocKey(docs[first]) in Fold(docs, parse).winners
    ensures Fold(docs, parse).winners[DocKey(docs[first])] == docs[first]
  {
    var n := |docs| - 1;
    var front := docs[..n];
    var k := DocKey(docs[first]);
    FoldLast(docs, parse);
    StepAt(Fold(front, parse), docs[n], parse, k);
    if first < n {
      assert front[first] == docs[first];
      FirstSticks(front, parse, first);
    } else if k in Fold(front, parse).winners {
      StoredComesFromInput(front, parse, k);
    }
  }

  /** A first record whose date does not parse is never replaced. */
  lemma UnparseableFirstSticks(docs: seq<RawDoc>, parse: String -> Option<int>, first: nat)
    requires first < |docs|
    requires forall i :: 0 <= i < first ==> DocKey(docs[i]) != DocKey(docs[first])
    requires parse(docs[first].lastModified).None?
    ensures DocKey(docs[first]) in Fold(docs, parse).winners
    ensures Fold(docs, parse).winners[DocKey(docs[first])] == docs[first]
  {
    FirstSticks(docs, parse, first);
  }

  // ---------------------------------------------------------------------------
  // searchDocuments and fetchDocuments

  /** One semantic-search hit: its id, content, metadata and score. */
  datatype SearchHit = SearchHit(id: String, content: Option<String>, metadata: Metadata, score: Value)

  /**
   * The document shown for a search hit. `fallbackId` stands for the generated
   * `search-<now>-<random>` id and `nowIso` for the current time.
   */
  function FromSearchHit(h: SearchHit, fallbackId: String, nowIso: String): (r: Document)
    ensures r.sizeBytes == 0 && r.content == h.content && r.lastModified == nowIso
    ensures r.path == Source(h.metadata)
    ensures r.name != "" && '/' !in r.name
    ensures r.docType != "" && ('.' !in r.docType || r.docType == DefaultType)
    ensures r.metadata.Keys == h.metadata.Keys + {"score"} && r.metadata["score"] == h.score
    ensures forall k :: k in h.metadata && k != "score" ==> r.metadata[k] == h.metadata[k]
  {
    var meta := h.metadata;
    var docId := if "document_id" in meta && meta["document_id"].Str? then meta["document_id"].s else "";
    Document(
      Or(Or(docId, h.id), fallbackId),
      Or(SourceName(meta), SearchResultName),
      Source(meta),
      Or(SourceType(meta), DefaultType),
      0,
      nowIso,
      h.content,
      meta["score" := h.score])
  }

  /** The id of a search document: the stored document id, else the hit's id, else the fallback. */
  lemma SearchIdPrecedence(h: SearchHit, fallbackId: String, nowIso: String)
    ensures var id := FromSearchHit(h, fallbackId, nowIso).id;
      && (("document_id" in h.metadata && h.metadata["document_id"] == Str(id) && id != "") ||
          (id == h.id && id != "") ||
          id == fallbackId)
      && ("document_id" in h.metadata && h.metadata["document_id"].Str? && h.metadata["document_id"].s != "" ==>
          id == h.metadata["document_id"].s)
  {
  }

  /** The documents a search shows: one per hit, in order. */
  function SearchDocuments(hits: seq<SearchHit>, fallbackIds: seq<String>, nowIso: String): (r: seq<Document>)
    requires |fallbackIds| == |hits|
    ensures |r| == |hits|
    ensures forall i :: 0 <= i < |hits| ==> r[i] == FromSearchHit(hits[i], fallbackIds[i], nowIso)
  {
    seq(|hits|, i requires 0 <= i < |hits| => FromSearchHit(hits[i], fallbackIds[i], nowIso))
  }

  /** The listing URL: `?limit=` is added only for a truthy (non-zero) limit. */
  function DocumentsUrl(limit: Option<int>): (url: String)
    ensures StartsWith(url, ApiBase + "/documents")
  {
    var base := ApiBase + "/documents";
    if limit.Some? && limit.value != 0 then base + "?limit=" + IntToString(limit.value) else base
  }

  /** A zero limit behaves like no limit; any other limit is appended after `?limit=`. */
  lemma ZeroLimitIsNoLimit(n: int)
    ensures DocumentsUrl(Some(0)) == DocumentsUrl(None) == ApiBase + "/documents"
    ensures n != 0 ==> DocumentsUrl(Some(n)) == DocumentsUrl(None) + "?limit=" + IntToString(n)
    ensures n != 0 ==> DocumentsUrl(Some(n)) != DocumentsUrl(None)
  {
  }

  /** `fetchDocuments` once the response is in: a failed status is an error, else the processed list. */
  function FetchDocuments(ok: bool, documents: Option<seq<RawDoc>>, parse: String -> Option<int>): (r: Result<seq<Document>, String>)
    ensures !ok ==> r == Err("Failed to fetch documents")
    ensures ok && documents.None? ==> r == Ok([])
    ensures ok && documents.Some? ==> r == Ok(ProcessDocuments(documents.value, parse))
  {
    if !ok then Err("Failed to fetch documents")
    else Ok(ProcessDocuments(documents.GetOr([]), parse))
  }
}
