/**
 * The Google Docs routes of the backend: where an imported document is
 * saved, the ids and metadata of the chunks it is stored as, and the
 * listing that groups stored chunks by their document URL.
 *
 * Fetching the document, computing embeddings and the vector store are not
 * modelled: the fetched title and text and the number of embeddings
 * returned are parameters, and the store calls are returned as records.
 */
module GoogleDocs {
  import opened Wrappers
  import opened Text
  import opened Json
  import opened PyPath

  const UploadDir: String := "uploaded_docs"

  /** Python `meta.get(key, d)`. */
  function GetOr(meta: Metadata, key: String, d: Value): (v: Value)
    ensures key in meta ==> v == meta[key]
    ensures key !in meta ==> v == d
  {
    if key in meta then meta[key] else d
  }

  // ---------------------------------------------------------------------------
  // save_google_doc

  /** The saved file's name: the title's stem with spaces turned into '_', plus ".txt". */
  function SafeFileName(title: String): (r: String)
  {
    ReplaceChar(Stem(title), ' ', '_') + ".txt"
  }

  /** The path `save_google_doc` writes to. */
  function SavedPath(title: String): (r: String)
  {
    JoinPath(UploadDir, SafeFileName(title))
  }

  /** The stem of a title holds no '/'. */
  lemma StemHasNoSlash(title: String)
    ensures '/' !in Stem(title)
  {
    PathNameIsComponent(title);
    var name := PathName(title);
    match SuffixStart(name)
    case None =>
    case Some(i) =>
      assert forall k :: 0 <= k < i ==> Stem(title)[k] == name[k];
  }

  /**
   * The saved file lies directly inside "uploaded_docs", its name ends in ".txt" and holds
   * no space and no '/', and it is the title's stem with spaces turned into '_'.
   */
  lemma SavedPathShape(title: String)
    ensures var name := SafeFileName(title);
      SavedPath(title) == UploadDir + "/" + name
      && Basename(SavedPath(title)) == name
      && EndsWith(name, ".txt") && ' ' !in name && '/' !in name
      && name[..|name| - 4] == ReplaceChar(Stem(title), ' ', '_')
  {
    var stem := ReplaceChar(Stem(title), ' ', '_');
    var name := SafeFileName(title);
    StemHasNoSlash(title);
    forall k | 0 <= k < |name|
      ensures name[k] != ' ' && name[k] != '/'
    {
      if k < |stem| {
        assert Stem(title)[k] in Stem(title);
      }
    }
    assert name[0] != '/';
    assert SavedPath(title) == UploadDir + "/" + name;
    JoinBasename(UploadDir, name);
    assert name[|name| - 4..] == ".txt";
    assert name[..|name| - 4] == stem;
  }

  /** Two titles that differ only in the directory part are saved to the same file. */
  lemma DirectoryIsDropped(dir: String, name: String)
    requires '/' !in name && IsPart(name)
    ensures SavedPath(dir + "/" + name) == SavedPath(name)
  {
    var p := dir + "/" + name;
    assert p == dir + ['/'] + name;
    SplitAppend(dir, name, '/');
    FilterAppend(Split(dir, '/'), [name], IsPart);
    assert Filter([name], IsPart) == [name];
    assert Parts(p) == Filter(Split(dir, '/'), IsPart) + [name];
    PathNameOfComponent(name);
  }

  // ---------------------------------------------------------------------------
  // import_google_doc

  /** One store call: the chunk id, its text and its metadata. */
  datatype StoreCall = StoreCall(docId: String, content: String, metadata: Metadata)

  /** The id of chunk `i` of a document titled `title`. */
  function ChunkId(title: String, i: nat): (r: String)
  {
    "google_doc_" + ReplaceChar(title, ' ', '_') + "_" + NatToString(i)
  }

  /** The metadata stored with chunk `i`. */
  function ChunkMetadata(title: String, url: String, savedPath: String, i: nat): (r: Metadata)
  {
    map["source" := Str("google_docs"), "title" := Str(title), "url" := Str(url),
        "chunk_index" := Num(i), "file_path" := Str(savedPath)]
  }

  /** The chunk ids hold no space, and chunks of one title get distinct ids. */
  lemma ChunkIdsDistinct(title: String, i: nat, j: nat)
    requires i != j
    ensures ChunkId(title, i) != ChunkId(title, j)
    ensures ' ' !in ChunkId(title, i)
  {
    var pre := "google_doc_" + ReplaceChar(title, ' ', '_') + "_";
    assert ChunkId(title, i) == pre + NatToString(i);
    assert ChunkId(title, j) == pre + NatToString(j);
    NatToStringInjective(i, j);
    assert ChunkId(title, i)[|pre|..] == NatToString(i);
    assert ChunkId(title, j)[|pre|..] == NatToString(j);
    forall k | 0 <= k < |ChunkId(title, i)|
      ensures ChunkId(title, i)[k] != ' '
    {
      if k >= |pre| {
        assert ChunkId(title, i)[k] == NatToString(i)[k - |pre|];
      } else if 11 <= k < 11 + |title| {
        assert ChunkId(title, i)[k] == ReplaceChar(title, ' ', '_')[k - 11];
      }
    }
  }

  /**
   * The loop over `zip(chunks, embeddings)`: one store call per chunk that has an embedding.
   * `embeddings` is the number of embeddings the embedding service returned.
   */
  method StoreChunks(chunks: seq<String>, embeddings: nat, title: String, url: String, savedPath: String)
    returns (calls: seq<StoreCall>)
    ensures |calls| == if |chunks| <= embeddings then |chunks| else embeddings
    ensures forall i :: 0 <= i < |calls| ==>
      calls[i] == StoreCall(ChunkId(title, i), chunks[i], ChunkMetadata(title, url, savedPath, i))
  {
    calls := [];
    var n := if |chunks| <= embeddings then |chunks| else embeddings;
    for i := 0 to n
      invariant |calls| == i
      invariant forall k :: 0 <= k < i ==>
        calls[k] == StoreCall(ChunkId(title, k), chunks[k], ChunkMetadata(title, url, savedPath, k))
    {
      calls := calls + [StoreCall(ChunkId(title, i), chunks[i], ChunkMetadata(title, url, savedPath, i))];
    }
  }

  /** The successful import response. */
  datatype ImportResponse = ImportResponse(title: String, chunksImported: nat, savedPath: String)

  /**
   * A successful import of a fetched document: the content is one chunk, so at most one store
   * call is made (id "google_doc_<title>_0") and `chunks_imported` is 1 whatever the embeddings.
   */
  method ImportGoogleDoc(url: String, title: String, content: String, embeddings: nat)
    returns (calls: seq<StoreCall>, response: ImportResponse)
    ensures response == ImportResponse(title, 1, SavedPath(title))
    ensures embeddings == 0 ==> calls == []
    ensures embeddings > 0 ==> calls == [StoreCall(ChunkId(title, 0), content, ChunkMetadata(title, url, SavedPath(title), 0))]
  {
    var savedPath := SavedPath(title);
    var chunks := [content];
    calls := StoreChunks(chunks, embeddings, title, url, savedPath);
    response := ImportResponse(title, |chunks|, savedPath);
  }

  // ---------------------------------------------------------------------------
  // list_imported_docs

  /** One listed document. */
  datatype Entry = Entry(title: Value, url: Value, chunks: nat)

  function UrlOf(meta: Metadata): Value { GetOr(meta, "url", Str("")) }

  function TitleOf(meta: Metadata): Value { GetOr(meta, "title", Str("Untitled")) }

  /** The distinct urls of the records, in order of first appearance. */
  function Urls(metas: seq<Metadata>): (r: seq<Value>)
  {
    if metas == [] then []
    else
      var init := Urls(metas[..|metas| - 1]);
      var u := UrlOf(metas[|metas| - 1]);
      if u in init then init else init + [u]
  }

  /** The number of records with url `u`. */
  function Count(metas: seq<Metadata>, u: Value): (r: nat)
    ensures r <= |metas|
  {
    if metas == [] then 0
    else Count(metas[..|metas| - 1], u) + (if UrlOf(metas[|metas| - 1]) == u then 1 else 0)
  }

  /** The title of the first record with url `u`, if there is one. */
  function FirstTitle(metas: seq<Metadata>, u: Value): Option<Value>
  {
    if metas == [] then None
    else
      var init := FirstTitle(metas[..|metas| - 1], u);
      if init.Some? then init
      else if UrlOf(metas[|metas| - 1]) == u then Some(TitleOf(metas[|metas| - 1]))
      else None
  }

  /** A url is listed exactly when some record has it, and no url is listed twice. */
  lemma {:induction false} UrlsExact(metas: seq<Metadata>)
    ensures forall u :: u in Urls(metas) <==> exists i :: 0 <= i < |metas| && UrlOf(metas[i]) == u
    ensures forall a, b :: 0 <= a < b < |Urls(metas)| ==> Urls(metas)[a] != Urls(metas)[b]
    decreases |metas|
  {
    if metas != [] {
      var n := |metas| - 1;
      UrlsExact(metas[..n]);
      assert forall i :: 0 <= i < n ==> metas[..n][i] == metas[i];
    }
  }

  /** A url has a first title exactly when some record carries it, and then it has a positive count. */
  lemma {:induction false} FirstTitleExists(metas: seq<Metadata>, u: Value)
    ensures FirstTitle(metas, u).Some? <==> Count(metas, u) > 0
    ensures FirstTitle(metas, u).Some? <==> u in Urls(metas)
    decreases |metas|
  {
    if metas != [] {
      FirstTitleExists(metas[..|metas| - 1], u);
    }
  }

  /** The first title is the title of the earliest record with that url. */
  lemma {:induction false} FirstTitleIsEarliest(metas: seq<Metadata>, u: Value, i: nat)
    requires i < |metas| && UrlOf(metas[i]) == u
    requires forall k :: 0 <= k < i ==> UrlOf(metas[k]) != u
    ensures FirstTitle(metas, u) == Some(TitleOf(metas[i]))
    decreases |metas|
  {
    var n := |metas| - 1;
    if i < n {
      FirstTitleIsEarliest(metas[..n], u, i);
    } else {
      NoEarlierTitle(metas[..n], u);
    }
  }

  lemma {:induction false} NoEarlierTitle(metas: seq<Metadata>, u: Value)
    requires forall k :: 0 <= k < |metas| ==> UrlOf(metas[k]) != u
    ensures FirstTitle(metas, u) == None
    decreases |metas|
  {
    if metas != [] {
      NoEarlierTitle(metas[..|metas| - 1], u);
    }
  }

  /** The sum of the counts of some urls. */
  function SumCounts(metas: seq<Metadata>, us: seq<Value>): nat
  {
    if us == [] then 0 else SumCounts(metas, us[..|us| - 1]) + Count(metas, us[|us| - 1])
  }

  /** How often `u` occurs in `us`. */
  function Occurrences(us: seq<Value>, u: Value): nat
  {
    if us == [] then 0 else Occurrences(us[..|us| - 1], u) + (if us[|us| - 1] == u then 1 else 0)
  }

  /** Adding a record with url `x` raises the sum by the number of times `x` is counted. */
  lemma {:induction false} SumCountsSnoc(metas: seq<Metadata>, m: Metadata, us: seq<Value>)
    ensures SumCounts(metas + [m], us) == SumCounts(metas, us) + Occurrences(us, UrlOf(m))
    decreases |us|
  {
    if us != [] {
      SumCountsSnoc(metas, m, us[..|us| - 1]);
      assert (metas + [m])[..|metas|] == metas;
    }
  }

  lemma {:induction false} OccurrencesDistinct(us: seq<Value>, u: Value)
    requires forall a, b :: 0 <= a < b < |us| ==> us[a] != us[b]
    ensures Occurrences(us, u) == if u in us then 1 else 0
    decreases |us|
  {
    if us != [] {
      var init := us[..|us| - 1];
      OccurrencesDistinct(init, u);
      assert us == init + [us[|us| - 1]];
      assert us[|us| - 1] !in init;
    }
  }

  lemma {:induction false} CountAbsent(metas: seq<Metadata>, u: Value)
    requires u !in Urls(metas)
    ensures Count(metas, u) == 0
  {
    FirstTitleExists(metas, u);
  }

  /** The chunk counts of the listing add up to the number of records. */
  lemma {:induction false} CountsSumToRecords(metas: seq<Metadata>)
    ensures SumCounts(metas, Urls(metas)) == |metas|
    decreases |metas|
  {
    if metas != [] {
      var n := |metas| - 1;
      var init := metas[..n];
      var m := metas[n];
      assert metas == init + [m];
      var us := Urls(init);
      CountsSumToRecords(init);
      SumCountsSnoc(init, m, us);
      UrlsExact(init);
      OccurrencesDistinct(us, UrlOf(m));
      if UrlOf(m) !in us {
        CountAbsent(init, UrlOf(m));
        assert Urls(metas) == us + [UrlOf(m)];
        assert (us + [UrlOf(m)])[..|us|] == us;
      }
    }
  }

  /** The listing in dictionary insertion order, as the route returns `list(docs.values())`. */
  predicate IsListing(metas: seq<Metadata>, entries: seq<Entry>)
  {
    var us := Urls(metas);
    |entries| == |us|
    && forall k :: 0 <= k < |us| ==>
      FirstTitle(metas, us[k]).Some?
      && entries[k] == Entry(FirstTitle(metas, us[k]).value, us[k], Count(metas, us[k]))
  }

  /** The grouping loop: the `docs` dictionary is a map and a list of its keys in insertion order. */
  method ListImportedDocs(metas: seq<Metadata>) returns (entries: seq<Entry>)
    ensures IsListing(metas, entries)
  {
    var docs: map<Value, Entry> := map[];
    var order: seq<Value> := [];
    for i := 0 to |metas|
      invariant order == Urls(metas[..i])
      invariant docs.Keys == set u | u in order
      invariant forall u :: u in docs ==>
        FirstTitle(metas[..i], u).Some? && docs[u] == Entry(FirstTitle(metas[..i], u).value, u, Count(metas[..i], u))
    {
      var prefix := metas[..i + 1];
      assert prefix[..i] == metas[..i];
      var url := GetOr(metas[i], "url", Str(""));
      if url !in docs {
        FirstTitleExists(metas[..i], url);
        docs := docs[url := Entry(GetOr(metas[i], "title", Str("Untitled")), url, 0)];
        order := order + [url];
      }
      docs := docs[url := docs[url].(chunks := docs[url].chunks + 1)];
    }
    assert metas[..|metas|] == metas;
    entries := ValuesInOrder(docs, order);
  }

  /** `list(docs.values())`: the entries in the insertion order of their keys. */
  method ValuesInOrder(docs: map<Value, Entry>, order: seq<Value>) returns (entries: seq<Entry>)
    requires forall u :: u in order ==> u in docs
    ensures |entries| == |order| && forall j :: 0 <= j < |order| ==> entries[j] == docs[order[j]]
  {
    entries := [];
    for k := 0 to |order|
      invariant |entries| == k
      invariant forall j :: 0 <= j < k ==> entries[j] == docs[order[j]]
    {
      entries := entries + [docs[order[k]]];
    }
  }
}
