/**
 * The backend's delete-by-name route (`DELETE /documents?name=…`): which
 * stored chunks a name selects, the ids that are deleted, and the uploaded
 * file that is removed with them.
 *
 * The vector store's `get` is modelled by its two parallel lists, `ids` and
 * `metadatas` (a `None` entry is a null metadata); whether a file exists is a
 * parameter. Deleting from the store and from the disk are effects the
 * outcome records rather than performs.
 */
module DeleteRoute {
  import opened Wrappers
  import opened Text
  import opened Json
  import opened PyPath

  /** The directory the route removes files from. */
  const RemovalDir: String := "uploads"

  /** The metadata fields that may hold a document's name, in the order they are tried. */
  const NameFields: seq<String> := ["original_filename", "source", "filename", "file_path", "title"]

  /** Python `meta.get(key)`, with an absent key read as JSON null. */
  function Get(meta: Metadata, key: String): (v: Value)
    ensures key !in meta ==> v == Null
  {
    if key in meta then meta[key] else Null
  }

  /** Python `str(v)`. */
  function PyStr(v: Value): String {
    match v
    case Str(s) => s
    case Num(n) => IntToString(n)
    case Bool(b) => if b then "True" else "False"
    case Null => "None"
  }

  /** A field names the document when it is truthy and equals the name, or its basename does. */
  predicate FieldHit(v: Value, name: String) {
    Truthy(v) && (v == Str(name) || Basename(PyStr(v)) == name)
  }

  /** The candidate field values of one chunk, in `NameFields` order. */
  function Candidates(meta: Metadata): (r: seq<Value>)
    ensures |r| == |NameFields|
  {
    seq(|NameFields|, k requires 0 <= k < |NameFields| => Get(meta, NameFields[k]))
  }

  /** A chunk matches when its metadata is present and not empty and one of its candidate fields names the document. */
  predicate ChunkMatches(meta: Option<Metadata>, name: String) {
    meta.Some? && meta.value != map[] &&
    exists k :: 0 <= k < |NameFields| && FieldHit(Candidates(meta.value)[k], name)
  }

  /** The indices below `n` whose chunks match, in increasing order. */
  function MatchingIndices(metas: seq<Option<Metadata>>, name: String, n: nat): seq<nat>
    requires n <= |metas|
  {
    if n == 0 then []
    else MatchingIndices(metas, name, n - 1) + (if ChunkMatches(metas[n - 1], name) then [n - 1] else [])
  }

  /** The matching loop: every chunk is visited, its candidate fields are tried in order, and the first hit records its index. */
  method FindMatches(metas: seq<Option<Metadata>>, name: String) returns (matching: seq<nat>)
    ensures matching == MatchingIndices(metas, name, |metas|)
  {
    matching := [];
    for i := 0 to |metas|
      invariant matching == MatchingIndices(metas, name, i)
    {
      var meta := metas[i];
      if meta.None? || meta.value == map[] {
        continue;
      }
      var fields := Candidates(meta.value);
      var k := 0;
      while k < |fields|
        invariant 0 <= k <= |fields|
        invariant forall j :: 0 <= j < k ==> !FieldHit(fields[j], name)
        invariant matching == MatchingIndices(metas, name, i)
      {
        var field := fields[k];
        if !Truthy(field) {
          k := k + 1;
          continue;
        }
        var base := Basename(PyStr(field));
        if field == Str(name) || base == name {
          matching := matching + [i];
          break;
        }
        k := k + 1;
      }
    }
  }

  /** The recorded indices are exactly those of the matching chunks, strictly increasing, so none is recorded twice. */
  lemma {:induction false} MatchingIndicesExact(metas: seq<Option<Metadata>>, name: String, n: nat)
    requires n <= |metas|
    ensures var m := MatchingIndices(metas, name, n);
      (forall i :: i in m <==> 0 <= i < n && ChunkMatches(metas[i], name)) &&
      (forall a, b :: 0 <= a < b < |m| ==> m[a] < m[b])
  {
    if n > 0 {
      MatchingIndicesExact(metas, name, n - 1);
      var prev := MatchingIndices(metas, name, n - 1);
      assert forall a :: 0 <= a < |prev| ==> prev[a] in prev;
    }
  }

  /** Null or empty metadata never matches, whatever the name. */
  lemma EmptyMetadataNeverMatches(metas: seq<Option<Metadata>>, name: String, i: nat)
    requires i < |metas| && (metas[i].None? || metas[i].value == map[])
    ensures i !in MatchingIndices(metas, name, |metas|)
  {
    MatchingIndicesExact(metas, name, |metas|);
  }

  /** A chunk whose `source` is a path ending in the name matches it. */
  lemma SourcePathMatches(meta: Metadata, dir: String, name: String)
    requires name != "" && '/' !in name
    requires "source" in meta && meta["source"] == Str(JoinPath(dir, name))
    ensures ChunkMatches(Some(meta), name)
  {
    JoinBasename(dir, name);
    assert FieldHit(Candidates(meta)[1], name);
  }

  /** A name holding '/' is only ever matched by a field that equals it exactly. */
  lemma SlashedNameNeedsExactField(v: Value, name: String)
    requires '/' in name
    ensures FieldHit(v, name) <==> Truthy(v) && v == Str(name)
  {
  }

  /** `[ids[i] for i in matching if i < len(ids)]`. */
  function DocIds(ids: seq<String>, matching: seq<nat>): (r: seq<String>)
    ensures |r| <= |matching|
  {
    if matching == [] then []
    else (if matching[0] < |ids| then [ids[matching[0]]] else []) + DocIds(ids, matching[1..])
  }

  /** The collected ids are exactly the in-range ids at the matched indices, one per index when all are in range. */
  lemma {:induction false} DocIdsExact(ids: seq<String>, matching: seq<nat>)
    ensures forall x :: x in DocIds(ids, matching) <==> exists k :: 0 <= k < |matching| && matching[k] < |ids| && ids[matching[k]] == x
    ensures (forall k :: 0 <= k < |matching| ==> matching[k] < |ids|) ==>
      |DocIds(ids, matching)| == |matching| &&
      forall k :: 0 <= k < |matching| ==> DocIds(ids, matching)[k] == ids[matching[k]]
  {
    if matching != [] {
      DocIdsExact(ids, matching[1..]);
      var r := DocIds(ids, matching);
      var rest := DocIds(ids, matching[1..]);
      forall x | x in r
        ensures exists k :: 0 <= k < |matching| && matching[k] < |ids| && ids[matching[k]] == x
      {
        if matching[0] < |ids| && x == ids[matching[0]] {
        } else {
          assert x in rest;
          var k :| 0 <= k < |matching[1..]| && matching[1..][k] < |ids| && ids[matching[1..][k]] == x;
          assert matching[k + 1] == matching[1..][k];
        }
      }
      forall x | exists k :: 0 <= k < |matching| && matching[k] < |ids| && ids[matching[k]] == x
        ensures x in r
      {
        var k :| 0 <= k < |matching| && matching[k] < |ids| && ids[matching[k]] == x;
        if k > 0 {
          assert matching[1..][k - 1] == matching[k];
          assert x in rest;
        }
      }
    }
  }

  /** A matched chunk with a usable record: its `source`, if the metadata is there. */
  predicate HasSource(metas: seq<Option<Metadata>>, i: nat) {
    i < |metas| && metas[i].Some? && metas[i].value != map[] && Truthy(Get(metas[i].value, "source"))
  }

  /**
   * The source-finding loop as a fold: `current` is the value held so far; a
   * visited chunk with metadata overwrites it with its `source`, and the first
   * truthy one stops the scan.
   */
  function SourceScan(metas: seq<Option<Metadata>>, matching: seq<nat>, current: Value): Value
  {
    if matching == [] then current
    else
      var i := matching[0];
      if i < |metas| && metas[i].Some? && metas[i].value != map[] then
        var s := Get(metas[i].value, "source");
        if Truthy(s) then s else SourceScan(metas, matching[1..], s)
      else SourceScan(metas, matching[1..], current)
  }

  /** The loop over the matched indices that looks for a `source`, stopping at the first truthy one. */
  method FindSource(metas: seq<Option<Metadata>>, matching: seq<nat>) returns (source: Value)
    ensures source == SourceScan(metas, matching, Null)
  {
    source := Null;
    var k := 0;
    while k < |matching|
      invariant 0 <= k <= |matching|
      invariant !Truthy(source)
      invariant SourceScan(metas, matching[k..], source) == SourceScan(metas, matching, Null)
    {
      var i := matching[k];
      assert matching[k..][1..] == matching[k + 1..];
      if i < |metas| && metas[i].Some? && metas[i].value != map[] {
        source := Get(metas[i].value, "source");
        if Truthy(source) {
          break;
        }
      }
      k := k + 1;
    }
  }

  /** The scan yields the source of the first matched chunk that has one, and a falsy value when none has. */
  lemma {:induction false} SourceScanFirst(metas: seq<Option<Metadata>>, matching: seq<nat>, current: Value)
    requires !Truthy(current)
    ensures var r := SourceScan(metas, matching, current);
      match FirstWhere(matching, i => HasSource(metas, i))
      case Some(k) => r == Get(metas[matching[k]].value, "source")
      case None => !Truthy(r)
  {
    if matching != [] {
      var i := matching[0];
      if i < |metas| && metas[i].Some? && metas[i].value != map[] {
        var s := Get(metas[i].value, "source");
        if !Truthy(s) {
          SourceScanFirst(metas, matching[1..], s);
        }
      } else {
        SourceScanFirst(metas, matching[1..], current);
      }
    }
  }

  /** What the request ends in. */
  datatype Outcome =
    | NotFound                                             // 404: no chunk matched, nothing deleted
    | Deleted(ids: seq<String>, removedFile: Option<String>) // 200 after deleting `ids` and removing the file, if any
    | Failed(ids: seq<String>)                             // 500 raised after `ids` were already deleted

  /** The `deleted_count` of a successful response. */
  function DeletedCount(o: Outcome): (n: nat)
    requires o.Deleted?
    ensures n == |o.ids|
  {
    |o.ids|
  }

  /**
   * `os.path.join("uploads", source)` for a string source; `None` both when
   * no source was found and when it is not a string (a join that would raise).
   */
  function RemovalPath(source: Value): Option<String> {
    if source.Str? && source.s != "" then Some(JoinPath(RemovalDir, source.s)) else None
  }

  /**
   * The route as written: with no usable source `file_path` is `None`, and
   * `os.path.exists(None)` raises `TypeError`, so the request fails with a
   * 500 after the chunks were deleted.
   */
  function Respond(ids: seq<String>, metas: seq<Option<Metadata>>, name: String, fileExists: String -> bool): Outcome {
    var m := MatchingIndices(metas, name, |metas|);
    if m == [] then NotFound
    else
      var docIds := DocIds(ids, m);
      match RemovalPath(SourceScan(metas, m, Null))
      case None => Failed(docIds)
      case Some(path) => Deleted(docIds, if fileExists(path) then Some(path) else None)
  }

  /** The route as evidently intended: with no usable source no file is removed and the request succeeds. */
  function RespondIntended(ids: seq<String>, metas: seq<Option<Metadata>>, name: String, fileExists: String -> bool): Outcome {
    var m := MatchingIndices(metas, name, |metas|);
    if m == [] then NotFound
    else
      var docIds := DocIds(ids, m);
      match RemovalPath(SourceScan(metas, m, Null))
      case None => Deleted(docIds, None)
      case Some(path) => Deleted(docIds, if fileExists(path) then Some(path) else None)
  }

  /** The route's steps in order: match, collect ids, find the source, then delete and remove. */
  method DeleteDocument(ids: seq<String>, metas: seq<Option<Metadata>>, name: String, fileExists: String -> bool)
    returns (out: Outcome)
    ensures out == Respond(ids, metas, name, fileExists)
  {
    var matching := FindMatches(metas, name);
    if matching == [] {
      return NotFound;
    }
    var docIds := DocIds(ids, matching);
    var source := FindSource(metas, matching);
    if !(source.Str? && source.s != "") {
      return Failed(docIds);
    }
    var path := JoinPath(RemovalDir, source.s);
    if fileExists(path) {
      out := Deleted(docIds, Some(path));
    } else {
      out := Deleted(docIds, None);
    }
  }

  /** The route answers 404, deleting nothing, exactly when no chunk matches. */
  lemma NotFoundIffNoMatch(ids: seq<String>, metas: seq<Option<Metadata>>, name: String, fileExists: String -> bool)
    ensures Respond(ids, metas, name, fileExists).NotFound? <==> forall i :: 0 <= i < |metas| ==> !ChunkMatches(metas[i], name)
  {
    MatchingIndicesExact(metas, name, |metas|);
    var m := MatchingIndices(metas, name, |metas|);
    if m != [] {
      assert m[0] in m;
    }
  }

  /** The deleted ids are exactly the ids, within range, of the matching chunks. */
  lemma DeletedIdsAreMatches(ids: seq<String>, metas: seq<Option<Metadata>>, name: String, fileExists: String -> bool, x: String)
    requires !Respond(ids, metas, name, fileExists).NotFound?
    ensures x in Respond(ids, metas, name, fileExists).ids <==>
      exists i :: 0 <= i < |metas| && i < |ids| && ChunkMatches(metas[i], name) && ids[i] == x
  {
    var m := MatchingIndices(metas, name, |metas|);
    MatchingIndicesExact(metas, name, |metas|);
    DocIdsExact(ids, m);
    if x in DocIds(ids, m) {
      var k :| 0 <= k < |m| && m[k] < |ids| && ids[m[k]] == x;
      assert m[k] in m;
    }
    if exists i :: 0 <= i < |metas| && i < |ids| && ChunkMatches(metas[i], name) && ids[i] == x {
      var i :| 0 <= i < |metas| && i < |ids| && ChunkMatches(metas[i], name) && ids[i] == x;
      assert i in m;
      var k :| 0 <= k < |m| && m[k] == i;
    }
  }

  /** When every matched chunk has an id, one id per matching chunk is deleted and counted. */
  lemma DeletedCountIsMatchCount(ids: seq<String>, metas: seq<Option<Metadata>>, name: String, fileExists: String -> bool)
    requires |metas| <= |ids|
    requires Respond(ids, metas, name, fileExists).Deleted?
    ensures DeletedCount(Respond(ids, metas, name, fileExists)) == |MatchingIndices(metas, name, |metas|)|
  {
    var m := MatchingIndices(metas, name, |metas|);
    MatchingIndicesExact(metas, name, |metas|);
    forall k | 0 <= k < |m|
      ensures m[k] < |ids|
    {
      assert m[k] in m;
    }
    DocIdsExact(ids, m);
  }

  /** The removed file is `uploads/<source>` for the first matched chunk with a source, and it existed. */
  lemma RemovedFileIsFirstSource(ids: seq<String>, metas: seq<Option<Metadata>>, name: String, fileExists: String -> bool)
    requires Respond(ids, metas, name, fileExists).Deleted?
    requires Respond(ids, metas, name, fileExists).removedFile.Some?
    ensures var m := MatchingIndices(metas, name, |metas|);
      var path := Respond(ids, metas, name, fileExists).removedFile.value;
      match FirstWhere(m, i => HasSource(metas, i))
      case Some(k) => Get(metas[m[k]].value, "source").Str? && path == JoinPath(RemovalDir, Get(metas[m[k]].value, "source").s) && fileExists(path)
      case None => false
  {
    var m := MatchingIndices(metas, name, |metas|);
    SourceScanFirst(metas, m, Null);
  }

  /**
   * As written, deleting a document none of whose matching chunks has a
   * `source` (here one indexed under `filename` only) deletes the chunk and
   * then fails with a 500.
   */
  lemma SourcelessDeleteFails(fileExists: String -> bool)
    ensures Respond(["a.txt_0"], [Some(map["filename" := Str("a.txt")])], "a.txt", fileExists) == Failed(["a.txt_0"])
  {
    var metas := [Some(map["filename" := Str("a.txt")])];
    var meta := map["filename" := Str("a.txt")];
    assert Candidates(meta)[2] == Str("a.txt");
    assert ChunkMatches(metas[0], "a.txt");
    assert MatchingIndices(metas, "a.txt", 1) == [0];
    assert DocIds(["a.txt_0"], [0]) == ["a.txt_0"];
    assert Get(meta, "source") == Null;
    assert SourceScan(metas, [0], Null) == Null;
  }

  /** As intended, a request whose name matches some chunk always succeeds, deleting the matching chunks. */
  lemma IntendedSucceedsOnMatch(ids: seq<String>, metas: seq<Option<Metadata>>, name: String, fileExists: String -> bool, i: nat)
    requires i < |metas| && ChunkMatches(metas[i], name)
    ensures RespondIntended(ids, metas, name, fileExists).Deleted?
  {
    MatchingIndicesExact(metas, name, |metas|);
    assert i in MatchingIndices(metas, name, |metas|);
  }

  /** The two agree whenever the first matched chunk with a source has a string one. */
  lemma IntendedAgreesWithStringSource(ids: seq<String>, metas: seq<Option<Metadata>>, name: String, fileExists: String -> bool)
    requires RemovalPath(SourceScan(metas, MatchingIndices(metas, name, |metas|), Null)).Some?
    ensures RespondIntended(ids, metas, name, fileExists) == Respond(ids, metas, name, fileExists)
  {
  }
}
