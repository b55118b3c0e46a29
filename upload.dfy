/**
 * The upload route: the uploaded file is saved under its final path
 * component in "uploaded_docs", parsed, and each parsed document that
 * received an embedding is stored under the id "<filename>_<i>".
 *
 * The route defines its own `save_uploaded_file`, which hides the one of
 * the utility module, so the extension whitelist is never applied here.
 * The file write, the embedding service and the vector store are reduced
 * to parameters and returned call records.
 */
module Upload {
  import opened Wrappers
  import opened Text
  import opened PyPath
  import opened FileParser
  import UploadUtils

  const UploadDir: String := "uploaded_docs"

  /** `sanitize_filename`: `Path(filename).name`, a single component. */
  function SanitizeFilename(filename: String): (r: String)
    ensures '/' !in r && r != "."
  {
    PathNameIsComponent(filename);
    PathName(filename)
  }

  /** Sanitising twice changes nothing. */
  lemma SanitizeIdempotent(filename: String)
    ensures SanitizeFilename(SanitizeFilename(filename)) == SanitizeFilename(filename)
  {
    PathNameIdempotent(filename);
  }

  /** ".." is a component `pathlib` keeps, so it survives sanitising. */
  lemma SanitizeKeepsDotDot()
    ensures SanitizeFilename("../..") == ".."
  {
    var p := "../..";
    assert p == ".." + ['/'] + "..";
    SplitAppend("..", "..", '/');
    assert Split("..", '/') == [".."];
    assert Filter([".."], IsPart) == [".."];
    FilterAppend([".."], [".."], IsPart);
  }

  /** The saved path. */
  function SavedPath(filename: String): String
  {
    JoinPath(UploadDir, SanitizeFilename(filename))
  }

  /** The file is saved directly inside "uploaded_docs", under its sanitised name. */
  lemma SavedPathInsideDir(filename: String)
    ensures SavedPath(filename) == UploadDir + "/" + SanitizeFilename(filename)
    ensures Basename(SavedPath(filename)) == SanitizeFilename(filename)
  {
    var name := SanitizeFilename(filename);
    assert !StartsWith(name, "/") by {
      if |name| > 0 { assert name[0] in name; }
    }
    assert !EndsWith(UploadDir, "/");
    JoinBasename(UploadDir, name);
  }

  /** The id of the `i`-th stored document: the original (unsanitised) file name, '_', and `i`. */
  function ChunkId(filename: String, i: nat): String
  {
    filename + "_" + NatToString(i)
  }

  lemma ChunkIdsDistinct(filename: String, i: nat, j: nat)
    requires i != j
    ensures ChunkId(filename, i) != ChunkId(filename, j)
  {
    var pre := filename + "_";
    assert ChunkId(filename, i)[|pre|..] == NatToString(i);
    assert ChunkId(filename, j)[|pre|..] == NatToString(j);
    NatToStringInjective(i, j);
  }

  /** One store call: the id, the document text and the metadata `{source, doc_index}`. */
  datatype StoreCall = StoreCall(docId: String, content: String, source: String, docIndex: nat)

  /** How many store calls the loop over `zip(documents, embeddings)` makes when `failAt` names the call that raises, if any. */
  function Attempted(documents: nat, embeddings: nat, failAt: Option<nat>): nat {
    var n := if documents <= embeddings then documents else embeddings;
    if failAt.Some? && failAt.value < n then failAt.value + 1 else n
  }

  /**
   * The loop over `zip(documents, embeddings)`; `embeddings` is how many
   * embeddings came back and `failAt` the index of the store call that
   * raises, if any. The calls made, the failing one last, are returned, and
   * `ok` says whether the loop finished.
   */
  method StoreDocuments(filename: String, documents: seq<String>, embeddings: nat, failAt: Option<nat>)
    returns (calls: seq<StoreCall>, ok: bool)
    ensures |calls| == Attempted(|documents|, embeddings, failAt) && |calls| <= |documents|
    ensures forall i :: 0 <= i < |calls| ==> calls[i] == StoreCall(ChunkId(filename, i), documents[i], filename, i)
    ensures ok <==> !(failAt.Some? && failAt.value < |documents| && failAt.value < embeddings)
  {
    calls := [];
    var n := if |documents| <= embeddings then |documents| else embeddings;
    for i := 0 to n
      invariant |calls| == i
      invariant forall k :: 0 <= k < i ==> calls[k] == StoreCall(ChunkId(filename, k), documents[k], filename, k)
      invariant failAt.Some? ==> failAt.value >= i
    {
      calls := calls + [StoreCall(ChunkId(filename, i), documents[i], filename, i)];
      if failAt == Some(i) {
        ok := false;
        return;
      }
    }
    ok := true;
  }

  /** The route's answer. */
  datatype Reply = Processed(message: String) | ServerError(detail: String)

  const InternalError: String := "Internal server error during file processing"

  /**
   * `upload_file`: saving (which fails when `writeOk` is false), parsing the saved file as
   * `source` describes it, computing the embeddings (`None` when the service raises) and
   * storing (the call at `storeFailAt`, if any, raises). Any failure ends in a 500 with a
   * fixed detail.
   */
  method UploadFile(filename: String, writeOk: bool, source: FileSource, embeddings: Option<nat>, storeFailAt: Option<nat>)
    returns (calls: seq<StoreCall>, reply: Reply)
    ensures !writeOk ==> calls == [] && reply == ServerError(InternalError)
    ensures writeOk && ParseFile(SavedPath(filename), source).Err? ==> calls == [] && reply == ServerError(InternalError)
    ensures writeOk && ParseFile(SavedPath(filename), source).Ok? && embeddings.None? ==>
      calls == [] && reply == ServerError(InternalError)
    ensures writeOk && ParseFile(SavedPath(filename), source).Ok? && embeddings.Some? ==>
      var documents := ParseFile(SavedPath(filename), source).value;
      var stored := if embeddings.value >= 1 then 1 else 0;
      && (reply.Processed? <==> !(storeFailAt == Some(0) && stored == 1))
      && (reply.Processed? ==> reply == Processed(filename + " processed") && |calls| == stored)
      && (reply.ServerError? ==> reply == ServerError(InternalError) && |calls| == 1)
      && forall i :: 0 <= i < |calls| ==> calls[i] == StoreCall(ChunkId(filename, i), documents[i], filename, i)
  {
    calls := [];
    if !writeOk {
      reply := ServerError(InternalError);
      return;
    }
    var path := SavedPath(filename);
    var parsed := ParseFile(path, source);
    if parsed.Err? || embeddings.None? {
      reply := ServerError(InternalError);
      return;
    }
    var ok;
    calls, ok := StoreDocuments(filename, parsed.value, embeddings.value, storeFailAt);
    reply := if ok then Processed(filename + " processed") else ServerError(InternalError);
  }

  /** A file named ".txt" is saved and parsed as a text file. */
  lemma DotTxtParses(source: FileSource)
    requires source.text.Ok?
    ensures ParseFile(SavedPath(".txt"), source) == Ok([source.text.value])
  {
    PathNameOfComponent(".txt");
    SavedPathInsideDir(".txt");
    TextFileParses(UploadDir + "/", source.text.value, source);
  }

  /** The whitelist refuses ".txt", which has no extension for `splitext`. */
  lemma DotTxtNotAllowed()
    ensures !UploadUtils.IsAllowed(".txt")
  {
    UploadUtils.DotFileRejected("txt");
    var d := "." + "txt";
    assert |d| == 4 && d[0] == '.' && d[1] == 't' && d[2] == 'x' && d[3] == 't';
    assert d == ".txt";
  }

  /**
   * The utility module's whitelist is bypassed: it would refuse ".txt", yet the route saves
   * and parses it as a text file.
   */
  lemma WhitelistBypassed(source: FileSource)
    requires source.text.Ok?
    ensures !UploadUtils.IsAllowed(".txt")
    ensures ParseFile(SavedPath(".txt"), source) == Ok([source.text.value])
  {
    DotTxtNotAllowed();
    DotTxtParses(source);
  }
}
