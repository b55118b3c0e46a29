/**
 * The upload helper of the backend's utility module: the lower-cased
 * extension of a file name, the whitelist of accepted extensions, and the
 * name under which an accepted upload is stored.
 *
 * The random UUID and the iteration order of the extension set are
 * parameters, and the file write is reduced to the text of the exception it
 * raises, if any.
 */
module UploadUtils {
  import opened Wrappers
  import opened Text
  import opened PyPath

  const UploadDir: String := "uploads"

  /** The accepted extensions. */
  const Allowed: seq<String> := [".txt", ".pdf", ".eml"]

  /** `get_file_extension`: `os.path.splitext(name)[1].lower()`. */
  function FileExtension(filename: String): (r: String)
    ensures r == "" || r[0] == '.'
    ensures |r| == |Ext(filename)|
  {
    LowerStr(Ext(filename))
  }

  /** The whitelist test: a non-empty extension among the allowed ones. */
  predicate IsAllowed(filename: String)
  {
    var ext := FileExtension(filename);
    ext != "" && ext in Allowed
  }

  /** The HTTP error a failed save ends in. */
  datatype HttpError = HttpError(status: nat, detail: String)

  /**
   * The detail of the type error: the allowed extensions joined with ", " in
   * the iteration order of the set, which string hashing varies between runs.
   */
  function TypeNotAllowed(order: seq<String>): String {
    "File type not allowed. Allowed types: " + Join(order, ", ")
  }

  /** An iteration order of the allowed set: each allowed extension once. */
  predicate SetOrder(order: seq<String>) {
    multiset(order) == multiset(Allowed)
  }

  /** In any iteration order, the message names each allowed extension once. */
  lemma TypeMessageListsAllowed(order: seq<String>)
    requires SetOrder(order)
    ensures |order| == 3 && {order[0], order[1], order[2]} == {".txt", ".pdf", ".eml"}
    ensures TypeNotAllowed(order) == "File type not allowed. Allowed types: " + order[0] + ", " + order[1] + ", " + order[2]
  {
    assert multiset(Allowed) == multiset{".txt", ".pdf", ".eml"};
    ThreeElements(order, ".txt", ".pdf", ".eml");
    assert order == [order[0], order[1], order[2]];
    JoinThree("File type not allowed. Allowed types: ", order[0], order[1], order[2], ", ");
  }

  /** A sequence holding three values once each has length three and holds exactly those. */
  lemma ThreeElements<T>(xs: seq<T>, a: T, b: T, c: T)
    requires multiset(xs) == multiset{a, b, c}
    ensures |xs| == 3 && {xs[0], xs[1], xs[2]} == {a, b, c}
  {
    assert |xs| == |multiset(xs)| == 3;
    assert xs == [xs[0], xs[1], xs[2]];
    assert a in multiset(xs) && b in multiset(xs) && c in multiset(xs);
    assert xs[0] in multiset(xs) && xs[1] in multiset(xs) && xs[2] in multiset(xs);
  }

  /** Three pieces joined with a separator, after a prefix. */
  lemma JoinThree(prefix: String, x: String, y: String, z: String, sep: String)
    ensures prefix + Join([x, y, z], sep) == prefix + x + sep + y + sep + z
  {
    assert [x, y, z][1..] == [y, z];
    assert [y, z][1..] == [z];
    assert Join([y, z], sep) == y + sep + z;
    assert Join([x, y, z], sep) == x + sep + (y + sep + z);
  }

  /** The stored path of an accepted file: the UUID followed by the original extension, inside "uploads". */
  function StoredPath(uuid: String, filename: String): String
  {
    JoinPath(UploadDir, uuid + FileExtension(filename))
  }

  /**
   * `save_uploaded_file` as written: the 400 raised for a disallowed type is inside the `try`, so
   * the generic `except Exception` turns it into a 500 "Failed to save file: 400: …". The set's
   * iteration order is `order`; `writeError` is the text of the exception the write raised, if any.
   */
  function SaveUploadedFile(filename: String, uuid: String, order: seq<String>, writeError: Option<String>): (r: Result<String, HttpError>)
  {
    if !IsAllowed(filename) then Err(HttpError(500, "Failed to save file: 400: " + TypeNotAllowed(order)))
    else if writeError.Some? then Err(HttpError(500, "Failed to save file: " + writeError.value))
    else Ok(StoredPath(uuid, filename))
  }

  /** The same helper with the type check's 400 reaching the caller. */
  function SaveUploadedFileIntended(filename: String, uuid: String, order: seq<String>, writeError: Option<String>): (r: Result<String, HttpError>)
  {
    if !IsAllowed(filename) then Err(HttpError(400, TypeNotAllowed(order)))
    else if writeError.Some? then Err(HttpError(500, "Failed to save file: " + writeError.value))
    else Ok(StoredPath(uuid, filename))
  }

  /** As written, every failure is a 500, including a disallowed type; a failed write reports its exception's text. */
  lemma DisallowedTypeIs500(filename: String, uuid: String, order: seq<String>, writeError: Option<String>)
    ensures var r := SaveUploadedFile(filename, uuid, order, writeError);
      && (r.Err? ==> r.error.status == 500)
      && (!IsAllowed(filename) ==> r.Err?)
      && (IsAllowed(filename) && writeError.Some? ==> r == Err(HttpError(500, "Failed to save file: " + writeError.value)))
  {
  }

  /** A disallowed type is rejected with a 400 only in the intended version; a ".md" file shows the difference. */
  lemma MarkdownUploadStatus(order: seq<String>)
    ensures SaveUploadedFile("notes.md", "u", order, None) == Err(HttpError(500, "Failed to save file: 400: " + TypeNotAllowed(order)))
    ensures SaveUploadedFileIntended("notes.md", "u", order, None) == Err(HttpError(400, TypeNotAllowed(order)))
  {
    var p := "notes.md";
    assert Basename(p) == p by {
      assert forall k :: 0 <= k < |p| ==> p[k] != '/';
    }
    assert p[5] == '.' && p[6] == 'm' && p[7] == 'd';
    assert LastChar(p, |p|, '.') == Some(5);
    assert SkipWhile(p, 0, IsDot) == 0;
    assert Ext(p) == ".md";
    assert FileExtension(p) == ".md";
  }

  /** Both versions store exactly the allowed files, in the same place. */
  lemma AcceptedIffAllowed(filename: String, uuid: String, order: seq<String>, writeError: Option<String>)
    ensures SaveUploadedFile(filename, uuid, order, writeError).Ok? <==> IsAllowed(filename) && writeError.None?
    ensures SaveUploadedFileIntended(filename, uuid, order, writeError).Ok? <==> IsAllowed(filename) && writeError.None?
    ensures SaveUploadedFileIntended(filename, uuid, order, writeError).Ok? ==>
      SaveUploadedFileIntended(filename, uuid, order, writeError) == SaveUploadedFile(filename, uuid, order, writeError)
    ensures IsAllowed(filename) ==>
      SaveUploadedFileIntended(filename, uuid, order, writeError) == SaveUploadedFile(filename, uuid, order, writeError)
    ensures !IsAllowed(filename) ==> SaveUploadedFileIntended(filename, uuid, order, writeError) == Err(HttpError(400, TypeNotAllowed(order)))
  {
  }

  /** The extension holds no '/'. */
  lemma ExtensionHasNoSlash(filename: String)
    ensures '/' !in FileExtension(filename)
  {
    ExtShape(filename);
    var e := Ext(filename);
    forall k | 0 <= k < |e|
      ensures FileExtension(filename)[k] != '/'
    {
      assert e[k] != '/' by { assert e[k] in e; }
      assert FileExtension(filename)[k] == Lower(e[k]);
    }
  }

  /** The stored name is the UUID and the extension, directly inside "uploads". */
  lemma StoredPathShape(uuid: String, filename: String)
    requires uuid != "" && '/' !in uuid
    ensures StoredPath(uuid, filename) == UploadDir + "/" + (uuid + FileExtension(filename))
    ensures Basename(StoredPath(uuid, filename)) == uuid + FileExtension(filename)
  {
    var ext := FileExtension(filename);
    ExtensionHasNoSlash(filename);
    var name := uuid + ext;
    NoSlashJoined(uuid, ext);
    assert !StartsWith(name, "/") by {
      assert name[0] == uuid[0] && uuid[0] in uuid;
    }
    assert UploadDir != [] && !EndsWith(UploadDir, "/");
    assert StoredPath(uuid, filename) == JoinPath(UploadDir, name) == UploadDir + "/" + name;
    JoinBasename(UploadDir, name);
  }

  lemma NoSlashJoined(a: String, b: String)
    requires '/' !in a && '/' !in b
    ensures '/' !in a + b
  {
    var ab := a + b;
    forall k | 0 <= k < |ab|
      ensures ab[k] != '/'
    {
      if k < |a| {
        assert ab[k] == a[k] && a[k] in a;
      } else {
        assert ab[k] == b[k - |a|] && b[k - |a|] in b;
      }
    }
  }

  /** The extension ignores case: "REPORT.PDF" is accepted as ".pdf". */
  lemma UpperCaseAccepted()
    ensures FileExtension("REPORT.PDF") == ".pdf" && IsAllowed("REPORT.PDF")
  {
    var p := "REPORT.PDF";
    assert Basename(p) == p by {
      assert forall k :: 0 <= k < |p| ==> p[k] != '/';
    }
    assert p[6] == '.' && p[7] == 'P' && p[8] == 'D' && p[9] == 'F';
    assert LastChar(p, |p|, '.') == Some(6);
    assert SkipWhile(p, 0, IsDot) == 0;
    assert Ext(p) == ".PDF";
  }

  /** A dot file such as ".txt" has no extension and is rejected. */
  lemma DotFileRejected(s: String)
    requires '.' !in s && '/' !in s
    ensures FileExtension("." + s) == "" && !IsAllowed("." + s)
  {
    DotFileHasNoExt(s);
  }
}
