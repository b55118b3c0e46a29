/**
 * The backend's file parser: `parse_file` picks a reader by the path's
 * lower-cased ending, `parse_pdf` keeps the text of the pages that have
 * some and joins it with blank lines, and every failure is re-raised as a
 * `ValueError` naming the file.
 *
 * Reading files and PDF text extraction are not modelled: what the file
 * holds (or the error reading it raises) is a parameter.
 */
module FileParser {
  import opened Wrappers
  import opened Text

  /** A Python exception: its class and `str(e)`. */
  datatype Exc = ValueError(msg: String) | Exception(msg: String)

  /** What `page.extract_text()` gives: a text (possibly empty), or an exception. */
  datatype Page = PageText(text: String) | PageFails

  /**
   * A PDF as PyPDF2 sees it: `readError` is the `PdfReadError` message when the reader cannot
   * open it; `decryptOk` says whether decrypting with the empty password works.
   */
  datatype Pdf = Pdf(readError: Option<String>, encrypted: bool, decryptOk: bool, pages: seq<Page>)

  /** What each reader finds at the path; `Err` carries the message of the exception reading raises. */
  datatype FileSource = FileSource(text: Result<String, String>, pdf: Pdf, emlPayload: Result<String, String>)

  const PageSeparator: String := "\n\n"
  const NoTextError: String := "No extractable text found in PDF"
  const EncryptedError: String := "Cannot extract text from password-protected PDF"

  /** The texts of the pages that extract to something non-empty, in page order. */
  function PageTexts(pages: seq<Page>): (r: seq<String>)
    ensures forall k :: 0 <= k < |r| ==> r[k] != ""
  {
    if pages == [] then []
    else
      var last := pages[|pages| - 1];
      PageTexts(pages[..|pages| - 1]) + (if last.PageText? && last.text != "" then [last.text] else [])
  }

  /** A text is kept exactly when some page extracts to it and it is not empty. */
  lemma {:induction false} PageTextsMembers(pages: seq<Page>, t: String)
    ensures t in PageTexts(pages) <==> PageText(t) in pages && t != ""
    decreases |pages|
  {
    if pages != [] {
      var init := pages[..|pages| - 1];
      PageTextsMembers(init, t);
      assert pages == init + [pages[|pages| - 1]];
    }
  }

  /** Pages are kept in order: the texts of a document are those of its first pages, then of the rest. */
  lemma {:induction false} PageTextsAppend(a: seq<Page>, b: seq<Page>)
    ensures PageTexts(a + b) == PageTexts(a) + PageTexts(b)
    decreases |b|
  {
    if b == [] {
      assert a + b == a;
    } else {
      PageTextsAppend(a, b[..|b| - 1]);
      assert (a + b)[..|a + b| - 1] == a + b[..|b| - 1];
    }
  }

  /** `parse_pdf`: its text, or the exception it raises. */
  function PdfResult(pdf: Pdf): (r: Result<String, Exc>)
  {
    if pdf.readError.Some? then Err(ValueError("Invalid PDF file: " + pdf.readError.value))
    else if pdf.encrypted && !pdf.decryptOk then Err(Exception("Failed to parse PDF: " + EncryptedError))
    else
      var parts := PageTexts(pdf.pages);
      if parts == [] then Err(Exception("Failed to parse PDF: " + NoTextError))
      else Ok(Join(parts, PageSeparator))
  }

  /** The page loop of `parse_pdf`. */
  method CollectPages(pages: seq<Page>) returns (parts: seq<String>)
    ensures parts == PageTexts(pages)
  {
    parts := [];
    for i := 0 to |pages|
      invariant parts == PageTexts(pages[..i])
    {
      assert pages[..i + 1][..i] == pages[..i];
      match pages[i]
      case PageFails =>
        continue;
      case PageText(t) =>
        if t != "" {
          parts := parts + [t];
        }
    }
    assert pages[..|pages|] == pages;
  }

  method ParsePdf(pdf: Pdf) returns (r: Result<String, Exc>)
    ensures r == PdfResult(pdf)
  {
    if pdf.readError.Some? {
      return Err(ValueError("Invalid PDF file: " + pdf.readError.value));
    }
    if pdf.encrypted && !pdf.decryptOk {
      // The ValueError raised here is not a PdfReadError, so the generic handler wraps it.
      return Err(Exception("Failed to parse PDF: " + EncryptedError));
    }
    var parts := CollectPages(pdf.pages);
    if parts == [] {
      return Err(Exception("Failed to parse PDF: " + NoTextError));
    }
    r := Ok(Join(parts, PageSeparator));
  }

  /** A successful parse is the kept page texts joined by blank lines; every kept text is a page's. */
  lemma PdfTextIsPages(pdf: Pdf)
    requires PdfResult(pdf).Ok?
    ensures PageTexts(pdf.pages) != []
    ensures PdfResult(pdf).value == Join(PageTexts(pdf.pages), PageSeparator)
    ensures forall t :: t in PageTexts(pdf.pages) ==> PageText(t) in pdf.pages
  {
    forall t | t in PageTexts(pdf.pages)
      ensures PageText(t) in pdf.pages
    {
      PageTextsMembers(pdf.pages, t);
    }
  }

  /** A readable PDF none of whose pages yields text fails with a plain `Exception`, not a `ValueError`. */
  lemma NoTextIsPlainException(pdf: Pdf)
    requires pdf.readError.None? && (!pdf.encrypted || pdf.decryptOk)
    requires forall k :: 0 <= k < |pdf.pages| ==> pdf.pages[k] == PageFails || pdf.pages[k] == PageText("")
    ensures PdfResult(pdf) == Err(Exception("Failed to parse PDF: " + NoTextError))
  {
    if PageTexts(pdf.pages) != [] {
      var t := PageTexts(pdf.pages)[0];
      PageTextsMembers(pdf.pages, t);
      assert false;
    }
  }

  // ---------------------------------------------------------------------------
  // parse_file

  /** The reader `parse_file` picks, from the lower-cased path. */
  datatype Kind = Txt | PdfKind | Eml | Unsupported

  function KindOf(path: String): (k: Kind)
    ensures k == Txt <==> EndsWith(LowerStr(path), ".txt")
    ensures k == PdfKind <==> EndsWith(LowerStr(path), ".pdf")
    ensures k == Eml <==> EndsWith(LowerStr(path), ".eml")
  {
    var p := LowerStr(path);
    if EndsWith(p, ".txt") then Txt
    else if EndsWith(p, ".pdf") then PdfKind
    else if EndsWith(p, ".eml") then Eml
    else Unsupported
  }

  /** `str(e)` of the exception `parse_file` wraps. */
  function Message(e: Exc): String {
    match e
    case ValueError(m) => m
    case Exception(m) => m
  }

  function Wrap(path: String, inner: String): Exc {
    ValueError("Failed to parse file " + path + ": " + inner)
  }

  /** `parse_file(path)`: a one-element list, or the `ValueError` it raises. */
  function ParseFile(path: String, source: FileSource): (r: Result<seq<String>, Exc>)
    ensures r.Ok? ==> |r.value| == 1 && KindOf(path) != Unsupported
    ensures r.Ok? && KindOf(path) == PdfKind ==> r.value == [Join(PageTexts(source.pdf.pages), PageSeparator)]
    ensures r.Err? ==> r.error.ValueError? && StartsWith(r.error.msg, "Failed to parse file " + path + ": ")
  {
    match KindOf(path)
    case Txt =>
      (match source.text
       case Ok(t) => Ok([t])
       case Err(m) => Err(Wrap(path, m)))
    case PdfKind =>
      (match PdfResult(source.pdf)
       case Ok(t) => Ok([t])
       case Err(e) => Err(Wrap(path, Message(e))))
    case Eml =>
      (match source.emlPayload
       case Ok(t) => Ok([t])
       case Err(m) => Err(Wrap(path, m)))
    case Unsupported =>
      Err(Wrap(path, "Unsupported file type: " + LastPiece(path, '.') + ". Supported types: .txt, .pdf, .eml"))
  }

  /** A readable text file parses to its whole content, whatever the case of its ending. */
  lemma TextFileParses(name: String, content: String, source: FileSource)
    requires source.text == Ok(content)
    ensures ParseFile(name + ".TXT", source) == Ok([content])
    ensures ParseFile(name + ".txt", source) == Ok([content])
  {
    var up := name + ".TXT";
    var low := name + ".txt";
    assert LowerStr(up)[|name|..] == ".txt";
    assert LowerStr(low)[|name|..] == ".txt";
  }
}
