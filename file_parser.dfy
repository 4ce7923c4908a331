/** Text extraction from an uploaded file (services/fileParserService.ts).
    The PDF and DOCX libraries are left out: a file carries what they would
    report, the item strings of each PDF page or the extracted DOCX text, or
    the error they would throw. */
module FileParser {
  import opened Wrappers
  import opened Text

  const PDF_MIME: string := "application/pdf"
  const DOCX_MIME: string := "application/vnd.openxmlformats-officedocument.wordprocessingml.document"
  const UNSUPPORTED_MESSAGE: string := "Unsupported file type. Please upload a PDF or DOCX file."

  /** An uploaded file: its name, size in bytes and declared MIME type, and
      what the PDF and DOCX libraries would make of its content. */
  datatype UploadedFile = UploadedFile(
    name: string,
    size: nat,
    mimeType: string,
    pdfPages: Result<seq<seq<string>>, string>,
    docxText: Result<string, string>)

  /** One page's text: its item strings joined by single spaces. */
  function PageText(items: seq<string>): string
  {
    Join(items, " ")
  }

  /** The text of a document: each page's text followed by a line break, in page order. */
  function PdfText(pages: seq<seq<string>>): string
  {
    if pages == [] then "" else PageText(pages[0]) + "\n" + PdfText(pages[1..])
  }

  /** Adding a page at the end appends its line. */
  lemma {:induction false} PdfTextSnoc(pages: seq<seq<string>>, page: seq<string>)
    ensures PdfText(pages + [page]) == PdfText(pages) + PageText(page) + "\n"
  {
    if pages == [] {
      assert [] + [page] == [page];
      assert [page][1..] == [];
    } else {
      assert (pages + [page])[0] == pages[0];
      assert (pages + [page])[1..] == pages[1..] + [page];
      PdfTextSnoc(pages[1..], page);
    }
  }

  /** `parsePdf`'s loop over pages 1 to `numPages`. */
  method ParsePdf(pages: seq<seq<string>>) returns (fullText: string)
    ensures fullText == PdfText(pages)
  {
    fullText := "";
    var i := 1;
    while i <= |pages|
      invariant 1 <= i <= |pages| + 1
      invariant fullText == PdfText(pages[..i - 1])
    {
      var pageText := PageText(pages[i - 1]);
      PdfTextSnoc(pages[..i - 1], pages[i - 1]);
      assert pages[..i] == pages[..i - 1] + [pages[i - 1]];
      fullText := fullText + pageText + "\n";
      i := i + 1;
    }
    assert pages[..|pages|] == pages;
  }

  /** No item of any page holds a line break. */
  predicate NoLineBreakInItems(pages: seq<seq<string>>)
  {
    forall p, k | 0 <= p < |pages| && 0 <= k < |pages[p]| :: '\n' !in pages[p][k]
  }

  function PageTexts(pages: seq<seq<string>>): (r: seq<string>)
    ensures |r| == |pages|
    ensures forall p | 0 <= p < |pages| :: r[p] == PageText(pages[p])
  {
    if pages == [] then [] else [PageText(pages[0])] + PageTexts(pages[1..])
  }

  /** When no item holds a line break, the text splits into exactly the page
      texts and a final empty piece: one line break per page, none empty
      when there is no page, and the text ends with a line break otherwise. */
  lemma {:induction false} PdfTextLines(pages: seq<seq<string>>)
    requires NoLineBreakInItems(pages)
    ensures Split(PdfText(pages), '\n') == PageTexts(pages) + [""]
    ensures pages == [] ==> PdfText(pages) == ""
    ensures pages != [] ==> EndsWith(PdfText(pages), "\n")
  {
    if pages != [] {
      var first := PageText(pages[0]);
      var rest := PdfText(pages[1..]);
      JoinLacks(pages[0], " ", '\n');
      SplitAtFirst(first, '\n', rest);
      assert first + "\n" + rest == first + ['\n'] + rest;
      PdfTextLines(pages[1..]);
      assert PageTexts(pages) == [first] + PageTexts(pages[1..]);
      if pages[1..] == [] {
        assert PdfText(pages) == first + "\n";
      } else {
        assert EndsWith(rest, "\n");
        assert PdfText(pages)[|PdfText(pages)| - 1..] == rest[|rest| - 1..];
      }
    }
  }

  /** The text `parseFile` resolves to, or the message it rejects with. */
  function Extracted(file: UploadedFile): Result<string, string>
  {
    if file.mimeType == PDF_MIME then
      match file.pdfPages
      case Success(pages) => Success(PdfText(pages))
      case Failure(e) => Failure(e)
    else if file.mimeType == DOCX_MIME then file.docxText
    else Failure(UNSUPPORTED_MESSAGE)
  }

  /** `parseFile`: dispatch on the exact MIME type. */
  method ParseFile(file: UploadedFile) returns (r: Result<string, string>)
    ensures r == Extracted(file)
    ensures file.mimeType == PDF_MIME ==>
      r == (match file.pdfPages case Success(pages) => Success(PdfText(pages)) case Failure(e) => Failure(e))
    ensures file.mimeType == DOCX_MIME ==> r == file.docxText
    ensures file.mimeType != PDF_MIME && file.mimeType != DOCX_MIME ==> r == Failure(UNSUPPORTED_MESSAGE)
  {
    if file.mimeType == PDF_MIME {
      match file.pdfPages
      case Failure(e) =>
        r := Failure(e);
      case Success(pages) =>
        var text := ParsePdf(pages);
        r := Success(text);
    } else if file.mimeType == DOCX_MIME {
      r := file.docxText;
    } else {
      r := Failure(UNSUPPORTED_MESSAGE);
    }
  }
}
