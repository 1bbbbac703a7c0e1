/** The file viewer (src/components/FileViewer.tsx): PDF page navigation clamped to the document,
    and the choice of view from the file URL's extension. */
module FileViewer {
  import opened Wrappers
  import opened JsText

  /** `numPages || 1`: the last page, 1 while the document has not loaded (or has no pages). */
  function LastPage(numPages: Option<nat>): (last: int)
    ensures last >= 1
    ensures numPages.Some? && numPages.value > 0 ==> last == numPages.value
  {
    if numPages.Some? && numPages.value > 0 then numPages.value else 1
  }

  /** changePage(offset): Math.min(Math.max(1, page + offset), numPages || 1). */
  function ChangePage(page: int, offset: int, numPages: Option<nat>): (r: int)
    ensures 1 <= r <= LastPage(numPages)
    ensures 1 <= page + offset <= LastPage(numPages) ==> r == page + offset
    ensures page + offset < 1 ==> r == 1
    ensures page + offset > LastPage(numPages) ==> r == LastPage(numPages)
  {
    var lower := if 1 >= page + offset then 1 else page + offset;
    if lower <= LastPage(numPages) then lower else LastPage(numPages)
  }

  predicate ValidPage(page: int, numPages: Option<nat>) {
    1 <= page <= LastPage(numPages)
  }

  /** The previous-page button's `disabled`. */
  predicate PrevDisabled(page: int) {
    page <= 1
  }

  /** The next-page button's `disabled`. */
  predicate NextDisabled(page: int, numPages: Option<nat>) {
    page >= LastPage(numPages)
  }

  /** Before the document has loaded, every change stays on page 1. */
  lemma UnloadedStaysOnFirst(page: int, offset: int)
    ensures ChangePage(page, offset, None) == 1
  {
  }

  /** On a valid page, each button is disabled exactly when pressing it would not move: at the
      first page for "previous", at the last for "next"; a zero offset never moves. */
  lemma ButtonsDisabledAtEnds(page: int, numPages: Option<nat>)
    requires ValidPage(page, numPages)
    ensures ChangePage(page, 0, numPages) == page
    ensures PrevDisabled(page) <==> ChangePage(page, -1, numPages) == page
    ensures NextDisabled(page, numPages) <==> ChangePage(page, 1, numPages) == page
    ensures !PrevDisabled(page) ==> ChangePage(page, -1, numPages) == page - 1
    ensures !NextDisabled(page, numPages) ==> ChangePage(page, 1, numPages) == page + 1
  {
  }

  /** `fileUrl.split('.').pop()?.toLowerCase()`: the lower-cased text after the last dot (the
      whole URL when it has none). */
  function Extension(fileUrl: string): (ext: string)
    ensures '.' !in ext
  {
    var parts := Split(fileUrl, '.');
    var last := parts[|parts| - 1];
    assert forall i :: 0 <= i < |last| ==> ToLower(last)[i] == LowerChar(last[i]);
    ToLower(last)
  }

  /** A URL ending in a dot and a dot-free extension has that extension, lower-cased. */
  lemma ExtensionAfterLastDot(stem: string, ext: string)
    requires '.' !in ext
    ensures Extension(stem + "." + ext) == ToLower(ext)
  {
    SplitConcat(stem, ext, '.');
    SplitFree(ext, '.');
  }

  /** A URL without a dot is its own (lower-cased) extension. */
  lemma ExtensionWithoutDot(fileUrl: string)
    requires '.' !in fileUrl
    ensures Extension(fileUrl) == ToLower(fileUrl)
  {
    SplitFree(fileUrl, '.');
  }

  datatype View = PdfView | ImageView | Unsupported

  const ImageExtensions := ["jpg", "jpeg", "png", "gif"]

  /** The content branch the component renders. */
  function ViewFor(fileUrl: string): (v: View)
    ensures v == PdfView <==> Extension(fileUrl) == "pdf"
    ensures v == ImageView <==> Extension(fileUrl) in ImageExtensions
    ensures v == Unsupported <==> Extension(fileUrl) != "pdf" && Extension(fileUrl) !in ImageExtensions
  {
    var ext := Extension(fileUrl);
    if ext == "pdf" then PdfView
    else if ext != "" && ext in ImageExtensions then ImageView
    else Unsupported
  }

  /** Upper-case extensions are recognised: "NOTES.PDF" opens in the PDF view. */
  lemma UpperCasePdf(stem: string)
    ensures ViewFor(stem + ".PDF") == PdfView
  {
    assert stem + ".PDF" == stem + "." + "PDF";
    ExtensionAfterLastDot(stem, "PDF");
    assert ToLower("PDF")[0] == 'p' && ToLower("PDF")[1] == 'd' && ToLower("PDF")[2] == 'f';
    assert ToLower("PDF") == "pdf";
  }
}
