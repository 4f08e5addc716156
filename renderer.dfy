/**
 * The renderer `generatePDF` of generate-pdf.js: it writes a title and then
 * one block of filler text per loop pass, which its counter counts as one
 * page, calling addPage between passes, and
 * reports the byte size of the file it wrote together with its page counter.
 *
 * The PDF library and the file system are not modelled: the byte size of the
 * finished file is the abstract function `fileSize`, applied to the number of
 * filler blocks written (with 0 standing for the title-only document).
 */
module Renderer {

  /** What one render reports: the file's byte size and the final page counter. */
  datatype RenderResult = RenderResult(size: nat, pages: int)

  /** Pages of filler text that a request writes: none for a request below 1. */
  function ContentPages(requested: int): (n: nat)
    ensures n >= requested
    ensures n == 0 || n == requested
  {
    if requested >= 1 then requested else 0
  }

  /** The page counter a request ends with: the counter starts at 1. */
  function RealizedPages(requested: int): (p: int)
    ensures p >= 1 && p >= requested
    ensures p == 1 || p == requested
    ensures p == ContentPages(requested) || (ContentPages(requested) == 0 && p == 1)
  {
    if requested >= 1 then requested else 1
  }

  /** The result a render of `requested` pages reports, as a value. */
  function Render(fileSize: nat -> nat, requested: int): (r: RenderResult)
    ensures r.pages >= 1
    ensures requested >= 1 ==> r == RenderResult(fileSize(requested), requested)
    ensures requested < 1 ==> r == RenderResult(fileSize(0), 1)
    ensures NonEmptyOutput(fileSize) && requested >= 1 ==> r.size > 0
  {
    RenderResult(fileSize(ContentPages(requested)), RealizedPages(requested))
  }

  /** Every document carrying at least one page of filler has a non-empty file. */
  ghost predicate NonEmptyOutput(fileSize: nat -> nat)
  {
    forall k: nat :: 1 <= k ==> fileSize(k) > 0
  }

  /**
   * generatePDF(estimatedPages). `written` stands for the document being
   * built: the number of pages that have received their filler text. The
   * ghost out-parameter counts the calls of addPage.
   */
  method GeneratePdf(fileSize: nat -> nat, estimatedPages: int)
    returns (r: RenderResult, ghost addPageCalls: nat)
    ensures r.pages == if estimatedPages >= 1 then estimatedPages else 1
    ensures r.pages >= 1 && addPageCalls == r.pages - 1
    ensures r.size == fileSize(if estimatedPages >= 1 then estimatedPages else 0)
    ensures r == Render(fileSize, estimatedPages)
  {
    var pageCount := 1;
    var written: nat := 0;
    addPageCalls := 0;
    while pageCount <= estimatedPages
      invariant 1 <= pageCount
      invariant pageCount <= estimatedPages || pageCount == 1
      invariant written == addPageCalls == pageCount - 1
      decreases estimatedPages - pageCount
    {
      // ten paragraphs of filler text go onto the current page
      written := written + 1;
      if pageCount < estimatedPages {
        addPageCalls := addPageCalls + 1;
        pageCount := pageCount + 1;
      } else {
        break;
      }
    }
    r := RenderResult(fileSize(written), pageCount);
  }
}
