/** Page navigation of the inline PDF renderer
    (apps/web/src/components/ui/PDFRenderer.tsx): the page count, the current
    page, the loading flag, the two navigation handlers and the rule that
    disables each button. */
module PdfRenderer {

  /** `Math.max(1, prev - 1)`: one page back, never before page 1. */
  function PrevPage(page: int): (r: int)
    ensures r >= 1 && r >= page - 1
    ensures r == 1 || r == page - 1
  {
    if page - 1 < 1 then 1 else page - 1
  }

  /** `Math.min(numPages, prev + 1)`: one page on, never past the last page. */
  function NextPage(numPages: nat, page: int): (r: int)
    ensures r <= numPages && r <= page + 1
    ensures r == numPages || r == page + 1
  {
    if numPages < page + 1 then numPages else page + 1
  }

  /** `disabled={pageNumber <= 1 || isLoading}` */
  predicate PrevDisabled(page: int, isLoading: bool): (r: bool)
    ensures isLoading ==> r
    ensures !r ==> PrevPage(page) == page - 1
  {
    page <= 1 || isLoading
  }

  /** `disabled={pageNumber >= numPages || isLoading}` */
  predicate NextDisabled(numPages: nat, page: int, isLoading: bool): (r: bool)
    ensures isLoading ==> r
    ensures !r ==> NextPage(numPages, page) == page + 1
  {
    page >= numPages || isLoading
  }

  /** The page is one of the document's pages, or page 1 of a document with
      no pages (the state before any document has loaded). */
  predicate OnDocument(numPages: nat, page: int) {
    1 <= page && (page <= numPages || page == 1)
  }

  /** Within the document, each step keeps the page within the document. */
  lemma StepsStayInRange(numPages: nat, page: int)
    requires 1 <= page <= numPages
    ensures 1 <= PrevPage(page) <= numPages
    ensures 1 <= NextPage(numPages, page) <= numPages
  {
  }

  /** Within the document and when not loading, a button is disabled exactly
      when pressing it would leave the page where it is. */
  lemma DisabledExactlyWhenNoOp(numPages: nat, page: int)
    requires 1 <= page <= numPages
    ensures PrevDisabled(page, false) <==> PrevPage(page) == page
    ensures NextDisabled(numPages, page, false) <==> NextPage(numPages, page) == page
  {
  }

  datatype Button = Prev | Next

  /** A click on a navigation button: a disabled button does nothing. */
  function Press(numPages: nat, page: int, isLoading: bool, b: Button): (r: int)
    ensures b.Prev? && !PrevDisabled(page, isLoading) ==> r == page - 1
    ensures b.Next? && !NextDisabled(numPages, page, isLoading) ==> r == page + 1
    ensures (b.Prev? && PrevDisabled(page, isLoading)) || (b.Next? && NextDisabled(numPages, page, isLoading)) ==> r == page
  {
    match b
    case Prev => if PrevDisabled(page, isLoading) then page else PrevPage(page)
    case Next => if NextDisabled(numPages, page, isLoading) then page else NextPage(numPages, page)
  }

  /** A sequence of clicks, in order, while the document stays the same. */
  function PressAll(numPages: nat, page: int, isLoading: bool, clicks: seq<Button>): int
    decreases |clicks|
  {
    if clicks == [] then page
    else PressAll(numPages, Press(numPages, page, isLoading, clicks[0]), isLoading, clicks[1..])
  }

  /** However the user clicks, the page stays on the document; while the
      document is loading, no click moves it at all. */
  lemma {:induction false} PressAllStaysOnDocument(numPages: nat, page: int, isLoading: bool, clicks: seq<Button>)
    requires OnDocument(numPages, page)
    ensures OnDocument(numPages, PressAll(numPages, page, isLoading, clicks))
    ensures isLoading ==> PressAll(numPages, page, isLoading, clicks) == page
    decreases |clicks|
  {
    if clicks != [] {
      PressAllStaysOnDocument(numPages, Press(numPages, page, isLoading, clicks[0]), isLoading, clicks[1..]);
    }
  }

  /** The renderer's navigation state. */
  class Renderer {
    var numPages: nat
    var pageNumber: int
    var isLoading: bool

    ghost predicate Valid()
      reads this
    {
      OnDocument(numPages, pageNumber)
    }

    /** Initial state: no pages known, page 1, loading. */
    constructor ()
      ensures Valid()
      ensures numPages == 0 && pageNumber == 1 && isLoading
    {
      numPages, pageNumber, isLoading := 0, 1, true;
    }

    /** `onDocumentLoadSuccess({ numPages: n })` */
    method OnDocumentLoadSuccess(n: nat)
      modifies this
      ensures Valid()
      ensures numPages == n && pageNumber == 1 && !isLoading
    {
      numPages := n;
      pageNumber := 1;
      isLoading := false;
    }

    /** `onDocumentLoadError(error)`: stops loading and returns the report
        handed to the `onError` callback. */
    method OnDocumentLoadError(message: string) returns (report: string)
      requires Valid()
      modifies this
      ensures Valid()
      ensures !isLoading && numPages == old(numPages) && pageNumber == old(pageNumber)
      ensures report == "Failed to load PDF: " + message
    {
      isLoading := false;
      report := "Failed to load PDF: " + message;
    }

    /** `goToPrevPage()` */
    method GoToPrevPage()
      requires Valid()
      modifies this
      ensures Valid()
      ensures pageNumber == PrevPage(old(pageNumber))
      ensures numPages == old(numPages) && isLoading == old(isLoading)
    {
      pageNumber := PrevPage(pageNumber);
    }

    /** `goToNextPage()`: called directly on a document with no pages it would
        set page 0, which is why the button is disabled there. */
    method GoToNextPage()
      requires Valid()
      modifies this
      ensures numPages >= 1 ==> Valid()
      ensures pageNumber == NextPage(numPages, old(pageNumber))
      ensures numPages == old(numPages) && isLoading == old(isLoading)
    {
      pageNumber := NextPage(numPages, pageNumber);
    }

    /** A click on a rendered navigation button, which runs its handler only
        when the button is enabled. */
    method Click(b: Button)
      requires Valid()
      modifies this
      ensures Valid()
      ensures pageNumber == Press(numPages, old(pageNumber), isLoading, b)
      ensures numPages == old(numPages) && isLoading == old(isLoading)
    {
      match b
      case Prev =>
        if !PrevDisabled(pageNumber, isLoading) {
          GoToPrevPage();
        }
      case Next =>
        if !NextDisabled(numPages, pageNumber, isLoading) {
          GoToNextPage();
        }
    }
  }
}
