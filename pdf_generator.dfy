/** The CV export of `PDFGenerator.generatePDF`: the captured canvas is scaled
    to the page width, then drawn whole onto a run of pages, each time shifted
    up by one page height, so that every page shows the next window of the
    image. Lengths are millimetres, modelled as `real`. */
module PdfGenerator {
  import opened Seqs

  /** Width the image is scaled to (A4 width). */
  const ImgWidth: real := 210.0
  /** Vertical shift between two pages, as written. */
  const PageHeight: real := 295.0
  /** Height of the A4 page the document is made of (`new jsPDF('p', 'mm', 'a4')`). */
  const A4Height: real := 297.0

  /** One `pdf.addImage(imgData, 'PNG', x, y, width, height)` call, one per page. */
  datatype Page = Page(x: real, y: real, width: real, height: real)

  /** `imgHeight = canvas.height * imgWidth / canvas.width`. */
  function ScaledHeight(canvasWidth: real, canvasHeight: real): (h: real)
    requires canvasWidth > 0.0 && canvasHeight >= 0.0
    ensures h >= 0.0
    ensures h * canvasWidth == canvasHeight * ImgWidth  // aspect ratio kept
  {
    canvasHeight * ImgWidth / canvasWidth
  }

  /** How many pages the export loop emits for an image of height `h`:
      the first page plus one per further pass of `heightLeft >= 0`. */
  function PageCount(h: real): (n: nat)
    requires h >= 0.0
    ensures (n - 1) as real * PageHeight <= h < n as real * PageHeight
  {
    1 + (h / PageHeight).Floor
  }

  /** Page `k` is emitted exactly when its window still starts inside the image. */
  lemma PageEmittedIff(h: real, k: nat)
    requires h >= 0.0
    ensures k < PageCount(h) <==> k as real * PageHeight <= h
  {
    var n := PageCount(h);
    if k < n {
      assert k as real * PageHeight <= (n - 1) as real * PageHeight;
    } else {
      assert n as real * PageHeight <= k as real * PageHeight;
    }
  }

  /** Page `k`: the whole image drawn shifted up by k * PageHeight, so that its
      shift window holds image rows [k * PageHeight, (k + 1) * PageHeight). */
  function PageAt(h: real, k: nat): (p: Page)
    requires h >= 0.0
    ensures k as real * PageHeight <= h ==> Visible(p, PageHeight) == Min(PageHeight, h - k as real * PageHeight)
    ensures p.width == ImgWidth && p.height == h
  {
    Page(0.0, -(k as real) * PageHeight, ImgWidth, h)
  }

  /** The document the export produces for an image of height `h`. */
  function Layout(h: real): (pages: seq<Page>)
    requires h >= 0.0
    ensures |pages| >= 1
    ensures forall k :: 0 <= k < |pages| ==> pages[k].y <= 0.0 && -pages[k].y <= h
  {
    seq(PageCount(h), k requires 0 <= k => PageAt(h, k))
  }

  /** The pagination loop of `generatePDF`, with `pdf.addImage` recording a
      page and `pdf.addPage` implicit in starting the next one. */
  method Paginate(imgHeight: real) returns (pages: seq<Page>)
    requires imgHeight >= 0.0
    ensures pages == Layout(imgHeight)
  {
    var heightLeft := imgHeight;
    var position := 0.0;
    pages := [Page(0.0, position, ImgWidth, imgHeight)];
    heightLeft := heightLeft - PageHeight;
    while heightLeft >= 0.0
      invariant 1 <= |pages| <= PageCount(imgHeight)
      invariant heightLeft == imgHeight - |pages| as real * PageHeight
      invariant forall k :: 0 <= k < |pages| ==> pages[k] == PageAt(imgHeight, k)
      decreases PageCount(imgHeight) - |pages|
    {
      PageEmittedIff(imgHeight, |pages|);
      position := heightLeft - imgHeight;
      pages := pages + [Page(0.0, position, ImgWidth, imgHeight)];
      heightLeft := heightLeft - PageHeight;
    }
    PageEmittedIff(imgHeight, |pages|);
  }

  /** Length of image rows a page shows through a window of height `window`:
      the part of the drawn image [y, y + height) that falls within
      [0, window). With `PageHeight` this is the page's own share of the
      image; with `A4Height` it is what the printed page shows. */
  function Visible(p: Page, window: real): (v: real)
    requires window >= 0.0
    ensures 0.0 <= v <= window
    ensures p.height >= 0.0 && p.y <= 0.0 ==> v <= p.height
  {
    var top := if p.y < 0.0 then 0.0 else p.y;
    var bottom := if p.y + p.height < window then p.y + p.height else window;
    if bottom < top then 0.0 else bottom - top
  }

  /** Total of the lengths the pages of a run show through the shift window. */
  function TotalVisible(pages: seq<Page>): real
  {
    if pages == [] then 0.0 else TotalVisible(pages[..|pages| - 1]) + Visible(pages[|pages| - 1], PageHeight)
  }

  function Min(a: real, b: real): real { if a <= b then a else b }

  /** Every page but the last shows a full page of the image. */
  lemma FullPagesBeforeLast(h: real, k: nat)
    requires h >= 0.0 && k + 1 < PageCount(h)
    ensures Visible(Layout(h)[k], PageHeight) == PageHeight
  {
    PageEmittedIff(h, k + 1);
  }

  lemma {:induction false} TotalVisiblePrefix(h: real, n: nat)
    requires h >= 0.0 && n <= PageCount(h)
    ensures TotalVisible(Layout(h)[..n]) == Min(h, n as real * PageHeight)
  {
    if n > 0 {
      var pages := Layout(h)[..n];
      assert pages[..n - 1] == Layout(h)[..n - 1];
      TotalVisiblePrefix(h, n - 1);
      PageEmittedIff(h, n - 1);
    }
  }

  /** The 295-high shift windows of the pages tile the image without gap and
      without overlap: what they show adds up to exactly the image height. */
  lemma PagesCoverImage(h: real)
    requires h >= 0.0
    ensures TotalVisible(Layout(h)) == h
  {
    TotalVisiblePrefix(h, PageCount(h));
    assert Layout(h)[..PageCount(h)] == Layout(h);
  }

  /** The trailing page shows nothing of the image exactly when the image
      height is a whole number of page heights (`heightLeft` reaches 0). */
  lemma BlankLastPageIff(h: real)
    requires h >= 0.0
    ensures var n := PageCount(h);
      Visible(Layout(h)[n - 1], PageHeight) == 0.0 <==> h == (n - 1) as real * PageHeight
  {
  }

  /** For instance, an image exactly two pages tall is exported on three pages. */
  lemma TwoPageImageGetsThreePages()
    ensures PageCount(2.0 * PageHeight) == 3
    ensures Visible(Layout(2.0 * PageHeight)[2], PageHeight) == 0.0
  {
    BlankLastPageIff(2.0 * PageHeight);
  }

  /** The image row at which the print of page `k` stops: the page starts
      printing at row k * PageHeight and prints through its A4 window. */
  function PrintedEnd(h: real, k: nat): real
    requires h >= 0.0 && k < PageCount(h)
  {
    k as real * PageHeight + Visible(Layout(h)[k], A4Height)
  }

  /** The printed page `k` shows image rows [k * 295, min(h, k * 295 + 297)). */
  lemma PrintedPageExtent(h: real, k: nat)
    requires h >= 0.0 && k < PageCount(h)
    ensures Visible(Layout(h)[k], A4Height) == Min(A4Height, h - k as real * PageHeight)
    ensures PrintedEnd(h, k) == Min(k as real * PageHeight + A4Height, h)
  {
    PageEmittedIff(h, k);
  }

  /** Because the shift is 295 but the printed page is 297 high, consecutive
      printed pages repeat rows: page k + 1 starts at row (k + 1) * 295, and
      page k prints on past it by 2, or up to the end of the image if that
      comes first. */
  lemma PrintedPagesOverlap(h: real, k: nat)
    requires h >= 0.0 && k + 1 < PageCount(h)
    ensures PrintedEnd(h, k) - (k + 1) as real * PageHeight
      == Min(A4Height - PageHeight, h - (k + 1) as real * PageHeight)
    ensures PrintedEnd(h, k) - (k + 1) as real * PageHeight == 2.0
      <==> h >= (k + 1) as real * PageHeight + 2.0
  {
    PrintedPageExtent(h, k);
    PageEmittedIff(h, k + 1);
  }

  /** The print reaches the end of the image, and the last printed page adds
      no row that the page before it did not already print exactly when the
      image ends at most 2 past the start of the last page. */
  lemma LastPrintedPageIff(h: real)
    requires h >= 0.0
    ensures PrintedEnd(h, PageCount(h) - 1) == h
    ensures var n := PageCount(h);
      n >= 2 ==> (PrintedEnd(h, n - 1) <= PrintedEnd(h, n - 2) <==> h <= (n - 1) as real * PageHeight + 2.0)
  {
    var n := PageCount(h);
    PrintedPageExtent(h, n - 1);
    if n >= 2 {
      PrintedPageExtent(h, n - 2);
    }
  }

  /** For instance, an image 296 high is printed on two pages, and the second
      shows only the row that the first has already printed. */
  lemma SecondPrintedPageRepeatsFirst()
    ensures PageCount(296.0) == 2
    ensures PrintedEnd(296.0, 1) == PrintedEnd(296.0, 0) == 296.0
  {
    LastPrintedPageIff(296.0);
  }

  /** File name used when the caller gives none. */
  const DefaultFilename: string := "Oleksii_Melnichuk_CV.pdf"

  /** The `filename` prop after its default applies. */
  function ExportFilename(filename: Option<string>): (name: string)
    ensures filename.Some? ==> name == filename.value
    ensures filename.None? ==> name == DefaultFilename
  {
    match filename
    case Some(name) => name
    case None => DefaultFilename
  }

  /** What the `[data-pdf-button]` element shows. */
  datatype ButtonState = ButtonState(disabled: bool, text: string)

  const Idle: ButtonState := ButtonState(false, "Download CV")
  const Busy: ButtonState := ButtonState(true, "Generating PDF...")

  /** The download button, whose `disabled` and `textContent` the export
      assigns in place. `shown` records every state it was put in. */
  class DownloadButton {
    var disabled: bool
    var text: string
    ghost var shown: seq<ButtonState>

    ghost predicate Valid()
      reads this
    {
      shown != [] && shown[|shown| - 1] == ButtonState(disabled, text)
    }

    /** The button as first rendered. */
    constructor ()
      ensures Valid() && disabled == Idle.disabled && text == Idle.text && shown == [Idle]
    {
      disabled, text := Idle.disabled, Idle.text;
      shown := [Idle];
    }

    method Set(state: ButtonState)
      requires Valid()
      modifies this
      ensures Valid() && disabled == state.disabled && text == state.text
      ensures shown == old(shown) + [state]
    {
      disabled := state.disabled;
      text := state.text;
      shown := shown + [state];
    }
  }

  /** Outcome of `html2canvas`: a canvas of the given pixel size, or a thrown
      error (for instance an image that cannot be fetched). */
  datatype Capture = CaptureFailed | Captured(width: real, height: real)

  /** What one click on the button produced. */
  datatype Export =
    | NotStarted                                // no content node: early return
    | Saved(filename: string, pages: seq<Page>) // `pdf.save(filename)`
    | Failed                                    // the error went to the catch block

  /** The part of `generatePDF` before `await html2canvas`. `content` says
      whether `contentRef.current` is set, `button` is what
      `document.querySelector('[data-pdf-button]')` found. While the capture
      is awaited the button stays disabled. */
  method StartExport(content: bool, button: DownloadButton?) returns (started: bool)
    requires button != null ==> button.Valid()
    modifies button
    ensures started == content
    ensures !content && button != null ==> unchanged(button)
    ensures content && button != null ==>
      button.Valid() && button.disabled && button.text == Busy.text && button.shown == old(button.shown) + [Busy]
  {
    if !content {
      return false;
    }
    if button != null {
      button.Set(Busy);
    }
    return true;
  }

  /** The part of `generatePDF` after the capture settles: the pages are laid
      out and saved, or the error is caught; either way the button is
      restored. */
  method FinishExport(button: DownloadButton?, capture: Capture, filename: Option<string>)
    returns (result: Export)
    requires capture.Captured? ==> capture.width > 0.0 && capture.height >= 0.0
    requires button != null ==> button.Valid()
    modifies button
    ensures capture.CaptureFailed? ==> result == Failed
    ensures capture.Captured? ==>
      result == Saved(ExportFilename(filename), Layout(ScaledHeight(capture.width, capture.height)))
    ensures button != null ==>
      button.Valid() && !button.disabled && button.text == Idle.text && button.shown == old(button.shown) + [Idle]
  {
    match capture {
      case CaptureFailed =>
        result := Failed;
      case Captured(width, height) =>
        var imgHeight := ScaledHeight(width, height);
        var pages := Paginate(imgHeight);
        result := Saved(ExportFilename(filename), pages);
    }
    if button != null {
      button.Set(Idle);
    }
  }

  /** One click on the button, `generatePDF` from start to end, with the
      capture settling as `capture`. */
  method GeneratePdf(content: bool, button: DownloadButton?, capture: Capture, filename: Option<string>)
    returns (result: Export)
    requires capture.Captured? ==> capture.width > 0.0 && capture.height >= 0.0
    requires button != null ==> button.Valid()
    modifies button
    ensures !content ==> result == NotStarted
    ensures !content && button != null ==> unchanged(button)
    ensures content && capture.CaptureFailed? ==> result == Failed
    ensures content && capture.Captured? ==>
      result == Saved(ExportFilename(filename), Layout(ScaledHeight(capture.width, capture.height)))
    ensures content && button != null ==>
      button.Valid() && button.shown == old(button.shown) + [Busy, Idle]
  {
    var started := StartExport(content, button);
    if !started {
      return NotStarted;
    }
    result := FinishExport(button, capture, filename);
  }
}
