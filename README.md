# pdf-dashboard UI state, modelled in Dafny

This project models the state-transition and mapping rules of the
pdf-dashboard web front end: four React components and hooks whose logic
sits underneath their rendering.

- **Top toast provider** (`top_toast.dfy`, module `TopToast`). It holds the
  list of toasts on display. `addToast` appends a record under a generated id
  and schedules a timer. The timer's delay is `duration || 5000`. Both the
  timer and `removeToast` filter out every record with that id. The
  `useTopToast` helpers fill in the variant. The provider is the class
  `ToastProvider`. Besides the list it keeps the multiset of timers not yet
  fired, and its invariant says every toast on display still has a timer
  that will remove it.
- **Legacy toast hook** (`use_toast.dfy`, module `LegacyToast`). It maps the
  older options `(title?, description?, variant?, duration?)` onto a top
  toast. `destructive` becomes `error`. An absent variant or `default`
  becomes `info`. An absent or empty title becomes `"Notification"`. The
  duration is dropped, so the toast always stays for 5000 ms.
- **Inline renderer navigation** (`pdf_renderer.dfy`, module `PdfRenderer`).
  The state is the page count, the current page and the loading flag. The
  previous/next handlers clamp the page, and a load resets it to 1. Each
  button has a disabled rule. Clicks that honour those rules keep the page
  on the document.
- **Fallback viewer** (`pdf_viewer.dfy`, module `PdfViewer`). This is the
  load state machine over `(loading, error, showErrorDialog, pdfBlob)`, with
  the fetch outcome as an input. Failure messages that mention `CORS` or
  `fetch` are replaced by a fixed CORS explanation. A response that is not
  ok throws `Failed to fetch PDF: <status> <text>`, which contains `fetch`.
  So every HTTP error status, a 404 included, is reported as a CORS problem
  (`HttpFailureReportedAsCors`). The model also covers the retry and close
  handlers and the choice between spinner, fallback panel and embedded blob.

Each mixed source file has two parts. Pure functions give the transitions.
A class holds the component's state. Each method's postcondition ties the
new state to the matching function of the old state. `Viewer` does this
through its `State()` function; `ToastProvider` and `Renderer` state it
field by field. The lemmas are stated about those functions.

Inputs the browser supplies are parameters: the generated toast id, the
firing of a timer (`ToastProvider.Expire`), the page count reported by the
PDF library, and the outcome of each fetch (`FetchOutcome`).

## Model

| member | source | states |
|---|---|---|
| `TopToast.Omit` | apps/web/src/components/ui/top-toast.tsx:18 | the caller-supplied part of a toast keeps every field but the id |
| `TopToast.WithId` | apps/web/src/components/ui/top-toast.tsx:27-29 | the new record carries the given id and every caller-supplied field unchanged |
| `TopToast.EffectiveDuration` | apps/web/src/components/ui/top-toast.tsx:34-36 | the value passed to `setTimeout` is the caller's duration when present and nonzero, otherwise 5000; it is never 0 |
| `TopToast.Without` | apps/web/src/components/ui/top-toast.tsx:39-41 | a record survives removal of an id exactly when it was in the list and carries another id; the list never grows |
| `TopToast.WithoutAppend` | apps/web/src/components/ui/top-toast.tsx:40 | filtering distributes over concatenation, so surviving records keep their relative order |
| `TopToast.WithoutAbsent` | apps/web/src/components/ui/top-toast.tsx:40 | removing an id that no record carries leaves the list unchanged |
| `TopToast.WithoutIdempotent` | apps/web/src/components/ui/top-toast.tsx:34-41 | removing an id twice equals removing it once, so a timer firing after a manual dismissal is a no-op |
| `TopToast.WithoutCommutes` | apps/web/src/components/ui/top-toast.tsx:39-41 | dismissals of two ids give the same list in either order |
| `TopToast.AddThenRemove` | apps/web/src/components/ui/top-toast.tsx:27-41 | adding a toast and then removing its id gives the old list with that id removed |
| `TopToast.ToastRequest` | apps/web/src/components/ui/top-toast.tsx:112-122 | `toast(options)` uses variant `info` unless the caller supplies one; title, description and duration are forwarded |
| `TopToast.Preset` | apps/web/src/components/ui/top-toast.tsx:123-134 | `success`/`error`/`info`/`warning` give a toast of that variant with the given title and description and no duration, so it stays for 5000 ms |
| `TopToast.ToastProvider.constructor` | apps/web/src/components/ui/top-toast.tsx:25 | the provider starts with no toasts and no timers |
| `TopToast.ToastProvider.AddToast` | apps/web/src/components/ui/top-toast.tsx:27-37 | appends exactly one record at the end and leaves the old records as they were; schedules one timer with the effective delay; keeps every shown toast covered by a timer |
| `TopToast.ToastProvider.RemoveToast` | apps/web/src/components/ui/top-toast.tsx:39-41 | the list becomes the filtered list; pending timers are not cancelled |
| `TopToast.ToastProvider.Expire` | apps/web/src/components/ui/top-toast.tsx:34-36 | a firing timer has the same effect on the list as `removeToast` for its id and uses up that timer |
| `LegacyToast.Message` | apps/web/src/hooks/use-toast.ts:17 | an absent or empty title becomes "Notification"; any other title is passed through; the result is never empty |
| `LegacyToast.TopVariant` | apps/web/src/hooks/use-toast.ts:16-35 | `destructive` maps to `error`, `success`/`warning` to themselves, and exactly absent, `default` and `info` map to `info` (each as an if-and-only-if) |
| `LegacyToast.Toast` | apps/web/src/hooks/use-toast.ts:16-36 | the forwarded toast has the mapped variant and the defaulted title; the description is forwarded unchanged; no duration is forwarded, so the delay is always 5000 |
| `LegacyToast.DurationIgnored` | apps/web/src/hooks/use-toast.ts:16 | the caller's duration has no effect on the toast produced |
| `LegacyToast.EveryVariantReachable` | apps/web/src/hooks/use-toast.ts:19-31 | every top toast variant is produced by some legacy variant, with a non-empty title passed through |
| `PdfRenderer.PrevPage` | apps/web/src/components/ui/PDFRenderer.tsx:69-71 | the result is the larger of 1 and page-1: never below 1, and page 1 stays put |
| `PdfRenderer.NextPage` | apps/web/src/components/ui/PDFRenderer.tsx:73-75 | the result is the smaller of numPages and page+1: never past numPages, and the last page stays put |
| `PdfRenderer.PrevDisabled` | apps/web/src/components/ui/PDFRenderer.tsx:104 | the previous button is disabled while loading, and when it is enabled its handler moves exactly one page back |
| `PdfRenderer.NextDisabled` | apps/web/src/components/ui/PDFRenderer.tsx:115 | the next button is disabled while loading, and when it is enabled its handler moves exactly one page on |
| `PdfRenderer.StepsStayInRange` | apps/web/src/components/ui/PDFRenderer.tsx:69-75 | if 1 <= page <= numPages, both steps preserve it |
| `PdfRenderer.DisabledExactlyWhenNoOp` | apps/web/src/components/ui/PDFRenderer.tsx:102-119 | on a page of the document and not loading, each button is disabled exactly when its handler would not move the page |
| `PdfRenderer.Press` | apps/web/src/components/ui/PDFRenderer.tsx:102-119 | a click on an enabled button moves one page; a click on a disabled one (page <= 1 or loading; page >= numPages or loading) does nothing |
| `PdfRenderer.PressAllStaysOnDocument` | apps/web/src/components/ui/PDFRenderer.tsx:102-119 | any sequence of clicks keeps the page on the document, and while loading no click moves the page |
| `PdfRenderer.Renderer.constructor` | apps/web/src/components/ui/PDFRenderer.tsx:13-16 | no pages known, page 1, loading |
| `PdfRenderer.Renderer.OnDocumentLoadSuccess` | apps/web/src/components/ui/PDFRenderer.tsx:56-61 | sets numPages to n, the page to 1 and loading to false |
| `PdfRenderer.Renderer.OnDocumentLoadError` | apps/web/src/components/ui/PDFRenderer.tsx:63-67 | stops loading, leaves the page and the count unchanged, and reports "Failed to load PDF: " followed by the message |
| `PdfRenderer.Renderer.GoToPrevPage` | apps/web/src/components/ui/PDFRenderer.tsx:69-71 | the page becomes the clamped previous page; nothing else changes |
| `PdfRenderer.Renderer.GoToNextPage` | apps/web/src/components/ui/PDFRenderer.tsx:73-75 | the page becomes the clamped next page; the page stays on the document when it has pages |
| `PdfRenderer.Renderer.Click` | apps/web/src/components/ui/PDFRenderer.tsx:102-119 | a button click runs its handler only when enabled, and keeps the page on the document |
| `PdfViewer.Contains` | apps/web/src/components/ui/PDFViewer.tsx:56 | `includes` holds when the string starts with the substring, and only when the substring is no longer than the string |
| `PdfViewer.ContainsAt` | apps/web/src/components/ui/PDFViewer.tsx:56 | `includes` holds exactly when the substring occurs at some index |
| `PdfViewer.Decimal` | apps/web/src/components/ui/PDFViewer.tsx:40 | `${response.status}` is a non-empty string of decimal digits, with no leading zero except for 0 itself, whose value is the status |
| `PdfViewer.ThrownMessage` | apps/web/src/components/ui/PDFViewer.tsx:39-52 | the caught message is the thrown error's own message, or for a non-ok response exactly the message built from its status and status text, which starts with "Failed to fetch PDF: " |
| `PdfViewer.HttpFailMessage` | apps/web/src/components/ui/PDFViewer.tsx:39-41 | the message thrown for a non-ok response starts with "Failed to fetch PDF: " |
| `PdfViewer.ErrorMessage` | apps/web/src/components/ui/PDFViewer.tsx:56-60 | the CORS message is chosen exactly when the caught message contains "CORS" or "fetch"; otherwise the message itself, or "Failed to load PDF" when it is empty; never empty |
| `PdfViewer.HttpFailureReportedAsCors` | apps/web/src/components/ui/PDFViewer.tsx:39-57 | a non-ok response is classified as the CORS message for every status and status text |
| `PdfViewer.BeginLoad` | apps/web/src/components/ui/PDFViewer.tsx:31-32 | starting a load sets loading and clears the error; the dialog flag and blob are kept |
| `PdfViewer.CompleteLoad` | apps/web/src/components/ui/PDFViewer.tsx:37-64 | after the await loading stops; success stores the blob URL and keeps error and dialog; failure sets the classified error, opens the dialog and keeps the blob |
| `PdfViewer.Load` | apps/web/src/components/ui/PDFViewer.tsx:29-65 | after a whole load nothing is loading, the error is cleared exactly when the fetch succeeded, the dialog is open if it was or the load failed, and the blob URL is the new one on success, the old one otherwise |
| `PdfViewer.CloseDialog` | apps/web/src/components/ui/PDFViewer.tsx:72-74 | closing the dialog clears its flag and changes nothing else |
| `PdfViewer.Retry` | apps/web/src/components/ui/PDFViewer.tsx:67-70 | a retry ends with the dialog open exactly when the load failed, and otherwise agrees with a plain load |
| `PdfViewer.LoadSucceeds` | apps/web/src/components/ui/PDFViewer.tsx:29-48 | a successful load stores the blob URL, clears the error, stops loading and leaves the dialog flag untouched |
| `PdfViewer.LoadFails` | apps/web/src/components/ui/PDFViewer.tsx:52-64 | a failed load sets the classified error, opens the dialog, stops loading and keeps the earlier blob URL |
| `PdfViewer.HttpFailureEndsWithCorsMessage` | apps/web/src/components/ui/PDFViewer.tsx:37-63 | a load whose response is not ok always ends with the CORS message |
| `PdfViewer.RetryDialog` | apps/web/src/components/ui/PDFViewer.tsx:67-70 | after a retry the dialog is open exactly when the new load failed, and nothing is loading |
| `PdfViewer.TransitionsKeepValid` | apps/web/src/components/ui/PDFViewer.tsx:29-74 | every handler keeps the invariant: a set error is non-empty and no load is in progress |
| `PdfViewer.Render` | apps/web/src/components/ui/PDFViewer.tsx:110-175 | initializing until mounted, spinner while loading, the fallback panel exactly when the error is set or there is no blob URL (with the error as its note), otherwise the blob embedded |
| `PdfViewer.LoadThenRender` | apps/web/src/components/ui/PDFViewer.tsx:175-205 | after a failed load the fallback panel shows the error; after a load with a non-empty blob URL that URL is embedded |
| `PdfViewer.Viewer.constructor` | apps/web/src/components/ui/PDFViewer.tsx:13-17 | not mounted, loading, no error, dialog closed, no blob |
| `PdfViewer.Viewer.Mount` | apps/web/src/components/ui/PDFViewer.tsx:19-27 | mounting sets the flag and runs the first load |
| `PdfViewer.Viewer.BeginLoadPdf` | apps/web/src/components/ui/PDFViewer.tsx:31-32 | starting a load sets loading and clears the error; the dialog and blob are unchanged |
| `PdfViewer.Viewer.CompleteLoadPdf` | apps/web/src/components/ui/PDFViewer.tsx:37-64 | the state after the fetch outcome, statement by statement, equals the pure transition |
| `PdfViewer.Viewer.LoadPdf` | apps/web/src/components/ui/PDFViewer.tsx:29-65 | one run of the load gives the pure `Load` state and keeps the invariant |
| `PdfViewer.Viewer.HandleRetry` | apps/web/src/components/ui/PDFViewer.tsx:67-70 | clears the dialog flag, then runs the load |
| `PdfViewer.Viewer.HandleCloseDialog` | apps/web/src/components/ui/PDFViewer.tsx:72-74 | clears the dialog flag only |

## Left out

- Zoom (`zoomIn`/`zoomOut` and the percentage label in PDFRenderer.tsx) is left out. It works on floating-point steps of 0.2.
- Toast ids are inputs. The random generation (`Math.random().toString(36)`) is not modelled, and nothing claims that ids are unique.
- Timers are modelled only as the event of one firing (`ToastProvider.Expire`). Real time and the order in which timers fire are not modelled.
- `TopToast.EffectiveDuration`: the timer's own treatment of its delay is not modelled. `setTimeout` converts the delay to a 32-bit integer and clamps a negative delay to 0, so a duration of -1 or 2^32 makes the toast disappear at once.
- `TopToast.EffectiveDuration`: durations are integers. The JavaScript `NaN` (also falsy, so also 5000) and fractional durations are not modelled.
- `TopToast.ToastRequest`: an explicit `variant: undefined` in the options would override the `info` default through the spread. The model treats it like an absent variant.
- The `useTopToast` guard that throws outside a `TopToastProvider` is left out. It is React context plumbing.
- The pass-through of `success`/`error`/`info`/`warning` from `useToast` is the same function as `TopToast.Preset` and has no member of its own.
- `LegacyToast.TopVariant`: only the declared variant strings are modelled. Any other string would also reach the `default` branch.
- `fetch`, `response.blob()`, `URL.createObjectURL`/`revokeObjectURL`, `window.open`, and the download anchor in `downloadPDF`/`openInNewTab` are left out. They are browser I/O, and each load receives their combined result as a `FetchOutcome`.
- The revocation of the blob URL in the cleanup effect is left out. It is a browser resource and not part of the viewer's visible state.
- A thrown value without a string `message` is not modelled. In the source, `err.message.includes` would then throw inside the `catch`.
- Two loads in flight at once (a retry while a load is pending, or a file URL change) are not analysed. `BeginLoadPdf` and `CompleteLoadPdf` can be interleaved by a caller, but no property is stated about such runs.
- The renderer's dynamic import of `react-pdf`/`pdfjs-dist`, the worker URL, the mount guard and its `onError` on initialisation failure are left out. They load foreign code.
- JSX rendering beyond the screen choice is left out, as are icon and colour tables and `console` logging.
