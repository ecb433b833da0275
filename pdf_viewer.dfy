/** The fallback PDF viewer of apps/web/src/components/ui/PDFViewer.tsx: the
    load state machine over (loading, error, showErrorDialog, pdfBlob), the
    classification of failure messages, the dialog handlers and the choice
    of what the component shows.

    The network is an input: each load is given the outcome of `fetch`
    followed by `response.blob()` and `URL.createObjectURL`. */
module PdfViewer {
  import opened Wrappers

  /** Error shown for any failure that looks like a CORS or fetch problem.
      It is split into two literals so that the verifier can index its
      leading "CORS". */
  const CorsMessage: string :=
    "CORS" + " policy prevents loading this PDF. The file can be opened in a new tab instead."
  /** Error shown for a failure with an empty message. */
  const DefaultError: string := "Failed to load PDF"
  /** Start of the message thrown for a response that is not ok. */
  const HttpFailPrefix: string := "Failed to fetch PDF: "

  /** What one load attempt ran into. */
  datatype FetchOutcome =
    | Ok(blobUrl: string)                       // the blob URL that was created
    | HttpFail(status: nat, statusText: string) // a response with `ok` false
    | Throw(message: string)                    // `fetch` or `blob()` rejected

  /** `s.startsWith(p)` */
  predicate StartsWith(s: string, p: string) {
    |p| <= |s| && s[..|p|] == p
  }

  /** `s.includes(sub)` */
  predicate Contains(s: string, sub: string): (r: bool)
    ensures StartsWith(s, sub) ==> r
    ensures r ==> |sub| <= |s|
    decreases |s|
  {
    StartsWith(s, sub) || (s != [] && Contains(s[1..], sub))
  }

  /** `includes` holds exactly when `sub` occurs at some index of `s`. */
  lemma {:induction false} ContainsAt(s: string, sub: string)
    ensures Contains(s, sub) <==> exists i :: 0 <= i <= |s| && StartsWith(s[i..], sub)
    decreases |s|
  {
    if Contains(s, sub) {
      if StartsWith(s, sub) {
        assert s[0..] == s;
      } else {
        ContainsAt(s[1..], sub);
        var i :| 0 <= i <= |s[1..]| && StartsWith(s[1..][i..], sub);
        assert s[1..][i..] == s[i + 1..];
      }
    }
    if exists i :: 0 <= i <= |s| && StartsWith(s[i..], sub) {
      var i :| 0 <= i <= |s| && StartsWith(s[i..], sub);
      if i == 0 {
        assert s[0..] == s;
      } else {
        assert s[1..][i - 1..] == s[i..];
        ContainsAt(s[1..], sub);
      }
    }
  }

  /** The character of a decimal digit. */
  function DigitChar(d: nat): char
    requires d < 10
  {
    (48 + d) as char
  }

  /** The number a string of decimal digits denotes (read most significant
      digit first). */
  function DigitsValue(s: string): nat
  {
    if s == [] then 0
    else
      var c := s[|s| - 1];
      DigitsValue(s[..|s| - 1]) * 10 + (if '0' <= c <= '9' then c as int - 48 else 0)
  }

  /** Decimal digits of a natural number, as `${n}` renders it. */
  function Decimal(n: nat): (r: string)
    ensures |r| >= 1
    ensures forall i :: 0 <= i < |r| ==> '0' <= r[i] <= '9'
    ensures r[0] == '0' ==> n == 0
    ensures DigitsValue(r) == n
  {
    if n < 10 then [DigitChar(n)]
    else
      var prefix := Decimal(n / 10);
      assert (prefix + [DigitChar(n % 10)])[..|prefix|] == prefix;
      prefix + [DigitChar(n % 10)]
  }

  /** The message thrown for a response that is not ok. */
  function HttpFailMessage(status: nat, statusText: string): (r: string)
    ensures StartsWith(r, HttpFailPrefix)
  {
    HttpFailPrefix + Decimal(status) + " " + statusText
  }

  /** The `err.message` caught for a failed outcome. */
  function ThrownMessage(outcome: FetchOutcome): (r: string)
    requires !outcome.Ok?
    ensures outcome.Throw? ==> r == outcome.message
    ensures outcome.HttpFail? ==> r == HttpFailMessage(outcome.status, outcome.statusText)
    ensures outcome.HttpFail? ==> StartsWith(r, HttpFailPrefix)
  {
    match outcome
    case HttpFail(status, text) => HttpFailMessage(status, text)
    case Throw(message) => message
  }

  /** The error set in the `catch` block for a failure with `message`. */
  function ErrorMessage(message: string): (r: string)
    ensures r != ""
    ensures r == CorsMessage <==> Contains(message, "CORS") || Contains(message, "fetch")
    ensures r != CorsMessage ==> r == message || (message == "" && r == DefaultError)
  {
    assert Contains(CorsMessage, "CORS") by {
      assert CorsMessage[..4] == "CORS";
    }
    assert DefaultError != CorsMessage by {
      assert |DefaultError| != |CorsMessage|;
    }
    if Contains(message, "CORS") || Contains(message, "fetch") then CorsMessage
    else if message != "" then message
    else DefaultError
  }

  /** Every response that is not ok ends with the CORS message, whatever its
      status: its thrown message contains "fetch". */
  lemma HttpFailureReportedAsCors(status: nat, statusText: string)
    ensures ErrorMessage(HttpFailMessage(status, statusText)) == CorsMessage
  {
    var m := HttpFailMessage(status, statusText);
    assert m[10..][..5] == "fetch";
    ContainsAt(m, "fetch");
  }

  /** The component's state (the `mounted` flag aside). */
  datatype ViewState = ViewState(
    loading: bool,
    error: Option<string>,
    showErrorDialog: bool,
    pdfBlob: Option<string>)

  const Initial: ViewState := ViewState(true, None, false, None)

  /** An error, once set, is non-empty and no load is in progress. */
  predicate ViewValid(s: ViewState) {
    s.error.Some? ==> s.error.value != "" && !s.loading
  }

  /** The statements before the `await`: `setLoading(true); setError(null)`. */
  function BeginLoad(s: ViewState): (t: ViewState)
    ensures t.loading && t.error.None?
    ensures t.showErrorDialog == s.showErrorDialog && t.pdfBlob == s.pdfBlob
  {
    s.(loading := true, error := None)
  }

  /** The statements after the `await`, for the given outcome. */
  function CompleteLoad(s: ViewState, outcome: FetchOutcome): (t: ViewState)
    ensures !t.loading
    ensures outcome.Ok? ==> t.pdfBlob == Some(outcome.blobUrl) && t.error == s.error && t.showErrorDialog == s.showErrorDialog
    ensures !outcome.Ok? ==> t.error == Some(ErrorMessage(ThrownMessage(outcome))) && t.showErrorDialog && t.pdfBlob == s.pdfBlob
  {
    match outcome
    case Ok(url) => s.(pdfBlob := Some(url), loading := false)
    case _ => s.(error := Some(ErrorMessage(ThrownMessage(outcome))), showErrorDialog := true, loading := false)
  }

  /** One whole run of `loadPDF`. */
  function Load(s: ViewState, outcome: FetchOutcome): (t: ViewState)
    ensures !t.loading
    ensures t.error.None? <==> outcome.Ok?
    ensures t.showErrorDialog == (s.showErrorDialog || !outcome.Ok?)
    ensures t.pdfBlob == if outcome.Ok? then Some(outcome.blobUrl) else s.pdfBlob
  {
    CompleteLoad(BeginLoad(s), outcome)
  }

  /** `handleCloseDialog` */
  function CloseDialog(s: ViewState): (t: ViewState)
    ensures !t.showErrorDialog
    ensures t.(showErrorDialog := s.showErrorDialog) == s
  {
    s.(showErrorDialog := false)
  }

  /** `handleRetry`: close the dialog, then load again. */
  function Retry(s: ViewState, outcome: FetchOutcome): (t: ViewState)
    ensures t.showErrorDialog <==> !outcome.Ok?
    ensures t.loading == Load(s, outcome).loading && t.error == Load(s, outcome).error
    ensures t.pdfBlob == Load(s, outcome).pdfBlob
  {
    Load(CloseDialog(s), outcome)
  }

  /** A successful load stores the blob URL, clears any error, stops loading
      and leaves the dialog flag as it was. */
  lemma LoadSucceeds(s: ViewState, url: string)
    ensures Load(s, Ok(url)) == ViewState(false, None, s.showErrorDialog, Some(url))
  {
  }

  /** A failed load stops loading, opens the dialog, sets the classified error
      and keeps whatever blob URL an earlier load stored. */
  lemma LoadFails(s: ViewState, outcome: FetchOutcome)
    requires !outcome.Ok?
    ensures Load(s, outcome) == ViewState(false, Some(ErrorMessage(ThrownMessage(outcome))), true, s.pdfBlob)
  {
  }

  /** A response that is not ok always ends in the CORS message. */
  lemma HttpFailureEndsWithCorsMessage(s: ViewState, status: nat, statusText: string)
    ensures Load(s, HttpFail(status, statusText)).error == Some(CorsMessage)
  {
    HttpFailureReportedAsCors(status, statusText);
  }

  /** A retry that succeeds leaves the dialog closed; one that fails reopens it. */
  lemma RetryDialog(s: ViewState, outcome: FetchOutcome)
    ensures Retry(s, outcome).showErrorDialog == !outcome.Ok?
    ensures !Retry(s, outcome).loading
  {
  }

  /** Every transition keeps the state valid. */
  lemma TransitionsKeepValid(s: ViewState, outcome: FetchOutcome)
    requires ViewValid(s)
    ensures ViewValid(BeginLoad(s)) && ViewValid(Load(s, outcome))
    ensures ViewValid(CloseDialog(s)) && ViewValid(Retry(s, outcome))
  {
  }

  /** JavaScript truthiness of a `string | null` value. */
  predicate Truthy(v: Option<string>) {
    v.Some? && v.value != ""
  }

  /** What the component renders in its content area. */
  datatype Screen =
    | Initializing                  // not yet mounted
    | Spinner                       // a load is in progress
    | Fallback(note: Option<string>)  // open-in-tab / download panel, with the error as a technical note
    | Embedded(blobUrl: string)     // the blob shown in an object/iframe

  /** The render: mount guard, loading guard, then `error || !pdfBlob`. */
  function Render(mounted: bool, s: ViewState): (r: Screen)
    ensures r.Initializing? <==> !mounted
    ensures r.Spinner? <==> mounted && s.loading
    ensures r.Fallback? <==> mounted && !s.loading && (Truthy(s.error) || !Truthy(s.pdfBlob))
    ensures r.Fallback? ==> (r.note.Some? <==> Truthy(s.error)) && (r.note.Some? ==> s.error == r.note)
    ensures r.Embedded? ==> s.pdfBlob == Some(r.blobUrl) && r.blobUrl != "" && !Truthy(s.error)
  {
    if !mounted then Initializing
    else if s.loading then Spinner
    else if Truthy(s.error) || !Truthy(s.pdfBlob) then Fallback(if Truthy(s.error) then s.error else None)
    else Embedded(s.pdfBlob.value)
  }

  /** After a failed load the fallback panel is shown with the error as its
      note; after a load that produced a non-empty blob URL, that URL is
      embedded. */
  lemma LoadThenRender(s: ViewState, outcome: FetchOutcome)
    ensures !outcome.Ok? ==> Render(true, Load(s, outcome)) == Fallback(Some(ErrorMessage(ThrownMessage(outcome))))
    ensures outcome.Ok? && outcome.blobUrl != "" ==> Render(true, Load(s, outcome)) == Embedded(outcome.blobUrl)
  {
  }

  /** The viewer component's state. */
  class Viewer {
    var mounted: bool
    var loading: bool
    var error: Option<string>
    var showErrorDialog: bool
    var pdfBlob: Option<string>

    function State(): ViewState
      reads this
    {
      ViewState(loading, error, showErrorDialog, pdfBlob)
    }

    ghost predicate Valid()
      reads this
    {
      ViewValid(State())
    }

    constructor ()
      ensures Valid()
      ensures !mounted && State() == Initial
    {
      mounted := false;
      loading, error, showErrorDialog, pdfBlob := true, None, false, None;
    }

    /** The mount effect, which then triggers the first load. */
    method Mount(outcome: FetchOutcome)
      requires Valid()
      modifies this
      ensures Valid()
      ensures mounted && State() == Load(old(State()), outcome)
    {
      mounted := true;
      LoadPdf(outcome);
    }

    /** `loadPDF()` up to its `await`. */
    method BeginLoadPdf()
      requires Valid()
      modifies this
      ensures Valid()
      ensures State() == BeginLoad(old(State())) && mounted == old(mounted)
    {
      loading := true;
      error := None;
    }

    /** `loadPDF()` after its `await`, given the outcome of the fetch. */
    method CompleteLoadPdf(outcome: FetchOutcome)
      requires Valid()
      modifies this
      ensures Valid()
      ensures State() == CompleteLoad(old(State()), outcome) && mounted == old(mounted)
    {
      match outcome
      case Ok(url) =>
        pdfBlob := Some(url);
        loading := false;
      case _ =>
        var message := ThrownMessage(outcome);
        if Contains(message, "CORS") || Contains(message, "fetch") {
          error := Some(CorsMessage);
        } else {
          error := Some(if message != "" then message else DefaultError);
        }
        showErrorDialog := true;
        loading := false;
    }

    /** `loadPDF()` as a whole, also run when the file URL changes. */
    method LoadPdf(outcome: FetchOutcome)
      requires Valid()
      modifies this
      ensures Valid()
      ensures State() == Load(old(State()), outcome) && mounted == old(mounted)
    {
      BeginLoadPdf();
      CompleteLoadPdf(outcome);
    }

    /** `handleRetry()` */
    method HandleRetry(outcome: FetchOutcome)
      requires Valid()
      modifies this
      ensures Valid()
      ensures State() == Retry(old(State()), outcome) && mounted == old(mounted)
    {
      showErrorDialog := false;
      LoadPdf(outcome);
    }

    /** `handleCloseDialog()`, also the dialog's `onOpenChange`. */
    method HandleCloseDialog()
      requires Valid()
      modifies this
      ensures Valid()
      ensures State() == CloseDialog(old(State())) && mounted == old(mounted)
    {
      showErrorDialog := false;
    }
  }
}
