/**
 * iOS `DocumentScannerService`: one stored completion, filled by `scanDocument`
 * and consumed by whichever scanner-delegate callback arrives first.
 */
module DocumentScanner {
  import opened Wrappers
  import opened Messages
  import Text

  datatype ScanError =
    | NotAvailable
    | Cancelled
    | NoImagesScanned
    | PresentationFailed
      // an error VisionKit reports, passed on as it came
    | CameraError(code: int)

  /** The closure the plugin hands to `scanDocument`, reduced to what it captures:
      the Flutter reply it completes and the scan options it applies. */
  datatype ScanContinuation = ScanContinuation(reply: nat, options: ScanOptions)

  /** One call of a stored or passed completion, with the result it received. */
  datatype Invocation = Invocation(continuation: ScanContinuation, outcome: Result<seq<string>, ScanError>)

  /** One page of a finished scan, as `saveImage` meets it: the millisecond clock when
      it runs, whether `jpegData(compressionQuality: 1.0)` gave data, and whether the
      write succeeded. */
  datatype PageCapture = PageCapture(timestampMillis: int, encodes: bool, writes: bool)

  /** `isScanningAvailable`: before iOS 13 the scanner is not consulted at all. */
  function IsScanningAvailable(atLeastIOS13: bool, scannerSupported: bool): (b: bool)
    ensures b <==> atLeastIOS13 && scannerSupported
  {
    if atLeastIOS13 then scannerSupported else false
  }

  /** `appendingPathComponent` on a directory path. */
  function AppendingPathComponent(dir: string, name: string): (p: string)
    ensures |p| > |name| && |p| >= |dir| + |name|
    ensures p[..|dir|] == dir && Text.EndsWith(p, name) && p[|p| - |name| - 1] == '/'
  {
    if |dir| > 0 && dir[|dir| - 1] == '/' then dir + name else dir + "/" + name
  }

  /** `"scan_\(timestamp)_\(index).jpg"`. */
  function ScanFileName(timestampMillis: int, index: nat): (name: string)
    ensures |name| >= 5 && name[..5] == "scan_" && Text.EndsWith(name, ".jpg")
  {
    "scan_" + Text.IntToString(timestampMillis) + "_" + Text.NatToString(index) + ".jpg"
  }

  /** Whether `saveImage` keeps a page: encoding gave data and the write succeeded. */
  predicate Saves(page: PageCapture) {
    page.encodes && page.writes
  }

  /** `saveImage(_:index:)`: the file URL of the saved page, or nil when encoding or
      writing failed. */
  function SaveImage(tempDir: string, page: PageCapture, index: nat): (url: Option<string>)
    ensures url.Some? <==> Saves(page)
    ensures url.Some? ==>
      url.value == AppendingPathComponent(tempDir, ScanFileName(page.timestampMillis, index))
      && Text.EndsWith(url.value, ".jpg")
  {
    var filename := ScanFileName(page.timestampMillis, index);
    var fileUrl := AppendingPathComponent(tempDir, filename);
    Text.EndsWithTransitive(fileUrl, filename, ".jpg");
    if !page.encodes then None
    else if !page.writes then None
    else Some(fileUrl)
  }

  /** The URLs collected from the first pages of a scan, in page order. */
  function SavedUrls(tempDir: string, pages: seq<PageCapture>): seq<string>
  {
    if pages == [] then []
    else
      var n := |pages| - 1;
      SavedUrls(tempDir, pages[..n]) + (match SaveImage(tempDir, pages[n], n)
                                         case Some(url) => [url]
                                         case None => [])
  }

  /** The indices of the pages whose save succeeded, in increasing order. */
  function KeptIndices(tempDir: string, pages: seq<PageCapture>): seq<nat>
  {
    if pages == [] then []
    else
      var n := |pages| - 1;
      KeptIndices(tempDir, pages[..n]) + (if Saves(pages[n]) then [n] else [])
  }

  /** One saved URL per kept page. */
  lemma {:induction false} KeptMatchesSaved(tempDir: string, pages: seq<PageCapture>)
    ensures |SavedUrls(tempDir, pages)| == |KeptIndices(tempDir, pages)|
  {
    if pages != [] {
      KeptMatchesSaved(tempDir, pages[..|pages| - 1]);
    }
  }

  /** The kept indices are page positions, in increasing order. */
  lemma {:induction false} KeptIncreasing(tempDir: string, pages: seq<PageCapture>)
    ensures forall j :: 0 <= j < |KeptIndices(tempDir, pages)| ==> KeptIndices(tempDir, pages)[j] < |pages|
    ensures forall i, j :: 0 <= i < j < |KeptIndices(tempDir, pages)| ==>
      KeptIndices(tempDir, pages)[i] < KeptIndices(tempDir, pages)[j]
  {
    if pages != [] {
      var n := |pages| - 1;
      KeptIncreasing(tempDir, pages[..n]);
      var ks0 := KeptIndices(tempDir, pages[..n]);
      var ks := KeptIndices(tempDir, pages);
      assert ks == ks0 + (if Saves(pages[n]) then [n] else []);
      assert forall j :: 0 <= j < |ks0| ==> ks[j] == ks0[j];
      assert forall j :: |ks0| <= j < |ks| ==> ks[j] == n;
    }
  }

  /** A page is kept exactly when saving it gave a URL. */
  lemma {:induction false} KeptExactlySaved(tempDir: string, pages: seq<PageCapture>)
    ensures forall i :: 0 <= i < |pages| ==>
      (i in KeptIndices(tempDir, pages) <==> Saves(pages[i]))
  {
    if pages != [] {
      var n := |pages| - 1;
      var init := pages[..n];
      KeptIncreasing(tempDir, init);
      KeptExactlySaved(tempDir, init);
      var ks0 := KeptIndices(tempDir, init);
      var tail: seq<nat> := if Saves(pages[n]) then [n] else [];
      assert KeptIndices(tempDir, pages) == ks0 + tail;
      assert n !in ks0 by {
        assert forall j :: 0 <= j < |ks0| ==> ks0[j] < |init|;
      }
      forall i | 0 <= i < |pages|
        ensures i in KeptIndices(tempDir, pages) <==> Saves(pages[i])
      {
        assert i in ks0 + tail <==> i in ks0 || i in tail;
        if i < n {
          assert init[i] == pages[i];
        }
      }
    }
  }

  /** Entry j of the saved URLs is the URL of the page at the j-th kept index. */
  lemma {:induction false} SavedAtKept(tempDir: string, pages: seq<PageCapture>)
    ensures |SavedUrls(tempDir, pages)| == |KeptIndices(tempDir, pages)|
    ensures forall j :: 0 <= j < |KeptIndices(tempDir, pages)| ==>
      KeptIndices(tempDir, pages)[j] < |pages|
      && Some(SavedUrls(tempDir, pages)[j]) == SaveImage(tempDir, pages[KeptIndices(tempDir, pages)[j]], KeptIndices(tempDir, pages)[j])
  {
    KeptMatchesSaved(tempDir, pages);
    KeptIncreasing(tempDir, pages);
    if pages != [] {
      var n := |pages| - 1;
      var init := pages[..n];
      SavedAtKept(tempDir, init);
      KeptIncreasing(tempDir, init);
      var urls0, ks0 := SavedUrls(tempDir, init), KeptIndices(tempDir, init);
      var urls, ks := SavedUrls(tempDir, pages), KeptIndices(tempDir, pages);
      var last := SaveImage(tempDir, pages[n], n);
      assert urls == urls0 + (if last.Some? then [last.value] else []);
      assert ks == ks0 + (if Saves(pages[n]) then [n] else []);
      forall j | 0 <= j < |ks|
        ensures ks[j] < |pages| && Some(urls[j]) == SaveImage(tempDir, pages[ks[j]], ks[j])
      {
        if j < |ks0| {
          assert ks[j] == ks0[j] && urls[j] == urls0[j];
          assert init[ks0[j]] == pages[ks0[j]];
        } else {
          assert ks[j] == n && urls[j] == last.value;
        }
      }
    }
  }

  /** What the stored completion receives once a scan finished with `urls` saved. */
  function FinishOutcome(urls: seq<string>): (r: Result<seq<string>, ScanError>)
    ensures r.Failure? <==> urls == []
    ensures r.Failure? ==> r.error == NoImagesScanned
    ensures r.Success? ==> r.value == urls
  {
    if urls == [] then Failure(NoImagesScanned) else Success(urls)
  }

  /** The invocations a call adds to the log: none or the one it fired. */
  function Fired(fired: Option<Invocation>): seq<Invocation> {
    match fired
    case Some(inv) => [inv]
    case None => []
  }

  class DocumentScannerService {
    /** Whether the weak `presentingViewController` is still set. */
    const hasPresenter: bool
    /** `scanCompletion`. */
    var scanCompletion: Option<ScanContinuation>
    /** Every completion call made so far, oldest first. */
    var invoked: seq<Invocation>

    /** No continuation is called twice, and the stored one has not been called yet. */
    ghost predicate Valid()
      reads this
    {
      (forall i, j :: 0 <= i < j < |invoked| ==> invoked[i].continuation.reply != invoked[j].continuation.reply)
      && (scanCompletion.Some? ==>
            forall i :: 0 <= i < |invoked| ==> invoked[i].continuation.reply != scanCompletion.value.reply)
    }

    /** A continuation whose reply no earlier call has used. */
    ghost predicate Unused(reply: nat)
      reads this
    {
      (forall i :: 0 <= i < |invoked| ==> invoked[i].continuation.reply != reply)
      && (scanCompletion.Some? ==> scanCompletion.value.reply != reply)
    }

    /** `init(presentingViewController:)`. */
    constructor(hasPresenter: bool)
      ensures this.hasPresenter == hasPresenter
      ensures scanCompletion == None && invoked == []
      ensures Valid()
    {
      this.hasPresenter := hasPresenter;
      scanCompletion := None;
      invoked := [];
    }

    /** `scanDocument(completion:)`. An unsupported device or a missing presenter calls
        the new completion at once and leaves the slot alone; otherwise the completion
        replaces whatever was stored, and the scanner is presented. */
    method ScanDocument(completion: ScanContinuation, scanningAvailable: bool) returns (fired: Option<Invocation>)
      requires Valid() && Unused(completion.reply)
      modifies this
      ensures Valid()
      ensures !scanningAvailable ==>
        fired == Some(Invocation(completion, Failure(NotAvailable))) && scanCompletion == old(scanCompletion)
      ensures scanningAvailable && !hasPresenter ==>
        fired == Some(Invocation(completion, Failure(PresentationFailed))) && scanCompletion == old(scanCompletion)
      ensures scanningAvailable && hasPresenter ==> fired == None && scanCompletion == Some(completion)
      ensures invoked == old(invoked) + Fired(fired)
    {
      if !scanningAvailable {
        fired := Some(Invocation(completion, Failure(NotAvailable)));
      } else if !hasPresenter {
        fired := Some(Invocation(completion, Failure(PresentationFailed)));
      } else {
        scanCompletion := Some(completion);
        fired := None;
      }
      invoked := invoked + Fired(fired);
    }

    /** Call the stored completion, if any, with `outcome`, and empty the slot. */
    method Complete(outcome: Result<seq<string>, ScanError>) returns (fired: Option<Invocation>)
      requires Valid()
      modifies this
      ensures Valid()
      ensures fired == (match old(scanCompletion)
                        case Some(c) => Some(Invocation(c, outcome))
                        case None => None)
      ensures scanCompletion == None
      ensures invoked == old(invoked) + Fired(fired)
    {
      if scanCompletion.Some? {
        fired := Some(Invocation(scanCompletion.value, outcome));
      } else {
        fired := None;
      }
      invoked := invoked + Fired(fired);
      scanCompletion := None;
    }

    /** The page loop of `didFinishWith`: save every page in order and keep the URLs
        whose save succeeded. */
    method SaveScannedPages(tempDir: string, pages: seq<PageCapture>) returns (imageUrls: seq<string>)
      ensures imageUrls == SavedUrls(tempDir, pages)
    {
      imageUrls := [];
      for i := 0 to |pages|
        invariant imageUrls == SavedUrls(tempDir, pages[..i])
      {
        assert pages[..i + 1][..i] == pages[..i];
        var url := SaveImage(tempDir, pages[i], i);
        if url.Some? {
          imageUrls := imageUrls + [url.value];
        }
      }
      assert pages[..|pages|] == pages;
    }

    /** `documentCameraViewController(_:didFinishWith:)`: report the saved URLs, or
        `noImagesScanned` when none was saved. */
    method DidFinish(tempDir: string, pages: seq<PageCapture>) returns (urls: seq<string>, fired: Option<Invocation>)
      requires Valid()
      modifies this
      ensures Valid()
      ensures urls == SavedUrls(tempDir, pages)
      ensures fired == (match old(scanCompletion)
                        case Some(c) => Some(Invocation(c, FinishOutcome(urls)))
                        case None => None)
      ensures scanCompletion == None
      ensures invoked == old(invoked) + Fired(fired)
    {
      urls := SaveScannedPages(tempDir, pages);
      fired := Complete(FinishOutcome(urls));
    }

    /** `documentCameraViewControllerDidCancel(_:)`. */
    method DidCancel() returns (fired: Option<Invocation>)
      requires Valid()
      modifies this
      ensures Valid()
      ensures fired == (match old(scanCompletion)
                        case Some(c) => Some(Invocation(c, Failure(Cancelled)))
                        case None => None)
      ensures scanCompletion == None
      ensures invoked == old(invoked) + Fired(fired)
    {
      fired := Complete(Failure(Cancelled));
    }

    /** `documentCameraViewController(_:didFailWithError:)`: the error goes through unchanged. */
    method DidFail(error: ScanError) returns (fired: Option<Invocation>)
      requires Valid()
      modifies this
      ensures Valid()
      ensures fired == (match old(scanCompletion)
                        case Some(c) => Some(Invocation(c, Failure(error)))
                        case None => None)
      ensures scanCompletion == None
      ensures invoked == old(invoked) + Fired(fired)
    {
      fired := Complete(Failure(error));
    }
  }
}
