/**
 * The Android `CaptureHelperPlugin`: one pending scan reply filled by
 * `handleScanDocument`/`startScanning` and resolved by `onActivityResult` or by
 * the scanner-intent listeners, plus the `compressImage` handler.
 *
 * Replies are recorded in the order they are sent, each with the handle of the
 * Flutter reply object it went to; the vendor SDK, files and clock are inputs.
 */
module AndroidPlugin {
  import opened Wrappers
  import opened Values
  import opened Messages
  import Text
  import Paths
  import PigeonCodec

  const REQUEST_CODE_SCAN: int := 100
  /** `Activity.RESULT_OK` and `Activity.RESULT_CANCELED`. */
  const RESULT_OK: int := -1
  const RESULT_CANCELED: int := 0
  const DEFAULT_OUTPUT_FORMAT: string := "jpeg"
  const DEFAULT_QUALITY: int := 80
  const PNG_QUALITY: int := 100
  const INT32_MIN: int := -0x8000_0000
  const INT32_MAX: int := 0x7fff_ffff

  datatype Activity = Activity(filesDir: string)

  /** One `reply.reply(message)` call. */
  datatype Sent = Sent(to: nat, message: Value)

  /** `listOf(code, message, null)`. */
  function ErrorReply(code: string, message: string): Value {
    List([Str(code), Str(message), Null])
  }

  /** `listOf(result)` for a result map. */
  function ResultReply(m: map<string, Value>): Value {
    List([Map(m)])
  }

  /** `File(dir, name).absolutePath` for an absolute directory. */
  function InDirectory(dir: string, name: string): string {
    dir + "/" + name
  }

  // ---------------------------------------------------------------- scanning

  /** `(message as? Map)?.get("outputFormat") as? String ?: "jpeg"`. */
  function RequestedFormat(message: Value): (f: string)
    ensures message.Map? && "outputFormat" in message.entries && message.entries["outputFormat"].Str? ==>
      f == message.entries["outputFormat"].s
    ensures !(message.Map? && "outputFormat" in message.entries && message.entries["outputFormat"].Str?) ==>
      f == DEFAULT_OUTPUT_FORMAT
  {
    match message
    case Map(options) =>
      if "outputFormat" in options && options["outputFormat"].Str? then options["outputFormat"].s
      else DEFAULT_OUTPUT_FORMAT
    case _ => DEFAULT_OUTPUT_FORMAT
  }

  /** Scan options that came through the plugin codec never carry an output format,
      so a scan started from them always saves JPEG files. */
  lemma DecodedOptionsRequestJpeg(m: map<string, Value>)
    requires PigeonCodec.ShapeOf(m) == PigeonCodec.ScanOptionsShape
    ensures PigeonCodec.Decode(PigeonCodec.Encode(Map(m))).Success?
    ensures RequestedFormat(PigeonCodec.Decode(PigeonCodec.Encode(Map(m))).value) == DEFAULT_OUTPUT_FORMAT
    ensures FileExtension(RequestedFormat(PigeonCodec.Decode(PigeonCodec.Encode(Map(m))).value)) == "jpg"
  {
    PigeonCodec.ScanOptionsLossy(m);
  }

  /** How saving one scanned page ends: written at a clock reading, or an exception. */
  datatype PageSave = Saved(millis: int) | SaveThrew(message: string)

  /** A page of `GmsDocumentScanningResult`, with how saving it would end. */
  datatype Page = Page(imageUri: Option<string>, save: PageSave)

  /** The `data` intent of a finished scan: its result's page list, if it parsed. */
  datatype ActivityData = ActivityData(pages: Option<seq<Page>>)

  /** `if (outputFormat == "png") "png" else "jpg"`. */
  function FileExtension(outputFormat: string): (ext: string)
    ensures ext == "png" <==> outputFormat == "png"
    ensures ext == "png" || ext == "jpg"
  {
    if outputFormat == "png" then "png" else "jpg"
  }

  /** Where page `index` is saved: `<filesDir>/scan_<millis>_<index>.<ext>`. */
  function PagePath(filesDir: string, millis: int, index: nat, ext: string): (p: string)
    ensures |p| > |filesDir| + 1 && p[..|filesDir| + 1] == filesDir + "/"
    ensures Text.EndsWith(p, "." + ext)
    ensures Paths.Free(ext, '/') ==> Paths.Free(p[|filesDir| + 1..], '/')
  {
    var name := "scan_" + Text.IntToString(millis) + "_" + Text.NatToString(index) + "." + ext;
    assert (filesDir + "/" + name)[..|filesDir| + 1] == filesDir + "/";
    assert (filesDir + "/" + name)[|filesDir| + 1..] == name;
    PageNameFree(Text.IntToString(millis), Text.NatToString(index), ext);
    InDirectory(filesDir, name)
  }

  /** The page file name has a '/' only where the extension has one. */
  lemma PageNameFree(millisText: string, indexText: string, ext: string)
    requires forall k :: 0 <= k < |millisText| ==> Text.IsDigit(millisText[k]) || millisText[k] == '-'
    requires forall k :: 0 <= k < |indexText| ==> Text.IsDigit(indexText[k])
    ensures Paths.Free(ext, '/') ==> Paths.Free("scan_" + millisText + "_" + indexText + "." + ext, '/')
  {
    var name := "scan_" + millisText + "_" + indexText + "." + ext;
    if Paths.Free(ext, '/') {
      forall i | 0 <= i < |name| ensures name[i] != '/' {
        var a := 5 + |millisText|;
        var b := a + 1 + |indexText|;
        if 5 <= i < a {
          assert name[i] == millisText[i - 5];
        } else if a < i < b {
          assert name[i] == indexText[i - a - 1];
        } else if i > b {
          assert name[i] == ext[i - b - 1];
        }
      }
    }
  }

  /** The number of pages from `k` on that have an image URI. */
  function UriCount(pages: seq<Page>, k: nat): nat
    requires k <= |pages|
    decreases |pages| - k
  {
    if k == |pages| then 0 else (if pages[k].imageUri.Some? then 1 else 0) + UriCount(pages, k + 1)
  }

  /** `pages.mapNotNull { ... }` from page `k` on: pages without a URI are skipped,
      each other page is saved under its position, and the first page whose save
      throws aborts the whole list. A missing activity fails at `activity!!`, whose
      exception carries no message. */
  function SavePages(pages: seq<Page>, k: nat, activity: Option<Activity>, ext: string): (r: Result<seq<string>, string>)
    requires k <= |pages|
    ensures r.Success? ==> |r.value| == UriCount(pages, k)
    ensures r.Success? && r.value != [] ==> activity.Some?
    ensures r.Success? ==> forall j :: 0 <= j < |r.value| ==>
      Text.EndsWith(r.value[j], "." + ext)
      && |r.value[j]| > |activity.value.filesDir| + 1
      && r.value[j][..|activity.value.filesDir| + 1] == activity.value.filesDir + "/"
    ensures UriCount(pages, k) == 0 ==> r == Success([])
    decreases |pages| - k
  {
    if k == |pages| then Success([])
    else match pages[k].imageUri
      case None => SavePages(pages, k + 1, activity, ext)
      case Some(_) =>
        if activity.None? then Failure("null")
        else match pages[k].save
          case SaveThrew(message) => Failure(message)
          case Saved(millis) =>
            match SavePages(pages, k + 1, activity, ext)
            case Failure(message) => Failure(message)
            case Success(rest) => Success([PagePath(activity.value.filesDir, millis, k, ext)] + rest)
  }

  /** The positions, from `k` on, of the pages that have an image URI. */
  function UriIndices(pages: seq<Page>, k: nat): seq<nat>
    requires k <= |pages|
    decreases |pages| - k
  {
    if k == |pages| then [] else (if pages[k].imageUri.Some? then [k] else []) + UriIndices(pages, k + 1)
  }

  /** A successful save lists one path per page with a URI, in page order: entry j is
      the file of the j-th such page, named after its position. */
  lemma {:induction false} SavedPathsFollowPages(pages: seq<Page>, k: nat, activity: Option<Activity>, ext: string)
    requires k <= |pages|
    requires SavePages(pages, k, activity, ext).Success?
    ensures |UriIndices(pages, k)| == |SavePages(pages, k, activity, ext).value|
    ensures forall j :: 0 <= j < |UriIndices(pages, k)| ==>
      k <= UriIndices(pages, k)[j] < |pages|
      && pages[UriIndices(pages, k)[j]].save.Saved?
      && SavePages(pages, k, activity, ext).value[j] ==
         PagePath(activity.value.filesDir, pages[UriIndices(pages, k)[j]].save.millis, UriIndices(pages, k)[j], ext)
    decreases |pages| - k
  {
    if k < |pages| {
      SavedPathsFollowPages(pages, k + 1, activity, ext);
      var later := UriIndices(pages, k + 1);
      var saved := SavePages(pages, k + 1, activity, ext).value;
      if pages[k].imageUri.None? {
        assert UriIndices(pages, k) == later;
        assert SavePages(pages, k, activity, ext).value == saved;
      } else {
        var here := PagePath(activity.value.filesDir, pages[k].save.millis, k, ext);
        assert UriIndices(pages, k) == [k] + later;
        assert SavePages(pages, k, activity, ext).value == [here] + saved;
      }
    }
  }

  /** Saving fails exactly when some page with a URI cannot be saved. */
  lemma {:induction false} SavePagesFailure(pages: seq<Page>, k: nat, activity: Option<Activity>, ext: string)
    requires k <= |pages|
    ensures SavePages(pages, k, activity, ext).Failure? <==>
      exists j :: k <= j < |pages| && pages[j].imageUri.Some? && (activity.None? || pages[j].save.SaveThrew?)
    decreases |pages| - k
  {
    if k < |pages| {
      SavePagesFailure(pages, k + 1, activity, ext);
      if pages[k].imageUri.Some? && (activity.None? || pages[k].save.SaveThrew?) {
        assert SavePages(pages, k, activity, ext).Failure?;
      }
    }
  }

  /** The `ScanResult` `onActivityResult` sends for a result code and intent. */
  function ActivityOutcome(resultCode: int, data: Option<ActivityData>, activity: Option<Activity>,
                           outputFormat: string): (r: ScanResult)
    ensures ScanResultValid(r)
    ensures resultCode == RESULT_CANCELED ==> r == ScanFailure("User cancelled")
    ensures resultCode != RESULT_OK && resultCode != RESULT_CANCELED ==> r == ScanFailure("Unknown error")
    ensures resultCode == RESULT_OK && data.None? ==> r == ScanFailure("No data returned")
    ensures resultCode == RESULT_OK && data.Some? && data.value.pages.GetOr([]) == [] ==>
      r == ScanFailure("No pages scanned")
    ensures r.success <==>
      resultCode == RESULT_OK && data.Some? && data.value.pages.GetOr([]) != []
      && SavePages(data.value.pages.value, 0, activity, FileExtension(outputFormat)).Success?
    ensures r.success ==> r.imagePaths == SavePages(data.value.pages.value, 0, activity, FileExtension(outputFormat)).value
    ensures resultCode == RESULT_OK && data.Some? && data.value.pages.GetOr([]) != [] && !r.success ==>
      r == ScanFailure("Failed to save images: " +
                       SavePages(data.value.pages.value, 0, activity, FileExtension(outputFormat)).error)
  {
    if resultCode == RESULT_OK then
      match data
      case None => ScanFailure("No data returned")
      case Some(intent) =>
        var pages := intent.pages.GetOr([]);
        if pages == [] then ScanFailure("No pages scanned")
        else match SavePages(pages, 0, activity, FileExtension(outputFormat))
          case Success(imagePaths) => ScanResult(imagePaths, true, None)
          case Failure(message) => ScanFailure("Failed to save images: " + message)
    else if resultCode == RESULT_CANCELED then ScanFailure("User cancelled")
    else ScanFailure("Unknown error")
  }

  /** Pages that all lack an image URI still give a successful, empty result. */
  lemma AllPagesSkippedSucceeds(pages: seq<Page>, activity: Option<Activity>, outputFormat: string)
    requires pages != [] && UriCount(pages, 0) == 0
    ensures ActivityOutcome(RESULT_OK, Some(ActivityData(Some(pages))), activity, outputFormat)
            == ScanResult([], true, None)
  {
  }

  /** The reply `onActivityResult` sends decodes, through the plugin codec, to exactly that result. */
  lemma ScanReplyRoundTrip(r: ScanResult)
    ensures PigeonCodec.Decode(PigeonCodec.Encode(ResultReply(ScanResultMap(r)))) == Success(ResultReply(ScanResultMap(r)))
  {
    PigeonCodec.ScanResultMapRoundTrip(r);
    PigeonCodec.SingletonReplyRoundTrip(Map(ScanResultMap(r)));
    PigeonCodec.DecodeEncode(Map(ScanResultMap(r)));
  }

  // ------------------------------------------------------------- compression

  /** `Long.toInt()`: the low 32 bits, as a signed number. */
  function ToInt32(i: int): (r: int)
    ensures INT32_MIN <= r <= INT32_MAX
    ensures (r - i) % 0x1_0000_0000 == 0
    ensures INT32_MIN <= i <= INT32_MAX ==> r == i
  {
    (i - INT32_MIN) % 0x1_0000_0000 + INT32_MIN
  }

  /** `Double.toInt()`: rounds toward zero and saturates at the 32-bit bounds. */
  function DoubleToInt(d: real): (r: int)
    ensures INT32_MIN <= r <= INT32_MAX
    ensures INT32_MIN as real <= d < (INT32_MAX + 1) as real ==>
      (d >= 0.0 ==> r as real <= d < (r + 1) as real)
      && (d < 0.0 ==> (r - 1) as real < d <= r as real)
    ensures d < INT32_MIN as real ==> r == INT32_MIN
    ensures d >= (INT32_MAX + 1) as real ==> r == INT32_MAX
  {
    var t := if d >= 0.0 then d.Floor else -((-d).Floor);
    if t < INT32_MIN then INT32_MIN else if t > INT32_MAX then INT32_MAX else t
  }

  /** `(args[1] as? Number)?.toInt() ?: 80`. */
  function QualityArgument(v: Value): (q: int)
    ensures INT32_MIN <= q <= INT32_MAX
    ensures v.Int? ==> q == ToInt32(v.i)
    ensures v.Double? ==> q == DoubleToInt(v.d)
    ensures !v.Int? && !v.Double? ==> q == DEFAULT_QUALITY
  {
    match v
    case Int(i) => ToInt32(i)
    case Double(d) => DoubleToInt(d)
    case _ => DEFAULT_QUALITY
  }

  /** The argument checks of `handleCompressImage`: the path and quality, or the error reply. */
  function CompressArguments(message: Value): (r: Result<(string, int), Value>)
    ensures (!message.List? || |message.items| < 2) <==>
      r == Failure(ErrorReply("INVALID_ARGS", "Invalid arguments for compressImage"))
    ensures message.List? && |message.items| >= 2 && !message.items[0].Str? <==>
      r == Failure(ErrorReply("INVALID_PATH", "Image path is null"))
    ensures r.Success? ==>
      message.List? && |message.items| >= 2 && message.items[0] == Str(r.value.0)
      && r.value.1 == QualityArgument(message.items[1])
  {
    match message
    case List(args) =>
      if |args| < 2 then Failure(ErrorReply("INVALID_ARGS", "Invalid arguments for compressImage"))
      else
        var quality := QualityArgument(args[1]);
        if args[0].Str? then Success((args[0].s, quality))
        else Failure(ErrorReply("INVALID_PATH", "Image path is null"))
    case _ => Failure(ErrorReply("INVALID_ARGS", "Invalid arguments for compressImage"))
  }

  /** The quality is passed on as given: nothing clamps it to 0..100. */
  lemma QualityNotClamped(imagePath: string, quality: int)
    requires INT32_MIN <= quality <= INT32_MAX
    ensures CompressArguments(List([Str(imagePath), Int(quality)])) == Success((imagePath, quality))
  {
  }

  /** `File(path)`: whether it exists, `length()`, and whether `BitmapFactory.decodeFile` decodes it. */
  datatype AndroidFile = AndroidFile(present: bool, length: int, decodes: bool)

  datatype CompressFormat = PNG | JPEG

  /** How `bitmap.compress` into the output stream ends: the output file's length
      afterwards, or the exception thrown. */
  datatype EncodeOutcome = Written(length: int) | Threw(message: string)

  /** `compressImage(imagePath, quality, reply)`: the result it replies with. The encoder
      is asked for the source path, the format and the quality it is given. */
  function CompressImage(imagePath: string, quality: int, activity: Option<Activity>,
                         files: string -> AndroidFile, encoder: (string, CompressFormat, int) -> EncodeOutcome,
                         millis: int): (r: CompressionResult)
    ensures CompressionResultValid(r)
    ensures !files(imagePath).present ==>
      r == CompressionResult(None, 0, 0, false, Some("Source file does not exist"))
    ensures files(imagePath).present && !files(imagePath).decodes ==>
      r == CompressionResult(None, files(imagePath).length, 0, false, Some("Failed to decode image"))
    ensures var isPng := Text.EndsWithIgnoreCase(imagePath, ".png");
      var outcome := encoder(imagePath, if isPng then PNG else JPEG, if isPng then PNG_QUALITY else quality);
      r.success <==> files(imagePath).present && files(imagePath).decodes && activity.Some? && outcome.Written?
    ensures r.success ==>
      var isPng := Text.EndsWithIgnoreCase(imagePath, ".png");
      r.outputPath == Some(InDirectory(activity.value.filesDir,
                                       "compressed_" + Text.IntToString(millis) + "." + (if isPng then "png" else "jpg")))
      && r.originalSize == files(imagePath).length
      && Written(r.compressedSize) ==
           encoder(imagePath, if isPng then PNG else JPEG, if isPng then PNG_QUALITY else quality)
    ensures files(imagePath).present && files(imagePath).decodes && !r.success ==>
      r.outputPath == None && r.originalSize == 0 && r.compressedSize == 0
      && r.errorMessage.Some? && |r.errorMessage.value| >= 20
      && r.errorMessage.value[..20] == "Compression failed: "
  {
    var source := files(imagePath);
    if !source.present then CompressionResult(None, 0, 0, false, Some("Source file does not exist"))
    else
      var originalSize := source.length;
      if !source.decodes then CompressionResult(None, originalSize, 0, false, Some("Failed to decode image"))
      else
        var isPng := Text.EndsWithIgnoreCase(imagePath, ".png");
        var fileExtension := if isPng then "png" else "jpg";
        var compressFormat := if isPng then PNG else JPEG;
        var outputFileName := "compressed_" + Text.IntToString(millis) + "." + fileExtension;
        match activity
        case None => CompressionFailed("null")
        case Some(a) =>
          match encoder(imagePath, compressFormat, if isPng then PNG_QUALITY else quality)
          case Threw(message) => CompressionFailed(message)
          case Written(compressedSize) =>
            CompressionResult(Some(InDirectory(a.filesDir, outputFileName)), originalSize, compressedSize, true, None)
  }

  /** The result of the `catch` around the whole compression. */
  function CompressionFailed(message: string): (r: CompressionResult)
    ensures !r.success && r.outputPath == None && r.originalSize == 0 && r.compressedSize == 0
    ensures r.errorMessage == Some("Compression failed: " + message)
  {
    CompressionResult(None, 0, 0, false, Some("Compression failed: " + message))
  }

  /** A PNG source, by a case-insensitive ".png" suffix, is encoded losslessly at 100,
      whatever quality was asked for. */
  lemma PngIgnoresQuality(imagePath: string, q1: int, q2: int, activity: Option<Activity>,
                          files: string -> AndroidFile, encoder: (string, CompressFormat, int) -> EncodeOutcome,
                          millis: int)
    requires Text.EndsWithIgnoreCase(imagePath, ".png")
    ensures CompressImage(imagePath, q1, activity, files, encoder, millis)
         == CompressImage(imagePath, q2, activity, files, encoder, millis)
  {
  }

  /** The reply `compressImage` sends decodes, through the plugin codec, to exactly that result. */
  lemma CompressionReplyRoundTrip(r: CompressionResult)
    ensures PigeonCodec.Decode(PigeonCodec.Encode(ResultReply(CompressionResultMap(r))))
         == Success(ResultReply(CompressionResultMap(r)))
  {
    PigeonCodec.CompressionResultMapRoundTrip(r);
    PigeonCodec.SingletonReplyRoundTrip(Map(CompressionResultMap(r)));
    PigeonCodec.DecodeEncode(Map(CompressionResultMap(r)));
  }

  /** The one reply `handleCompressImage` sends for a message. */
  function CompressReply(message: Value, activity: Option<Activity>, files: string -> AndroidFile,
                         encoder: (string, CompressFormat, int) -> EncodeOutcome, millis: int): Value
  {
    match CompressArguments(message)
    case Failure(error) => error
    case Success((imagePath, quality)) =>
      ResultReply(CompressionResultMap(CompressImage(imagePath, quality, activity, files, encoder, millis)))
  }

  // ------------------------------------------------------------------ plugin

  /** How the listeners of `getStartScanIntent` are called. */
  datatype IntentEvent =
      // the failure listener, with the exception's message
    | IntentFailed(message: string)
      // the success listener; `startIntentSenderForResult` threw, or did not
    | IntentReady(launchThrew: Option<string>)

  class CaptureHelperPlugin {
    var activity: Option<Activity>
    var pendingResult: Option<nat>
    var outputFormat: string
    /** Every reply sent so far, oldest first. */
    var sent: seq<Sent>
    /** The Flutter reply handles received so far. */
    ghost var received: set<nat>
    /** Scan replies dropped from the slot by a later request. */
    ghost var orphaned: set<nat>

    ghost predicate NotReplied(h: nat)
      reads this
    {
      forall i :: 0 <= i < |sent| ==> sent[i].to != h
    }

    /** Every reply handle is answered at most once; the pending one and the dropped
        ones have not been answered. */
    ghost predicate Valid()
      reads this
    {
      (forall i, j :: 0 <= i < j < |sent| ==> sent[i].to != sent[j].to)
      && (forall i :: 0 <= i < |sent| ==> sent[i].to in received && sent[i].to !in orphaned)
      && orphaned <= received
      && (pendingResult.Some? ==>
            pendingResult.value in received && pendingResult.value !in orphaned && NotReplied(pendingResult.value))
    }

    constructor()
      ensures Valid()
      ensures activity == None && pendingResult == None && outputFormat == DEFAULT_OUTPUT_FORMAT && sent == []
    {
      activity := None;
      pendingResult := None;
      outputFormat := DEFAULT_OUTPUT_FORMAT;
      sent := [];
      received := {};
      orphaned := {};
    }

    /** `onAttachedToActivity`, `onReattachedToActivityForConfigChanges` and the two detach hooks. */
    method SetActivity(a: Option<Activity>)
      requires Valid()
      modifies this
      ensures Valid()
      ensures activity == a
      ensures pendingResult == old(pendingResult) && outputFormat == old(outputFormat) && sent == old(sent)
      ensures received == old(received) && orphaned == old(orphaned)
    {
      activity := a;
    }

    /** `handleIsScanningAvailable`: always `[true]`. */
    method HandleIsScanningAvailable(reply: nat)
      requires Valid() && reply !in received
      modifies this
      ensures Valid()
      ensures sent == old(sent) + [Sent(reply, List([Bool(true)]))]
      ensures activity == old(activity) && pendingResult == old(pendingResult) && outputFormat == old(outputFormat)
      ensures received == old(received) + {reply} && orphaned == old(orphaned)
    {
      received := received + {reply};
      sent := sent + [Sent(reply, List([Bool(true)]))];
    }

    /** `handleScanDocument` and `startScanning` up to the intent request. Without an
        activity the call is answered with `NO_ACTIVITY` at once; otherwise the output
        format is taken from the message and, unless building the scanner client
        throws (`ERROR`), the reply replaces whatever was pending. */
    method HandleScanDocument(message: Value, reply: nat, clientFailure: Option<string>)
      requires Valid() && reply !in received
      modifies this
      ensures Valid()
      ensures received == old(received) + {reply} && activity == old(activity)
      ensures old(activity).None? ==>
        sent == old(sent) + [Sent(reply, ErrorReply("NO_ACTIVITY", "Activity not available"))]
        && pendingResult == old(pendingResult) && outputFormat == old(outputFormat) && orphaned == old(orphaned)
      ensures old(activity).Some? ==> outputFormat == RequestedFormat(message)
      ensures old(activity).Some? && clientFailure.Some? ==>
        sent == old(sent) + [Sent(reply, ErrorReply("ERROR", "Failed to start scanning: " + clientFailure.value))]
        && pendingResult == old(pendingResult) && orphaned == old(orphaned)
      ensures old(activity).Some? && clientFailure.None? ==>
        sent == old(sent) && pendingResult == Some(reply)
        && orphaned == old(orphaned) + (if old(pendingResult).Some? then {old(pendingResult).value} else {})
    {
      received := received + {reply};
      if activity.None? {
        sent := sent + [Sent(reply, ErrorReply("NO_ACTIVITY", "Activity not available"))];
        return;
      }
      outputFormat := RequestedFormat(message);
      if clientFailure.Some? {
        sent := sent + [Sent(reply, ErrorReply("ERROR", "Failed to start scanning: " + clientFailure.value))];
      } else {
        if pendingResult.Some? {
          orphaned := orphaned + {pendingResult.value};
        }
        pendingResult := Some(reply);
      }
    }

    /** The listeners of `getStartScanIntent`: a failure, or a launch that throws while an
        activity is attached, answers the pending reply (whichever it is by then) with
        `SCAN_ERROR` and empties the slot; a launch that works leaves it waiting. */
    method OnStartIntent(event: IntentEvent)
      requires Valid()
      modifies this
      ensures Valid()
      ensures activity == old(activity) && outputFormat == old(outputFormat)
      ensures received == old(received) && orphaned == old(orphaned)
      ensures var message :=
          match event
          case IntentFailed(m) => Some("Failed to get scan intent: " + m)
          case IntentReady(threw) =>
            if old(activity).Some? && threw.Some? then Some("Failed to start scanner: " + threw.value) else None;
        if message.None? then sent == old(sent) && pendingResult == old(pendingResult)
        else pendingResult == None
             && sent == old(sent) + (if old(pendingResult).Some?
                                     then [Sent(old(pendingResult).value, ErrorReply("SCAN_ERROR", message.value))]
                                     else [])
    {
      var message: Option<string> := None;
      if event.IntentFailed? {
        message := Some("Failed to get scan intent: " + event.message);
      } else if activity.Some? && event.launchThrew.Some? {
        message := Some("Failed to start scanner: " + event.launchThrew.value);
      }
      if message.Some? {
        if pendingResult.Some? {
          sent := sent + [Sent(pendingResult.value, ErrorReply("SCAN_ERROR", message.value))];
        }
        pendingResult := None;
      }
    }

    /** `onActivityResult`: only the scanner's request code with a reply pending is
        handled; it then sends that reply exactly one `ScanResult` and empties the slot. */
    method OnActivityResult(requestCode: int, resultCode: int, data: Option<ActivityData>) returns (handled: bool)
      requires Valid()
      modifies this
      ensures Valid()
      ensures handled <==> requestCode == REQUEST_CODE_SCAN && old(pendingResult).Some?
      ensures !handled ==> sent == old(sent) && pendingResult == old(pendingResult)
      ensures handled ==>
        pendingResult == None
        && sent == old(sent) + [Sent(old(pendingResult).value,
                                     ResultReply(ScanResultMap(ActivityOutcome(resultCode, data, activity, outputFormat))))]
      ensures activity == old(activity) && outputFormat == old(outputFormat)
      ensures received == old(received) && orphaned == old(orphaned)
    {
      if requestCode != REQUEST_CODE_SCAN || pendingResult.None? {
        return false;
      }
      var result := ActivityOutcome(resultCode, data, activity, outputFormat);
      sent := sent + [Sent(pendingResult.value, ResultReply(ScanResultMap(result)))];
      pendingResult := None;
      return true;
    }

    /** `handleCompressImage` and `compressImage`: one reply, an argument error or a result. */
    method HandleCompressImage(message: Value, reply: nat, files: string -> AndroidFile,
                               encoder: (string, CompressFormat, int) -> EncodeOutcome, millis: int)
      requires Valid() && reply !in received
      modifies this
      ensures Valid()
      ensures sent == old(sent) + [Sent(reply, CompressReply(message, activity, files, encoder, millis))]
      ensures activity == old(activity) && pendingResult == old(pendingResult) && outputFormat == old(outputFormat)
      ensures received == old(received) + {reply} && orphaned == old(orphaned)
    {
      received := received + {reply};
      var arguments := CompressArguments(message);
      if arguments.Failure? {
        sent := sent + [Sent(reply, arguments.error)];
        return;
      }
      var (imagePath, quality) := arguments.value;
      var result := CompressImage(imagePath, quality, activity, files, encoder, millis);
      sent := sent + [Sent(reply, ResultReply(CompressionResultMap(result)))];
    }
  }
}
