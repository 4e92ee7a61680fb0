# capture-helper, modelled in Dafny

capture-helper is a Flutter plugin that scans documents with the platform
scanner (ML Kit on Android, VisionKit on iOS) and compresses images and PDFs.
This project models the logic around those vendor calls and proves what it does:

- **Android message codec** (`PigeonCodec`). A map is taken for one of three
  domain records (ScanResult, ScanOptions, CompressionResult) by the keys it
  holds. The record is written as a reserved type byte (129, 130, 131)
  followed by a positional list, and decoding rebuilds the named map. The
  base `StandardMessageCodec` is abstract: a message is a sequence of tokens.
  As in the base codec, list elements and map keys and values go back through
  the plugin codec, so a record nested anywhere is tagged and rebuilt. The
  reference for a round trip is `Norm(v)`, and
  `Decode(Encode(v)) == Success(Norm(v))` holds for every value.
- **Android plugin** (`AndroidPlugin`). This covers the one-slot
  `pendingResult` state machine: `handleScanDocument`/`startScanning` fill the
  slot, and `onActivityResult` or the intent listeners resolve it. It also
  covers the mapping from the activity result to a `ScanResult`, argument
  validation in `handleCompressImage`, and the outcomes of `compressImage`.
  The class keeps a log of every reply sent, with the handle of the reply
  object it went to. Its invariant is that no handle is answered twice,
  that a reply dropped from the slot is never answered, and that the pending
  reply has not been answered yet.
- **iOS document scanner service** (`DocumentScanner`). This is the
  `scanCompletion` slot and its three delegate callbacks, plus page saving
  and naming. A completion is modelled by what it captures: the Flutter call
  it answers and the scan options.
- **iOS plugin** (`IosPlugin`). This covers the permission and presenter
  checks before a scan, the closure that turns the scanner's outcome into a
  `ScanResult`, `compressScannedImages`, and the mapping of the compression
  services' `Result` to a `CompressionResult`.
- **iOS compression services** (`ImageCompressionService`,
  `PdfCompressionService`). These are the guard chains and their error
  taxonomy. `createOutputURL` path naming is in `Paths`.
- **iOS permission manager** (`PermissionManager`). This is the table from
  authorisation status to outcome.

Some things the code cannot see become inputs:

- the file system, image and PDF codecs, the bitmap encoder and the scanner
  SDK are oracles or datatypes of possible outcomes;
- for clocks, the plugin takes timestamps as parameters;
- the device's answers are a `Device` record;
- the text of an iOS error's `localizedDescription` is a function
  `describe` supplied by the caller.

## Model

| member | source | states |
|---|---|---|
| PigeonCodec.ToByte | android/src/main/kotlin/com/flutter/plugin/helper/capture_helper/PigeonCodec.kt:9-11 | `Int.toByte()` lands in the signed range -128..127 and is congruent to its argument modulo 256 |
| PigeonCodec.WireByte | android/src/main/kotlin/com/flutter/plugin/helper/capture_helper/PigeonCodec.kt:21 | the byte `stream.write(int)` emits is in 0..255 and congruent to the signed byte modulo 256 |
| PigeonCodec.TypeBytesReserved | android/src/main/kotlin/com/flutter/plugin/helper/capture_helper/PigeonCodec.kt:9-11 | the three type bytes go out on the wire as 129, 130 and 131, read back as the same constants, and are pairwise distinct |
| PigeonCodec.WriteDispatch | android/src/main/kotlin/com/flutter/plugin/helper/capture_helper/PigeonCodec.kt:18-50 | dispatch precedence, as iffs: a map with `imagePaths` and `success` gets 130 whatever else it holds; failing that, `autoCompress` with `compressionQuality` gets 129; failing both, `outputPath` with `originalSize` gets 131; a map with no matching pair goes to the base codec, which starts it with a map header |
| PigeonCodec.TaggedListEncoding | android/src/main/kotlin/com/flutter/plugin/helper/capture_helper/PigeonCodec.kt:18-49 | a domain record is written as exactly one type byte followed by the ordinary encoding of the positional list of its fields |
| PigeonCodec.PositionalRoundTrip | android/src/main/kotlin/com/flutter/plugin/helper/capture_helper/PigeonCodec.kt:22-83 | the positional list and `mapOf` are inverse: rebuilding `listOf(value[k0], ...)` under the same distinct keys gives exactly those keys, each holding what the map held under it, or null when it was absent |
| PigeonCodec.NonMapDelegated | android/src/main/kotlin/com/flutter/plugin/helper/capture_helper/PigeonCodec.kt:53 | a value that is not a map never gets a reserved type byte, and a scalar is handed to the base codec as it is |
| PigeonCodec.Rebuild | android/src/main/kotlin/com/flutter/plugin/helper/capture_helper/PigeonCodec.kt:61-82 | the rebuilt map holds exactly the record's keys |
| PigeonCodec.ReadWrite | android/src/main/kotlin/com/flutter/plugin/helper/capture_helper/PigeonCodec.kt:14-86 | reading back what `writeValue` wrote, with anything after it in the buffer, yields `Norm(v)` and leaves the rest of the buffer untouched; the induction goes through nested lists, the keys and values of unshaped maps, and record fields, so every domain-shaped map at any depth is rebuilt |
| PigeonCodec.DecodeEncode | android/src/main/kotlin/com/flutter/plugin/helper/capture_helper/PigeonCodec.kt:14-86 | for every value, decoding its encoding gives exactly `Norm(v)`: nothing but the records, wherever they sit, changes |
| PigeonCodec.PlainFixed | android/src/main/kotlin/com/flutter/plugin/helper/capture_helper/PigeonCodec.kt:50-53 | a value with no domain-shaped map anywhere in it (list elements, map values) comes back unchanged |
| PigeonCodec.UnshapedMapValues | android/src/main/kotlin/com/flutter/plugin/helper/capture_helper/PigeonCodec.kt:50-84 | a map that matches no record comes back with the same keys, each value reading back exactly as it would if it were sent alone |
| PigeonCodec.NestedScanResultRebuilt | android/src/main/kotlin/com/flutter/plugin/helper/capture_helper/PigeonCodec.kt:19-73 | a ScanResult nested as a value of an unshaped map is still rebuilt, and comes back with a null `errorMessage` |
| PigeonCodec.NormShaped | android/src/main/kotlin/com/flutter/plugin/helper/capture_helper/PigeonCodec.kt:57-83 | a domain-shaped map comes back as its record: exactly the record's keys, each holding what the map held under it, or null when absent |
| PigeonCodec.ScanResultRoundTrip | android/src/main/kotlin/com/flutter/plugin/helper/capture_helper/PigeonCodec.kt:66-73 | a map with exactly the three ScanResult keys survives encode then decode unchanged |
| PigeonCodec.ScanResultGainsNullErrorMessage | android/src/main/kotlin/com/flutter/plugin/helper/capture_helper/PigeonCodec.kt:22-26 | a ScanResult map without `errorMessage` comes back with that key present and null |
| PigeonCodec.CompressionResultRoundTrip | android/src/main/kotlin/com/flutter/plugin/helper/capture_helper/PigeonCodec.kt:74-83 | a map with exactly the five CompressionResult keys survives encode then decode unchanged |
| PigeonCodec.ScanOptionsLossy | android/src/main/kotlin/com/flutter/plugin/helper/capture_helper/PigeonCodec.kt:29-37 | ScanOptions come back holding only `autoCompress` and `compressionQuality`; `outputFormat` never survives, so a map holding it is never reproduced |
| PigeonCodec.ReadTaggedList | android/src/main/kotlin/com/flutter/plugin/helper/capture_helper/PigeonCodec.kt:57-83 | decoding a record reads positions 0..n-1 of its list: a shorter list is an index fault and never a partial map, and trailing elements are ignored |
| PigeonCodec.ReadTaggedFaults | android/src/main/kotlin/com/flutter/plugin/helper/capture_helper/PigeonCodec.kt:60-84 | a record byte followed by something other than a list fails the cast, and a type byte that neither codec knows is a corrupt message |
| PigeonCodec.ScanResultMapRoundTrip | android/src/main/kotlin/com/flutter/plugin/helper/capture_helper/PigeonCodec.kt:19-28 | every ScanResult map the plugin builds survives the codec unchanged |
| PigeonCodec.CompressionResultMapRoundTrip | android/src/main/kotlin/com/flutter/plugin/helper/capture_helper/PigeonCodec.kt:38-49 | every CompressionResult map the plugin builds survives the codec unchanged |
| PigeonCodec.SingletonReplyRoundTrip | android/src/main/kotlin/com/flutter/plugin/helper/capture_helper/PigeonCodec.kt:53 | a one-element reply list reads back as the one-element list of what its element reads back as |
| AndroidPlugin.RequestedFormat | android/src/main/kotlin/com/flutter/plugin/helper/capture_helper/CaptureHelperPlugin.kt:88-89 | the output format is the message's string `outputFormat`; it is "jpeg" when the message is not a map or holds no string there |
| AndroidPlugin.DecodedOptionsRequestJpeg | android/src/main/kotlin/com/flutter/plugin/helper/capture_helper/CaptureHelperPlugin.kt:88-89 | scan options that came through the plugin's codec never carry an output format, so such a scan always saves ".jpg" files |
| AndroidPlugin.FileExtension | android/src/main/kotlin/com/flutter/plugin/helper/capture_helper/CaptureHelperPlugin.kt:282 | the extension is "png" exactly when the output format is "png", and "jpg" otherwise |
| AndroidPlugin.PagePath | android/src/main/kotlin/com/flutter/plugin/helper/capture_helper/CaptureHelperPlugin.kt:290-291 | a saved page lies in the app's files directory, directly (no '/' after the directory's) whenever the extension has no '/', and ends in "." plus the extension |
| AndroidPlugin.SavePages | android/src/main/kotlin/com/flutter/plugin/helper/capture_helper/CaptureHelperPlugin.kt:279-308 | a successful save lists one path per page that has an image URI, each in the files directory with the chosen extension; pages without a URI cost nothing, and if no page has one the result is an empty success |
| AndroidPlugin.SavedPathsFollowPages | android/src/main/kotlin/com/flutter/plugin/helper/capture_helper/CaptureHelperPlugin.kt:279-308 | the saved paths follow page order: entry j is the file of the j-th page with a URI, named after that page's position and its clock reading |
| AndroidPlugin.SavePagesFailure | android/src/main/kotlin/com/flutter/plugin/helper/capture_helper/CaptureHelperPlugin.kt:279-308 | saving fails exactly when some page with a URI cannot be saved, because there is no activity or because its save throws |
| AndroidPlugin.ActivityOutcome | android/src/main/kotlin/com/flutter/plugin/helper/capture_helper/CaptureHelperPlugin.kt:263-350 | the result-code table gives "User cancelled", "Unknown error", "No data returned", "No pages scanned" and "Failed to save images: ..." with empty paths; success happens exactly on OK with pages whose save succeeds, and its paths are the saved ones; every result is consistent |
| AndroidPlugin.AllPagesSkippedSucceeds | android/src/main/kotlin/com/flutter/plugin/helper/capture_helper/CaptureHelperPlugin.kt:279-315 | a nonempty page list in which no page has an image URI still gives a successful, empty result |
| AndroidPlugin.ScanReplyRoundTrip | android/src/main/kotlin/com/flutter/plugin/helper/capture_helper/CaptureHelperPlugin.kt:310-315 | the reply `onActivityResult` sends reads back through the plugin codec as exactly the same reply |
| AndroidPlugin.ToInt32 | android/src/main/kotlin/com/flutter/plugin/helper/capture_helper/CaptureHelperPlugin.kt:161 | `Long.toInt()` lands in the 32-bit range, agrees with its argument modulo 2^32, and leaves in-range values alone |
| AndroidPlugin.DoubleToInt | android/src/main/kotlin/com/flutter/plugin/helper/capture_helper/CaptureHelperPlugin.kt:161 | `Double.toInt()` rounds toward zero within the 32-bit range and saturates at its bounds |
| AndroidPlugin.QualityArgument | android/src/main/kotlin/com/flutter/plugin/helper/capture_helper/CaptureHelperPlugin.kt:161 | an integer quality is narrowed to 32 bits, a double one is truncated, and anything else gives 80 |
| AndroidPlugin.CompressArguments | android/src/main/kotlin/com/flutter/plugin/helper/capture_helper/CaptureHelperPlugin.kt:149-170 | INVALID_ARGS exactly when the message is not a list of at least two elements; INVALID_PATH exactly when it is one but the first element is not a string; otherwise the path and the converted quality |
| AndroidPlugin.QualityNotClamped | android/src/main/kotlin/com/flutter/plugin/helper/capture_helper/CaptureHelperPlugin.kt:161-172 | any 32-bit quality, in 0..100 or not, is passed on unchanged |
| AndroidPlugin.CompressImage | android/src/main/kotlin/com/flutter/plugin/helper/capture_helper/CaptureHelperPlugin.kt:182-257 | a missing source gives `(null, 0, 0, false, "Source file does not exist")`; a decode failure keeps the original size with compressed size 0; success happens exactly when the source exists and decodes, an activity is attached and the encoder writes; it names `compressed_<millis>.<png or jpg>` in the files directory and reports both sizes; any other failure is 0/0 with "Compression failed: ..." |
| AndroidPlugin.CompressionFailed | android/src/main/kotlin/com/flutter/plugin/helper/capture_helper/CaptureHelperPlugin.kt:247-255 | the exception result has no path, sizes 0/0, is a failure, and its message is "Compression failed: " followed by the exception message |
| AndroidPlugin.PngIgnoresQuality | android/src/main/kotlin/com/flutter/plugin/helper/capture_helper/CaptureHelperPlugin.kt:214-230 | for a source with a case-insensitive ".png" suffix, the result does not depend on the requested quality |
| AndroidPlugin.CompressionReplyRoundTrip | android/src/main/kotlin/com/flutter/plugin/helper/capture_helper/CaptureHelperPlugin.kt:238-245 | the reply `compressImage` sends reads back through the plugin codec as exactly the same reply |
| AndroidPlugin.CaptureHelperPlugin.constructor | android/src/main/kotlin/com/flutter/plugin/helper/capture_helper/CaptureHelperPlugin.kt:20-22 | a new plugin has no activity, no pending reply, output format "jpeg", and no replies sent |
| AndroidPlugin.CaptureHelperPlugin.SetActivity | android/src/main/kotlin/com/flutter/plugin/helper/capture_helper/CaptureHelperPlugin.kt:364-380 | the attach and detach hooks change the activity and nothing else |
| AndroidPlugin.CaptureHelperPlugin.HandleIsScanningAvailable | android/src/main/kotlin/com/flutter/plugin/helper/capture_helper/CaptureHelperPlugin.kt:70-73 | the call is answered once, with `[true]` |
| AndroidPlugin.CaptureHelperPlugin.HandleScanDocument | android/src/main/kotlin/com/flutter/plugin/helper/capture_helper/CaptureHelperPlugin.kt:75-114 | with no activity: a NO_ACTIVITY reply, and the slot and format are untouched; otherwise the format is taken from the message; if the scanner client fails, the reply is an ERROR; if not, the reply takes the slot and an earlier pending reply is orphaned, never to be answered |
| AndroidPlugin.CaptureHelperPlugin.OnStartIntent | android/src/main/kotlin/com/flutter/plugin/helper/capture_helper/CaptureHelperPlugin.kt:116-143 | an intent failure, or a launch that throws while an activity is attached, answers the pending reply once with SCAN_ERROR and clears the slot; a launch that works changes nothing |
| AndroidPlugin.CaptureHelperPlugin.OnActivityResult | android/src/main/kotlin/com/flutter/plugin/helper/capture_helper/CaptureHelperPlugin.kt:259-356 | handled exactly when the request code is 100 and a reply is pending; then exactly one `ScanResult` reply goes to the pending reply and the slot is cleared; otherwise nothing is sent and the slot is unchanged |
| AndroidPlugin.CaptureHelperPlugin.HandleCompressImage | android/src/main/kotlin/com/flutter/plugin/helper/capture_helper/CaptureHelperPlugin.kt:146-180 | the call is answered exactly once, with the argument error or the compression result, and the scan state is untouched |
| DocumentScanner.IsScanningAvailable | ios/Classes/Services/DocumentScannerService.swift:36-41 | available exactly on iOS 13 or later when the device supports the scanner; before iOS 13 the scanner is not consulted |
| DocumentScanner.AppendingPathComponent | ios/Classes/Services/DocumentScannerService.swift:70 | the file URL starts with the directory and ends with the name, with a '/' between them |
| DocumentScanner.ScanFileName | ios/Classes/Services/DocumentScannerService.swift:69 | a scan file is named "scan_..." and ends in ".jpg" |
| DocumentScanner.SaveImage | ios/Classes/Services/DocumentScannerService.swift:66-83 | a page gives a URL exactly when encoding gives data and the write succeeds; the URL is `scan_<timestamp>_<index>.jpg` in the temporary directory and is always JPEG |
| DocumentScanner.KeptMatchesSaved | ios/Classes/Services/DocumentScannerService.swift:96-103 | there is one URL per page that was saved |
| DocumentScanner.KeptIncreasing | ios/Classes/Services/DocumentScannerService.swift:96-103 | the saved pages' indices are page positions in strictly increasing order |
| DocumentScanner.KeptExactlySaved | ios/Classes/Services/DocumentScannerService.swift:96-103 | a page is among the saved ones exactly when its save succeeded |
| DocumentScanner.SavedAtKept | ios/Classes/Services/DocumentScannerService.swift:96-103 | URL j is the URL of the j-th saved page, so URLs follow page order and failed pages are skipped |
| DocumentScanner.FinishOutcome | ios/Classes/Services/DocumentScannerService.swift:105-109 | no URLs gives `noImagesScanned`; otherwise success with exactly those URLs |
| DocumentScanner.DocumentScannerService.constructor | ios/Classes/Services/DocumentScannerService.swift:30-33 | a new service has the given presenter and no stored completion |
| DocumentScanner.DocumentScannerService.ScanDocument | ios/Classes/Services/DocumentScannerService.swift:44-63 | when scanning is unsupported, the new completion fires once with `notAvailable`; with no presenter, it fires once with `presentationFailed`; in both cases nothing is stored; otherwise it replaces the stored completion and nothing fires |
| DocumentScanner.DocumentScannerService.Complete | ios/Classes/Services/DocumentScannerService.swift:106-111 | the stored completion, if any, is called once with the outcome, and the slot is cleared, so a later callback calls nothing |
| DocumentScanner.DocumentScannerService.SaveScannedPages | ios/Classes/Services/DocumentScannerService.swift:96-103 | the loop collects exactly the URLs of the pages whose save succeeded, in page order |
| DocumentScanner.DocumentScannerService.DidFinish | ios/Classes/Services/DocumentScannerService.swift:89-113 | the stored completion gets the saved URLs, or `noImagesScanned` when there are none; the slot is cleared |
| DocumentScanner.DocumentScannerService.DidCancel | ios/Classes/Services/DocumentScannerService.swift:115-120 | the stored completion gets `cancelled` once; the slot is cleared |
| DocumentScanner.DocumentScannerService.DidFail | ios/Classes/Services/DocumentScannerService.swift:122-130 | the stored completion gets the scanner's error unchanged, once; the slot is cleared |
| IosPlugin.IsScanningAvailableOn | ios/Classes/CaptureHelperPlugin.swift:170-175 | available exactly on iOS 13 or later on a device whose scanner is supported |
| IosPlugin.CompressImage | ios/Classes/CaptureHelperPlugin.swift:104-135 | success exactly when the image service succeeds, copying its output path and both sizes with no error; failure gives no path, sizes 0/0 and the error's description |
| IosPlugin.CompressPdf | ios/Classes/CaptureHelperPlugin.swift:137-168 | success exactly when the PDF service succeeds, copying its output path and both sizes with no error; failure gives no path, sizes 0/0 and the error's description |
| IosPlugin.CompressedOrOriginalChoice | ios/Classes/CaptureHelperPlugin.swift:193-199 | an entry is the compressed copy when compression succeeded, and the original path when it failed |
| IosPlugin.MapPathsEntries | ios/Classes/CaptureHelperPlugin.swift:187-203 | building the list one path at a time keeps its length, and entry i is the image of path i |
| IosPlugin.CompressedPaths | ios/Classes/CaptureHelperPlugin.swift:187-203 | one entry per input path, in order; entry i is the compressed copy of path i, or path i itself |
| IosPlugin.ScanOutcomeResult | ios/Classes/CaptureHelperPlugin.swift:61-90 | the result succeeds exactly when the scanner succeeded; its paths are the URLs' paths, or their compressed copies with length and order kept when `autoCompress` is set; a failure gives empty paths and the error's description |
| IosPlugin.UnavailableScanFails | ios/Classes/CaptureHelperPlugin.swift:61-90 | on iOS 13 or later with an unsupported device, the scan closure reports a failure with no paths |
| IosPlugin.CaptureHelperPlugin.constructor | ios/Classes/CaptureHelperPlugin.swift:5 | a new plugin holds no scanner and has sent nothing |
| IosPlugin.CaptureHelperPlugin.CompressScannedImages | ios/Classes/CaptureHelperPlugin.swift:187-203 | the loop returns exactly `CompressedPaths`: one entry per path, in order, compressed or original |
| IosPlugin.CaptureHelperPlugin.RunContinuation | ios/Classes/CaptureHelperPlugin.swift:61-93 | the closure answers its Flutter call once, with `.success` of the mapped `ScanResult`, and drops the scanner |
| IosPlugin.CaptureHelperPlugin.ScanDocument | ios/Classes/CaptureHelperPlugin.swift:16-36 | a refused camera permission answers once with a failed result carrying the error's description and changes nothing else; a granted one goes on to `performScan`; an unavailable scanner always gives one failed reply to this call |
| IosPlugin.CaptureHelperPlugin.PerformScan | ios/Classes/CaptureHelperPlugin.swift:38-102 | "No view controller available" and "Document scanning requires iOS 13.0 or later" are answered at once; otherwise a new scanner replaces the kept one, whose pending call is orphaned; the new scanner either answers `notAvailable` at once or keeps the call pending |
| IosPlugin.CaptureHelperPlugin.OnScannerFinished | ios/Classes/Services/DocumentScannerService.swift:89-113 | a finished scan answers the kept scanner's call once with the mapped result of its saved URLs, and no scanner is left |
| IosPlugin.CaptureHelperPlugin.OnScannerCancelled | ios/Classes/Services/DocumentScannerService.swift:115-120 | a cancelled scan answers the kept scanner's call once with a failed result, and no scanner is left |
| IosPlugin.CaptureHelperPlugin.OnScannerFailed | ios/Classes/Services/DocumentScannerService.swift:122-130 | a failed scan answers the kept scanner's call once with a failed result for that error, and no scanner is left |
| ImageCompressionService.CompressImage | ios/Classes/Services/ImageCompressionService.swift:37-80 | the checks run in the order exists, size, decode, encode, write, and each error holds exactly when the earlier checks pass and its own fails; on success the output is `createOutputURL(source)`, the original size is the size attribute, and the compressed size is the encoded byte count |
| ImageCompressionService.CompressedCopyBesideSource | ios/Classes/Services/ImageCompressionService.swift:83-90 | the compressed copy never overwrites its source; it sits in the same directory and is named `<stem>_compressed.<ext>` |
| Paths.OutputName | ios/Classes/Services/ImageCompressionService.swift:83-90 | the output lies in the source's directory and is named `<stem><suffix>.<ext>` |
| Paths.OutputDiffersFromSource | ios/Classes/Services/ImageCompressionService.swift:83-90 | with a nonempty suffix, the output's name never equals the source's name |
| Paths.EmptyExtensionTrailingDot | ios/Classes/Services/ImageCompressionService.swift:88 | a source with no extension gets a name ending in a bare "." |
| Paths.OutputStacksSuffix | ios/Classes/Services/ImageCompressionService.swift:83-90 | applying the naming to its own output stacks the suffix again, so it is not idempotent |
| PdfCompressionService.CompressPdf | ios/Classes/Services/PDFCompressionService.swift:38-114 | checks run in the order exists, size, parse, write, and each error holds exactly when the earlier checks pass and its own fails; `compressionFailed` is never returned; on success the original size is the size attribute and the compressed size is the generated data length |
| PdfCompressionService.PdfOutputNaming | ios/Classes/Services/PDFCompressionService.swift:117-124 | by the image service's naming rule, a `<stem>.pdf` document is compressed into `<stem>_compressed.pdf` in the same directory, never onto itself |
| PermissionManager.RequestCameraPermission | ios/Classes/Services/PermissionManager.swift:24-51 | authorised gives success; not determined gives success exactly when access is granted, else `cameraNotAuthorized`; denied gives `cameraNotAuthorized`; restricted gives `cameraRestricted`; an unknown status gives `cameraNotAvailable`; each is an iff |
| PermissionManager.IsCameraAuthorized | ios/Classes/Services/PermissionManager.swift:54-56 | true exactly when a permission request succeeds without the user granting access at the prompt, and then it succeeds whatever the answer |
| PermissionManager.AuthorizedAgreesWithRequest | ios/Classes/Services/PermissionManager.swift:24-56 | an authorised camera is always granted; any other grant came from the prompt; the prompt's answer matters only while the status is undetermined |

## Left out

- Base message codec: the byte layout of `StandardMessageCodec` for scalars, lists and maps is an unseen library. It is a token sequence here, with a map header followed by its keys and values, each written and read back through the plugin codec. The model leaves the order of a map's entries unspecified.
- Vendor SDK work is not modelled: ML Kit document scanning, VisionKit, `Bitmap.compress`, `BitmapFactory`, `MediaStore`, `UIImage.jpegData` and the PDFKit page-rendering loop. Their outcomes are oracles (`Disk`, `AndroidFile`, `EncodeOutcome`, `PageCapture`, `Page`). Nothing relates output size to quality, because the code claims nothing about it.
- Oracle answers do not change after a write. Writing one file does not change what later existence or size queries answer.
- Floating point: the quality-to-`CGFloat` division and the default PDF media box are inside the oracles. The clock readings, `System.currentTimeMillis()` and `Date().timeIntervalSince1970 * 1000`, are passed in.
- iOS error texts: `error.localizedDescription` on an `Error` value does not reach the enums' own `localizedDescription` properties. It falls back to Foundation's bridged description, so the model takes the text from a caller-supplied `describe` function of the error case.
- The iOS `outputFormat:` argument that `performScan` passes has no matching initializer on `DocumentScannerService`, which takes only the presenter. The service is modelled as written, so it always saves JPEG and has no format parameter.
- iOS URLs are path strings. `URL(fileURLWithPath:)` standardisation and `url.path` are taken as the identity.
- Lifecycle and async delivery: the following are consecutive events of one sequential state machine, with no concurrency:
  - channel registration and teardown;
  - logging;
  - `DispatchQueue.main.async`;
  - `requestAccess` delivery;
  - scanner presentation and dismissal;
  - the `[weak self]` captures, taken as always alive.
- PermissionManager: "exactly one completion" is modelled by the function returning one outcome.
- AndroidPlugin.CaptureHelperPlugin.HandleCompressImage: it does not model the `"ERROR"` catch of `handleCompressImage`, because every exception inside `compressImage` is caught there first.
- AndroidPlugin.CaptureHelperPlugin.HandleScanDocument: `clientFailure` stands for any exception from building the scanner client. `getStartScanIntent` throwing synchronously is not modelled separately: it would also go to the `ERROR` reply after the slot was already filled.
- AndroidPlugin.SavePages: `pages.indexOf(page)` is taken as the page's position, which treats pages as distinct objects. Two equal page objects would both get the first one's index in the source.
- PigeonCodec.Read: `Value` maps have string keys, so a map whose key reads back as anything else is a `NonStringKey` fault here. The base codec accepts any key type, but the plugin never sends such a map.
- AndroidPlugin.DoubleToInt: Kotlin's NaN, whose `toInt()` is 0, has no counterpart, because doubles are modelled as reals. Values beyond the 32-bit range saturate as in Kotlin.
- Exception messages are given strings. A null exception message, as `activity!!` produces, becomes the text "null".
