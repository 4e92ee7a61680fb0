/**
 * The iOS `CaptureHelperPlugin`: permission and presenter checks before a scan,
 * the closure that turns the scanner's result into a `ScanResult`, the mapping
 * of the compression services' results, and `compressScannedImages`.
 */
module IosPlugin {
  import opened Wrappers
  import opened Messages
  import opened IosFileSystem
  import opened DocumentScanner
  import Permission = PermissionManager
  import Image = ImageCompressionService
  import Pdf = PdfCompressionService

  /** The errors whose `localizedDescription` reaches the application. */
  datatype IosError =
    | PermissionFailure(permission: Permission.PermissionError)
    | ScanFailed(scan: ScanError)
    | ImageFailure(image: Image.CompressionError)
    | PdfFailure(pdf: Pdf.CompressionError)

  /** What the device answers while a scan request is handled. */
  datatype Device = Device(
    cameraStatus: Permission.AuthorizationStatus,
    userGrantsAccess: bool,
    hasRootViewController: bool,
    atLeastIOS13: bool,
    scannerSupported: bool)

  /** A completion of a Flutter `scanDocument` call with `.success(result)`. */
  datatype Reply = Reply(to: nat, result: ScanResult)

  const NO_VIEW_CONTROLLER: string := "No view controller available"
  const REQUIRES_IOS13: string := "Document scanning requires iOS 13.0 or later"

  /** `isScanningAvailable()`. */
  function IsScanningAvailableOn(device: Device): (b: bool)
    ensures b <==> device.atLeastIOS13 && device.scannerSupported
  {
    if device.atLeastIOS13 then DocumentScanner.IsScanningAvailable(true, device.scannerSupported) else false
  }

  /** `compressImage(imagePath:quality:completion:)`: the service's result as a `CompressionResult`. */
  function CompressImage(disk: Disk, describe: IosError -> string, imagePath: string, quality: int): (c: CompressionResult)
    ensures CompressionResultValid(c)
    ensures c.success <==> Image.CompressImage(disk, imagePath, quality).Success?
    ensures c.success ==>
      c.outputPath == Some(Image.OutputPath(imagePath))
      && Some(c.originalSize) == disk.source(imagePath).sizeAttribute
      && Some(c.compressedSize) == disk.jpegLength(imagePath, quality)
    ensures !c.success ==>
      c.outputPath == None && c.originalSize == 0 && c.compressedSize == 0
      && c.errorMessage == Some(describe(ImageFailure(Image.CompressImage(disk, imagePath, quality).error)))
  {
    match Image.CompressImage(disk, imagePath, quality)
    case Success(info) => CompressionResult(Some(info.outputPath), info.originalSize, info.compressedSize, true, None)
    case Failure(error) => CompressionResult(None, 0, 0, false, Some(describe(ImageFailure(error))))
  }

  /** `compressPdf(pdfPath:quality:completion:)`. */
  function CompressPdf(disk: Disk, describe: IosError -> string, pdfPath: string, quality: int): (c: CompressionResult)
    ensures CompressionResultValid(c)
    ensures c.success <==> Pdf.CompressPdf(disk, pdfPath, quality).Success?
    ensures c.success ==>
      c.outputPath == Some(Pdf.OutputPath(pdfPath))
      && Some(c.originalSize) == disk.source(pdfPath).sizeAttribute
      && c.compressedSize == disk.renderedPdfLength(pdfPath, quality)
    ensures !c.success ==>
      c.outputPath == None && c.originalSize == 0 && c.compressedSize == 0
      && c.errorMessage == Some(describe(PdfFailure(Pdf.CompressPdf(disk, pdfPath, quality).error)))
  {
    match Pdf.CompressPdf(disk, pdfPath, quality)
    case Success(info) => CompressionResult(Some(info.outputPath), info.originalSize, info.compressedSize, true, None)
    case Failure(error) => CompressionResult(None, 0, 0, false, Some(describe(PdfFailure(error))))
  }

  /** One entry of `compressScannedImages`: the compressed copy, or the original on failure. */
  function CompressedOrOriginal(disk: Disk, imagePath: string, quality: int): string {
    match Image.CompressImage(disk, imagePath, quality)
    case Success(info) => info.outputPath
    case Failure(_) => imagePath
  }

  /** The entry is the compressed copy exactly when compression succeeded, else the original. */
  lemma CompressedOrOriginalChoice(disk: Disk, imagePath: string, quality: int)
    ensures Image.CompressImage(disk, imagePath, quality).Success? ==>
      CompressedOrOriginal(disk, imagePath, quality) == Image.OutputPath(imagePath)
    ensures Image.CompressImage(disk, imagePath, quality).Failure? ==>
      CompressedOrOriginal(disk, imagePath, quality) == imagePath
  {
  }

  /** `paths.map(f)`, built from the front as the loop of `compressScannedImages` builds it. */
  function MapPaths(f: string -> string, paths: seq<string>): seq<string> {
    if paths == [] then []
    else
      var n := |paths| - 1;
      MapPaths(f, paths[..n]) + [f(paths[n])]
  }

  /** One entry per path, in order: entry i is `f` of path i. */
  lemma {:induction false} MapPathsEntries(f: string -> string, paths: seq<string>)
    ensures |MapPaths(f, paths)| == |paths|
    ensures forall i :: 0 <= i < |paths| ==> MapPaths(f, paths)[i] == f(paths[i])
  {
    if paths != [] {
      var n := |paths| - 1;
      var init := paths[..n];
      MapPathsEntries(f, init);
      forall i | 0 <= i < |paths|
        ensures MapPaths(f, paths)[i] == f(paths[i])
      {
        if i < n {
          assert init[i] == paths[i];
        }
      }
    }
  }

  /** What `compressScannedImages` returns for a list of paths. */
  function CompressedPaths(disk: Disk, imagePaths: seq<string>, quality: int): (r: seq<string>)
    ensures |r| == |imagePaths|
    ensures forall i :: 0 <= i < |imagePaths| ==> r[i] == CompressedOrOriginal(disk, imagePaths[i], quality)
  {
    var choose := p => CompressedOrOriginal(disk, p, quality);
    MapPathsEntries(choose, imagePaths);
    MapPaths(choose, imagePaths)
  }

  /** The `ScanResult` the scanner closure completes with, for a scanner outcome. */
  function ScanOutcomeResult(options: ScanOptions, outcome: Result<seq<string>, ScanError>,
                             disk: Disk, describe: IosError -> string): (r: ScanResult)
    ensures ScanResultValid(r)
    ensures r.success <==> outcome.Success?
    ensures outcome.Success? && !options.autoCompress ==> r.imagePaths == outcome.value
    ensures outcome.Success? && options.autoCompress ==>
      |r.imagePaths| == |outcome.value|
      && forall i :: 0 <= i < |outcome.value| ==>
           r.imagePaths[i] == CompressedOrOriginal(disk, outcome.value[i], options.compressionQuality)
    ensures outcome.Failure? ==> r == ScanFailure(describe(ScanFailed(outcome.error)))
  {
    match outcome
    case Success(urls) =>
      var imagePaths := if options.autoCompress then CompressedPaths(disk, urls, options.compressionQuality) else urls;
      ScanResult(imagePaths, true, None)
    case Failure(error) => ScanFailure(describe(ScanFailed(error)))
  }

  /** A scan the device cannot perform never succeeds: the scanner reports `notAvailable`. */
  lemma UnavailableScanFails(options: ScanOptions, disk: Disk, describe: IosError -> string, device: Device)
    requires !IsScanningAvailableOn(device) && device.atLeastIOS13
    ensures var r := ScanOutcomeResult(options, Failure(NotAvailable), disk, describe);
      !r.success && r.imagePaths == [] && r.errorMessage == Some(describe(ScanFailed(NotAvailable)))
  {
  }

  class CaptureHelperPlugin {
    /** `scannerService`: the scanner of the request in progress, if any. */
    var scannerService: DocumentScannerService?
    /** Every completion sent to Flutter for a scan, oldest first. */
    var replies: seq<Reply>
    /** The Flutter calls received so far. */
    ghost var received: set<nat>
    /** Calls whose scanner was dropped while it still held their completion. */
    ghost var orphaned: set<nat>

    ghost predicate NotReplied(h: nat)
      reads this
    {
      forall i :: 0 <= i < |replies| ==> replies[i].to != h
    }

    /** Each call is answered at most once, with a consistent `ScanResult`, and a
        dropped call is never answered. */
    ghost predicate RepliesValid()
      reads this
    {
      (forall i, j :: 0 <= i < j < |replies| ==> replies[i].to != replies[j].to)
      && (forall i :: 0 <= i < |replies| ==>
            replies[i].to in received && replies[i].to !in orphaned && ScanResultValid(replies[i].result))
      && orphaned <= received
    }

    /** A scanner kept by the plugin holds the completion of a call still unanswered. */
    ghost predicate Valid()
      reads this, scannerService
    {
      RepliesValid()
      && (scannerService != null ==>
            scannerService.Valid() && scannerService.invoked == []
            && scannerService.scanCompletion.Some?
            && var h := scannerService.scanCompletion.value.reply;
               h in received && h !in orphaned && NotReplied(h))
    }

    constructor()
      ensures Valid() && scannerService == null && replies == []
    {
      scannerService := null;
      replies := [];
      received := {};
      orphaned := {};
    }

    /** `compressScannedImages(_:quality:)`: one entry per input path, in order. */
    method CompressScannedImages(imagePaths: seq<string>, quality: int, disk: Disk) returns (compressedPaths: seq<string>)
      ensures compressedPaths == CompressedPaths(disk, imagePaths, quality)
    {
      compressedPaths := [];
      ghost var choose := p => CompressedOrOriginal(disk, p, quality);
      for i := 0 to |imagePaths|
        invariant compressedPaths == MapPaths(choose, imagePaths[..i])
      {
        assert imagePaths[..i + 1][..i] == imagePaths[..i];
        var result := Image.CompressImage(disk, imagePaths[i], quality);
        if result.Success? {
          compressedPaths := compressedPaths + [result.value.outputPath];
        } else {
          compressedPaths := compressedPaths + [imagePaths[i]];
        }
      }
      assert imagePaths[..|imagePaths|] == imagePaths;
    }

    /** The closure given to `scanner.scanDocument`: complete the Flutter call and drop the scanner. */
    method RunContinuation(c: ScanContinuation, outcome: Result<seq<string>, ScanError>,
                           disk: Disk, describe: IosError -> string)
      requires RepliesValid() && c.reply in received && c.reply !in orphaned && NotReplied(c.reply)
      modifies this
      ensures Valid()
      ensures replies == old(replies) + [Reply(c.reply, ScanOutcomeResult(c.options, outcome, disk, describe))]
      ensures scannerService == null
      ensures received == old(received) && orphaned == old(orphaned)
    {
      var result: ScanResult;
      if outcome.Success? {
        var imagePaths := outcome.value;
        if c.options.autoCompress {
          imagePaths := CompressScannedImages(imagePaths, c.options.compressionQuality, disk);
        }
        result := ScanResult(imagePaths, true, None);
      } else {
        result := ScanFailure(describe(ScanFailed(outcome.error)));
      }
      replies := replies + [Reply(c.reply, result)];
      scannerService := null;
    }

    /** `scanDocument(options:completion:)`: a refused camera permission answers at once;
        otherwise the scan goes ahead. */
    method ScanDocument(reply: nat, options: ScanOptions, device: Device, disk: Disk, describe: IosError -> string)
      requires Valid() && reply !in received
      modifies this, scannerService
      ensures Valid()
      ensures received == old(received) + {reply}
      ensures var permission := Permission.RequestCameraPermission(device.cameraStatus, device.userGrantsAccess);
        permission.Fail? ==>
          replies == old(replies) + [Reply(reply, ScanFailure(describe(PermissionFailure(permission.error))))]
          && scannerService == old(scannerService) && orphaned == old(orphaned)
      ensures Permission.RequestCameraPermission(device.cameraStatus, device.userGrantsAccess).Pass? ==>
        PerformScanEffect(reply, options, device, disk, describe, old(replies), old(scannerService),
                          old(if scannerService == null then None else scannerService.scanCompletion), old(orphaned))
      ensures !IsScanningAvailableOn(device) ==>
        |replies| == |old(replies)| + 1 && replies[|old(replies)|].to == reply
        && !replies[|old(replies)|].result.success
    {
      received := received + {reply};
      var permission := Permission.RequestCameraPermission(device.cameraStatus, device.userGrantsAccess);
      if permission.Fail? {
        replies := replies + [Reply(reply, ScanFailure(describe(PermissionFailure(permission.error))))];
      } else {
        PerformScan(reply, options, device, disk, describe);
      }
    }

    /** What `performScan` leaves behind, given the state before it: a missing root view
        controller or an iOS older than 13 answers at once; otherwise a new scanner
        replaces the current one, whose pending call is dropped, and the new scanner
        either answers `notAvailable` at once or keeps the call pending. */
    ghost predicate PerformScanEffect(reply: nat, options: ScanOptions, device: Device, disk: Disk,
                                      describe: IosError -> string, replies0: seq<Reply>,
                                      scanner0: DocumentScannerService?, pending0: Option<ScanContinuation>,
                                      orphaned0: set<nat>)
      reads this, scannerService
    {
      if !device.hasRootViewController then
        replies == replies0 + [Reply(reply, ScanFailure(NO_VIEW_CONTROLLER))]
        && scannerService == scanner0 && orphaned == orphaned0
      else if !device.atLeastIOS13 then
        replies == replies0 + [Reply(reply, ScanFailure(REQUIRES_IOS13))]
        && scannerService == scanner0 && orphaned == orphaned0
      else
        orphaned == orphaned0 + (if pending0.Some? then {pending0.value.reply} else {})
        && if !device.scannerSupported then
             replies == replies0 + [Reply(reply, ScanFailure(describe(ScanFailed(NotAvailable))))]
             && scannerService == null
           else
             replies == replies0 && scannerService != null && scannerService != scanner0
             && scannerService.scanCompletion == Some(ScanContinuation(reply, options))
    }

    /** `performScan(options:completion:)`. */
    method PerformScan(reply: nat, options: ScanOptions, device: Device, disk: Disk, describe: IosError -> string)
      requires Valid() && reply in received && reply !in orphaned && NotReplied(reply)
      requires scannerService != null ==> scannerService.scanCompletion.value.reply != reply
      modifies this, scannerService
      ensures Valid()
      ensures received == old(received)
      ensures PerformScanEffect(reply, options, device, disk, describe, old(replies), old(scannerService),
                                old(if scannerService == null then None else scannerService.scanCompletion), old(orphaned))
      ensures scannerService != null && scannerService != old(scannerService) ==> fresh(scannerService)
    {
      if !device.hasRootViewController {
        replies := replies + [Reply(reply, ScanFailure(NO_VIEW_CONTROLLER))];
      } else if !device.atLeastIOS13 {
        replies := replies + [Reply(reply, ScanFailure(REQUIRES_IOS13))];
      } else {
        var scanner := new DocumentScannerService(true);
        if scannerService != null {
          orphaned := orphaned + {scannerService.scanCompletion.value.reply};
        }
        scannerService := scanner;
        var fired := scanner.ScanDocument(ScanContinuation(reply, options),
                                          DocumentScanner.IsScanningAvailable(true, device.scannerSupported));
        if fired.Some? {
          RunContinuation(fired.value.continuation, fired.value.outcome, disk, describe);
        }
      }
    }

    /** The scanner reports finished pages; the kept scanner, if any, completes its call. */
    method OnScannerFinished(tempDir: string, pages: seq<PageCapture>, disk: Disk, describe: IosError -> string)
      requires Valid()
      modifies this, scannerService
      ensures Valid()
      ensures received == old(received) && orphaned == old(orphaned)
      ensures old(scannerService) == null ==> replies == old(replies) && scannerService == null
      ensures old(scannerService) != null ==>
        var c := old(scannerService.scanCompletion.value);
        replies == old(replies) + [Reply(c.reply, ScanOutcomeResult(c.options, FinishOutcome(SavedUrls(tempDir, pages)), disk, describe))]
        && scannerService == null
    {
      if scannerService != null {
        var urls, fired := scannerService.DidFinish(tempDir, pages);
        RunContinuation(fired.value.continuation, fired.value.outcome, disk, describe);
      }
    }

    /** The user cancelled the scanner. */
    method OnScannerCancelled(disk: Disk, describe: IosError -> string)
      requires Valid()
      modifies this, scannerService
      ensures Valid()
      ensures received == old(received) && orphaned == old(orphaned)
      ensures old(scannerService) == null ==> replies == old(replies) && scannerService == null
      ensures old(scannerService) != null ==>
        var c := old(scannerService.scanCompletion.value);
        replies == old(replies) + [Reply(c.reply, ScanFailure(describe(ScanFailed(Cancelled))))]
        && scannerService == null
    {
      if scannerService != null {
        var fired := scannerService.DidCancel();
        RunContinuation(fired.value.continuation, fired.value.outcome, disk, describe);
      }
    }

    /** The scanner failed with `error`. */
    method OnScannerFailed(error: ScanError, disk: Disk, describe: IosError -> string)
      requires Valid()
      modifies this, scannerService
      ensures Valid()
      ensures received == old(received) && orphaned == old(orphaned)
      ensures old(scannerService) == null ==> replies == old(replies) && scannerService == null
      ensures old(scannerService) != null ==>
        var c := old(scannerService.scanCompletion.value);
        replies == old(replies) + [Reply(c.reply, ScanFailure(describe(ScanFailed(error))))]
        && scannerService == null
    {
      if scannerService != null {
        var fired := scannerService.DidFail(error);
        RunContinuation(fired.value.continuation, fired.value.outcome, disk, describe);
      }
    }
  }
}
