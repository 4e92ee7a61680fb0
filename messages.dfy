/**
 * The three domain records exchanged with the application: scan options,
 * scan results and compression results, their consistency rules, and the
 * string-keyed maps the Android side builds for them.
 */
module Messages {
  import opened Wrappers
  import opened Values

  datatype OutputFormat = Jpeg | Png

  datatype ScanOptions = ScanOptions(outputFormat: OutputFormat, autoCompress: bool, compressionQuality: int)

  datatype ScanResult = ScanResult(imagePaths: seq<string>, success: bool, errorMessage: Option<string>)

  datatype CompressionResult = CompressionResult(
    outputPath: Option<string>,
    originalSize: int,
    compressedSize: int,
    success: bool,
    errorMessage: Option<string>)

  /** A successful scan carries no error message; a failed one carries no paths. */
  predicate ScanResultValid(r: ScanResult) {
    (r.success ==> r.errorMessage.None?) && (!r.success ==> r.imagePaths == [])
  }

  /** A successful compression names its output file and carries no error message. */
  predicate CompressionResultValid(r: CompressionResult) {
    r.success ==> r.outputPath.Some? && r.errorMessage.None?
  }

  /** A failed scan: no paths, `success` false, the given message. */
  function ScanFailure(message: string): (r: ScanResult)
    ensures ScanResultValid(r) && !r.success && r.errorMessage == Some(message)
  {
    ScanResult([], false, Some(message))
  }

  /** The map `mapOf("imagePaths" to ..., "success" to ..., "errorMessage" to ...)`. */
  function ScanResultMap(r: ScanResult): map<string, Value> {
    map["imagePaths" := StringList(r.imagePaths),
        "success" := Bool(r.success),
        "errorMessage" := NullableString(r.errorMessage)]
  }

  /** The map `mapOf("outputPath" to ..., "originalSize" to ..., ..., "errorMessage" to ...)`. */
  function CompressionResultMap(r: CompressionResult): map<string, Value> {
    map["outputPath" := NullableString(r.outputPath),
        "originalSize" := Int(r.originalSize),
        "compressedSize" := Int(r.compressedSize),
        "success" := Bool(r.success),
        "errorMessage" := NullableString(r.errorMessage)]
  }
}
