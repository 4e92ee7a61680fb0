/** iOS `ImageCompressionService`: re-encode an image file as JPEG beside the source. */
module ImageCompressionService {
  import opened Wrappers
  import opened IosFileSystem
  import Paths

  datatype CompressionError = FileNotFound | InvalidImageData | CompressionFailed | SaveFailed

  datatype CompressionInfo = CompressionInfo(outputPath: string, originalSize: int, compressedSize: int)

  const OUTPUT_SUFFIX: string := "_compressed"

  /** Where the compressed copy of `imagePath` is written. */
  function OutputPath(imagePath: string): string {
    Paths.CreateOutputPath(imagePath, OUTPUT_SUFFIX)
  }

  /** `compressImage(at:quality:)`. The checks run in the order exists, size, decode,
      encode, write, and the first that fails decides the error. */
  function CompressImage(disk: Disk, imagePath: string, quality: int): (r: Result<CompressionInfo, CompressionError>)
    ensures var src := disk.source(imagePath);
      r == Failure(FileNotFound) <==> !src.present || src.sizeAttribute.None?
    ensures var src := disk.source(imagePath);
      r == Failure(InvalidImageData) <==>
        src.present && src.sizeAttribute.Some? && !disk.decodesAsImage(imagePath)
    ensures var src := disk.source(imagePath);
      r == Failure(CompressionFailed) <==>
        src.present && src.sizeAttribute.Some? && disk.decodesAsImage(imagePath)
        && disk.jpegLength(imagePath, quality).None?
    ensures var src := disk.source(imagePath);
      r == Failure(SaveFailed) <==>
        src.present && src.sizeAttribute.Some? && disk.decodesAsImage(imagePath)
        && disk.jpegLength(imagePath, quality).Some? && !disk.writable(OutputPath(imagePath))
    ensures r.Success? ==>
      r.value.outputPath == OutputPath(imagePath)
      && r.value.originalSize == disk.source(imagePath).sizeAttribute.value
      && Some(r.value.compressedSize) == disk.jpegLength(imagePath, quality)
  {
    var src := disk.source(imagePath);
    if !src.present then Failure(FileNotFound)
    else if src.sizeAttribute.None? then Failure(FileNotFound)
    else if !disk.decodesAsImage(imagePath) then Failure(InvalidImageData)
    else match disk.jpegLength(imagePath, quality)
      case None => Failure(CompressionFailed)
      case Some(count) =>
        var outputPath := OutputPath(imagePath);
        if !disk.writable(outputPath) then Failure(SaveFailed)
        else Success(CompressionInfo(outputPath, src.sizeAttribute.value, count))
  }

  /** The compressed copy never writes over its source: it sits in the same directory,
      named `<stem>_compressed.<ext>`. */
  lemma CompressedCopyBesideSource(imagePath: string)
    ensures var out := OutputPath(imagePath);
      out != imagePath
      && Paths.Directory(out) == Paths.Directory(imagePath)
      && Paths.LastComponent(out) ==
           Paths.Stem(Paths.LastComponent(imagePath)) + "_compressed." + Paths.Extension(Paths.LastComponent(imagePath))
  {
    Paths.OutputDiffersFromSource(imagePath, OUTPUT_SUFFIX);
    Paths.OutputName(imagePath, OUTPUT_SUFFIX);
  }
}
