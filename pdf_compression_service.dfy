/** iOS `PDFCompressionService`: redraw a PDF's pages at a JPEG quality into a new PDF. */
module PdfCompressionService {
  import opened Wrappers
  import opened IosFileSystem
  import Paths

  /** `compressionFailed` is declared but no path of `compressPDF` returns it. */
  datatype CompressionError = FileNotFound | InvalidPDFData | CompressionFailed | SaveFailed

  datatype CompressionInfo = CompressionInfo(outputPath: string, originalSize: int, compressedSize: int)

  const OUTPUT_SUFFIX: string := "_compressed"

  function OutputPath(pdfPath: string): string {
    Paths.CreateOutputPath(pdfPath, OUTPUT_SUFFIX)
  }

  /** `compressPDF(at:quality:)`: exists, size, parse, then render and write. */
  function CompressPdf(disk: Disk, pdfPath: string, quality: int): (r: Result<CompressionInfo, CompressionError>)
    ensures var src := disk.source(pdfPath);
      r == Failure(FileNotFound) <==> !src.present || src.sizeAttribute.None?
    ensures var src := disk.source(pdfPath);
      r == Failure(InvalidPDFData) <==> src.present && src.sizeAttribute.Some? && !disk.parsesAsPdf(pdfPath)
    ensures var src := disk.source(pdfPath);
      r == Failure(SaveFailed) <==>
        src.present && src.sizeAttribute.Some? && disk.parsesAsPdf(pdfPath) && !disk.writable(OutputPath(pdfPath))
    ensures r != Failure(CompressionFailed)
    ensures r.Success? ==>
      r.value.outputPath == OutputPath(pdfPath)
      && r.value.originalSize == disk.source(pdfPath).sizeAttribute.value
      && r.value.compressedSize == disk.renderedPdfLength(pdfPath, quality)
  {
    var src := disk.source(pdfPath);
    if !src.present then Failure(FileNotFound)
    else if src.sizeAttribute.None? then Failure(FileNotFound)
    else if !disk.parsesAsPdf(pdfPath) then Failure(InvalidPDFData)
    else
      var outputPath := OutputPath(pdfPath);
      var length := disk.renderedPdfLength(pdfPath, quality);
      if !disk.writable(outputPath) then Failure(SaveFailed)
      else Success(CompressionInfo(outputPath, src.sizeAttribute.value, length))
  }

  /** A `<stem>.pdf` document is compressed into `<stem>_compressed.pdf` beside it, by the
      image service's naming rule, and never onto itself. */
  lemma PdfOutputNaming(pdfPath: string, stem: string)
    requires Paths.LastComponent(pdfPath) == stem + ".pdf" && stem != ""
    ensures var out := OutputPath(pdfPath);
      out != pdfPath
      && Paths.Directory(out) == Paths.Directory(pdfPath)
      && Paths.LastComponent(out) == stem + "_compressed.pdf"
  {
    PdfNameParts(stem);
    Paths.SplitsAtDot(stem, "pdf");
    Paths.OutputDiffersFromSource(pdfPath, OUTPUT_SUFFIX);
    Paths.OutputName(pdfPath, OUTPUT_SUFFIX);
  }

  lemma PdfNameParts(stem: string)
    ensures stem + ".pdf" == stem + "." + "pdf"
    ensures stem + OUTPUT_SUFFIX + "." + "pdf" == stem + "_compressed.pdf"
  {
  }
}
