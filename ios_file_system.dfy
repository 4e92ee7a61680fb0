/**
 * What the iOS file system and the platform image and PDF codecs answer, by path.
 * These are the calls the compression services make into code outside this model.
 */
module IosFileSystem {
  import opened Wrappers

  /** `fileExists(atPath:)` and `attributesOfItem(atPath:)[.size] as? Int`. */
  datatype SourceFile = SourceFile(present: bool, sizeAttribute: Option<int>)

  datatype Disk = Disk(
    source: string -> SourceFile,
    // `UIImage(contentsOfFile:) != nil`
    decodesAsImage: string -> bool,
    // `image.jpegData(compressionQuality: quality / 100)?.count` for the image at a path
    jpegLength: (string, int) -> Option<nat>,
    // `PDFDocument(url:) != nil`
    parsesAsPdf: string -> bool,
    // `pdfData.length` once every page was redrawn at a quality
    renderedPdfLength: (string, int) -> nat,
    // `data.write(to:)` completes without throwing
    writable: string -> bool)
}
