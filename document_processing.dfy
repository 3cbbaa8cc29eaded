/** Turning a document into page images and page records (main.py).

    The renderers, the DOCX reader and the three text extractors are outside
    this model: they are parameters. The image files themselves are named by
    their paths, and an extractor reads the image stored at a path. */
module DocumentProcessing {
  import opened Text
  import opened Records

  /** The working directory every run renders into. */
  const OutputFolder := "output_images"
  /** The page cap `process_document` renders a PDF with. */
  const DefaultMaxPages: nat := 5
  const DefaultExtractionMode := "english"

  /** What the document libraries report about a file: the page count the PDF
      renderer sees and the paragraphs the DOCX reader sees. */
  datatype Documents = Documents(pdfPageCount: string -> nat, paragraphs: string -> seq<string>)

  /** The three text extractors, each reading the image at a path. */
  datatype Extractors = Extractors(english: string -> string, hindi: string -> string,
                                   multilingual: string -> string)

  datatype FileKind = Pdf | Docx | Image

  /** The file-type dispatch: `.pdf` and `.docx` are case-sensitive suffixes,
      the image suffixes are matched after lower-casing. */
  function KindOf(path: string): Option<FileKind>
  {
    if EndsWith(path, ".pdf") then Some(Pdf)
    else if EndsWith(path, ".docx") then Some(Docx)
    else if EndsWith(Lower(path), ".png") || EndsWith(Lower(path), ".jpg") || EndsWith(Lower(path), ".jpeg")
    then Some(Image)
    else None
  }

  /** `f"{output_folder}/page_{k}.png"`, the name `image_conversion` gives page `k`. */
  function PagePath(folder: string, k: nat): string
  {
    folder + "/page_" + NatToString(k) + ".png"
  }

  /** `os.path.join(output_folder, f'page_{k}.png')`, the name `docx_to_images` gives page `k`. */
  function DocxPagePath(folder: string, k: nat): string
  {
    PathJoin(folder, "page_" + NatToString(k) + ".png")
  }

  /** The number of images `convert_from_path(first_page=1, last_page=maxPages)` renders. */
  function RenderedCount(total: nat, maxPages: nat): nat
  {
    if total < maxPages then total else maxPages
  }

  /** The page images a document yields: `None` for an unsupported suffix. */
  function PageImages(path: string, docs: Documents, folder: string, maxPages: nat): Option<seq<string>>
  {
    match KindOf(path)
    case Some(Pdf) =>
      var n := RenderedCount(docs.pdfPageCount(path), maxPages);
      Some(seq(n, i requires 0 <= i < n => PagePath(folder, i + 1)))
    case Some(Docx) =>
      var n := |docs.paragraphs(path)|;
      Some(seq(n, i requires 0 <= i < n => DocxPagePath(folder, i + 1)))
    case Some(Image) => Some([path])
    case None => None
  }

  predicate IsExtractionMode(mode: string)
  {
    mode == "english" || mode == "hindi" || mode == "multilingual"
  }

  /** The extraction-mode dispatch for one page: the mode's own extractor, or
      `None` for a mode that is not one of the three. */
  function Transcribe(mode: string, ex: Extractors, image: string): (t: Option<string>)
    ensures t.Some? <==> IsExtractionMode(mode)
  {
    if mode == "english" then Some(ex.english(image))
    else if mode == "hindi" then Some(ex.hindi(image))
    else if mode == "multilingual" then Some(ex.multilingual(image))
    else None
  }

  /** Upper-case `.PDF` is rejected, whatever precedes it. */
  lemma UpperCasePdfRejected(stem: string)
    ensures KindOf(stem + ".PDF") == None
  {
    var s := stem + ".PDF";
    LowerAppend(stem, ".PDF");
    var l := Lower(s);
    assert l[|l| - 1] == 'f';
    assert s[|s| - 1] == 'F';
    if EndsWith(s, ".pdf") { EndsWithLastChar(s, ".pdf"); }
    if EndsWith(s, ".docx") { EndsWithLastChar(s, ".docx"); }
    if EndsWith(l, ".png") { EndsWithLastChar(l, ".png"); }
    if EndsWith(l, ".jpg") { EndsWithLastChar(l, ".jpg"); }
    if EndsWith(l, ".jpeg") { EndsWithLastChar(l, ".jpeg"); }
  }

  /** Upper-case `.PNG` is accepted as an image, whatever precedes it. */
  lemma UpperCasePngAccepted(stem: string)
    ensures KindOf(stem + ".PNG") == Some(Image)
  {
    var s := stem + ".PNG";
    LowerAppend(stem, ".PNG");
    assert Lower(".PNG") == ".png";
    EndsWithAppend(Lower(stem), ".png");
    assert s[|s| - 1] == 'G';
    if EndsWith(s, ".pdf") { EndsWithLastChar(s, ".pdf"); }
    if EndsWith(s, ".docx") { EndsWithLastChar(s, ".docx"); }
  }

  /** Lower-case `.pdf` and `.docx` select their renderers. */
  lemma LowerCaseDocumentsAccepted(stem: string)
    ensures KindOf(stem + ".pdf") == Some(Pdf)
    ensures KindOf(stem + ".docx") == Some(Docx)
  {
    EndsWithAppend(stem, ".pdf");
    EndsWithAppend(stem, ".docx");
    var s := stem + ".docx";
    assert s[|s| - 1] == 'x';
    if EndsWith(s, ".pdf") { EndsWithLastChar(s, ".pdf"); }
  }

  /** Different page ordinals give different file names. */
  lemma PagePathInjective(folder: string, j: nat, k: nat)
    requires PagePath(folder, j) == PagePath(folder, k)
    ensures j == k
  {
    var pre := folder + "/page_";
    var a, b := NatToString(j), NatToString(k);
    assert PagePath(folder, j) == pre + a + ".png";
    assert PagePath(folder, k) == pre + b + ".png";
    assert |a| == |b|;
    assert a == (pre + a + ".png")[|pre|..|pre| + |a|];
    assert b == (pre + b + ".png")[|pre|..|pre| + |b|];
    NatToStringInjective(j, k);
  }

  /** For a folder that is neither empty nor ends in a slash, the two page-naming
      schemes agree. */
  lemma PageNamingAgrees(folder: string, k: nat)
    requires folder != [] && folder[|folder| - 1] != '/'
    ensures DocxPagePath(folder, k) == PagePath(folder, k)
  {
    assert ("page_" + NatToString(k) + ".png")[0] == 'p';
  }

  /** The shape of a document's page images: a PDF yields pages `1..n` with
      `n` bounded by both the page cap and the PDF's length, a DOCX one page per
      paragraph with no cap, an image itself; every name occurs once. */
  lemma PageImagesShape(path: string, docs: Documents, maxPages: nat)
    requires PageImages(path, docs, OutputFolder, maxPages).Some?
    ensures var images := PageImages(path, docs, OutputFolder, maxPages).value;
      && (KindOf(path) == Some(Pdf) ==>
            |images| <= maxPages && |images| <= docs.pdfPageCount(path)
            && (|images| == maxPages || |images| == docs.pdfPageCount(path))
            && forall i :: 0 <= i < |images| ==> images[i] == PagePath(OutputFolder, i + 1))
      && (KindOf(path) == Some(Docx) ==>
            |images| == |docs.paragraphs(path)|
            && forall i :: 0 <= i < |images| ==> images[i] == PagePath(OutputFolder, i + 1))
      && (KindOf(path) == Some(Image) ==> images == [path])
      && forall i, j :: 0 <= i < j < |images| ==> images[i] != images[j]
  {
    var images := PageImages(path, docs, OutputFolder, maxPages).value;
    if KindOf(path) != Some(Image) {
      forall i | 0 <= i < |images| ensures images[i] == PagePath(OutputFolder, i + 1) {
        PageNamingAgrees(OutputFolder, i + 1);
      }
      forall i, j | 0 <= i < j < |images| ensures images[i] != images[j] {
        if images[i] == images[j] {
          PagePathInjective(OutputFolder, i + 1, j + 1);
        }
      }
    }
  }

  /** `image_conversion`: one `page_<n>.png` path per rendered PDF page, in order. */
  method ImageConversion(filePath: string, outputFolder: string, docs: Documents, maxPages: nat := 5)
    returns (imagePaths: seq<string>)
    ensures |imagePaths| == RenderedCount(docs.pdfPageCount(filePath), maxPages)
    ensures forall i :: 0 <= i < |imagePaths| ==> imagePaths[i] == PagePath(outputFolder, i + 1)
  {
    var count := RenderedCount(docs.pdfPageCount(filePath), maxPages);
    imagePaths := [];
    var i := 0;
    while i < count
      invariant 0 <= i <= count
      invariant |imagePaths| == i
      invariant forall k :: 0 <= k < i ==> imagePaths[k] == PagePath(outputFolder, k + 1)
    {
      var outputImagePath := outputFolder + "/page_" + NatToString(i + 1) + ".png";
      imagePaths := imagePaths + [outputImagePath];
      i := i + 1;
    }
  }

  /** `docx_to_images`: one page image per paragraph, in order, without a cap. */
  method DocxToImages(docxPath: string, outputFolder: string, docs: Documents)
    returns (imageFiles: seq<string>)
    ensures |imageFiles| == |docs.paragraphs(docxPath)|
    ensures forall i :: 0 <= i < |imageFiles| ==> imageFiles[i] == DocxPagePath(outputFolder, i + 1)
  {
    var paragraphs := docs.paragraphs(docxPath);
    imageFiles := [];
    var i := 0;
    while i < |paragraphs|
      invariant 0 <= i <= |paragraphs|
      invariant |imageFiles| == i
      invariant forall k :: 0 <= k < i ==> imageFiles[k] == DocxPagePath(outputFolder, k + 1)
    {
      var imageFile := PathJoin(outputFolder, "page_" + NatToString(i + 1) + ".png");
      imageFiles := imageFiles + [imageFile];
      i := i + 1;
    }
  }

  /** The file-type dispatch shared by both pipelines: the page images of the
      document, rendered into `OutputFolder`. */
  method MaterializePages(path: string, docs: Documents, maxPages: nat)
    returns (images: Option<seq<string>>)
    ensures images == PageImages(path, docs, OutputFolder, maxPages)
  {
    var kind := KindOf(path);
    if kind == Some(Pdf) {
      var files := ImageConversion(path, OutputFolder, docs, maxPages);
      assert files == PageImages(path, docs, OutputFolder, maxPages).value;
      images := Some(files);
    } else if kind == Some(Docx) {
      var files := DocxToImages(path, OutputFolder, docs);
      assert files == PageImages(path, docs, OutputFolder, maxPages).value;
      images := Some(files);
    } else if kind == Some(Image) {
      images := Some([path]);
    } else {
      images := None;
    }
  }

  /** `process_document`: the model guard, then the file-type dispatch, then
      one record per page image, the mode checked on each page. */
  method ProcessDocument(filePath: string, extractionMode: string := DefaultExtractionMode,
                         modelLoaded: bool, docs: Documents, ex: Extractors)
    returns (r: Result<seq<Entry>>)
    ensures var pages := PageImages(filePath, docs, OutputFolder, DefaultMaxPages);
      r.Ok? <==> modelLoaded && pages.Some? && (pages.value == [] || IsExtractionMode(extractionMode))
    ensures var pages := PageImages(filePath, docs, OutputFolder, DefaultMaxPages);
      r.Err? ==> r.error == (if !modelLoaded then ModelNotLoaded
                             else if pages.None? then UnsupportedFileType
                             else UnsupportedExtractionMode)
    ensures var pages := PageImages(filePath, docs, OutputFolder, DefaultMaxPages);
      r.Ok? ==> (pages.Some? && |r.value| == |pages.value|
        && forall i :: 0 <= i < |r.value| ==>
             r.value[i] == Entry(Some(pages.value[i]), Transcribe(extractionMode, ex, pages.value[i])))
  {
    if !modelLoaded {
      return Err(ModelNotLoaded);
    }
    var pages := MaterializePages(filePath, docs, DefaultMaxPages);
    if pages.None? {
      return Err(UnsupportedFileType);
    }
    var imageFiles := pages.value;
    var extractedTexts: seq<Entry> := [];
    var i := 0;
    while i < |imageFiles|
      invariant 0 <= i <= |imageFiles|
      invariant i > 0 ==> IsExtractionMode(extractionMode)
      invariant |extractedTexts| == i
      invariant forall k :: 0 <= k < i ==>
        extractedTexts[k] == Entry(Some(imageFiles[k]), Transcribe(extractionMode, ex, imageFiles[k]))
    {
      var imageFile := imageFiles[i];
      var extractedText: string;
      if extractionMode == "english" {
        extractedText := ex.english(imageFile);
      } else if extractionMode == "hindi" {
        extractedText := ex.hindi(imageFile);
      } else if extractionMode == "multilingual" {
        extractedText := ex.multilingual(imageFile);
      } else {
        return Err(UnsupportedExtractionMode);
      }
      extractedTexts := extractedTexts + [Entry(Some(imageFile), Some(extractedText))];
      i := i + 1;
    }
    r := Ok(extractedTexts);
  }
}
