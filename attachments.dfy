/** `detect_attachment_type`, written identically in the three front ends:
    the lowercased suffix of a path decides between image, audio, pdf and
    unknown. */
module Attachments {
  import opened Strings
  import opened Paths

  datatype AttachmentType = Image | Audio | Pdf | Unknown {
    /** The string the front ends compare against. */
    function Name(): string {
      match this
      case Image => "image"
      case Audio => "audio"
      case Pdf => "pdf"
      case Unknown => "unknown"
    }
  }

  const ImageExtensions: seq<string> := [".png", ".jpg", ".jpeg", ".webp", ".bmp", ".tiff"]
  const AudioExtensions: seq<string> := [".wav", ".mp3", ".m4a", ".aac", ".flac", ".ogg"]
  const PdfExtension := ".pdf"

  /** The three tests of `detect_attachment_type`, in order, on a suffix
      that has already been lowercased. */
  function Classify(ext: string): (r: AttachmentType)
    ensures r == Image <==> ext in ImageExtensions
    ensures r == Audio <==> ext in AudioExtensions
    ensures r == Pdf <==> ext == PdfExtension
    ensures r == Unknown <==> ext !in ImageExtensions && ext !in AudioExtensions && ext != PdfExtension
  {
    ExtensionListsDisjoint();
    if ext in ImageExtensions then Image
    else if ext in AudioExtensions then Audio
    else if ext == PdfExtension then Pdf
    else Unknown
  }

  lemma ExtensionListsDisjoint()
    ensures forall e :: e in ImageExtensions ==> e !in AudioExtensions && e != PdfExtension
    ensures PdfExtension !in AudioExtensions
  {
  }

  /** `detect_attachment_type(path)`: `path.suffix.lower()`, classified. */
  function DetectAttachmentType(path: string): AttachmentType {
    Classify(Lower(Suffix(path)))
  }

  /** Tabular files and files without a suffix are not attachments any front
      end accepts. */
  lemma TabularIsUnknown()
    ensures Classify(Lower(".csv")) == Unknown
    ensures Classify(Lower(".xlsx")) == Unknown
    ensures Classify(Lower("")) == Unknown
  {
    assert Lower(".csv") == ".csv";
    assert Lower(".xlsx") == ".xlsx";
    assert Lower("") == "";
  }

  /** The comparison ignores case: an upper-case suffix classifies like the
      lower-case one. */
  lemma UpperCaseSuffix(png: string, pdf: string, mp3: string)
    requires png == ".PNG" && pdf == ".Pdf" && mp3 == ".MP3"
    ensures Classify(Lower(png)) == Image
    ensures Classify(Lower(pdf)) == Pdf
    ensures Classify(Lower(mp3)) == Audio
  {
    assert Lower(png) == ".png";
    assert Lower(pdf) == ".pdf";
    assert Lower(mp3) == ".mp3";
  }

  /** A path whose name ends in the extension `e` is classified by `e`. */
  lemma DetectByExtension(dir: string, base: string, e: string)
    requires IsTempBase(base) && IsExtension(e)
    ensures DetectAttachmentType(dir + "/" + base + e) == Classify(Lower(e))
  {
    SuffixOfNamed(dir, base, e);
  }

  /** A path whose name has no dot is unknown. */
  lemma NoSuffixUnknown(dir: string, base: string)
    requires IsTempBase(base)
    ensures DetectAttachmentType(dir + "/" + base) == Unknown
  {
    SuffixOfNamed(dir, base, "");
    assert dir + "/" + base + "" == dir + "/" + base;
    assert Lower("") == "";
  }

  /** The chat front ends classify the temporary copy, the HTTP front end the
      uploaded name; both give the same type. */
  lemma TempCopySameType(dir: string, base: string, original: string)
    requires IsTempBase(base)
    ensures DetectAttachmentType(TempPath(dir, base, original)) == DetectAttachmentType(original)
  {
    TempPathKeepsSuffix(dir, base, original);
  }

  /** The inference entry point a front end calls, with its arguments. */
  datatype Call =
    | QueryCall(query: string)
    | PdfCall(query: string, pdfPath: string, filename: string)
    | ImageCall(query: string, imagePath: string)
    | AudioCall(query: string, audioPath: string)

  /** The call made for a supported attachment saved at `path`. */
  function CallFor(t: AttachmentType, query: string, path: string, filename: string): (c: Call)
    requires t != Unknown
    ensures c.PdfCall? <==> t == Pdf
    ensures c.ImageCall? <==> t == Image
    ensures c.AudioCall? <==> t == Audio
    ensures c.query == query
    ensures c.PdfCall? ==> c.pdfPath == path && c.filename == filename
    ensures c.ImageCall? ==> c.imagePath == path
    ensures c.AudioCall? ==> c.audioPath == path
  {
    match t
    case Pdf => PdfCall(query, path, filename)
    case Image => ImageCall(query, path)
    case Audio => AudioCall(query, path)
  }
}
