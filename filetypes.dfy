/** `getFileType`: the coarse category of a file, from its extension. */
module FileTypes {
  import opened FileNames

  /** The categories `getFileType` returns. */
  datatype FileType = Image | Video | Audio | Document | Archive | Other
  {
    /** The string the source uses for the category. */
    function Name(): string
    {
      match this
      case Image => "image"
      case Video => "video"
      case Audio => "audio"
      case Document => "file"
      case Archive => "archive"
      case Other => "other"
    }
  }

  /** The category names are pairwise distinct, so a name identifies its category. */
  lemma NameInjective(a: FileType, b: FileType)
    ensures a.Name() == b.Name() ==> a == b
  {
  }

  const ImageExtensions: seq<string> := [".jpg", ".jpeg", ".png", ".gif", ".bmp", ".webp"]
  const VideoExtensions: seq<string> := [".mp4", ".avi", ".mov", ".wmv", ".flv", ".mkv"]
  const AudioExtensions: seq<string> := [".mp3", ".wav", ".aac", ".flac", ".ogg", ".amr"]
  const DocumentExtensions: seq<string> := [".doc", ".docx", ".xls", ".xlsx", ".ppt", ".pptx", ".pdf", ".txt", ".md"]
  const ArchiveExtensions: seq<string> := [".zip", ".rar", ".7z", ".tar", ".gz", ".bz2"]

  /** The classification table: the lower-cased extensions of each category. */
  function ExtensionsOf(t: FileType): seq<string>
  {
    match t
    case Image => ImageExtensions
    case Video => VideoExtensions
    case Audio => AudioExtensions
    case Document => DocumentExtensions
    case Archive => ArchiveExtensions
    case Other => []
  }

  /** The category of `fileName`. `defaultType` is accepted and not used: an
      extension in no list gives Other whatever is passed. */
  function GetFileType(fileName: string, defaultType: string): FileType
  {
    var ext := Lower(Extname(fileName));
    if ext in ImageExtensions then Image
    else if ext in VideoExtensions then Video
    else if ext in AudioExtensions then Audio
    else if ext in DocumentExtensions then Document
    else if ext in ArchiveExtensions then Archive
    else Other
  }

  /** A named category lists the lower-cased extension; Other means that
      no list holds it. */
  lemma GetFileTypeSpec(fileName: string, defaultType: string)
    ensures GetFileType(fileName, defaultType) != Other ==>
      Lower(Extname(fileName)) in ExtensionsOf(GetFileType(fileName, defaultType))
    ensures GetFileType(fileName, defaultType) == Other ==>
      && Lower(Extname(fileName)) !in ImageExtensions
      && Lower(Extname(fileName)) !in VideoExtensions
      && Lower(Extname(fileName)) !in AudioExtensions
      && Lower(Extname(fileName)) !in DocumentExtensions
      && Lower(Extname(fileName)) !in ArchiveExtensions
  {
  }

  predicate Disjoint(a: seq<string>, b: seq<string>)
  {
    forall i :: 0 <= i < |a| ==> a[i] !in b
  }

  /** No extension is in two lists. */
  lemma VideoDisjoint()
    ensures Disjoint(VideoExtensions, ImageExtensions)
  {
  }

  lemma AudioDisjoint()
    ensures Disjoint(AudioExtensions, ImageExtensions) && Disjoint(AudioExtensions, VideoExtensions)
  {
  }

  lemma DocumentDisjoint()
    ensures Disjoint(DocumentExtensions, ImageExtensions) && Disjoint(DocumentExtensions, VideoExtensions)
    ensures Disjoint(DocumentExtensions, AudioExtensions)
  {
  }

  lemma ArchiveDisjoint()
    ensures Disjoint(ArchiveExtensions, ImageExtensions) && Disjoint(ArchiveExtensions, VideoExtensions)
    ensures Disjoint(ArchiveExtensions, AudioExtensions) && Disjoint(ArchiveExtensions, DocumentExtensions)
  {
  }

  /** The lists do not overlap, so the order of the checks does not matter:
      a file has category `t` exactly when its extension is in `t`'s list. */
  lemma GetFileTypeByTable(fileName: string, defaultType: string, t: FileType)
    requires t != Other
    ensures GetFileType(fileName, defaultType) == t <==> Lower(Extname(fileName)) in ExtensionsOf(t)
  {
    VideoDisjoint();
    AudioDisjoint();
    DocumentDisjoint();
    ArchiveDisjoint();
  }

  /** The category depends on the lower-cased extension only, and not on
      `defaultType`. */
  lemma GetFileTypeDependsOnExtension(a: string, b: string, da: string, db: string)
    requires Lower(Extname(a)) == Lower(Extname(b))
    ensures GetFileType(a, da) == GetFileType(b, db)
  {
  }

  /** An upper-case extension matches its lower-case entry. */
  lemma UpperCaseExtensionExample()
    ensures GetFileType("a.JPG", "other") == Image
  {
    LastDotIs("a.JPG", 1);
    assert Extname("a.JPG") == ".JPG";
    assert Lower(".JPG") == ".jpg";
  }

  /** An unknown extension gives Other even when the caller passes "file". */
  lemma UnknownExtensionExample()
    ensures GetFileType("a.xyz", "file") == Other
  {
    LastDotIs("a.xyz", 1);
    assert Extname("a.xyz") == ".xyz";
    assert Lower(".xyz") == ".xyz";
  }
}
