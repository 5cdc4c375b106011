/** `shouldIncludeFile`: which discovered files belong in the catalogue. */
module Inclusion {
  import opened Wrappers
  import opened FileNames

  /** Extensions of system and temporary files, compared lower-cased. */
  const ExcludedExtensions: seq<string> := [".dat", ".ini", ".log", ".tmp", ".temp", ".db"]
  /** Exact, case-sensitive names of system files. */
  const ExcludedNames: seq<string> := ["Thumbs.db", "desktop.ini", "config"]
  /** Files below this many bytes are thumbnails or placeholders. */
  const MinFileSize: int := 1024

  /** The four checks, in the order the source makes them. `size` is what
      `fs.stat` reports, None when the call fails. */
  function ShouldIncludeFile(fileName: string, size: Option<int>): (r: bool)
    ensures r ==> size.Some? && size.value >= MinFileSize
  {
    var ext := Lower(Extname(fileName));
    if ext in ExcludedExtensions then false
    else if fileName in ExcludedNames then false
    else if MatchesDigitGroups(fileName) then false
    else
      match size
      case None => false
      case Some(n) => n >= MinFileSize
  }

  /** A file is included exactly when all four checks pass, with the digit
      pattern read as the language it denotes. */
  lemma ShouldIncludeFileIff(fileName: string, size: Option<int>)
    ensures ShouldIncludeFile(fileName, size) <==>
      && Lower(Extname(fileName)) !in ExcludedExtensions
      && fileName !in ExcludedNames
      && !DigitGroups(fileName)
      && size.Some? && size.value >= MinFileSize
  {
    MatchesDigitGroupsIff(fileName);
  }

  /** A 2000-byte picture is included; the same name is excluded when it
      is below 1 KB or cannot be stat'ed. */
  lemma SizeExamples()
    ensures ShouldIncludeFile("photo.png", Some(2000))
    ensures !ShouldIncludeFile("photo.png", Some(1023))
    ensures !ShouldIncludeFile("photo.png", None)
  {
    LastDotIs("photo.png", 5);
    assert Extname("photo.png") == ".png";
    assert Lower(".png") == ".png";
    MatchesDigitGroupsIff("photo.png");
    assert "photo.png"[0] == 'p';
  }

  /** Names made of digit groups are excluded whatever their size; a
      trailing underscore breaks the pattern. */
  lemma DigitNameExamples()
    ensures !ShouldIncludeFile("9999", Some(500))
    ensures !ShouldIncludeFile("123_456", Some(4096))
    ensures ShouldIncludeFile("123_", Some(4096))
  {
    DigitGroupsExamples();
    MatchesDigitGroupsIff("9999");
    assert DigitGroups("9999");
    LastDotNone("9999");
    LastDotNone("123_456");
    LastDotNone("123_");
    assert Lower("") == "";
  }

  /** Extensions are compared lower-cased. */
  lemma ExtensionExample()
    ensures !ShouldIncludeFile("cache.DAT", Some(4096))
  {
    LastDotIs("cache.DAT", 5);
    assert Extname("cache.DAT") == ".DAT";
    assert Lower(".DAT") == ".dat";
  }

  /** Excluded names are compared exactly. */
  lemma NameExamples()
    ensures !ShouldIncludeFile("config", Some(4096))
    ensures ShouldIncludeFile("Config", Some(4096))
  {
    LastDotNone("config");
    LastDotNone("Config");
    assert Lower("") == "";
    MatchesDigitGroupsIff("Config");
    assert "Config"[0] == 'C';
  }
}
