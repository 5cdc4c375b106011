/** A worked scan of a small storage folder: one profile whose `FileStorage`
    holds an image worth keeping and a numbered placeholder beside it. */
module Scenario {
  import opened Wrappers
  import opened FsTree
  import opened FileNames
  import opened Inclusion
  import opened FileTypes
  import opened Catalog
  import opened Traversal
  import opened Roots
  import opened Scanner

  const Photo: Node := File(Some(Stat(2000, 10, 20)))
  const Placeholder: Node := File(Some(Stat(500, 10, 20)))
  const Month: Node := Dir(true, [Child("photo.png", Photo), Child("9999", Placeholder)])
  const ImageFolder: Node := Dir(true, [Child("2024-01", Month)])
  const FileStorage: Node := Dir(true, [Child("Image", ImageFolder)])
  const Profile: Node := Dir(true, [Child("FileStorage", FileStorage)])
  const Root: Node := Dir(true, [Child("wxid_a", Profile)])

  const UserPath: string := Join("R", "wxid_a")
  const StoragePath: string := Join(UserPath, "FileStorage")
  const ImagePath: string := Join(StoragePath, "Image")
  const MonthPath: string := Join(ImagePath, "2024-01")

  /** The one entry the scan should produce. */
  const Expected: Entry :=
    Entry("photo.png", Join(MonthPath, "photo.png"), 2000, Image, 10, 20, "wxid_a", "2024-01")

  lemma PhotoType()
    ensures GetFileType("photo.png", "image") == Image
  {
    LastDotIs("photo.png", 5);
    assert Extname("photo.png") == ".png";
    assert Lower(".png") == ".png";
  }

  lemma PhotoKept()
    ensures MonthItem(MonthPath, Child("photo.png", Photo), "image", "wxid_a", "2024-01") == [Expected]
  {
    SizeExamples();
    PhotoType();
  }

  lemma PlaceholderDropped()
    ensures MonthItem(MonthPath, Child("9999", Placeholder), "image", "wxid_a", "2024-01") == []
  {
    DigitNameExamples();
  }

  lemma MonthExample()
    ensures MonthEntries(MonthPath, Month, "image", "wxid_a", "2024-01") == [Expected]
  {
    PhotoKept();
    PlaceholderDropped();
    assert MonthPrefix(MonthPath, Month, 1, "image", "wxid_a", "2024-01") == [Expected];
    assert MonthPrefix(MonthPath, Month, 2, "image", "wxid_a", "2024-01") == [Expected] + [];
  }

  lemma FileStorageExample()
    ensures CategoriesEntries(StoragePath, FileStorage, "wxid_a") == [Expected]
  {
    MonthExample();
    assert Lower("Image") == "image";
    assert ChildNamed(FileStorage, "Image") == Some(ImageFolder);
    assert ChildNamed(FileStorage, "Video") == None;
    assert ChildNamed(FileStorage, "File") == None;
    assert ChildNamed(FileStorage, "Audio") == None;
    assert CategoryItem(ImagePath, Child("2024-01", Month), "image", "wxid_a") == [Expected];
    assert CategoryPrefix(ImagePath, ImageFolder, 1, "image", "wxid_a") == [] + [Expected];
    assert CategoryEntries(ImagePath, ImageFolder, "image", "wxid_a") == [Expected];
    assert CategoriesPrefix(StoragePath, FileStorage, 1, "wxid_a") == [Expected];
    assert CategoriesPrefix(StoragePath, FileStorage, 2, "wxid_a") == [Expected];
    assert CategoriesPrefix(StoragePath, FileStorage, 3, "wxid_a") == [Expected];
  }

  /** The root yields exactly the picture: the placeholder fails the digit
      test (and the size test), there is no `msg` folder and no `MsgAttach`. */
  lemma ScanExample(monthOf: int -> string)
    ensures RootsEntries(map["R" := Root], ["R"], monthOf) == [Expected]
  {
    FileStorageExample();
    assert ChildNamed(Profile, "FileStorage") == Some(FileStorage);
    assert ChildNamed(Profile, "msg") == None;
    assert ChildNamed(FileStorage, "MsgAttach") == None;
    assert ProfileEntries(UserPath, Profile, "wxid_a", monthOf) == [Expected];
    assert RootItem("R", Child("wxid_a", Profile), monthOf) == [Expected];
    assert RootPrefix("R", Root, 1, monthOf) == [] + [Expected];
    assert RootEntries("R", Root, monthOf) == [Expected];
    assert ["R"][..0] == [];
  }

  /** A scanner pointed at `R` alone reports the picture, keeps it in the
      cache, and serves the same list again within the expiry: the second
      call ends at time 0, yet the cache still carries the first call's
      finishing time 1500, so no new scan took place. */
  method ScannerExample(monthOf: int -> string) returns (scanner: FileScanner, first: seq<Entry>, second: seq<Entry>)
    ensures first == [Expected] && second == [Expected]
    ensures scanner.cache == Some([Expected]) && scanner.cacheTime == 1500
  {
    scanner := new FileScanner("R", false);
    var host := Host(map["R" := Root], DefaultRoots("N", "S", "V"), monthOf);
    ProbeWithoutDefaults(host.fs, "R", host.defaults);
    ScanExample(monthOf);
    first := scanner.ScanWeChatFiles(host, 1000, 1500);
    second := scanner.ScanWeChatFiles(host, 1500 + CacheExpiry - 1, 0);
  }
}
