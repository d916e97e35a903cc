/** Worked examples: a concrete Steam installation and what a scan of it
    returns. */
module Scenarios {
  import opened Vdf
  import opened Results
  import opened FileSystem
  import opened Library
  import opened Games
  import opened Manifests
  import opened Scanner

  const BASE_DIR: string := "/steam"

  function LibraryEntry(path: string): Value {
    Object([("path", Text(path))])
  }

  /** Two libraries, and a last entry that is not a library. */
  const CONFIG: Value := Object([("libraryfolders", Object([
    ("0", LibraryEntry("/lib1")),
    ("1", LibraryEntry("/lib2")),
    ("2", Object([("contentstatsid", Text("-1"))]))]))])

  function Manifest(appid: string, name: string, stateFlags: string): Value {
    Object([("AppState", Object([
      ("appid", Text(appid)), ("name", Text(name)), ("StateFlags", Text(stateFlags))]))])
  }

  const GAME_MANIFEST: Value := Manifest("100", "Foo", "6")
  const RUNTIME_MANIFEST: Value := Manifest("221410", "Steam for Linux", "4")

  /** `/lib1/steamapps` holds a game, an ignored runtime and another file;
      `/lib2/steamapps` cannot be listed; no artwork is cached. */
  const FS: FileSystem := FileSystem(
    {ConfigPath(BASE_DIR)},
    map["/lib1/steamapps" := ["appmanifest_100.acf", "appmanifest_221410.acf", "libraryfolders.vdf"]],
    map[ConfigPath(BASE_DIR) := Some(CONFIG),
        "/lib1/steamapps/appmanifest_100.acf" := Some(GAME_MANIFEST),
        "/lib1/steamapps/appmanifest_221410.acf" := Some(RUNTIME_MANIFEST)])

  const LIB1: GameDir := GameDir(Some(Text("/lib1")), false)
  const LIB2: GameDir := GameDir(Some(Text("/lib2")), false)

  const FOLDERS: seq<(string, Value)> := [
    ("0", LibraryEntry("/lib1")),
    ("1", LibraryEntry("/lib2")),
    ("2", Object([("contentstatsid", Text("-1"))]))]

  /** The last `libraryfolders` key is skipped. */
  lemma ConfigScenario()
    ensures GetConfig(FS, BASE_DIR) == Success(CONFIG)
    ensures LibraryDirs(CONFIG) == Success([LIB1, LIB2])
  {
    assert Get(CONFIG, "libraryfolders") == Some(Object(FOLDERS));
    LibraryDirsOfObject(CONFIG, FOLDERS);
    var dirs := LibraryDirs(CONFIG).value;
    assert Get(LibraryEntry("/lib1"), "path") == Some(Text("/lib1"));
    assert Get(LibraryEntry("/lib2"), "path") == Some(Text("/lib2"));
    assert |dirs| == 2 && dirs[0] == LIB1 && dirs[1] == LIB2;
    assert dirs == [LIB1, LIB2];
  }

  const GAME: GameRecord := GameRecord(Text("100"), Some(Text("Foo")), 4, None, None, None)

  /** State flags 6 have bit 2 set; without artwork, no image is set; the
      Steam for Linux runtime is ignored. */
  lemma ManifestScenario()
    ensures GameOf(FS.paths, CacheDir(BASE_DIR), GAME_MANIFEST) == Some(GAME)
    ensures GameOf(FS.paths, CacheDir(BASE_DIR), RUNTIME_MANIFEST) == None
  {
    assert "6"[..0] == [] && "6"[0] == '6';
    assert DecimalValue("6") == 6;
    assert StateFlags(GAME_MANIFEST) == Some(Text("6"));
    assert NumberOf(StateFlags(GAME_MANIFEST)) == 6;
    JsAndFour(6);
  }

  /** Only the two `appmanifest_*.acf` entries of the listing are read. */
  lemma ListingScenario()
    ensures ManifestNames(FS.listings["/lib1/steamapps"]) ==
      ["appmanifest_100.acf", "appmanifest_221410.acf"]
  {
    var listing := FS.listings["/lib1/steamapps"];
    assert listing[..2][..1] == ["appmanifest_100.acf"];
    assert [] + ["appmanifest_100.acf"] == ["appmanifest_100.acf"];
    assert listing[..2] == ["appmanifest_100.acf", "appmanifest_221410.acf"];
    assert listing[..1] == ["appmanifest_100.acf"];
    assert listing[..0] == [];
    assert "appmanifest_100.acf"[15..] == ".acf";
    assert "appmanifest_221410.acf"[18..] == ".acf";
    assert "libraryfolders.vdf"[0] != "appmanifest_"[0];
    assert !IsManifestName("libraryfolders.vdf");
  }

  /** Both manifests of `/lib1` can be read and decoded. */
  lemma FilesScenario()
    ensures Join("/lib1/steamapps", "appmanifest_100.acf") in FS.files
    ensures FS.files[Join("/lib1/steamapps", "appmanifest_100.acf")] == Some(GAME_MANIFEST)
    ensures Join("/lib1/steamapps", "appmanifest_221410.acf") in FS.files
    ensures FS.files[Join("/lib1/steamapps", "appmanifest_221410.acf")] == Some(RUNTIME_MANIFEST)
    ensures FS.paths == {ConfigPath(BASE_DIR)}
  {
    assert Join("/lib1/steamapps", "appmanifest_100.acf") == "/lib1/steamapps/appmanifest_100.acf";
    assert Join("/lib1/steamapps", "appmanifest_221410.acf") == "/lib1/steamapps/appmanifest_221410.acf";
  }

  /** The manifests of `/lib1`, one step each. */
  lemma StepsScenario()
    ensures ManifestSteps(FS, CacheDir(BASE_DIR), "/lib1/steamapps",
      ["appmanifest_100.acf", "appmanifest_221410.acf"]) == [Success([GAME]), Success([])]
  {
    FilesScenario();
    ManifestScenario();
  }

  /** One game, then nothing. */
  lemma CollectScenario()
    ensures Collect([Success([GAME]), Success([])]) == Success([GAME])
  {
    var none: seq<GameRecord> := [];
    var steps := [Success([GAME]), Success(none)];
    assert steps[..1] == [Success([GAME])];
    assert steps[..1][..0] == [];
    assert Collect(steps[..1]) == Success(none + [GAME]);
    assert none + [GAME] == [GAME] && [GAME] + none == [GAME];
    assert Collect(steps) == Success([GAME] + none);
  }

  /** `/lib1` yields the one game. */
  lemma FirstLibraryScenario()
    ensures DirStep(FS, CacheDir(BASE_DIR), LIB1) == Success([GAME])
  {
    var manDir := ManifestDir(LIB1);
    assert manDir == "/lib1/steamapps";
    ListingScenario();
    var names := ManifestNames(FS.listings[manDir]);
    assert names == ["appmanifest_100.acf", "appmanifest_221410.acf"];
    StepsScenario();
    var steps := ManifestSteps(FS, CacheDir(BASE_DIR), manDir, names);
    assert steps == [Success([GAME]), Success([])];
    CollectScenario();
  }

  /** `/lib2/steamapps` cannot be listed, so `/lib2` yields nothing. */
  lemma SecondLibraryScenario()
    ensures DirStep(FS, CacheDir(BASE_DIR), LIB2) == Success([])
  {
    assert ManifestDir(LIB2) == "/lib2/steamapps";
    assert "/lib2/steamapps"[4] != "/lib1/steamapps"[4];
  }

  /** The whole scan: one game, no warning. */
  lemma ScanScenario()
    ensures ScanSpec(FS, BASE_DIR) == ScanReport([GAME], [])
  {
    ConfigScenario();
    FirstLibraryScenario();
    SecondLibraryScenario();
    CollectScenario();
    assert DirSteps(FS, CacheDir(BASE_DIR), [LIB1, LIB2]) == [Success([GAME]), Success([])];
  }
}
