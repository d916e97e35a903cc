/** The library directories: `GameDir` (index.js:13-18), `_getConfig`
    (index.js:63-72) and `_getDirs` (index.js:74-85). */
module Library {
  import opened Vdf
  import opened Results
  import opened FileSystem

  /** One library directory. `path` is whatever the entry's `path` property
      holds, `undefined` included; `recursive` is always false. */
  datatype GameDir = GameDir(path: Option<Value>, recursive: bool)

  /** `STEAM_CONFIG_DIRS_PATH`, under the platform's base directory. */
  function ConfigPath(baseDir: string): string {
    baseDir + "/config/libraryfolders.vdf"
  }

  /** `STEAM_IMAGE_CACHE_DIR`, under the platform's base directory. */
  function CacheDir(baseDir: string): string {
    baseDir + "/appcache/librarycache"
  }

  /** `_getConfig`: the decoded configuration file, provided it has a
      `libraryfolders` key. */
  function GetConfig(fs: FileSystem, baseDir: string): (r: Result<Value>)
    ensures r == Failure(NotFound(ConfigPath(baseDir))) <==> ConfigPath(baseDir) !in fs.paths
    ensures r.Success? <==>
      Parse(fs, ConfigPath(baseDir)).Success? &&
      Get(Parse(fs, ConfigPath(baseDir)).value, "libraryfolders").Some?
    ensures r.Success? ==> Some(r.value) == fs.files[ConfigPath(baseDir)]
    ensures Parse(fs, ConfigPath(baseDir)).Success? && r.Failure? ==> r.error == MissingLibraryFolders
  {
    match Parse(fs, ConfigPath(baseDir))
    case Failure(e) => Failure(e)
    case Success(config) =>
      if Get(config, "libraryfolders").None? then Failure(MissingLibraryFolders)
      else Success(config)
  }

  /** The number of library entries `_getDirs` reads: every key but the
      last (`i < keys.length - 1`). */
  function UsedKeyCount(folders: Value): (n: nat)
    ensures n < KeyCount(folders) || KeyCount(folders) == 0 == n
    ensures n + 1 >= KeyCount(folders)
  {
    if KeyCount(folders) == 0 then 0 else KeyCount(folders) - 1
  }

  /** What `_getDirs` returns: a `GameDir` for each key of `libraryfolders`
      but the last, holding `libraryfolders[keys[i]].path`. */
  function LibraryDirs(config: Value): Result<seq<GameDir>> {
    match Get(config, "libraryfolders")
    case None => Failure(KeysOfUndefined)
    case Some(folders) =>
      Success(seq(UsedKeyCount(folders), i requires 0 <= i < UsedKeyCount(folders) =>
        GameDir(Chain(Member(folders, i), "path"), false)))
  }

  /** `_getDirs`: the loop that pushes one `GameDir` per key. */
  method GetDirs(config: Value) returns (r: Result<seq<GameDir>>)
    ensures r == LibraryDirs(config)
  {
    var libraryFolders := Get(config, "libraryfolders");
    if libraryFolders.None? {
      return Failure(KeysOfUndefined);
    }
    var folders := libraryFolders.value;
    var keyCount := KeyCount(folders);
    var dirs: seq<GameDir> := [];
    var i := 0;
    while i < keyCount - 1
      invariant 0 <= i <= UsedKeyCount(folders)
      invariant |dirs| == i
      invariant forall j :: 0 <= j < i ==> dirs[j] == GameDir(Chain(Member(folders, j), "path"), false)
    {
      dirs := dirs + [GameDir(Chain(Member(folders, i), "path"), false)];
      i := i + 1;
    }
    assert dirs == LibraryDirs(config).value;
    return Success(dirs);
  }

  /** For a `libraryfolders` object with K distinct keys: K - 1 directories
      (none when K is 0), the i-th holding the `path` of the i-th entry, none
      recursive; the last entry is never read. */
  lemma LibraryDirsOfObject(config: Value, entries: seq<(string, Value)>)
    requires Get(config, "libraryfolders") == Some(Object(entries))
    requires DistinctKeys(entries)
    ensures LibraryDirs(config).Success?
    ensures |LibraryDirs(config).value| == if |entries| == 0 then 0 else |entries| - 1
    ensures forall i :: 0 <= i < |LibraryDirs(config).value| ==>
      LibraryDirs(config).value[i] == GameDir(Get(entries[i].1, "path"), false)
  {
    var dirs := LibraryDirs(config).value;
    forall i | 0 <= i < |dirs|
      ensures dirs[i] == GameDir(Get(entries[i].1, "path"), false)
    {
      MemberOfObject(entries, i);
    }
  }

  /** A configuration `_getConfig` accepts never makes `_getDirs` throw. */
  lemma AcceptedConfigHasDirs(fs: FileSystem, baseDir: string)
    requires GetConfig(fs, baseDir).Success?
    ensures LibraryDirs(GetConfig(fs, baseDir).value).Success?
  {
  }
}
