/** The orchestrator, `scan` (index.js:157-195): read the configuration,
    extract the library directories, scan their manifests; a stage that
    throws is caught, optionally reported, and replaced by an empty value. */
module Scanner {
  import opened Vdf
  import opened Results
  import opened FileSystem
  import opened Library
  import opened Games
  import opened Manifests
  import opened ManifestProperties

  /** The `console.warn` of the stage that threw, with what it threw. */
  datatype Warning =
    | ConfigWarning(error: ScanError)   // "Unable to get steam config"
    | DirsWarning(error: ScanError)     // "Unable to get steam install dirs"
    | GamesWarning(error: ScanError)    // "Unable to get steam installed games"

  /** What a scan returns, and every warning it would emit when warnings are
      enabled. */
  datatype ScanReport = ScanReport(games: seq<GameRecord>, warnings: seq<Warning>)

  function ScanSpec(fs: FileSystem, baseDir: string): ScanReport {
    match GetConfig(fs, baseDir)
    case Failure(e) => ScanReport([], [ConfigWarning(e)])
    case Success(config) =>
      match LibraryDirs(config)
      case Failure(e) => ScanReport([], [DirsWarning(e)])
      case Success(dirs) =>
        if |dirs| == 0 then ScanReport([], [])
        else
          match InstalledGames(fs, CacheDir(baseDir), dirs)
          case Failure(e) => ScanReport([], [GamesWarning(e)])
          case Success(games) => ScanReport(games, [])
  }

  /** `scan(warn)`: never throws; returns the games and the warnings it
      emitted (none unless `warn`). */
  method Scan(fs: FileSystem, baseDir: string, warn: bool)
    returns (games: seq<SteamGame>, warnings: seq<Warning>)
    ensures Records(games) == ScanSpec(fs, baseDir).games
    ensures warnings == if warn then ScanSpec(fs, baseDir).warnings else []
  {
    warnings := [];
    var config: Option<Value> := None;
    var loaded := GetConfig(fs, baseDir);
    if loaded.Success? {
      config := Some(loaded.value);
    } else if warn {
      warnings := warnings + [ConfigWarning(loaded.error)];
    }

    var dirs: seq<GameDir> := [];
    if config.Some? {
      var extracted := GetDirs(config.value);
      if extracted.Success? {
        dirs := extracted.value;
      } else {
        // The catch at index.js:175-177 cannot be reached: `_getConfig` has
        // already checked that `libraryfolders` is defined.
        assert false;
      }
    }

    games := [];
    if |dirs| > 0 {
      var found := GetInstalledGames(fs, CacheDir(baseDir), dirs);
      if found.Success? {
        games := found.value;
      } else if warn {
        warnings := warnings + [GamesWarning(found.error)];
      }
    }
  }

  /** Two scans of an unchanged filesystem return the same games in the same
      order. */
  method ScanTwice(fs: FileSystem, baseDir: string, warn: bool)
    returns (first: seq<GameRecord>, second: seq<GameRecord>)
    ensures first == second == ScanSpec(fs, baseDir).games
  {
    var games1, _ := Scan(fs, baseDir, warn);
    first := Records(games1);
    var games2, _ := Scan(fs, baseDir, warn);
    second := Records(games2);
  }

  /** At most one warning per scan, never one from `_getDirs`, and a scan
      that warns returns no games. */
  lemma ScanWarnsAtMostOnce(fs: FileSystem, baseDir: string)
    ensures |ScanSpec(fs, baseDir).warnings| <= 1
    ensures forall w :: w in ScanSpec(fs, baseDir).warnings ==> !w.DirsWarning?
    ensures ScanSpec(fs, baseDir).warnings != [] ==> ScanSpec(fs, baseDir).games == []
  {
    if GetConfig(fs, baseDir).Success? {
      AcceptedConfigHasDirs(fs, baseDir);
    }
  }

  /** A missing configuration file: no games and exactly one warning. */
  lemma MissingConfigScansNothing(fs: FileSystem, baseDir: string)
    requires ConfigPath(baseDir) !in fs.paths
    ensures ScanSpec(fs, baseDir) == ScanReport([], [ConfigWarning(NotFound(ConfigPath(baseDir)))])
  {
  }

  /** A configuration without `libraryfolders`: no games and exactly one
      warning. */
  lemma InvalidConfigScansNothing(fs: FileSystem, baseDir: string)
    requires Parse(fs, ConfigPath(baseDir)).Success?
    requires Get(Parse(fs, ConfigPath(baseDir)).value, "libraryfolders").None?
    ensures ScanSpec(fs, baseDir) == ScanReport([], [ConfigWarning(MissingLibraryFolders)])
  {
  }

  /** A single manifest that cannot be read or decoded empties the whole
      scan, whatever the other manifests hold. */
  lemma UnreadableManifestEmptiesScan(fs: FileSystem, baseDir: string, d: nat, name: string)
    requires GetConfig(fs, baseDir).Success?
    requires LibraryDirs(GetConfig(fs, baseDir).value).Success?
    requires var dirs := LibraryDirs(GetConfig(fs, baseDir).value).value;
      && d < |dirs|
      && ManifestDir(dirs[d]) in fs.listings
      && name in fs.listings[ManifestDir(dirs[d])] && IsManifestName(name)
      && (Join(ManifestDir(dirs[d]), name) !in fs.files ||
          fs.files[Join(ManifestDir(dirs[d]), name)].None?)
    ensures ScanSpec(fs, baseDir).games == []
    ensures |ScanSpec(fs, baseDir).warnings| == 1 && ScanSpec(fs, baseDir).warnings[0].GamesWarning?
  {
    var dirs := LibraryDirs(GetConfig(fs, baseDir).value).value;
    UnreadableManifestEscapes(fs, CacheDir(baseDir), dirs, d, name);
  }

  /** Every game a scan returns has a truthy, non-ignored appid and an
      installed flag of 0 or 4. */
  lemma ScannedGamesAreGames(fs: FileSystem, baseDir: string)
    ensures forall game :: game in ScanSpec(fs, baseDir).games ==>
      Truthy(Some(game.appId)) && !IsIgnored(Some(game.appId)) && game.isInstalled in {0, 4}
  {
    if GetConfig(fs, baseDir).Success? && LibraryDirs(GetConfig(fs, baseDir).value).Success? {
      var dirs := LibraryDirs(GetConfig(fs, baseDir).value).value;
      if |dirs| > 0 && InstalledGames(fs, CacheDir(baseDir), dirs).Success? {
        IgnoredNeverScanned(fs, CacheDir(baseDir), dirs);
      }
    }
  }
}
