/** The manifest scanner, `_getInstalledGames` (index.js:110-154): list the
    `steamapps` directory of every library, read each `appmanifest_*.acf`,
    and build a `SteamGame` for every manifest that names a game. */
module Manifests {
  import opened Vdf
  import opened Results
  import opened FileSystem
  import opened Library
  import opened Games

  /** `IGNORED_ENTRIES_APPIDS`: Steam for Linux, Steamworks Common
      Redistributables, Steam Linux Runtime. */
  const IGNORED_ENTRIES_APPIDS: seq<string> := ["221410", "228980", "1070560"]

  /** `string.startsWith('appmanifest_') && string.endsWith('.acf')`. */
  predicate IsManifestName(name: string) {
    "appmanifest_" <= name && |name| >= 4 && name[|name| - 4..] == ".acf"
  }

  /** `entries.filter(...)`: the manifest file names, in listing order. */
  function ManifestNames(entries: seq<string>): (names: seq<string>)
    ensures |names| <= |entries|
    decreases |entries|
  {
    if entries == [] then []
    else
      var last := entries[|entries| - 1];
      var init := entries[..|entries| - 1];
      assert entries == init + [last];
      ManifestNames(init) + (if IsManifestName(last) then [last] else [])
  }

  /** The filter keeps exactly the manifest names of the listing. */
  lemma {:induction false} ManifestNamesFilter(entries: seq<string>)
    ensures forall name :: name in ManifestNames(entries) <==> name in entries && IsManifestName(name)
    decreases |entries|
  {
    if entries != [] {
      var init := entries[..|entries| - 1];
      assert entries == init + [entries[|entries| - 1]];
      ManifestNamesFilter(init);
    }
  }

  /** Filtering keeps the relative order of the two parts of a listing. */
  lemma {:induction false} ManifestNamesAppend(a: seq<string>, b: seq<string>)
    ensures ManifestNames(a + b) == ManifestNames(a) + ManifestNames(b)
    decreases |b|
  {
    if b == [] {
      assert a + b == a;
    } else {
      var n := |b| - 1;
      var ab := a + b;
      assert ab[..|ab| - 1] == a + b[..n];
      assert ab[|ab| - 1] == b[n];
      assert b[..n] + [b[n]] == b;
      var tail := if IsManifestName(b[n]) then [b[n]] else [];
      assert ManifestNames(ab) == ManifestNames(a + b[..n]) + tail;
      assert ManifestNames(b) == ManifestNames(b[..n]) + tail;
      ManifestNamesAppend(a, b[..n]);
    }
  }

  /** `IGNORED_ENTRIES_APPIDS.includes(appid)`: strict equality with one of
      the three strings. */
  predicate IsIgnored(appid: Option<Value>) {
    appid.Some? && appid.value.Text? && appid.value.text in IGNORED_ENTRIES_APPIDS
  }

  /** The `continue` condition `!appid || IGNORED_ENTRIES_APPIDS.includes(appid)`
      (the test `!STEAM_SOURCE_NAME` is always false). */
  predicate Skipped(appid: Option<Value>) {
    !Truthy(appid) || IsIgnored(appid)
  }

  /** `manData?.AppState?.appid`. */
  function AppIdOf(manifestData: Value): Option<Value> {
    Chain(Get(manifestData, "AppState"), "appid")
  }

  /** `manData?.AppState?.name`. */
  function NameOf(manifestData: Value): Option<Value> {
    Chain(Get(manifestData, "AppState"), "name")
  }

  /** An artwork field after `_getGameImages` on a new game. */
  function Found(paths: set<string>, path: string): Option<string> {
    if path in paths then Some(path) else None
  }

  /** The game a decoded manifest yields, if any: the one `SteamGame`
      built, marked installed and given its artwork. */
  function GameOf(paths: set<string>, cacheDir: string, manifestData: Value): Option<GameRecord> {
    var appid := AppIdOf(manifestData);
    if Skipped(appid) then None
    else
      Some(GameRecord(
        appid.value,
        NameOf(manifestData),
        InstalledFlag(StateFlags(manifestData)),
        Found(paths, ImagePath(cacheDir, appid.value, BoxArt)),
        Found(paths, ImagePath(cacheDir, appid.value, Cover)),
        Found(paths, ImagePath(cacheDir, appid.value, Icon))))
  }

  /** `${dir.path}/steamapps`. */
  function ManifestDir(dir: GameDir): string {
    TemplateText(dir.path) + "/steamapps"
  }

  /** One turn of the inner loop: read and decode the manifest (either may
      throw), then yield its game, if any. */
  function ManifestStep(fs: FileSystem, cacheDir: string, manDir: string, manName: string)
    : Result<seq<GameRecord>>
  {
    var manPath := Join(manDir, manName);
    if manPath !in fs.files then Failure(ReadFailed(manPath))
    else
      match fs.files[manPath]
      case None => Failure(DecodeFailed(manPath))
      case Some(manifestData) =>
        match GameOf(fs.paths, cacheDir, manifestData)
        case None => Success([])
        case Some(game) => Success([game])
  }

  function ManifestSteps(fs: FileSystem, cacheDir: string, manDir: string, names: seq<string>)
    : seq<Result<seq<GameRecord>>>
  {
    seq(|names|, i requires 0 <= i < |names| => ManifestStep(fs, cacheDir, manDir, names[i]))
  }

  /** One turn of the outer loop: a directory that cannot be listed yields
      nothing; otherwise its manifests are scanned in listing order. */
  function DirStep(fs: FileSystem, cacheDir: string, dir: GameDir): Result<seq<GameRecord>> {
    var manDir := ManifestDir(dir);
    if manDir !in fs.listings then Success([])
    else Collect(ManifestSteps(fs, cacheDir, manDir, ManifestNames(fs.listings[manDir])))
  }

  function DirSteps(fs: FileSystem, cacheDir: string, dirs: seq<GameDir>): seq<Result<seq<GameRecord>>> {
    seq(|dirs|, i requires 0 <= i < |dirs| => DirStep(fs, cacheDir, dirs[i]))
  }

  /** What `_getInstalledGames` returns or throws. */
  function InstalledGames(fs: FileSystem, cacheDir: string, dirs: seq<GameDir>): Result<seq<GameRecord>> {
    Collect(DirSteps(fs, cacheDir, dirs))
  }

  /** After the step at `k` has thrown, the whole collection throws it. */
  lemma EscapesAt(steps: seq<Result<seq<GameRecord>>>, k: nat)
    requires k < |steps| && Collect(steps[..k]).Success? && steps[k].Failure?
    ensures Collect(steps) == steps[k]
  {
    CollectStep(steps, k);
    CollectFailureSticks(steps, k + 1);
  }

  /** The body of the inner loop once a manifest has passed the appid test
      (index.js:140-147): a new `SteamGame`, marked installed and given its
      artwork. */
  method BuildGame(paths: set<string>, cacheDir: string, manData: Value) returns (game: SteamGame)
    requires !Skipped(AppIdOf(manData))
    ensures fresh(game)
    ensures GameOf(paths, cacheDir, manData) == Some(game.Record())
  {
    game := new SteamGame(AppIdOf(manData).value, NameOf(manData), InstalledFlag(StateFlags(manData)));
    GetGameIsInstalled(game, manData);
    GetGameImages(game, paths, cacheDir);
  }

  /** The inner loop of `_getInstalledGames` (index.js:130-150) over the
      manifests of one listed directory; a read or decode failure escapes. */
  method ScanManifests(fs: FileSystem, cacheDir: string, manDir: string, manifests: seq<string>)
    returns (r: Result<seq<SteamGame>>)
    ensures r.Success? <==> Collect(ManifestSteps(fs, cacheDir, manDir, manifests)).Success?
    ensures r.Success? ==> Records(r.value) == Collect(ManifestSteps(fs, cacheDir, manDir, manifests)).value
    ensures r.Failure? ==> r.error == Collect(ManifestSteps(fs, cacheDir, manDir, manifests)).error
  {
    ghost var steps := ManifestSteps(fs, cacheDir, manDir, manifests);
    var games: seq<SteamGame> := [];
    for m := 0 to |manifests|
      invariant Collect(steps[..m]) == Success(Records(games))
    {
      var manPath := Join(manDir, manifests[m]);
      if manPath !in fs.files {
        EscapesAt(steps, m);
        return Failure(ReadFailed(manPath));
      }
      var decoded := fs.files[manPath];
      if decoded.None? {
        EscapesAt(steps, m);
        return Failure(DecodeFailed(manPath));
      }
      var manData := decoded.value;
      CollectStep(steps, m);
      if Skipped(AppIdOf(manData)) {
        assert Records(games) + [] == Records(games);
        continue;
      }
      var game := BuildGame(fs.paths, cacheDir, manData);
      RecordsAppend(games, [game]);
      games := games + [game];
    }
    assert steps[..|manifests|] == steps;
    return Success(games);
  }

  /** `_getInstalledGames`: the outer loop over the library directories. A
      directory that cannot be listed is skipped; any other failure escapes. */
  method GetInstalledGames(fs: FileSystem, cacheDir: string, dirs: seq<GameDir>)
    returns (r: Result<seq<SteamGame>>)
    ensures r.Success? <==> InstalledGames(fs, cacheDir, dirs).Success?
    ensures r.Success? ==> Records(r.value) == InstalledGames(fs, cacheDir, dirs).value
    ensures r.Failure? ==> r.error == InstalledGames(fs, cacheDir, dirs).error
  {
    ghost var dirSteps := DirSteps(fs, cacheDir, dirs);
    var games: seq<SteamGame> := [];
    for d := 0 to |dirs|
      invariant Collect(dirSteps[..d]) == Success(Records(games))
    {
      var manDir := ManifestDir(dirs[d]);
      CollectStep(dirSteps, d);
      if manDir !in fs.listings {
        assert Records(games) + [] == Records(games);
        continue;
      }
      var manifests := ManifestNames(fs.listings[manDir]);
      var found := ScanManifests(fs, cacheDir, manDir, manifests);
      if found.Failure? {
        EscapesAt(dirSteps, d);
        return Failure(found.error);
      }
      RecordsAppend(games, found.value);
      games := games + found.value;
    }
    assert dirSteps[..|dirs|] == dirSteps;
    return Success(games);
  }
}

/** Properties of the manifest scanner, stated on its specification. */
module ManifestProperties {
  import opened Vdf
  import opened Results
  import opened FileSystem
  import opened Library
  import opened Games
  import opened Manifests

  /** A decoded manifest yields a game exactly when its `AppState.appid` is
      truthy and not ignored; the game carries that appid and name, an
      installed flag of 4 or 0 according to bit 2 of `StateFlags`, and the
      cache path of each kind of artwork exactly when that file exists. */
  lemma GameOfManifest(paths: set<string>, cacheDir: string, manifestData: Value)
    ensures GameOf(paths, cacheDir, manifestData).None? <==> Skipped(AppIdOf(manifestData))
    ensures GameOf(paths, cacheDir, manifestData).Some? ==>
      var game := GameOf(paths, cacheDir, manifestData).value;
      && Some(game.appId) == AppIdOf(manifestData)
      && game.name == NameOf(manifestData)
      && game.isInstalled in {0, 4}
      && (game.isInstalled == 4 <==> (NumberOf(StateFlags(manifestData)) / 4) % 2 == 1)
      && game.boxArtImage ==
        (if ImagePath(cacheDir, game.appId, BoxArt) in paths
         then Some(ImagePath(cacheDir, game.appId, BoxArt)) else None)
      && game.coverImage ==
        (if ImagePath(cacheDir, game.appId, Cover) in paths
         then Some(ImagePath(cacheDir, game.appId, Cover)) else None)
      && game.iconImage ==
        (if ImagePath(cacheDir, game.appId, Icon) in paths
         then Some(ImagePath(cacheDir, game.appId, Icon)) else None)
  {
    InstalledFlagIsBitTwo(StateFlags(manifestData));
  }

  /** Every game one directory yields comes from an `appmanifest_*.acf` file
      listed in its `steamapps` directory, which can be read and decoded and
      yields that game. */
  lemma GameFromDirStep(fs: FileSystem, cacheDir: string, dir: GameDir, game: GameRecord)
    returns (name: string)
    requires DirStep(fs, cacheDir, dir).Success?
    requires game in DirStep(fs, cacheDir, dir).value
    ensures ManifestDir(dir) in fs.listings
    ensures name in fs.listings[ManifestDir(dir)] && IsManifestName(name)
    ensures Join(ManifestDir(dir), name) in fs.files && fs.files[Join(ManifestDir(dir), name)].Some?
    ensures GameOf(fs.paths, cacheDir, fs.files[Join(ManifestDir(dir), name)].value) == Some(game)
  {
    var manDir := ManifestDir(dir);
    assert manDir in fs.listings;
    var names := ManifestNames(fs.listings[manDir]);
    ManifestNamesFilter(fs.listings[manDir]);
    var steps := ManifestSteps(fs, cacheDir, manDir, names);
    CollectMember(steps, game);
    var m :| 0 <= m < |steps| && steps[m].Success? && game in steps[m].value;
    name := names[m];
    assert steps[m] == ManifestStep(fs, cacheDir, manDir, name);
  }

  /** Every game in a scan's result comes from an `appmanifest_*.acf` file
      listed in the `steamapps` directory of one of the libraries, which can
      be read and decoded and yields that game. */
  lemma GameFromSomeManifest(fs: FileSystem, cacheDir: string, dirs: seq<GameDir>, game: GameRecord)
    returns (d: nat, name: string)
    requires InstalledGames(fs, cacheDir, dirs).Success?
    requires game in InstalledGames(fs, cacheDir, dirs).value
    ensures d < |dirs| && ManifestDir(dirs[d]) in fs.listings
    ensures name in fs.listings[ManifestDir(dirs[d])] && IsManifestName(name)
    ensures Join(ManifestDir(dirs[d]), name) in fs.files && fs.files[Join(ManifestDir(dirs[d]), name)].Some?
    ensures GameOf(fs.paths, cacheDir, fs.files[Join(ManifestDir(dirs[d]), name)].value) == Some(game)
  {
    var dirSteps := DirSteps(fs, cacheDir, dirs);
    CollectMember(dirSteps, game);
    var i :| 0 <= i < |dirSteps| && dirSteps[i].Success? && game in dirSteps[i].value;
    d := i;
    name := GameFromDirStep(fs, cacheDir, dirs[d], game);
  }

  /** No game without a truthy appid, and none of the ignored appids, ever
      reaches the result; every flag is 0 or 4. */
  lemma IgnoredNeverScanned(fs: FileSystem, cacheDir: string, dirs: seq<GameDir>)
    requires InstalledGames(fs, cacheDir, dirs).Success?
    ensures forall game :: game in InstalledGames(fs, cacheDir, dirs).value ==>
      Truthy(Some(game.appId)) && !IsIgnored(Some(game.appId)) && game.isInstalled in {0, 4}
  {
    forall game | game in InstalledGames(fs, cacheDir, dirs).value
      ensures Truthy(Some(game.appId)) && !IsIgnored(Some(game.appId)) && game.isInstalled in {0, 4}
    {
      var d, name := GameFromSomeManifest(fs, cacheDir, dirs, game);
      GameOfManifest(fs.paths, cacheDir, fs.files[Join(ManifestDir(dirs[d]), name)].value);
    }
  }

  /** A manifest of a listed directory that cannot be read or decoded makes
      the whole of `_getInstalledGames` throw: it is not skipped. */
  lemma UnreadableManifestEscapes(fs: FileSystem, cacheDir: string, dirs: seq<GameDir>, d: nat, name: string)
    requires d < |dirs|
    requires ManifestDir(dirs[d]) in fs.listings
    requires name in fs.listings[ManifestDir(dirs[d])] && IsManifestName(name)
    requires var manPath := Join(ManifestDir(dirs[d]), name);
      manPath !in fs.files || fs.files[manPath].None?
    ensures InstalledGames(fs, cacheDir, dirs).Failure?
  {
    var manDir := ManifestDir(dirs[d]);
    var names := ManifestNames(fs.listings[manDir]);
    ManifestNamesFilter(fs.listings[manDir]);
    var k :| 0 <= k < |names| && names[k] == name;
    var steps := ManifestSteps(fs, cacheDir, manDir, names);
    assert steps[k].Failure?;
    CollectFails(steps);
    var dirSteps := DirSteps(fs, cacheDir, dirs);
    assert dirSteps[d].Failure?;
    CollectFails(dirSteps);
  }

  /** Directories are scanned in order: the games of `a + b` are those of `a`
      followed by those of `b`, and the first failure wins. */
  lemma InstalledGamesAppend(fs: FileSystem, cacheDir: string, a: seq<GameDir>, b: seq<GameDir>)
    ensures InstalledGames(fs, cacheDir, a + b) ==
      match InstalledGames(fs, cacheDir, a)
      case Failure(e) => Failure(e)
      case Success(x) =>
        match InstalledGames(fs, cacheDir, b)
        case Failure(e) => Failure(e)
        case Success(y) => Success(x + y)
  {
    assert DirSteps(fs, cacheDir, a + b) == DirSteps(fs, cacheDir, a) + DirSteps(fs, cacheDir, b);
    CollectAppend(DirSteps(fs, cacheDir, a), DirSteps(fs, cacheDir, b));
  }

  /** A library whose `steamapps` cannot be listed contributes no games, and
      the scan goes on with the next directory. */
  lemma UnlistedDirectorySkipped(fs: FileSystem, cacheDir: string, a: seq<GameDir>, dir: GameDir, b: seq<GameDir>)
    requires ManifestDir(dir) !in fs.listings
    ensures InstalledGames(fs, cacheDir, a + [dir] + b) == InstalledGames(fs, cacheDir, a + b)
  {
    InstalledGamesAppend(fs, cacheDir, a + [dir], b);
    InstalledGamesAppend(fs, cacheDir, a, [dir]);
    InstalledGamesAppend(fs, cacheDir, a, b);
    var none: seq<GameRecord> := [];
    var single := [Success(none)];
    assert DirSteps(fs, cacheDir, [dir]) == single;
    assert single[..0] == [];
    assert Collect(single) == Success(none + none);
    assert none + none == none;
    if InstalledGames(fs, cacheDir, a).Success? {
      assert InstalledGames(fs, cacheDir, a).value + [] == InstalledGames(fs, cacheDir, a).value;
    }
  }

  /** How many manifest files the listed directories hold. */
  function ManifestCount(fs: FileSystem, dirs: seq<GameDir>): nat {
    Sum(seq(|dirs|, i requires 0 <= i < |dirs| =>
      var manDir := ManifestDir(dirs[i]);
      if manDir in fs.listings then |ManifestNames(fs.listings[manDir])| else 0))
  }

  lemma {:induction false} SumOfOnes(n: nat)
    ensures Sum(seq(n, _ => 1)) == n
  {
    if n > 0 {
      assert seq(n, _ => 1)[..n - 1] == seq(n - 1, _ => 1);
      SumOfOnes(n - 1);
    }
  }

  /** At most one game per manifest file. */
  lemma GamesBounded(fs: FileSystem, cacheDir: string, dirs: seq<GameDir>)
    ensures InstalledGames(fs, cacheDir, dirs).Success? ==>
      |InstalledGames(fs, cacheDir, dirs).value| <= ManifestCount(fs, dirs)
  {
    var caps := seq(|dirs|, i requires 0 <= i < |dirs| =>
      var manDir := ManifestDir(dirs[i]);
      if manDir in fs.listings then |ManifestNames(fs.listings[manDir])| else 0);
    var dirSteps := DirSteps(fs, cacheDir, dirs);
    forall i | 0 <= i < |dirSteps| && dirSteps[i].Success?
      ensures |dirSteps[i].value| <= caps[i]
    {
      var manDir := ManifestDir(dirs[i]);
      if manDir in fs.listings {
        var names := ManifestNames(fs.listings[manDir]);
        SumOfOnes(|names|);
        CollectBounded(ManifestSteps(fs, cacheDir, manDir, names), seq(|names|, _ => 1));
      }
    }
    CollectBounded(dirSteps, caps);
  }
}
