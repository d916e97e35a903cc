/** One game record: `SteamGame` (index.js:20-36), and the two steps that
    enrich it in place, `_getGameImages` (index.js:87-100) and
    `_getGameIsInstalled` (index.js:102-108). */
module Games {
  import opened Vdf
  import opened FileSystem

  /** `INSTALLED_MASK` / `installedMask`: bit 2 of `StateFlags`. */
  const INSTALLED_MASK: nat := 4

  /** `stateFlags & INSTALLED_MASK`, where an absent `StateFlags` counts as 0
      (the `?? 0` default; `undefined & 4` is 0 as well). */
  function InstalledFlag(stateFlags: Option<Value>): nat {
    JsAnd(NumberOf(stateFlags), INSTALLED_MASK)
  }

  /** The installed flag is 4 when bit 2 of the state flags is set and 0
      otherwise; absent state flags give 0. */
  lemma InstalledFlagIsBitTwo(stateFlags: Option<Value>)
    ensures InstalledFlag(stateFlags) == if (NumberOf(stateFlags) / 4) % 2 == 1 then 4 else 0
    ensures InstalledFlag(stateFlags) in {0, 4}
    ensures InstalledFlag(stateFlags) != 0 <==> (NumberOf(stateFlags) / 4) % 2 == 1
    ensures stateFlags == None ==> InstalledFlag(stateFlags) == 0
  {
    JsAndFour(NumberOf(stateFlags));
  }

  /** `manifestData?.AppState?.StateFlags`. */
  function StateFlags(manifestData: Value): Option<Value> {
    Chain(Get(manifestData, "AppState"), "StateFlags")
  }

  /** The three artwork fields, in the order `_getGameImages` visits them. */
  datatype ImageKind = BoxArt | Cover | Icon

  const IMAGE_KINDS: seq<ImageKind> := [BoxArt, Cover, Icon]

  /** The cache file name of one kind of artwork, `${game.appId}_...jpg`. */
  function ImageFile(appId: Value, kind: ImageKind): string {
    TemplateText(Some(appId)) +
      match kind
      case BoxArt => "_library_600x900.jpg"
      case Cover => "_header.jpg"
      case Icon => "_icon.jpg"
  }

  function ImagePath(cacheDir: string, appId: Value, kind: ImageKind): string {
    Join(cacheDir, ImageFile(appId, kind))
  }

  /** A `SteamGame` as a value: what the scan returns. */
  datatype GameRecord = GameRecord(
    appId: Value,
    name: Option<Value>,
    isInstalled: nat,
    boxArtImage: Option<string>,
    coverImage: Option<string>,
    iconImage: Option<string>)

  class SteamGame {
    var name: Option<Value>
    var isInstalled: nat
    var appId: Value
    var boxArtImage: Option<string>
    var coverImage: Option<string>
    var iconImage: Option<string>

    /** A new game, with no artwork yet. */
    constructor (appid: Value, name: Option<Value>, isInstalled: nat)
      ensures Record() == GameRecord(appid, name, isInstalled, None, None, None)
    {
      this.appId := appid;
      this.name := name;
      this.isInstalled := isInstalled;
      this.boxArtImage := None;
      this.coverImage := None;
      this.iconImage := None;
    }

    /** The current field values. */
    function Record(): GameRecord
      reads this
    {
      GameRecord(appId, name, isInstalled, boxArtImage, coverImage, iconImage)
    }

    /** `game[key]` for the artwork keys. */
    function Image(kind: ImageKind): Option<string>
      reads this
    {
      match kind
      case BoxArt => boxArtImage
      case Cover => coverImage
      case Icon => iconImage
    }

    /** `game[key] = value` for the artwork keys. */
    method SetImage(kind: ImageKind, path: string)
      modifies this
      ensures Image(kind) == Some(path)
      ensures forall other :: other != kind ==> Image(other) == old(Image(other))
      ensures appId == old(appId) && name == old(name) && isInstalled == old(isInstalled)
    {
      match kind
      case BoxArt => boxArtImage := Some(path);
      case Cover => coverImage := Some(path);
      case Icon => iconImage := Some(path);
    }
  }

  /** The records of a list of games, in order. */
  function Records(games: seq<SteamGame>): (records: seq<GameRecord>)
    reads set g | g in games
    ensures |records| == |games|
    decreases |games|
  {
    if games == [] then []
    else Records(games[..|games| - 1]) + [games[|games| - 1].Record()]
  }

  lemma {:induction false} RecordsAppend(a: seq<SteamGame>, b: seq<SteamGame>)
    ensures Records(a + b) == Records(a) + Records(b)
    decreases |b|
  {
    if b == [] {
      assert a + b == a;
    } else {
      var n := |b| - 1;
      assert (a + b)[..|a| + n] == a + b[..n];
      RecordsAppend(a, b[..n]);
    }
  }

  /** `_getGameImages`: each artwork field is set to its cache path when that
      file exists and is otherwise left as it was; nothing else changes. */
  method GetGameImages(game: SteamGame, paths: set<string>, cacheDir: string)
    modifies game
    ensures game.appId == old(game.appId) && game.name == old(game.name)
    ensures game.isInstalled == old(game.isInstalled)
    ensures forall kind ::
      game.Image(kind) ==
        (if ImagePath(cacheDir, game.appId, kind) in paths
         then Some(ImagePath(cacheDir, game.appId, kind))
         else old(game.Image(kind)))
  {
    for i := 0 to |IMAGE_KINDS|
      invariant game.appId == old(game.appId) && game.name == old(game.name)
      invariant game.isInstalled == old(game.isInstalled)
      invariant forall j :: 0 <= j < i ==>
        game.Image(IMAGE_KINDS[j]) ==
          (if ImagePath(cacheDir, game.appId, IMAGE_KINDS[j]) in paths
           then Some(ImagePath(cacheDir, game.appId, IMAGE_KINDS[j]))
           else old(game.Image(IMAGE_KINDS[j])))
      invariant forall j :: i <= j < |IMAGE_KINDS| ==>
        game.Image(IMAGE_KINDS[j]) == old(game.Image(IMAGE_KINDS[j]))
    {
      var kind := IMAGE_KINDS[i];
      var image := ImagePath(cacheDir, game.appId, kind);
      if image in paths {
        game.SetImage(kind, image);
      }
    }
    forall kind
      ensures game.Image(kind) ==
        if ImagePath(cacheDir, game.appId, kind) in paths
        then Some(ImagePath(cacheDir, game.appId, kind))
        else old(game.Image(kind))
    {
      assert kind == IMAGE_KINDS[match kind case BoxArt => 0 case Cover => 1 case Icon => 2];
    }
  }

  /** `_getGameIsInstalled`: when the manifest has `StateFlags`, the
      installed flag becomes `StateFlags & 4`; otherwise it stays. Nothing
      else changes. */
  method GetGameIsInstalled(game: SteamGame, manifestData: Value)
    modifies game
    ensures game.isInstalled ==
      if StateFlags(manifestData).Some? then InstalledFlag(StateFlags(manifestData))
      else old(game.isInstalled)
    ensures game.Record() == old(game.Record()).(isInstalled := game.isInstalled)
  {
    var stateFlags := StateFlags(manifestData);
    if stateFlags.Some? {
      game.isInstalled := InstalledFlag(stateFlags);
    }
  }
}
