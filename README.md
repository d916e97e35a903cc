# steam-find-installed-games, modelled in Dafny

`index.js` finds the Steam games installed on a machine. `scan(warn)` works in three steps:

1. It reads the library configuration `config/libraryfolders.vdf` under Steam's base directory.
2. It turns every entry of its `libraryfolders` object into a `GameDir`, except the last entry.
3. For each of those directories it lists `<path>/steamapps`. It decodes every `appmanifest_*.acf` file there. For each manifest whose `AppState.appid` is truthy and not one of three runtime packages, it builds a `SteamGame`. The game gets an installed flag (`StateFlags & 4`) and the paths of whichever cached artwork files exist.

Each stage that throws is caught. The scan then optionally warns and goes on with an empty value, so `scan` itself never throws.

The model keeps the source's shape:

- `SteamGame` is a class whose fields `_getGameImages` and `_getGameIsInstalled` update in place.
- `_getDirs`, `_getGameImages` and `_getInstalledGames` are methods with loops; `scan` is a method that runs the stages in turn.
- Each method is proved against a specification function on values:
  - `LibraryDirs` for `_getDirs`;
  - `GameOf`, `ManifestSteps` and `DirSteps` for `_getInstalledGames`, combined by the generic `Collect`, which concatenates step results and stops at the first step that throws;
  - `ScanSpec` for `scan`.
- The properties the source promises are lemmas about those functions.

Modules:

- `Vdf` (vdf.dfy): the decoded VDF tree and the JavaScript semantics the code relies on. These are property access, `?.`, `Object.keys`, truthiness, template-literal text, and the number conversion and 32-bit truncation done by `&`.
- `Results` (results.dfy): what a stage throws, and `Collect` with its laws.
- `FileSystem` (filesystem.dfy): the filesystem as one scan observes it, and `_parse`.
- `Library` (library.dfy): `GameDir`, `_getConfig`, `_getDirs`.
- `Games` (games.dfy): `SteamGame`, `_getGameImages`, `_getGameIsInstalled`.
- `Manifests` and `ManifestProperties` (manifests.dfy): `_getInstalledGames` and its properties.
- `Scanner` (scan.dfy): `scan`.
- `Scenarios` (scenarios.dfy): one concrete installation, scanned end to end.

Three behaviours of the code worth stating:

- **`isInstalled` is a number.** It is `StateFlags & 4`, so 0 or 4, and 0 when `StateFlags` is absent (`?? 0` at index.js:135). It is not a boolean that stays undefined.
- **One bad manifest fails the whole game stage.** A manifest that cannot be read or decoded is not skipped: the exception leaves `_getInstalledGames` (index.js:133-134). The whole game list is lost and `scan` returns `[]`.
- **Duplicate appids are kept.** Games found in two libraries both appear, in directory order.

## Model

| member | source | states |
|---|---|---|
| Vdf.Lookup | index.js:67 | a property is found exactly when some entry has that key, and its value comes from such an entry |
| Vdf.MemberOfObject | index.js:79-81 | with distinct keys, `libraryfolders[keys[i]]` is the i-th entry's value |
| Vdf.LookupDistinct | index.js:81 | with distinct keys, looking up the i-th key returns the i-th value |
| Vdf.JsAndFour | index.js:139 | `x & 4`, after ToInt32 truncation to 32 bits, is 4 when bit 2 of x is set and 0 otherwise |
| Vdf.BitAndFour | index.js:106 | the bitwise-and reference definition keeps exactly bit 2 when masked with 4 |
| Vdf.LowBitsKeepBitTwo | index.js:106 | truncation to the low 32 bits does not change bit 2 |
| FileSystem.Parse | index.js:53-61 | `_parse` succeeds exactly when the file exists, is readable and decodes, and returns its decoded content; otherwise it throws "not found" (exactly when the path does not exist), a read error or a decode error |
| Library.GetConfig | index.js:63-72 | "not found" exactly when the configuration is missing; success exactly when it parses and has `libraryfolders`, returning the file's content; a parsed file without `libraryfolders` throws the validation error |
| Library.UsedKeyCount | index.js:80 | the loop bound `keys.length - 1` reads every key but the last, and none of an empty object |
| Library.GetDirs | index.js:74-85 | the loop yields `LibraryDirs`: throws exactly when `libraryfolders` is undefined, otherwise one `GameDir` per key but the last, in key order |
| Library.LibraryDirsOfObject | index.js:74-85 | for K distinct keys: K-1 directories (0 when K is 0), the i-th holding the i-th entry's `path`, never recursive |
| Library.AcceptedConfigHasDirs | index.js:63-85 | a configuration `_getConfig` accepts never makes `_getDirs` throw |
| Games.InstalledFlagIsBitTwo | index.js:135-139 | the installed flag is 0 or 4; it is 4 exactly when bit 2 of `StateFlags` is set; it is 0 when `StateFlags` is absent |
| Games.SteamGame.constructor | index.js:20-36 | a new game holds the given appid, name and flag, and no artwork |
| Games.SteamGame.SetImage | index.js:97 | `game[key] = value` sets that artwork field and changes no other field |
| Games.RecordsAppend | index.js:149 | the records of `games.push(...)` are the old records followed by the new ones |
| Games.GetGameImages | index.js:87-100 | each artwork field becomes its cache path exactly when that file exists and is otherwise unchanged; appid, name and flag are unchanged |
| Games.GetGameIsInstalled | index.js:102-108 | with `StateFlags` present the flag becomes `StateFlags & 4`, otherwise it is unchanged; nothing else changes |
| Manifests.ManifestNames | index.js:126 | the filter never yields more names than the listing holds |
| Manifests.ManifestNamesFilter | index.js:126 | a name survives the filter exactly when it is in the listing and matches `appmanifest_*.acf` |
| Manifests.ManifestNamesAppend | index.js:126 | filtering keeps listing order: filtering `a + b` is filtering `a` followed by filtering `b` |
| Manifests.EscapesAt | index.js:133-134 | after the manifest at position k throws, the whole loop throws that error |
| Manifests.BuildGame | index.js:145-148 | the new game, once enriched, is exactly what `GameOf` says the manifest yields |
| Manifests.ScanManifests | index.js:130-150 | the inner loop succeeds exactly when `Collect` of the manifest steps does, with the same games or the same error |
| Manifests.GetInstalledGames | index.js:110-154 | the outer loop succeeds exactly when `InstalledGames` does, with the same games in the same order or the same error |
| ManifestProperties.GameOfManifest | index.js:135-149 | a manifest yields a game exactly when its appid is truthy and not ignored; the game carries that appid and name, a flag of 4 exactly when bit 2 is set (else 0), and each artwork field holds its cache path exactly when that file exists (else it is unset) |
| ManifestProperties.GameFromDirStep | index.js:119-150 | every game a directory yields comes from an `appmanifest_*.acf` listed in its `steamapps`, which reads, decodes and yields that game |
| ManifestProperties.GameFromSomeManifest | index.js:110-154 | every game `_getInstalledGames` returns comes from an `appmanifest_*.acf` listed in the `steamapps` of one of the libraries, which reads, decodes and yields that game |
| ManifestProperties.IgnoredNeverScanned | index.js:111-144 | no returned game has a falsy appid or one of the three ignored appids, and every flag is 0 or 4 |
| ManifestProperties.UnreadableManifestEscapes | index.js:133-134 | one manifest of a listed directory that cannot be read or decoded makes `_getInstalledGames` throw |
| ManifestProperties.InstalledGamesAppend | index.js:119 | directories are scanned in order: the games of `a + b` are those of `a` then those of `b`, and the first error wins |
| ManifestProperties.UnlistedDirectorySkipped | index.js:122-125 | a directory whose `steamapps` cannot be listed contributes nothing, and the scan goes on |
| ManifestProperties.GamesBounded | index.js:110-154 | `_getInstalledGames` returns at most one game per manifest file of the listed directories |
| Results.CollectStep | index.js:119-150 | one more loop turn adds its items to the collected prefix, or its error |
| Results.CollectFailureSticks | index.js:133-134 | once a turn has thrown, later turns do not matter |
| Results.CollectFails | index.js:110-154 | the loop throws exactly when some turn throws, and with the error of the first turn that throws |
| Results.CollectFirstFailure | index.js:110-154 | the first turn that throws decides the error |
| Results.CollectAllSucceed | index.js:116-149 | when no turn throws, the result is every turn's items concatenated in order |
| Results.CollectAppend | index.js:119 | collecting two runs of turns is collecting each and concatenating, with the first error winning |
| Results.CollectBounded | index.js:149 | the result is no longer than the sum of the turns' caps |
| Results.CollectMember | index.js:149 | every collected item was pushed by a turn that succeeded |
| Scanner.Scan | index.js:157-195 | `scan` never throws; its games are exactly `ScanSpec`'s; its warnings are `ScanSpec`'s when `warn` and none otherwise |
| Scanner.ScanTwice | index.js:157-195 | two scans of the same filesystem return the same games in the same order |
| Scanner.ScanWarnsAtMostOnce | index.js:160-190 | a scan warns at most once, never from `_getDirs`, and returns no games when it warns |
| Scanner.MissingConfigScansNothing | index.js:54-166 | a missing configuration file gives no games and exactly one "not found" warning |
| Scanner.InvalidConfigScansNothing | index.js:67-166 | a configuration without `libraryfolders` gives no games and exactly one warning |
| Scanner.UnreadableManifestEmptiesScan | index.js:133-189 | one unreadable or undecodable manifest of a listed library empties the whole scan, with one warning from the game stage |
| Scanner.ScannedGamesAreGames | index.js:141-186 | every game a scan returns has a truthy, non-ignored appid and a flag of 0 or 4 |
| Scenarios.ConfigScenario | index.js:63-85 | a configuration with libraries `/lib1`, `/lib2` and a trailing metadata entry gives exactly the two directories |
| Scenarios.ManifestScenario | index.js:135-149 | a manifest with appid "100" and StateFlags "6" yields an installed game without artwork; the Steam for Linux runtime (221410) yields none |
| Scenarios.ListingScenario | index.js:126 | only the `appmanifest_*.acf` entries of a listing are kept, in order |
| Scenarios.FilesScenario | index.js:132-133 | the manifest paths are built as `${manDir}/${manName}` |
| Scenarios.StepsScenario | index.js:130-150 | the two manifests give one game and nothing |
| Scenarios.CollectScenario | index.js:149 | one game then nothing collects to that one game |
| Scenarios.FirstLibraryScenario | index.js:119-150 | the first library yields the one game |
| Scenarios.SecondLibraryScenario | index.js:122-125 | an unlistable library yields nothing |
| Scenarios.ScanScenario | index.js:157-195 | the whole scan returns the one game and no warning |

## Left out

- `getSteamsBaseDir` and the platform switch are not modelled. The base directory is a parameter of `GetConfig`, `CacheDir` and `ScanSpec`.
- The `console.log` and `console.warn` calls are not modelled. A warning is kept as which stage threw and with what error; its text is left out.
- The VDF decoder is not part of this model. A file's decoded content is given by the filesystem oracle, and leaves are taken to be strings.
- The `fs` calls are not performed. `existsSync`, `readdirSync` and `readFileSync` are answered by the `FileSystem` value, and its three maps say which calls throw.
- `path.join` normalisation (collapsing `//`, resolving `..`) is not modelled. `Join` concatenates with a `/`.
- `Object.keys` ordering is not derived from the file text. A decoded object lists its properties in JavaScript's enumeration order (integer-like keys first, in numeric order, then the others in insertion order), and the model takes that list as given.
- Vdf.KeyCount: for a string leaf, the model counts characters rather than UTF-16 code units.
- Vdf.NumberOf: only plain decimal numerals are converted. Other strings JavaScript accepts as numbers (a sign, surrounding whitespace, a fraction, hexadecimal, an exponent) are taken as 0. Precision loss above 2^53 is not modelled.
- The test `!STEAM_SOURCE_NAME` in index.js:141 is always false, so it is left out of `Skipped`.
- Scanner.Scan: the `_getDirs` catch (index.js:175-177) is unreachable, because `_getConfig` has already checked `libraryfolders` (`AcceptedConfigHasDirs`). The method marks that branch as dead instead of emitting a `DirsWarning`.
- Manifests.GetInstalledGames: the inner loop over the manifests of one directory is the separate method `ScanManifests`. The body that builds a game is `BuildGame`. The behaviour is the same loop nest.
- The `console.log(scan(true))` at module load is left out.
