/** The filesystem as the scanner observes it during one scan, and `_parse`
    (index.js:53-61). */
module FileSystem {
  import opened Vdf
  import opened Results

  /** What the three `fs` calls would answer:
      - `paths`: the paths `existsSync` reports as existing;
      - `listings`: the entry names `readdirSync` returns for a directory, in
        its order; a directory missing from the map makes `readdirSync` throw;
      - `files`: the decoded content of a file; a file missing from the map
        makes `readFileSync` throw, and `None` makes the decoder throw. */
  datatype FileSystem = FileSystem(
    paths: set<string>,
    listings: map<string, seq<string>>,
    files: map<string, Option<Value>>)

  /** `path.join` and `${a}/${b}` without normalisation. */
  function Join(dir: string, name: string): string {
    dir + "/" + name
  }

  /** `_parse`: check that the file exists, read it, decode it. */
  function Parse(fs: FileSystem, filePath: string): (r: Result<Value>)
    ensures r.Success? <==>
      filePath in fs.paths && filePath in fs.files && fs.files[filePath].Some?
    ensures r.Success? ==> Some(r.value) == fs.files[filePath]
    ensures r.Failure? ==> r.error in {NotFound(filePath), ReadFailed(filePath), DecodeFailed(filePath)}
    ensures r == Failure(NotFound(filePath)) <==> filePath !in fs.paths
  {
    if filePath !in fs.paths then Failure(NotFound(filePath))
    else if filePath !in fs.files then Failure(ReadFailed(filePath))
    else
      match fs.files[filePath]
      case None => Failure(DecodeFailed(filePath))
      case Some(tree) => Success(tree)
  }
}
