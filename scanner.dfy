/** The values behind TheSeer\Tools\DirectoryScanner: its pattern fields,
    the configuration calls that change them, and the decision __invoke and
    getFiles take for a path. The filesystem is an abstract input: whether a
    path exists, whether it opens as a directory, and what the filtering
    recursive walk of a root yields. */
module Scanner {

  type Pattern = string
  type Path = string

  datatype Option<+T> = None | Some(value: T)

  /** The reason code DirectoryScannerException::NotFound. */
  const NotFoundCode: int := 1

  /** The pattern handed to the filter when no include pattern was added. */
  const MatchAll: Pattern := "*"

  /** The exceptions a scan can raise. */
  datatype ScanError =
    /** A DirectoryScannerException: the offending path and its reason code. */
    | ScannerError(path: Path, code: int)
    /** The UnexpectedValueException the SPL directory iterators raise for a
        directory they cannot open (a root that is not a directory, or an
        unreadable directory met during the walk). */
    | IteratorError(path: Path)

  /** Either a value or the exception raised before it could be produced. */
  datatype Result<+T> = Success(value: T) | Failure(error: ScanError)

  /** A discovered filesystem object (the SplFileInfo the walk yields). */
  datatype FileEntry = FileEntry(path: Path)

  /** What IncludeExcludeFilterIterator receives through setInclude and setExclude. */
  datatype FilterConfig = FilterConfig(includePatterns: seq<Pattern>, excludePatterns: seq<Pattern>)

  /** One run of the filtered recursive walk: the entries it yields, in
      iteration order, and the directory whose opening stopped it, if any. */
  datatype Walk = Walk(entries: seq<FileEntry>, stoppedAt: Option<Path>)

  /** The host filesystem as seen by a scan: file_exists, whether a path
      opens as a directory for RecursiveDirectoryIterator, and the walk the
      include/exclude filter over the recursive iterator performs for a root. */
  datatype FileSystem = FileSystem(
    fileExists: Path -> bool,
    opensAsDirectory: Path -> bool,
    walk: (Path, FilterConfig) -> Walk)

  /** The four pattern fields of a scanner. `includeList` and `excludeList`
      model the declared fields $include and $exclude that addInclude and
      addExclude append to; `includes` and `excludes` are the separate
      properties that setIncludes and setExcludes create, None until the
      first such call. */
  datatype Config = Config(
    includeList: seq<Pattern>,
    excludeList: seq<Pattern>,
    includes: Option<seq<Pattern>>,
    excludes: Option<seq<Pattern>>)

  /** A freshly constructed scanner. */
  const Initial: Config := Config([], [], None, None)

  /** One call of the scanner's configuration surface. */
  datatype Call =
    | AddInclude(p: Pattern)
    | SetIncludes(a: seq<Pattern>)
    | AddExclude(p: Pattern)
    | SetExcludes(a: seq<Pattern>)

  /** The effect of one configuration call on the scanner's fields: each
      field is touched by exactly one kind of call, so adds and sets never
      interfere. */
  function Step(c: Config, call: Call): (d: Config)
    ensures d.includeList == (if call.AddInclude? then c.includeList + [call.p] else c.includeList)
    ensures d.excludeList == (if call.AddExclude? then c.excludeList + [call.p] else c.excludeList)
    ensures d.includes == (if call.SetIncludes? then Some(call.a) else c.includes)
    ensures d.excludes == (if call.SetExcludes? then Some(call.a) else c.excludes)
  {
    match call
    case AddInclude(p) => c.(includeList := c.includeList + [p])
    case SetIncludes(a) => c.(includes := Some(a))
    case AddExclude(p) => c.(excludeList := c.excludeList + [p])
    case SetExcludes(a) => c.(excludes := Some(a))
  }

  /** The scanner's fields after a sequence of configuration calls. */
  function Run(c: Config, calls: seq<Call>): (d: Config)
    decreases |calls|
  {
    if calls == [] then c else Run(Step(c, calls[0]), calls[1..])
  }

  /** The include list the filter receives: the added patterns, or the single
      match-all pattern when none was added. */
  function EffectiveIncludes(includeList: seq<Pattern>): (r: seq<Pattern>)
    ensures |r| > 0
    ensures includeList != [] ==> r == includeList
    ensures includeList == [] ==> r == [MatchAll]
  {
    if |includeList| > 0 then includeList else [MatchAll]
  }

  /** The decision __invoke takes for a path: fail with NotFound before any
      iterator is built, fail when the directory iterator cannot open the
      root, or configure the filter. */
  function Scan(c: Config, path: Path, fs: FileSystem): (r: Result<FilterConfig>)
    ensures r.Success? <==> fs.fileExists(path) && fs.opensAsDirectory(path)
    ensures !fs.fileExists(path) ==> r == Failure(ScannerError(path, NotFoundCode))
    ensures fs.fileExists(path) && !fs.opensAsDirectory(path) ==> r == Failure(IteratorError(path))
    ensures r.Success? ==> |r.value.includePatterns| > 0 && r.value.excludePatterns == c.excludeList
    ensures r.Success? && c.includeList != [] ==> r.value.includePatterns == c.includeList
    ensures r.Success? && c.includeList == [] ==> r.value.includePatterns == [MatchAll]
  {
    if !fs.fileExists(path) then Failure(ScannerError(path, NotFoundCode))
    else if !fs.opensAsDirectory(path) then Failure(IteratorError(path))
    else Success(FilterConfig(EffectiveIncludes(c.includeList), c.excludeList))
  }

  /** What getFiles returns for a path: the exception of the scan or of the
      walk, or every entry the configured filter yields, in order. */
  function Files(c: Config, path: Path, fs: FileSystem): (r: Result<seq<FileEntry>>)
    ensures !fs.fileExists(path) ==> r == Failure(ScannerError(path, NotFoundCode))
    ensures fs.fileExists(path) && !fs.opensAsDirectory(path) ==> r == Failure(IteratorError(path))
    ensures fs.fileExists(path) && fs.opensAsDirectory(path) ==>
      var w := fs.walk(path, FilterConfig(EffectiveIncludes(c.includeList), c.excludeList));
      r == if w.stoppedAt.Some? then Failure(IteratorError(w.stoppedAt.value)) else Success(w.entries)
  {
    match Scan(c, path, fs)
    case Failure(e) => Failure(e)
    case Success(f) =>
      var w := fs.walk(path, f);
      if w.stoppedAt.Some? then Failure(IteratorError(w.stoppedAt.value)) else Success(w.entries)
  }
}
