/** Callers of the DirectoryScanner object: what its contracts let a client
    conclude about the as-written split between the add and set calls. */
module ScannerClient {
  import opened Scanner
  import opened ScannerObject

  /** A fresh scanner given include and exclude lists through setIncludes
      and setExcludes still scans an existing directory with the match-all
      include and no exclude, and getIncludes returns the list set. */
  method ScanAfterSetters(path: Path, fs: FileSystem, inc: seq<Pattern>, exc: seq<Pattern>)
    returns (r: Result<FilterConfig>, got: Option<seq<Pattern>>)
    requires fs.fileExists(path) && fs.opensAsDirectory(path)
    ensures r == Success(FilterConfig([MatchAll], []))
    ensures got == Some(inc)
  {
    var scanner := new DirectoryScanner();
    scanner.SetIncludes(inc);
    scanner.SetExcludes(exc);
    r := scanner.Invoke(path, fs);
    got := scanner.GetIncludes();
  }

  /** addInclude and addExclude reach the scan in call order, while
      getIncludes and getExcludes stay null. */
  method ScanAfterAdders(path: Path, fs: FileSystem, p: Pattern, q: Pattern, x: Pattern)
    returns (r: Result<FilterConfig>, gotIncludes: Option<seq<Pattern>>, gotExcludes: Option<seq<Pattern>>)
    requires fs.fileExists(path) && fs.opensAsDirectory(path)
    ensures r == Success(FilterConfig([p, q], [x]))
    ensures gotIncludes == None && gotExcludes == None
  {
    var scanner := new DirectoryScanner();
    scanner.AddInclude(p);
    scanner.AddExclude(x);
    scanner.AddInclude(q);
    assert scanner.includeList == [p, q] && scanner.excludeList == [x];
    r := scanner.Invoke(path, fs);
    gotIncludes := scanner.GetIncludes();
    gotExcludes := scanner.GetExcludes();
  }
}
