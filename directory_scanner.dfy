/** The DirectoryScanner object: its four pattern fields as mutable state,
    the methods that change them, the getters, __invoke and getFiles. A
    ghost history records the configuration calls made so far; the fields
    are always what those calls produce from a fresh scanner. */
module ScannerObject {
  import opened Scanner
  import opened ScannerProperties

  class DirectoryScanner {
    var includeList: seq<Pattern>
    var excludeList: seq<Pattern>
    var includes: Option<seq<Pattern>>
    var excludes: Option<seq<Pattern>>
    ghost var history: seq<Call>

    /** The scanner's fields as a value. */
    function State(): Config
      reads this
    {
      Config(includeList, excludeList, includes, excludes)
    }

    /** The fields are what the recorded calls produce from a fresh scanner. */
    ghost predicate Valid()
      reads this
    {
      State() == Run(Initial, history)
    }

    constructor ()
      ensures Valid() && history == []
      ensures State() == Initial
    {
      includeList := [];
      excludeList := [];
      includes := None;
      excludes := None;
      history := [];
    }

    /** Record `call` once it has taken the fields from `prior` to their
        current value. */
    ghost method Record(prior: Config, call: Call)
      requires Run(Initial, history) == prior
      requires State() == Step(prior, call)
      modifies this`history
      ensures history == old(history) + [call]
      ensures Valid()
    {
      RunAppend(Initial, history, [call]);
      RunOne(Run(Initial, history), call);
      history := history + [call];
    }

    method AddInclude(inc: Pattern)
      requires Valid()
      modifies this
      ensures Valid() && history == old(history) + [Call.AddInclude(inc)]
      ensures includeList == old(includeList) + [inc]
      ensures excludeList == old(excludeList) && includes == old(includes) && excludes == old(excludes)
    {
      includeList := includeList + [inc];
      Record(old(State()), Call.AddInclude(inc));
    }

    /** Called without an argument in the source, this is SetIncludes([]). */
    method SetIncludes(inc: seq<Pattern>)
      requires Valid()
      modifies this
      ensures Valid() && history == old(history) + [Call.SetIncludes(inc)]
      ensures includes == Some(inc)
      ensures includeList == old(includeList) && excludeList == old(excludeList) && excludes == old(excludes)
    {
      includes := Some(inc);
      Record(old(State()), Call.SetIncludes(inc));
    }

    /** The argument of the last setIncludes, or None (null) when there was
        none; no addInclude call shows here. */
    function GetIncludes(): (r: Option<seq<Pattern>>)
      requires Valid()
      reads this
      ensures r == LastSetIncludes(history, None)
      ensures r == None <==> !CallsSetIncludes(history)
    {
      RunIncludes(Initial, history);
      GetIncludesFresh(history);
      includes
    }

    method AddExclude(exc: Pattern)
      requires Valid()
      modifies this
      ensures Valid() && history == old(history) + [Call.AddExclude(exc)]
      ensures excludeList == old(excludeList) + [exc]
      ensures includeList == old(includeList) && includes == old(includes) && excludes == old(excludes)
    {
      excludeList := excludeList + [exc];
      Record(old(State()), Call.AddExclude(exc));
    }

    /** Called without an argument in the source, this is SetExcludes([]). */
    method SetExcludes(exc: seq<Pattern>)
      requires Valid()
      modifies this
      ensures Valid() && history == old(history) + [Call.SetExcludes(exc)]
      ensures excludes == Some(exc)
      ensures includeList == old(includeList) && excludeList == old(excludeList) && includes == old(includes)
    {
      excludes := Some(exc);
      Record(old(State()), Call.SetExcludes(exc));
    }

    /** The argument of the last setExcludes, or None (null) when there was
        none; no addExclude call shows here. */
    function GetExcludes(): (r: Option<seq<Pattern>>)
      requires Valid()
      reads this
      ensures r == LastSetExcludes(history, None)
      ensures r == None <==> !CallsSetExcludes(history)
    {
      RunExcludes(Initial, history);
      GetExcludesFresh(history);
      excludes
    }

    /** __invoke: check the path, open the root, then configure the filter
        over the walk with the patterns the add calls appended. */
    method Invoke(path: Path, fs: FileSystem) returns (r: Result<FilterConfig>)
      requires Valid()
      ensures r == Scan(State(), path, fs)
      ensures r.Success? ==>
        r.value == FilterConfig(EffectiveIncludes(AddedIncludes(history)), AddedExcludes(history))
    {
      if !fs.fileExists(path) {
        return Failure(ScannerError(path, NotFoundCode));
      }
      if !fs.opensAsDirectory(path) {
        return Failure(IteratorError(path));
      }
      r := Success(FilterConfig(EffectiveIncludes(includeList), excludeList));
      RunInclude(Initial, history);
      RunExclude(Initial, history);
      assert Initial.includeList + AddedIncludes(history) == AddedIncludes(history);
      assert Initial.excludeList + AddedExcludes(history) == AddedExcludes(history);
    }

    /** getFiles: drain the iterator __invoke returns into a list; an
        exception raised by the walk escapes and the list is discarded. */
    method GetFiles(path: Path, fs: FileSystem) returns (r: Result<seq<FileEntry>>)
      requires Valid()
      ensures r == Files(State(), path, fs)
    {
      var filter := Invoke(path, fs);
      if filter.Failure? {
        return Failure(filter.error);
      }
      var walk := fs.walk(path, filter.value);
      var entries := walk.entries;
      var res: seq<FileEntry> := [];
      var i := 0;
      while i < |entries|
        invariant 0 <= i <= |entries|
        invariant res == entries[..i]
      {
        res := res + [entries[i]];
        i := i + 1;
      }
      if walk.stoppedAt.Some? {
        return Failure(IteratorError(walk.stoppedAt.value));
      }
      assert res == entries;
      return Success(res);
    }
  }
}
