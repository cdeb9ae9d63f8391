/** Properties of sequences of configuration calls on a DirectoryScanner:
    what each field holds afterwards, and which calls a scan can observe. */
module ScannerProperties {
  import opened Scanner

  /** The patterns passed to addInclude, in call order. */
  function AddedIncludes(calls: seq<Call>): (r: seq<Pattern>)
    decreases |calls|
  {
    if calls == [] then []
    else (if calls[0].AddInclude? then [calls[0].p] else []) + AddedIncludes(calls[1..])
  }

  /** The patterns passed to addExclude, in call order. */
  function AddedExcludes(calls: seq<Call>): (r: seq<Pattern>)
    decreases |calls|
  {
    if calls == [] then []
    else (if calls[0].AddExclude? then [calls[0].p] else []) + AddedExcludes(calls[1..])
  }

  /** The argument of the last setIncludes call, or `prior` when there is none. */
  function LastSetIncludes(calls: seq<Call>, prior: Option<seq<Pattern>>): (r: Option<seq<Pattern>>)
    decreases |calls|
  {
    if calls == [] then prior
    else LastSetIncludes(calls[1..], if calls[0].SetIncludes? then Some(calls[0].a) else prior)
  }

  /** The argument of the last setExcludes call, or `prior` when there is none. */
  function LastSetExcludes(calls: seq<Call>, prior: Option<seq<Pattern>>): (r: Option<seq<Pattern>>)
    decreases |calls|
  {
    if calls == [] then prior
    else LastSetExcludes(calls[1..], if calls[0].SetExcludes? then Some(calls[0].a) else prior)
  }

  /** Whether some call in the sequence is a setIncludes. */
  predicate CallsSetIncludes(calls: seq<Call>) {
    exists i :: 0 <= i < |calls| && calls[i].SetIncludes?
  }

  /** Running two call sequences one after the other is running their
      concatenation. */
  lemma {:induction false} RunAppend(c: Config, first: seq<Call>, second: seq<Call>)
    ensures Run(c, first + second) == Run(Run(c, first), second)
    decreases |first|
  {
    if first == [] {
      assert first + second == second;
    } else {
      assert (first + second)[0] == first[0];
      assert (first + second)[1..] == first[1..] + second;
      RunAppend(Step(c, first[0]), first[1..], second);
    }
  }

  /** A single call runs as one step. */
  lemma RunOne(c: Config, call: Call)
    ensures Run(c, [call]) == Step(c, call)
  {
    assert [call][1..] == [];
  }

  /** `includeList` holds exactly the patterns added, appended in call order;
      no other call touches it. */
  lemma {:induction false} RunInclude(c: Config, calls: seq<Call>)
    ensures Run(c, calls).includeList == c.includeList + AddedIncludes(calls)
    decreases |calls|
  {
    if calls != [] {
      RunInclude(Step(c, calls[0]), calls[1..]);
      assert c.includeList + (if calls[0].AddInclude? then [calls[0].p] else []) + AddedIncludes(calls[1..])
          == c.includeList + ((if calls[0].AddInclude? then [calls[0].p] else []) + AddedIncludes(calls[1..]));
    }
  }

  /** `excludeList` holds exactly the patterns added, appended in call order;
      no other call touches it. */
  lemma {:induction false} RunExclude(c: Config, calls: seq<Call>)
    ensures Run(c, calls).excludeList == c.excludeList + AddedExcludes(calls)
    decreases |calls|
  {
    if calls != [] {
      RunExclude(Step(c, calls[0]), calls[1..]);
      assert c.excludeList + (if calls[0].AddExclude? then [calls[0].p] else []) + AddedExcludes(calls[1..])
          == c.excludeList + ((if calls[0].AddExclude? then [calls[0].p] else []) + AddedExcludes(calls[1..]));
    }
  }

  /** getIncludes afterwards returns the argument of the last setIncludes,
      whatever addInclude calls came in between. */
  lemma {:induction false} RunIncludes(c: Config, calls: seq<Call>)
    ensures Run(c, calls).includes == LastSetIncludes(calls, c.includes)
    decreases |calls|
  {
    if calls != [] {
      RunIncludes(Step(c, calls[0]), calls[1..]);
    }
  }

  /** getExcludes afterwards returns the argument of the last setExcludes,
      whatever addExclude calls came in between. */
  lemma {:induction false} RunExcludes(c: Config, calls: seq<Call>)
    ensures Run(c, calls).excludes == LastSetExcludes(calls, c.excludes)
    decreases |calls|
  {
    if calls != [] {
      RunExcludes(Step(c, calls[0]), calls[1..]);
    }
  }

  lemma {:induction false} LastSetIncludesNone(calls: seq<Call>, prior: Option<seq<Pattern>>)
    ensures LastSetIncludes(calls, prior) == None <==> prior == None && !CallsSetIncludes(calls)
    decreases |calls|
  {
    if calls != [] {
      var next := if calls[0].SetIncludes? then Some(calls[0].a) else prior;
      LastSetIncludesNone(calls[1..], next);
      if CallsSetIncludes(calls) && !calls[0].SetIncludes? {
        var i :| 0 <= i < |calls| && calls[i].SetIncludes?;
        assert calls[1..][i - 1].SetIncludes?;
      }
      if CallsSetIncludes(calls[1..]) {
        var i :| 0 <= i < |calls[1..]| && calls[1..][i].SetIncludes?;
        assert calls[i + 1].SetIncludes?;
      }
    }
  }

  /** On a fresh scanner getIncludes returns null (None) exactly when
      setIncludes was never called; addInclude never makes it non-null. */
  lemma GetIncludesFresh(calls: seq<Call>)
    ensures Run(Initial, calls).includes == None <==> !CallsSetIncludes(calls)
  {
    RunIncludes(Initial, calls);
    LastSetIncludesNone(calls, None);
  }

  /** Whether some call in the sequence is a setExcludes. */
  predicate CallsSetExcludes(calls: seq<Call>) {
    exists i :: 0 <= i < |calls| && calls[i].SetExcludes?
  }

  lemma {:induction false} LastSetExcludesNone(calls: seq<Call>, prior: Option<seq<Pattern>>)
    ensures LastSetExcludes(calls, prior) == None <==> prior == None && !CallsSetExcludes(calls)
    decreases |calls|
  {
    if calls != [] {
      var next := if calls[0].SetExcludes? then Some(calls[0].a) else prior;
      LastSetExcludesNone(calls[1..], next);
      if CallsSetExcludes(calls) && !calls[0].SetExcludes? {
        var i :| 0 <= i < |calls| && calls[i].SetExcludes?;
        assert calls[1..][i - 1].SetExcludes?;
      }
      if CallsSetExcludes(calls[1..]) {
        var i :| 0 <= i < |calls[1..]| && calls[1..][i].SetExcludes?;
        assert calls[i + 1].SetExcludes?;
      }
    }
  }

  /** On a fresh scanner getExcludes returns null (None) exactly when
      setExcludes was never called; addExclude never makes it non-null. */
  lemma GetExcludesFresh(calls: seq<Call>)
    ensures Run(Initial, calls).excludes == None <==> !CallsSetExcludes(calls)
  {
    RunExcludes(Initial, calls);
    LastSetExcludesNone(calls, None);
  }

  lemma {:induction false} LastSetIncludesKeeps(calls: seq<Call>, prior: Option<seq<Pattern>>)
    requires !CallsSetIncludes(calls)
    ensures LastSetIncludes(calls, prior) == prior
    decreases |calls|
  {
    if calls != [] {
      assert !calls[0].SetIncludes? by { assert calls[0] == calls[0 + 0]; }
      assert !CallsSetIncludes(calls[1..]) by {
        forall i | 0 <= i < |calls[1..]| ensures !calls[1..][i].SetIncludes? {
          assert calls[1..][i] == calls[i + 1];
        }
      }
      LastSetIncludesKeeps(calls[1..], prior);
    }
  }

  lemma {:induction false} LastSetExcludesKeeps(calls: seq<Call>, prior: Option<seq<Pattern>>)
    requires !CallsSetExcludes(calls)
    ensures LastSetExcludes(calls, prior) == prior
    decreases |calls|
  {
    if calls != [] {
      assert !calls[0].SetExcludes? by { assert calls[0] == calls[0 + 0]; }
      assert !CallsSetExcludes(calls[1..]) by {
        forall i | 0 <= i < |calls[1..]| ensures !calls[1..][i].SetExcludes? {
          assert calls[1..][i] == calls[i + 1];
        }
      }
      LastSetExcludesKeeps(calls[1..], prior);
    }
  }

  /** After any calls `pre` and then setIncludes(a), getIncludes returns exactly a
      until the next setIncludes, whatever add or other calls follow. */
  lemma SetThenGetIncludes(c: Config, pre: seq<Call>, a: seq<Pattern>, post: seq<Call>)
    requires !CallsSetIncludes(post)
    ensures Run(c, pre + [SetIncludes(a)] + post).includes == Some(a)
  {
    var mid := Run(c, pre + [SetIncludes(a)]);
    RunAppend(c, pre + [SetIncludes(a)], post);
    RunAppend(c, pre, [SetIncludes(a)]);
    RunOne(Run(c, pre), SetIncludes(a));
    assert mid.includes == Some(a);
    RunIncludes(mid, post);
    LastSetIncludesKeeps(post, Some(a));
  }

  /** After any calls `pre` and then setExcludes(a), getExcludes returns exactly a
      until the next setExcludes, whatever add or other calls follow. */
  lemma SetThenGetExcludes(c: Config, pre: seq<Call>, a: seq<Pattern>, post: seq<Call>)
    requires !CallsSetExcludes(post)
    ensures Run(c, pre + [SetExcludes(a)] + post).excludes == Some(a)
  {
    var mid := Run(c, pre + [SetExcludes(a)]);
    RunAppend(c, pre + [SetExcludes(a)], post);
    RunAppend(c, pre, [SetExcludes(a)]);
    RunOne(Run(c, pre), SetExcludes(a));
    assert mid.excludes == Some(a);
    RunExcludes(mid, post);
    LastSetExcludesKeeps(post, Some(a));
  }

  /** A scan after any calls sees the added patterns only: it equals the scan
      of the starting fields with AddedIncludes and AddedExcludes appended,
      so setIncludes and setExcludes have no influence on it. */
  lemma ScanAfterRun(c: Config, calls: seq<Call>, path: Path, fs: FileSystem)
    ensures Scan(Run(c, calls), path, fs)
         == Scan(c.(includeList := c.includeList + AddedIncludes(calls),
                    excludeList := c.excludeList + AddedExcludes(calls)), path, fs)
  {
    RunInclude(c, calls);
    RunExclude(c, calls);
  }

  /** Two call sequences that add the same include patterns in the same order
      and the same exclude patterns in the same order scan identically,
      however the include and exclude additions are interleaved and whatever
      setIncludes/setExcludes calls they hold. */
  lemma ScanOrderIndependent(c: Config, calls1: seq<Call>, calls2: seq<Call>, path: Path, fs: FileSystem)
    requires AddedIncludes(calls1) == AddedIncludes(calls2)
    requires AddedExcludes(calls1) == AddedExcludes(calls2)
    ensures Scan(Run(c, calls1), path, fs) == Scan(Run(c, calls2), path, fs)
    ensures Files(Run(c, calls1), path, fs) == Files(Run(c, calls2), path, fs)
  {
    ScanAfterRun(c, calls1, path, fs);
    ScanAfterRun(c, calls2, path, fs);
  }

  /** From a fresh scanner, a path that exists is scanned with the added
      include patterns (or the match-all default) and the added excludes. */
  lemma FreshScan(calls: seq<Call>, path: Path, fs: FileSystem)
    requires fs.fileExists(path) && fs.opensAsDirectory(path)
    ensures AddedIncludes(calls) == [] ==>
      Scan(Run(Initial, calls), path, fs) == Success(FilterConfig([MatchAll], AddedExcludes(calls)))
    ensures AddedIncludes(calls) != [] ==>
      Scan(Run(Initial, calls), path, fs) == Success(FilterConfig(AddedIncludes(calls), AddedExcludes(calls)))
  {
    ScanAfterRun(Initial, calls, path, fs);
    assert Initial.includeList + AddedIncludes(calls) == AddedIncludes(calls);
    assert Initial.excludeList + AddedExcludes(calls) == AddedExcludes(calls);
  }

  /** A missing path fails the same way whatever the directory iterator and
      the walk would have done: no traversal is consulted. */
  lemma NotFoundIgnoresWalk(c: Config, path: Path, fs1: FileSystem, fs2: FileSystem)
    requires !fs1.fileExists(path) && !fs2.fileExists(path)
    ensures Files(c, path, fs1) == Files(c, path, fs2) == Failure(ScannerError(path, NotFoundCode))
  {
  }
}
