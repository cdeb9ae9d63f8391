# DirectoryScanner, modelled in Dafny

This project models `TheSeer\Tools\DirectoryScanner`, a PHP class that holds
include and exclude shell patterns and starts a recursive, filtered scan of a
path. The model covers the scanner's pattern fields, the calls that change
them, the checks `__invoke` makes before a scan starts, and the way `getFiles`
collects the results.

- `scanner.dfy`, module `Scanner`, has the values.
  - `Config` holds the scanner's four fields. `includeList` stands for the
    declared `$include`, because `include` is a reserved word in Dafny.
    `excludeList` stands for `$exclude`, named to match. `includes` and
    `excludes` stand for the properties that `setIncludes` and `setExcludes`
    create on first use. Until then they are `None`, the PHP `null`.
  - `Step` and `Run` give the effect of one configuration call, and of a
    sequence of them.
  - `Scan` and `Files` are the specification functions for `__invoke` and
    `getFiles`.
- `scanner_properties.dfy`, module `ScannerProperties`, proves lemmas about
  sequences of configuration calls.
- `directory_scanner.dfy`, module `ScannerObject`, has the class
  `DirectoryScanner`.
  - The four fields are mutable state. A ghost `history` records the
    configuration calls made so far. `Valid()` says the fields are what
    `Run` gives for that history from a fresh scanner.
  - There are methods for `addInclude`, `setIncludes`, `addExclude`,
    `setExcludes`, `__invoke` (as `Invoke`) and `getFiles`. The getters are
    functions, specified against the history.
- `scanner_client.dfy`, module `ScannerClient`, has two client methods that
  use the class.

The model keeps the source's field mismatch. `addInclude` and `addExclude`
append to `$include` and `$exclude`. `setIncludes`, `setExcludes`,
`getIncludes` and `getExcludes` use the separate properties `$includes` and
`$excludes`. So a getter never shows what an adder appended, and a setter has
no effect on a scan. A cleaner design would use one list per kind and make
get and set work on it. This model follows the code as written.

The filesystem is an abstract input, `FileSystem`. It has three parts:
- `fileExists`, which stands for `file_exists`;
- `opensAsDirectory`, whether `RecursiveDirectoryIterator` can open the path
  as a directory;
- `walk`, one run of the include/exclude filter over the recursive iterator
  for a root and a `FilterConfig`. A run gives the entries it yields, in
  iteration order, and the unreadable directory that stopped it, if any.

A scan can fail in two ways:
- `ScannerError(path, NotFoundCode)` when the path does not exist.
  `NotFoundCode` is 1, the value of `DirectoryScannerException::NotFound`.
- `IteratorError(dir)` when the SPL iterators raise `UnexpectedValueException`.
  This happens for a root that exists but is not a readable directory, and for
  an unreadable directory met during the walk. The recursive iterator is built
  without `CATCH_GET_CHILD`, so the second kind escapes `getFiles` and the
  partly built list is lost.

## Model

| member | source | states |
|---|---|---|
| Scanner.Step | src/directoryscanner.php:70-114 | field by field: only addInclude changes include, appending its pattern; only addExclude changes exclude, the same way; only setIncludes changes includes, to `Some(a)`; only setExcludes changes excludes. So adds and sets never reach each other's fields |
| Scanner.EffectiveIncludes | src/directoryscanner.php:156 | the include list handed to the filter is never empty: it is include verbatim when include is non-empty, and `['*']` otherwise |
| Scanner.Scan | src/directoryscanner.php:149-158 | the scan fails with the NotFound code (1) and the path exactly when the path does not exist. It fails with the iterator's error for an existing path that does not open as a directory. It succeeds in every other case, where the filter gets a non-empty include list (include, or `['*']`) and exclude verbatim |
| Scanner.Files | src/directoryscanner.php:133-139 | getFiles fails with NotFound for a missing path and with the iterator's error for a root that is not a directory. Otherwise it fails with the iterator's error when the walk stops at an unreadable directory, and else returns exactly the entries the configured filter yields, in order |
| ScannerObject.DirectoryScanner.constructor | src/directoryscanner.php:54-61 | a new scanner has empty include and exclude lists, no includes/excludes property (None) and an empty call history |
| ScannerObject.DirectoryScanner.AddInclude | src/directoryscanner.php:70-72 | include becomes old include plus `[inc]`; exclude, includes and excludes are unchanged; the call is recorded and the fields stay what the history produces |
| ScannerObject.DirectoryScanner.SetIncludes | src/directoryscanner.php:81-83 | includes becomes `Some(inc)`; include, exclude and excludes are unchanged; the call is recorded |
| ScannerObject.DirectoryScanner.GetIncludes | src/directoryscanner.php:90-92 | returns the argument of the last setIncludes in the history, and null (None) exactly when setIncludes was never called; addInclude calls never show here |
| ScannerObject.DirectoryScanner.AddExclude | src/directoryscanner.php:101-103 | exclude becomes old exclude plus `[exc]`; include, includes and excludes are unchanged; the call is recorded |
| ScannerObject.DirectoryScanner.SetExcludes | src/directoryscanner.php:112-114 | excludes becomes `Some(exc)`; include, exclude and includes are unchanged; the call is recorded |
| ScannerObject.DirectoryScanner.GetExcludes | src/directoryscanner.php:121-123 | returns the argument of the last setExcludes in the history, and null (None) exactly when setExcludes was never called; addExclude calls never show here |
| ScannerObject.DirectoryScanner.Invoke | src/directoryscanner.php:149-158 | the result is the `Scan` of the current fields; on success the filter gets the patterns of the recorded addInclude calls (or `['*']`) and of the recorded addExclude calls, so no set call influences it |
| ScannerObject.DirectoryScanner.GetFiles | src/directoryscanner.php:133-139 | draining the walk's entries one at a time gives the `Files` of the current fields: the same entries, same count, same order, or the scan's or walk's failure |
| ScannerProperties.RunAppend | src/directoryscanner.php:70-123 | running two call sequences one after the other is the same as running their concatenation |
| ScannerProperties.RunInclude | src/directoryscanner.php:70-72 | after any sequence of calls, include is the starting include followed by exactly the addInclude arguments, in call order |
| ScannerProperties.RunExclude | src/directoryscanner.php:101-103 | after any sequence of calls, exclude is the starting exclude followed by exactly the addExclude arguments, in call order |
| ScannerProperties.RunIncludes | src/directoryscanner.php:81-92 | after any sequence of calls, getIncludes returns the argument of the last setIncludes, or the starting value if there was none; adds play no part |
| ScannerProperties.RunExcludes | src/directoryscanner.php:112-123 | after any sequence of calls, getExcludes returns the argument of the last setExcludes, or the starting value if there was none; adds play no part |
| ScannerProperties.GetIncludesFresh | src/directoryscanner.php:90-92 | on a fresh scanner, getIncludes returns null exactly when setIncludes was never called, whatever addInclude calls were made |
| ScannerProperties.GetExcludesFresh | src/directoryscanner.php:121-123 | on a fresh scanner, getExcludes returns null exactly when setExcludes was never called, whatever addExclude calls were made |
| ScannerProperties.SetThenGetIncludes | src/directoryscanner.php:81-92 | after any calls and then setIncludes(a), getIncludes returns exactly a until the next setIncludes |
| ScannerProperties.SetThenGetExcludes | src/directoryscanner.php:112-123 | after any calls and then setExcludes(a), getExcludes returns exactly a until the next setExcludes |
| ScannerProperties.ScanAfterRun | src/directoryscanner.php:156-157 | a scan after any calls equals the scan of the starting fields with only the added patterns appended, so setIncludes and setExcludes never influence a scan |
| ScannerProperties.ScanOrderIndependent | src/directoryscanner.php:149-158 | two call sequences that add the same include patterns and the same exclude patterns, each in the same order, give the same scan and the same getFiles result, however the adds are interleaved and whatever sets they contain |
| ScannerProperties.FreshScan | src/directoryscanner.php:156-157 | from a fresh scanner and an existing directory, the filter gets `['*']` when nothing was added to include, else the added includes, and exactly the added excludes |
| ScannerProperties.NotFoundIgnoresWalk | src/directoryscanner.php:150-151 | for a missing path, getFiles fails with NotFound and that path whatever the directory iterator and the walk would do, so no traversal is ever used |
| ScannerClient.ScanAfterSetters | src/directoryscanner.php:81-92 | on the class: a fresh scanner given lists through setIncludes/setExcludes still scans with `['*']` and no excludes, and getIncludes returns the list that was set |
| ScannerClient.ScanAfterAdders | src/directoryscanner.php:70-103 | on the class: addInclude(p), addExclude(x), addInclude(q) scan with includes `[p, q]` and excludes `[x]`, while getIncludes and getExcludes stay null |

## Left out

- Filesystem access: `file_exists` and the recursive directory iterators (src/directoryscanner.php:150, 154) are PHP library calls. The model takes existence, whether the root opens as a directory, and each walk (its entries and where it stopped) as the abstract `FileSystem` input.
- Glob matching and include/exclude filtering happen in `IncludeExcludeFilterIterator`, which is not part of this model. Its output is the uninterpreted `walk` function of the root and the `FilterConfig`, so nothing is proved about which files match.
- Lazy iteration: the iterator protocol and the magic `__invoke` call syntax are not modelled. `Invoke` returns the filter configuration that the returned iterator is built with, and `GetFiles` drains the walk's entries. A walk is a finished value, so when the exception is raised relative to the entries already yielded is not captured; only the outcome that reaches the caller of `getFiles` is.
- The exception message text at line 151 is not modelled. Line 151 also names the reason constant through `ScannerException`, a class that is not part of this model. The error carries the value 1 defined at line 176.
- PHP typing: `addInclude` and `addExclude` accept values of any type, and `setIncludes`/`setExcludes` accept any array, including associative ones. The model takes patterns as strings and lists as sequences. Calling a setter with no argument is the same as calling it with `[]`.
- PHP diagnostics: reading `$includes` or `$excludes` before it is set raises a notice (a warning since PHP 8) about an undefined property, and since PHP 8.2 the first `setIncludes`/`setExcludes` raises a deprecation for creating a dynamic property. The model only returns `None` (null) and creates the property silently.
- The license header and docblocks (lines 1-46) have no behaviour.
