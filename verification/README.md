# Spotless check goal: incremental verification and failure decision

This project models the `check` goal of the Spotless Maven plugin: the
method `SpotlessCheckMojo.process(files, formatter, upToDateChecker)`.
For each candidate file, in the order given, the goal asks the up-to-date
cache whether the file can be skipped. Otherwise it calculates the file's
dirty state and then its lints against that dirty state. It records dirty
files in a list and files with lints in a `TreeMap` keyed by file. It
marks the file up to date only when the file is clean and has no lints.
After the loop, dirty files give the "fixable" failure. Failing that, lints
are printed one line per lint, in path order, and give the "unfixable"
failure. Otherwise the goal succeeds. An `IOException` on any file stops
the whole goal at once.

Modules:

- `Paths` (paths.dfy): a path is its text. Keys are ordered by Java's
  `String.compareTo`, which is how `java.io.File` compares paths on Unix.
  The lemmas show it is a strict total order.
- `LintMap` (lint_map.dfy): the `TreeMap<File, List<Lint>>` as its
  in-order list of entries. `Put` is `TreeMap.put`, proved to keep the
  keys strictly ascending and to act as a map update.
- `Report` (report.dfy): the lint lines `<path>:<lint>` and the nested
  printing loop. Lemmas cover the line count, per-file blocks and ordering.
- `Collaborators` (collaborators.dfy): the dirty-state/lint calculation as
  a pair of deterministic functions that may fail with an I/O error (the
  `Formatter` class), and the cache as a set of paths (the
  `UpToDateChecker` class). Each class keeps a ghost log of calls, so that
  "no calculation" and "written once" can be stated.
- `CheckSpec` (check_spec.dfy): the loop as a fold (`Step`, `Run`), the
  decision after it (`Decide`), and reference definitions file by file
  (`DirtyFiles`, `CleanFiles`, `FlaggedLints`, `Unskipped`).
- `CheckMojo` (check_mojo.dfy): `Process`, the imperative loop. It is
  proved to produce exactly `Decide(Run(...))`, the cache and the call logs
  of the specification.
- `CheckProperties` (check_properties.dfy): what the goal promises, proved
  about the specification.
- `CheckScenarios` (check_scenarios.dfy): small concrete runs.

The loop itself accepts a list that repeats a file, as the Java `Iterable`
does. After a repeated file is cached, its later occurrences are skipped.
The lemmas that compare the run with the file-by-file reference definitions
assume a list without repeats (`Distinct`) and with no I/O errors
(`NoIOErrors`). The fail-fast, skip, growth and re-run lemmas need neither.

## Model

| member | source | states |
|---|---|---|
| `Paths.CompareTo` | plugin-maven/src/main/java/com/diffplug/spotless/maven/SpotlessCheckMojo.java:44 | The key comparison of the lint map is zero exactly for equal paths, and for paths whose first characters differ its sign is that of the character difference |
| `Paths.CompareToAntisymmetric` | plugin-maven/src/main/java/com/diffplug/spotless/maven/SpotlessCheckMojo.java:44 | Swapping two paths negates the comparison |
| `Paths.LessTotal` | plugin-maven/src/main/java/com/diffplug/spotless/maven/SpotlessCheckMojo.java:44 | Two distinct paths are ordered one way and never both ways |
| `Paths.LessTransitive` | plugin-maven/src/main/java/com/diffplug/spotless/maven/SpotlessCheckMojo.java:44 | The path order is transitive |
| `LintMap.Put` | plugin-maven/src/main/java/com/diffplug/spotless/maven/SpotlessCheckMojo.java:59 | After `allLints.put` the map is non-empty and its key set is the old key set plus the file |
| `LintMap.PutSorted` | plugin-maven/src/main/java/com/diffplug/spotless/maven/SpotlessCheckMojo.java:59 | `put` keeps the keys strictly ascending in path order |
| `LintMap.PutUpdates` | plugin-maven/src/main/java/com/diffplug/spotless/maven/SpotlessCheckMojo.java:59 | `put` is a map update: the file maps to the new lints and every other key keeps its lints |
| `LintMap.ToMapEmpty` | plugin-maven/src/main/java/com/diffplug/spotless/maven/SpotlessCheckMojo.java:79 | `allLints.isEmpty()` holds exactly when the entry list is empty |
| `Report.PrintLints` | plugin-maven/src/main/java/com/diffplug/spotless/maven/SpotlessCheckMojo.java:80-84 | The nested `forEach`/`for` loop prints exactly the lines of `Render`: one `path:lint` line per lint, in entry order |
| `Report.PairsCount` | plugin-maven/src/main/java/com/diffplug/spotless/maven/SpotlessCheckMojo.java:80-84 | The number of printed lines equals the total number of lints |
| `Report.PairsBlock` | plugin-maven/src/main/java/com/diffplug/spotless/maven/SpotlessCheckMojo.java:80-84 | Each file's lints are printed as one contiguous block, in their original order, at that file's offset |
| `Report.PairsOrdered` | plugin-maven/src/main/java/com/diffplug/spotless/maven/SpotlessCheckMojo.java:80-84 | With keys strictly sorted, printed files never go down in path order: a line is followed only by lines for the same file or a later one |
| `Collaborators.Formatter.CalculateDirtyState` | plugin-maven/src/main/java/com/diffplug/spotless/maven/SpotlessCheckMojo.java:54-55 | Returns the file's dirty state or I/O error and logs that a calculation was started for the file |
| `Collaborators.Formatter.CalculateLintAgainstDirtyState` | plugin-maven/src/main/java/com/diffplug/spotless/maven/SpotlessCheckMojo.java:56 | Returns the lints computed against the given dirty state, or an I/O error |
| `Collaborators.UpToDateChecker.IsUpToDate` | plugin-maven/src/main/java/com/diffplug/spotless/maven/SpotlessCheckMojo.java:46 | True exactly when the cache holds the path |
| `Collaborators.UpToDateChecker.SetUpToDate` | plugin-maven/src/main/java/com/diffplug/spotless/maven/SpotlessCheckMojo.java:65 | Adds the path to the cache and logs the write; nothing else changes |
| `CheckSpec.Step` | plugin-maven/src/main/java/com/diffplug/spotless/maven/SpotlessCheckMojo.java:46-69 | One turn of the loop: an up-to-date file leaves the state unchanged; otherwise the file is logged as calculated; the turn aborts exactly when the calculation fails, and then nothing but that log entry changes; the cache gains at most this file, and holds it afterwards exactly when it held it before or the file is clean and lint-free |
| `CheckSpec.Run` | plugin-maven/src/main/java/com/diffplug/spotless/maven/SpotlessCheckMojo.java:45-70 | The loop over the files in order, stopping at the first abort: an aborted run names a listed file, and it is the last file whose calculation was started (growth and the other per-run facts are the `CheckProperties` lemmas) |
| `CheckSpec.UnableToFormat` | plugin-maven/src/main/java/com/diffplug/spotless/maven/SpotlessCheckMojo.java:68 | The abort message is the fixed prefix "Unable to format file " followed by the file |
| `Report.Line` | plugin-maven/src/main/java/com/diffplug/spotless/maven/SpotlessCheckMojo.java:82 | A printed line is the path, a colon, then the lint's rendering, each readable back from its position |
| `CheckSpec.Decide` | plugin-maven/src/main/java/com/diffplug/spotless/maven/SpotlessCheckMojo.java:72-86 | IO failure exactly when the loop aborted; fixable exactly when some file is dirty; unfixable exactly when no file is dirty and the lint map is non-empty, with one printed line per lint; success otherwise |
| `CheckMojo.Process` | plugin-maven/src/main/java/com/diffplug/spotless/maven/SpotlessCheckMojo.java:42-87 | The loop and the decision return `Decide(Run(...))` from the cache as it was; the cache afterwards, the calculations started and the cache writes made are those of `Run` |
| `CheckProperties.RunGrows` | plugin-maven/src/main/java/com/diffplug/spotless/maven/SpotlessCheckMojo.java:45-70 | The cache and the call logs only grow, the problem list is only appended to, and a non-empty lint map stays non-empty |
| `CheckProperties.ListedOnly` | plugin-maven/src/main/java/com/diffplug/spotless/maven/SpotlessCheckMojo.java:45-70 | Only listed files are calculated, recorded as dirty, given lints, cached, or named by a failure |
| `CheckProperties.SkippedFileIgnored` | plugin-maven/src/main/java/com/diffplug/spotless/maven/SpotlessCheckMojo.java:46-51 | Once a file is cached, the run equals the run over the list with that file removed: skipping is a no-op |
| `CheckProperties.UpToDateFileUntouched` | plugin-maven/src/main/java/com/diffplug/spotless/maven/SpotlessCheckMojo.java:46-51 | A file the cache reports up to date gets no calculation and never appears among the problem files, the lint keys, the cache writes or a failure |
| `CheckProperties.FailFast` | plugin-maven/src/main/java/com/diffplug/spotless/maven/SpotlessCheckMojo.java:53-69 | An aborted run stops at the first failing file, whose index the lemma returns: the prefix before it completed, the failing step aborts with the run's error and state, the cache keeps its earlier entries, and the files after it play no part |
| `CheckProperties.ProblemFilesOnDistinctFiles` | plugin-maven/src/main/java/com/diffplug/spotless/maven/SpotlessCheckMojo.java:45-63 | With no repeats and no I/O errors, the calculated files are exactly the ones not cached, and the problem files are exactly the dirty ones, in list order |
| `CheckProperties.CacheIsWrites` | plugin-maven/src/main/java/com/diffplug/spotless/maven/SpotlessCheckMojo.java:64-66 | Nothing enters the cache except through `setUpToDate`: the cache stays the initial cache plus every file written, for any list |
| `CheckProperties.CacheWritesOnDistinctFiles` | plugin-maven/src/main/java/com/diffplug/spotless/maven/SpotlessCheckMojo.java:64-66 | With no repeats and no I/O errors, `setUpToDate` is called exactly once for each clean, lint-free file, in list order, and for no other file |
| `CheckProperties.CacheOnDistinctFiles` | plugin-maven/src/main/java/com/diffplug/spotless/maven/SpotlessCheckMojo.java:64-66 | With no repeats and no I/O errors, a file is cached afterwards exactly when it was cached before or it is clean and lint-free |
| `CheckProperties.LintsOnDistinctFiles` | plugin-maven/src/main/java/com/diffplug/spotless/maven/SpotlessCheckMojo.java:58-60 | With no repeats and no I/O errors, the lint map stays sorted and its keys are exactly the examined files with lints, each mapped to its own lints |
| `CheckProperties.CheckOutcome` | plugin-maven/src/main/java/com/diffplug/spotless/maven/SpotlessCheckMojo.java:72-86 | With no repeats and no I/O errors: any dirty file gives the fixable failure naming exactly the dirty files, whatever the lints; otherwise any lint gives the unfixable failure printing a path-sorted map of exactly the flagged lints; otherwise success |
| `CheckProperties.AllCachedSkips` | plugin-maven/src/main/java/com/diffplug/spotless/maven/SpotlessCheckMojo.java:46-51 | A run over files that are all cached changes nothing and succeeds |
| `CheckProperties.CleanRunCachesAll` | plugin-maven/src/main/java/com/diffplug/spotless/maven/SpotlessCheckMojo.java:64-66 | A run that adds no problem file and no lint leaves every listed file in the cache |
| `CheckProperties.RerunAfterSuccess` | plugin-maven/src/main/java/com/diffplug/spotless/maven/SpotlessCheckMojo.java:45-87 | Running again after a success, with no change in between, calculates nothing, writes nothing and succeeds |
| `CheckScenarios.CleanThenDirty` | plugin-maven/src/main/java/com/diffplug/spotless/maven/SpotlessCheckMojo.java:61-78 | A clean file and then a dirty file give the fixable failure naming only the dirty file, and the clean file is cached |
| `CheckScenarios.LintsOnly` | plugin-maven/src/main/java/com/diffplug/spotless/maven/SpotlessCheckMojo.java:79-85 | A clean file with two lints and a clean lint-free file give the unfixable failure with the two lines of the first file in order, and only the second file is cached |
| `CheckScenarios.UpToDateOnly` | plugin-maven/src/main/java/com/diffplug/spotless/maven/SpotlessCheckMojo.java:46-51 | A single file already up to date gives success with no calculation started |
| `CheckScenarios.FailureAfterDirtyFile` | plugin-maven/src/main/java/com/diffplug/spotless/maven/SpotlessCheckMojo.java:53-69 | An unreadable third file fails the run after a dirty and a clean file: no violation is reported, the clean file stays cached and the fourth file is never calculated |

## Left out

- Maven wiring is not modelled: the `@Mojo` annotation, the lifecycle phase, `AbstractSpotlessMojo` and `baseDir`. The `threadSafe` flag is a scheduling hint; the loop is sequential.
- Debug logging for skipped files (lines 47-49) is not modelled. It has no effect on the result.
- The diff text that `DiffMessageFormatter` builds (lines 73-77) comes from a library outside this model. The fixable outcome carries the problem files and the remediation line.
- Writing to `System.err` is modelled by returning the printed lines in the unfixable outcome.
- The internals of `DirtyState`, its calculation and `Formatter` are not part of this model. They are a deterministic calculator that may fail with an I/O error. A dirty state is only clean or not clean.
- The persistence and fingerprints of `UpToDateChecker` are not part of this model. The cache is a set of paths.
- `File.getAbsolutePath` is taken as the path itself: the model takes every path to be absolute, where the map's key order (on `getPath()`) and the printed `getAbsolutePath()` coincide. Relative paths resolved against one working directory would order the same way; a mix of absolute and relative paths is not modelled. The order of `File.compareTo` is taken to be the Unix one, a plain string comparison. Windows compares case-insensitively, which is not modelled.
- `Collaborators.UpToDateChecker.SetUpToDate`: in the model the cache write cannot fail. In the source it sits in the same `try` as the calculation (lines 53-69), so an `IOException` from it would abort the run with "Unable to format file" in the same way.
- `Paths.CompareTo`: compares Dafny characters, so for characters outside the Basic Multilingual Plane it can differ from Java's comparison of UTF-16 code units.
- The exception chain is kept only as the `IOError` value in the failure outcome.
