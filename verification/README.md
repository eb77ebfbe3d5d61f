# html-indexer, modelled in Dafny

html-indexer walks the current directory and writes an `index.html` listing
into every directory it reaches. It skips entries that match the regular
expressions in a `.html-indexer` configuration file, and it leaves
protected existing listings alone. This project models the three pieces of
decision logic behind that as pure Dafny functions and proves what they
promise:

- **The walker** (`utils/fs.js`, modules `Walker` and `WalkerFacts`). The
  filesystem is a finite immutable tree. Each `Node` holds what `stat`
  reports for it and, for a directory, what `readdir` reports. The `ignore`
  and `prune` callbacks map a path to a settled promise, `Holds(b)` or
  `Rejects(err)`. The visitor maps an event to "resolved" or a rejection.
  `Walk` (`traverseImp`) returns an `Outcome`: the log of every outside
  call in order (`AskIgnore`, `AskPrune`, `Stat`, `ReadDir`, `Visit`) and
  the error that aborted the walk, if any.
- **The generator** (`index.js`, modules `Indexer` and `IndexerFacts`).
  It covers the skip/preserve/write decision of `processEntry`, the
  `files` filter, the `{ prune }` options handed to `traverse('.')`, the
  help-flag test, the order of steps in `main`, and the exit code.
- **The configuration** (`config/index.js`, module `Config`). It covers
  `loadConfig` with its ENOENT default and `castArray` normalisation, and
  the two predicates `isNoOverwrite` and `isPrune`.

`path.join`, `path.normalize`, `path.dirname` and `path.basename` are
uninterpreted functions, bundled in a `PathOps` value (module `Paths`).
The regular-expression engine is bundled the same way in
`Config.RegexOps`: `test(pattern, s)` stands for
`new RegExp(pattern, 'i').test(s)`, and `syntaxError(pattern)` is the error
`new RegExp` throws. The filesystem calls of the visitor and the compiled
template are bundled in `Indexer.Host`. `Common` holds the shared
`Option`/`Result`/`Error` types and the subsequence and filter facts.

## Behaviour worth knowing

Three consequences of the code that a reader might not expect:

- **`prune` placement.** The code checks `prune` on an entry's own path
  before `stat` and before the visitor (utils/fs.js:35-40). So a pruned
  directory gets no visitor call and no `index.html` at all; it is not
  visited-but-not-descended.
- **Rejections during child filtering.** A rejection from `ignore` on an
  entry's own path is swallowed as false. A rejection while the children
  are filtered is not swallowed: it goes to the `readdir` catch block, so
  with ENOENT/EACCES the directory is skipped without a visitor call, and
  with any other code the walk aborts (utils/fs.js:61-73). So not every
  predicate failure degrades to false.
- **How `main` calls `traverse`.** `main` supplies only `prune`, so every
  directory event carries the raw `readdir` list (index.js:68). Excluded
  names are dropped from the rendered listing by the visitor instead
  (index.js:57-60).

## Model

| member | source | states |
|---|---|---|
| `Walker.Traverse` | utils/fs.js:19-23 | the root is split into `dirname`/`basename` first: the walk's first call is about `normalize(join(dirname(d), basename(d)))`, every visitor event is well-formed, and every path handed out is a normalised join |
| `Walker.FirstCallConcernsEntry` | utils/fs.js:26-44 | whatever the callbacks and the node, the first outside call of `traverseImp` concerns the entry's own normalised full name |
| `Walker.Excludes` | utils/fs.js:28-40 | an entry is excluded by a gate exactly when the callback is supplied and resolves truthy; a rejection counts as false |
| `Walker.OnFailure` | utils/fs.js:45-51 | a failed `stat` or `readdir` is skipped exactly when its code is ENOENT or EACCES; otherwise the walk aborts with that same error |
| `Walker.Walk` | utils/fs.js:25-87 | every visitor event anywhere in the walk has `fullname == normalize(join(dirname, basename))`, and every path handed to `ignore`, `prune`, `stat`, `readdir` or the visitor, at any depth, is a `normalize(join(...))` |
| `Walker.Examine` | utils/fs.js:42-56 | past both gates: `stat`, then the single visit of a non-directory; every event is well-formed and every path is a normalised join |
| `Walker.ListDir` | utils/fs.js:58-86 | a directory's listing, filter, visit and children; every event is well-formed and every path, including the filter's child paths, is a normalised join |
| `Walker.WalkEntries` | utils/fs.js:84-86 | the sequential loop over kept children; every event is well-formed and every path is a normalised join |
| `Walker.FilterChildren` | utils/fs.js:58-74 | without `ignore`, all names are kept and no call is made. With it, the result is an error exactly when some child's `ignore` rejects. The error is that of the FIRST rejecting child in `readdir` order: the last call of the log is on that child, and no earlier child rejects. Otherwise the kept entries are an order-preserving subsequence of the listing, and an entry is kept exactly when `ignore` does not hold of `normalize(join(fullname, name))` |
| `Walker.FilterAsksInOrder` | utils/fs.js:61-66 | the filter's `j`-th call is `ignore(normalize(join(fullname, names[j])))`; when no child rejects, every child is asked exactly once, in `readdir` order |
| `Walker.FilterKeepsEveryCopy` | utils/fs.js:61-65 | when no child rejects, the kept entries are exactly `Array.prototype.filter` of the listing by "`ignore` does not hold of the child's full name": every copy of a repeated entry is kept, in order |
| `Common.Keep` | index.js:57 | filtering keeps an order-preserving subsequence, an element is in the result exactly when it is in the input and passes, and each passing element occurs as often as in the input |
| `WalkerFacts.ExcludedEntryIsSilent` | utils/fs.js:28-40 | an entry that `ignore` or `prune` holds of is never stat'ed, read or visited, nor is anything below it; the only calls are the gate calls on its own path, and the walk goes on |
| `WalkerFacts.RejectedGateReadsAsFalse` | utils/fs.js:28-44 | when each callback is absent, resolves falsy or rejects on the entry's own path, processing continues: the entry is stat'ed |
| `WalkerFacts.StatFailureSkipsOrAborts` | utils/fs.js:42-52 | a failed `stat` gives no visitor call; the walk goes on exactly when the code is ENOENT or EACCES, and otherwise aborts with that error |
| `WalkerFacts.FileVisitedOnce` | utils/fs.js:53-56 | a non-directory gets exactly one visitor call, without `children` or `isDirectory`, with no `readdir` and no recursion; the walk ends as the visitor's promise settles |
| `WalkerFacts.ReadDirFailureSkipsOrAborts` | utils/fs.js:58-74 | a failed `readdir` gives no visitor call for the directory or below it; ENOENT/EACCES skip it, any other code aborts with that error |
| `WalkerFacts.FilterRejectionSkipsOrAborts` | utils/fs.js:61-74 | an `ignore` rejection during child filtering follows the `readdir` error policy: no visitor call; skip on ENOENT/EACCES, otherwise abort with that error |
| `WalkerFacts.ChildrenAreFilteredListing` | utils/fs.js:58-66 | the visitor's `children` are an order-preserving subsequence of the `readdir` names that keeps exactly the entries `ignore` does not hold of, each copy of a repeated one included (the kept entries are the filter of the listing); without `ignore`, they are the raw names |
| `WalkerFacts.KeptChildPassesOwnGate` | utils/fs.js:61-66 | a child kept by the filter is neither excluded nor rejected by its own `ignore` gate (utils/fs.js:28-33) on the same full name |
| `WalkerFacts.DirectoryVisitedFirst` | utils/fs.js:76-86 | pre-order: a listed directory's own event comes first among its visits, followed by the visits of its children's walks; the children are walked only when the directory's visitor call resolves |
| `WalkerFacts.WalkOfListedDirectory` | utils/fs.js:42-86 | the call log of a listed directory is: the gate calls, `stat`, `readdir`, the filter's `ignore` calls, its own visit, then the children's calls, in that order |
| `WalkerFacts.ChildrenRunInOrder` | utils/fs.js:84-86 | children are walked one after another in list order. If none aborts, the log is the concatenation of their own walks' logs. If one aborts, the walk stops right after it with its error, and the later siblings are never walked. A skipped child (ENOENT, EACCES) does not stop its siblings |
| `Config.PatternList` | config/index.js:36-39 | `_.castArray(value \|\| [])`: an array is kept as is; any other value gives at most one pattern, present exactly when the value is truthy, and that pattern is the value's string form |
| `Config.FieldDecidesPredicate` | config/index.js:36-56 | after a successful load, a field holding an array makes its predicate hold exactly when one of its elements matches the normalised path; any other field makes it hold exactly when the field is truthy and its string form matches; so a single string acts as a one-pattern list and a falsy field never matches |
| `Config.FirstSyntaxError` | config/index.js:36-39 | compiling a pattern list fails exactly when some pattern is malformed, and then with the error of the first malformed one |
| `Config.ConfigObjectOf` | config/index.js:24-35 | a parsed object is used as is; a read or parse failure gives the default configuration exactly when its code is ENOENT and is otherwise the result's error unchanged; a non-object value is rejected with a `TypeError` |
| `Config.LoadConfig` | config/index.js:22-42 | a read or parse failure other than ENOENT, or a non-object value, is the result's error. A success installs the two normalised pattern lists, all of which compile. A compile failure is the first malformed `noOverwrite` pattern's error, or, when those all compile, the first malformed `ignore` pattern's |
| `Config.Reload` | config/index.js:41 | `this.config` takes the loaded value on success and is left unchanged on failure |
| `Config.AnyMatches` | config/index.js:46-48 | `!!find(re => re.test(s))` holds exactly when some pattern of the list matches `s` |
| `Config.IsNoOverwrite` | config/index.js:44-49 | true exactly when some `noOverwrite` pattern matches `normalize(p)` |
| `Config.IsPrune` | config/index.js:51-56 | true exactly when some `ignore` pattern matches `normalize(p)` |
| `Config.MissingFileMeansNoPatterns` | config/index.js:28-30 | a caught error with code ENOENT gives the default configuration with empty lists, so both predicates are false on every path |
| `Config.OtherLoadErrorIsRethrown` | config/index.js:31-34 | any other read or parse error is rethrown, and `this.config` keeps its previous value |
| `Config.NonObjectFileIsRejected` | config/index.js:27-41 | a file whose top-level JSON value is `null` or a primitive makes `loadConfig` reject with a `TypeError` without `errno`, and `this.config` keeps its value |
| `Config.ParsedFileInstallsItsPatterns` | config/index.js:36-41 | a parsed file installs exactly its two normalised pattern lists when every pattern compiles; otherwise it rejects with a `new RegExp` error and `this.config` is not reassigned |
| `Config.SinglePatternBecomesList` | config/index.js:36-39 | a non-empty string field becomes a one-pattern list; an absent or falsy field becomes the empty list; only an array gives more than one pattern |
| `Config.PredicatesAreIndependent` | config/index.js:44-56 | `ignore` patterns never affect `isNoOverwrite`, and `noOverwrite` patterns never affect `isPrune` |
| `Config.PredicatesSeeNormalForm` | config/index.js:44-56 | both predicates depend only on the normalised path: two names with the same normal form get the same answers |
| `Indexer.IndexFile` | index.js:50 | the output path is `fullname`, then `/`, then `index.html`, by plain concatenation |
| `Indexer.ListedFiles` | index.js:57-60 | the rendered `files` are an order-preserving subsequence of `children` that never contains `index.html`; a child is listed exactly when it is not `index.html` and `isPrune(join(fullname, child))` is false, and a listed name occurs as often as in `children` |
| `Indexer.Decide` | index.js:46-62 | a non-directory event is skipped, and only those are. A directory is preserved exactly when `fullname/index.html` exists and `isNoOverwrite` matches it. Otherwise it renders `{ files, basename }` for `fullname/index.html`, where `files` is exactly the filtered listing of `ListedFiles` |
| `Indexer.ProcessEntry` | index.js:46-64 | an event without `isDirectory` writes nothing. A write only ever goes to `fullname/index.html`, with the rendered content, and never to a protected existing file. An unprotected directory always ends in a write or a failure, and a failure happens only when `render` rejects or, after a successful render, `writeFile` rejects, carrying that rejection's error |
| `Indexer.HelpRequested` | index.js:32-36 | true exactly when some argument equals `help`, `-help` or `--help` |
| `Indexer.ExitCode` | index.js:71-78 | the exit code is 0 exactly on success; on failure it is `errno` when that is present and non-zero, else -1 |
| `Indexer.Main` | index.js:31-69 | configuration is read exactly when no help flag is given; help, when shown, ends the run successfully; a started walk decides the run's failure; and a successful run either showed help or walked |
| `Indexer.Visitor` | index.js:46-64 | as the walker sees `processEntry`: its promise rejects exactly when rendering or writing failed, with that error, and never for a non-directory |
| `Indexer.MainOptions` | index.js:65-68 | `{ prune }`: no `ignore`, and a `prune` callback that never rejects and excludes exactly the paths `isPrune` holds of |
| `Indexer.Writes` | index.js:50-63 | the writes of a walk are exactly the `Wrote` effects of its visitor calls: every listed write was made by a visitor call in the log, and every visitor call that wrote is listed |
| `Indexer.WritesOfAppend` | index.js:50-63 | the writes follow log order: those of two consecutive parts of a walk are the first part's followed by the second's |
| `Indexer.WritesAreIndexFiles` | index.js:50-63 | every file written during a walk is the `index.html` of a directory event in the walk's log |
| `IndexerFacts.HelpSkipsConfigAndWalk` | index.js:32-39 | with a help flag, help is shown (if its text can be read), no configuration is loaded and nothing is traversed; the exit code is 0 exactly when the help text was read |
| `IndexerFacts.NoHelpMeansIndexing` | index.js:41-68 | without a help flag the configuration is loaded. The walk of `.` starts exactly when loading and the template both succeed, with `processEntry` and `{ prune }`. The run fails with the first failing step's error |
| `IndexerFacts.MainWalkListsRawChildren` | index.js:68 | `main` supplies no `ignore`, so the filter makes no calls and each directory's `children` are the raw `readdir` list |
| `IndexerFacts.MainPruneIsIsPrune` | index.js:65-67 | `main`'s `prune` callback never rejects and excludes exactly the paths `isPrune` holds of |
| `IndexerFacts.ListedIffNotPruned` | index.js:57-59 | if normalising is idempotent, a child other than `index.html` is listed in its directory's `index.html` exactly when the walk does not prune it |
| `IndexerFacts.ProtectedIndexIsPreserved` | index.js:50-54 | an existing `fullname/index.html` that `isNoOverwrite` matches is neither rendered nor written, and the visitor resolves |
| `IndexerFacts.UnprotectedIndexIsWritten` | index.js:56-63 | an unprotected directory is rendered once and written once, to `fullname/index.html`, with the rendered content. A render or write failure becomes the visitor's rejection |

## Left out

- The `util.promisify` registries (utils/fs.js:5-17, index.js:9-20): module plumbing with no decisions in it.
- Real filesystem I/O (`stat`, `readdir`, `exists`, `readFile`, `writeFile`). These become the tree's recorded outcomes, `Indexer.Host`, and `Config.Source`.
- EJS compilation and rendering (index.js:42-44, 56): a foreign library. Reading or compiling the template is one possible failure (`World.template`), and `render` is a `Host` function.
- Reading and printing the help text (index.js:22-29): only whether reading it fails is modelled (`World.helpFile`). `console.error` logging is left out too.
- The `process.exit` side effect: the model computes its argument only. The operating system truncating it to 8 bits is not modelled.
- Regex semantics and `JSON.parse`: uninterpreted (`RegexOps`, `Source`). The patterns carry only the `i` flag, never `g`, so `test` keeps no state. That is why `test` is a pure function and repeated calls on one path agree by construction.
- The internals of `path.normalize`, `join`, `dirname` and `basename`: uninterpreted. Agreement between listing and pruning is proved assuming only that normalising is idempotent.
- Async scheduling: every step is awaited, so the model is sequential.
- Symbolic links and cycles that `stat` would follow: the tree is finite. A child found by name in `readdir` is the child's node in the tree.
- Path uniqueness: with uninterpreted paths, "each entry is visited at most once" and "each `index.html` is written by one visitor call" cannot be stated. The recursion walks each kept entry once by construction, but no lemma counts visits or nodes.
- The visitor mutating `children`: the event's `children` is the very array the loop over the children then iterates (utils/fs.js:79, 84), so a visitor that changed it, even later during a child's visit, would change which children are walked. The model's visitor is a pure function and cannot do this. `main`'s `processEntry` only calls `.filter` on it (index.js:57), so the program itself is unaffected.
- Callbacks that return plain values instead of promises: `.catch` on such a value throws a TypeError inside `traverseImp`. The model assumes promise-returning callbacks, as `main`'s async `prune` is.
- The exact TypeError of a configuration file whose top-level JSON value is not an object: class bodies are strict-mode code, so `null` fails when its property is read and a primitive fails when `noOverwriteREs` is assigned on it (config/index.js:36). Both are modelled as one `ParsedNonObject` source and one `NotAnObjectError` without `code` or `errno`. A field's non-string values are represented by the string `new RegExp` makes of them.
- Calling `isNoOverwrite` or `isPrune` before any successful `loadConfig` (`this.config` is null) is not modelled. The predicates take a loaded configuration.
- `loadConfig(fromFile)`'s optional argument: `main` never passes it, so the model reads the one default file that `Source` describes.
