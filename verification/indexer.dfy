/**
 The program of index.js: the visitor `processEntry` that writes one
 `index.html` per directory, the `prune` callback it hands to the walker, the
 help-flag test and the exit code of `main`.

 The filesystem calls of the visitor (`exists`, `writeFile`) and the compiled
 EJS template (`render`) are summarised by a `Host`; the help text and the
 template file by whether reading them fails.
 */
module Indexer {
  import opened Common
  import opened Paths
  import opened Walker
  import Config

  const IndexName: string := "index.html"

  /** The flags that make `main` print help instead of indexing. */
  const HelpFlags: set<string> := {"help", "-help", "--help"}

  /** The output file of a directory: plain string concatenation, not `path.join`. */
  function IndexFile(fullname: string): (r: string)
    ensures |r| == |fullname| + 1 + |IndexName|
    ensures r[..|fullname|] == fullname && r[|fullname|] == '/' && r[|fullname| + 1..] == IndexName
  {
    fullname + "/" + IndexName
  }

  /** The object passed to the template. */
  datatype RenderData = RenderData(files: seq<string>, basename: string)

  datatype Host = Host(
    fileExists: string -> bool,
    render: RenderData -> Result<string>,
    writeFile: (string, string) -> Option<Error>)

  /** What `processEntry` decides before it renders anything. */
  datatype Decision = Skip | Preserve | WriteIndex(path: string, data: RenderData)

  /** What one visitor call did. */
  datatype Effect = NoWrite | Preserved | Wrote(path: string, content: string) | Failed(error: Error)

  /** The `files` list of the template: the children minus the output file
      name and minus every child whose joined path `isPrune` holds of. */
  function ListedFiles(ops: PathOps, rx: Config.RegexOps, cfg: Config.Loaded,
                       fullname: string, children: seq<string>): (r: seq<string>)
    ensures IsSubsequence(r, children)
    ensures IndexName !in r
    ensures forall x :: x in r <==>
              x in children && x != IndexName && !Config.IsPrune(ops, rx, cfg, ops.join(fullname, x))
    ensures forall x :: multiset(r)[x] ==
              if x != IndexName && !Config.IsPrune(ops, rx, cfg, ops.join(fullname, x))
              then multiset(children)[x] else 0
  {
    Keep(children, x => x != IndexName && !Config.IsPrune(ops, rx, cfg, ops.join(fullname, x)))
  }

  /** The branches of `processEntry` up to the call of `render`. */
  function Decide(ops: PathOps, rx: Config.RegexOps, cfg: Config.Loaded,
                  fileExists: string -> bool, e: Event): (d: Decision)
    ensures d.Skip? <==> e.children.None?
    ensures d.Preserve? <==>
              e.children.Some? && fileExists(IndexFile(e.fullname))
              && Config.IsNoOverwrite(ops, rx, cfg, IndexFile(e.fullname))
    ensures d.WriteIndex? ==> d.path == IndexFile(e.fullname) && d.data.basename == e.basename
    ensures d.WriteIndex? ==> IndexName !in d.data.files && IsSubsequence(d.data.files, e.children.value)
    ensures d.WriteIndex? ==> d.data.files == ListedFiles(ops, rx, cfg, e.fullname, e.children.value)
  {
    match e.children
    case None => Skip
    case Some(children) =>
      var indexFile := IndexFile(e.fullname);
      if fileExists(indexFile) && Config.IsNoOverwrite(ops, rx, cfg, indexFile) then Preserve
      else WriteIndex(indexFile, RenderData(ListedFiles(ops, rx, cfg, e.fullname, children), e.basename))
  }

  /** `processEntry(event)`: at most one write, to the directory's own
      `index.html`, with what the template rendered. */
  function ProcessEntry(ops: PathOps, rx: Config.RegexOps, cfg: Config.Loaded,
                        host: Host, e: Event): (r: Effect)
    ensures e.children.None? ==> r == NoWrite
    ensures r.Preserved? <==> Decide(ops, rx, cfg, host.fileExists, e).Preserve?
    ensures r.Wrote? ==> && e.children.Some?
                         && r.path == IndexFile(e.fullname)
                         && !(host.fileExists(r.path) && Config.IsNoOverwrite(ops, rx, cfg, r.path))
                         && host.render(Decide(ops, rx, cfg, host.fileExists, e).data) == Ok(r.content)
                         && host.writeFile(r.path, r.content).None?
    ensures e.children.Some? && !Decide(ops, rx, cfg, host.fileExists, e).Preserve? ==> (r.Wrote? || r.Failed?)
    ensures r.Failed? ==>
              var d := Decide(ops, rx, cfg, host.fileExists, e);
              && d.WriteIndex?
              && (|| host.render(d.data) == Err(r.error)
                  || (host.render(d.data).Ok? && host.writeFile(d.path, host.render(d.data).value) == Some(r.error)))
  {
    match Decide(ops, rx, cfg, host.fileExists, e)
    case Skip => NoWrite
    case Preserve => Preserved
    case WriteIndex(path, data) =>
      match host.render(data)
      case Err(err) => Failed(err)
      case Ok(content) =>
        match host.writeFile(path, content)
        case Some(err) => Failed(err)
        case None => Wrote(path, content)
  }

  /** The visitor as the walker sees it: its promise rejects exactly when
      rendering or writing failed. */
  function Visitor(ops: PathOps, rx: Config.RegexOps, cfg: Config.Loaded, host: Host): (v: Event -> Option<Error>)
    ensures forall e: Event :: v(e).Some? <==> ProcessEntry(ops, rx, cfg, host, e).Failed?
    ensures forall e: Event :: v(e).Some? ==> ProcessEntry(ops, rx, cfg, host, e) == Failed(v(e).value)
    ensures forall e: Event :: e.children.None? ==> v(e).None?
  {
    e => var eff := ProcessEntry(ops, rx, cfg, host, e);
         if eff.Failed? then Some(eff.error) else None
  }

  /** `{ prune }`: no `ignore` callback, and a `prune` callback that resolves
      with `isPrune(fullname)` and never rejects. */
  function MainOptions(ops: PathOps, rx: Config.RegexOps, cfg: Config.Loaded): (o: Options)
    ensures o.ignore.None? && o.prune.Some?
    ensures forall p :: Excludes(o.prune, p) <==> Config.IsPrune(ops, rx, cfg, p)
    ensures forall p: string :: o.prune.value(p).Holds?
  {
    Options(None, Some(p => Holds(Config.IsPrune(ops, rx, cfg, p))))
  }

  /** `processArgs.find(...)` is truthy: some argument is a help flag. */
  function HelpRequested(args: seq<string>): (b: bool)
    ensures b <==> exists i :: 0 <= i < |args| && args[i] in HelpFlags
  {
    if args == [] then false
    else if args[0] in HelpFlags then true
    else
      var rest := HelpRequested(args[1..]);
      assert forall i :: 1 <= i < |args| ==> args[i] == args[1..][i-1];
      rest
  }

  /** Everything `main` depends on besides its arguments. */
  datatype World = World(
    helpFile: Option<Error>,
    config: Config.Source,
    rx: Config.RegexOps,
    template: Option<Error>,
    ops: PathOps,
    host: Host,
    cwd: Node)

  /** What `main` did: whether help was printed, whether the configuration
      file was read, the walk (when it started) and the error `main`
      rejected with, if any. */
  datatype Run = Run(helpShown: bool, configRead: bool, walk: Option<Outcome>, failure: Option<Error>)

  /** `main()`, from the help test to the end of `traverse`. */
  function Main(args: seq<string>, w: World): (r: Run)
    ensures r.configRead <==> !HelpRequested(args)
    ensures r.helpShown ==> HelpRequested(args) && r.failure.None?
    ensures r.walk.Some? ==> r.configRead && r.failure == r.walk.value.abort
    ensures r.failure.None? ==> r.helpShown || r.walk.Some?
  {
    if HelpRequested(args) then Run(w.helpFile.None?, false, None, w.helpFile)
    else
      match Config.LoadConfig(w.config, w.rx)
      case Err(err) => Run(false, true, None, Some(err))
      case Ok(cfg) =>
        if w.template.Some? then Run(false, true, None, w.template)
        else
          var walk := Traverse(w.ops, ".", Visitor(w.ops, w.rx, cfg, w.host), Some(MainOptions(w.ops, w.rx, cfg)), w.cwd);
          Run(false, true, Some(walk), walk.abort)
  }

  /** The argument of `process.exit`: 0 when `main` resolves, otherwise the
      error's `errno` when it is present and non-zero, otherwise -1. */
  function ExitCode(failure: Option<Error>): (code: int)
    ensures code == 0 <==> failure.None?
    ensures (failure.Some? && failure.value.errno.Some? && failure.value.errno.value != 0)
              ==> code == failure.value.errno.value
    ensures failure.Some? && (failure.value.errno.None? || failure.value.errno.value == 0) ==> code == -1
  {
    match failure
    case None => 0
    case Some(err) =>
      if err.errno.Some? && err.errno.value != 0 then err.errno.value else -1
  }

  /** The visitor call `e` of the log wrote `w`. */
  ghost predicate WrittenBy(ops: PathOps, rx: Config.RegexOps, cfg: Config.Loaded, host: Host,
                            log: seq<Call>, w: (string, string)) {
    exists e :: Visit(e) in log && ProcessEntry(ops, rx, cfg, host, e) == Wrote(w.0, w.1)
  }

  /** The files the walk wrote, with what it wrote to them, in log order. */
  function Writes(ops: PathOps, rx: Config.RegexOps, cfg: Config.Loaded, host: Host,
                  log: seq<Call>): (r: seq<(string, string)>)
    ensures forall w :: w in r ==> WrittenBy(ops, rx, cfg, host, log, w)
    ensures forall e :: Visit(e) in log && ProcessEntry(ops, rx, cfg, host, e).Wrote? ==>
              (ProcessEntry(ops, rx, cfg, host, e).path, ProcessEntry(ops, rx, cfg, host, e).content) in r
  {
    if log == [] then []
    else
      var rest := Writes(ops, rx, cfg, host, log[1..]);
      assert forall w :: WrittenBy(ops, rx, cfg, host, log[1..], w) ==> WrittenBy(ops, rx, cfg, host, log, w) by {
        assert forall c :: c in log[1..] ==> c in log;
      }
      assert forall c :: c in log ==> c == log[0] || c in log[1..];
      if log[0].Visit? && ProcessEntry(ops, rx, cfg, host, log[0].event).Wrote? then
        var eff := ProcessEntry(ops, rx, cfg, host, log[0].event);
        assert WrittenBy(ops, rx, cfg, host, log, (eff.path, eff.content)) by {
          assert Visit(log[0].event) == log[0] && log[0] in log;
        }
        [(eff.path, eff.content)] + rest
      else rest
  }

  /** The writes of consecutive parts of a walk are those of each part, in
      log order. */
  lemma {:induction false} WritesOfAppend(ops: PathOps, rx: Config.RegexOps, cfg: Config.Loaded, host: Host,
                                          a: seq<Call>, b: seq<Call>)
    ensures Writes(ops, rx, cfg, host, a + b) == Writes(ops, rx, cfg, host, a) + Writes(ops, rx, cfg, host, b)
  {
    if a == [] {
      assert a + b == b;
    } else {
      assert (a + b)[0] == a[0];
      assert (a + b)[1..] == a[1..] + b;
      WritesOfAppend(ops, rx, cfg, host, a[1..], b);
    }
  }

  /** Every file the walk wrote is the `index.html` of a directory it visited. */
  lemma WritesAreIndexFiles(ops: PathOps, rx: Config.RegexOps, cfg: Config.Loaded, host: Host, log: seq<Call>)
    ensures forall w :: w in Writes(ops, rx, cfg, host, log) ==>
              exists e :: Visit(e) in log && e.children.Some? && w.0 == IndexFile(e.fullname)
  {
    forall w | w in Writes(ops, rx, cfg, host, log)
      ensures exists e :: Visit(e) in log && e.children.Some? && w.0 == IndexFile(e.fullname)
    {
      var e :| Visit(e) in log && ProcessEntry(ops, rx, cfg, host, e) == Wrote(w.0, w.1);
    }
  }
}
