/**
 What index.js promises about a whole run: the help flag short-circuits
 everything, the walk covers the working directory with `prune` only, the
 listings and the pruning agree, and how the run's end becomes an exit code.
 */
module IndexerFacts {
  import opened Common
  import opened Paths
  import opened Walker
  import Config
  import opened Indexer

  /** A help flag prints help (when its text can be read) and does nothing
      else: no configuration is read and nothing is walked. */
  lemma HelpSkipsConfigAndWalk(args: seq<string>, w: World)
    requires exists i :: 0 <= i < |args| && args[i] in HelpFlags
    ensures var r := Main(args, w);
            && !r.configRead && r.walk.None?
            && (r.helpShown <==> w.helpFile.None?)
            && (ExitCode(r.failure) == 0 <==> w.helpFile.None?)
  {
  }

  /** Without a help flag the configuration is read; the walk of `.` starts
      exactly when loading it and reading the template both succeed, with
      the visitor and the `{ prune }` options of `main`, and the run fails
      exactly when one of these steps or the walk fails. */
  lemma NoHelpMeansIndexing(args: seq<string>, w: World)
    requires forall i :: 0 <= i < |args| ==> args[i] !in HelpFlags
    ensures var r := Main(args, w);
            var loaded := Config.LoadConfig(w.config, w.rx);
            && r.configRead && !r.helpShown
            && (r.walk.Some? <==> loaded.Ok? && w.template.None?)
            && (loaded.Err? ==> r.failure == Some(loaded.error))
            && (loaded.Ok? && w.template.Some? ==> r.failure == w.template)
            && (r.walk.Some? ==>
                  && r.walk.value == Traverse(w.ops, ".", Visitor(w.ops, w.rx, loaded.value, w.host),
                                              Some(MainOptions(w.ops, w.rx, loaded.value)), w.cwd)
                  && r.failure == r.walk.value.abort)
  {
    assert !HelpRequested(args);
  }

  /** `main` supplies no `ignore`, so every directory event of its walk lists
      the raw `readdir` names, and no `ignore` call is ever made. */
  lemma MainWalkListsRawChildren(ops: PathOps, rx: Config.RegexOps, cfg: Config.Loaded,
                                 full: string, entries: seq<Entry>)
    ensures var f := FilterChildren(ops, MainOptions(ops, rx, cfg).ignore, full, entries);
            && f.kept == Ok(entries) && f.log == []
            && Names(f.kept.value) == Names(entries)
  {
  }

  /** The `prune` callback of `main` never rejects, and holds exactly when
      `isPrune` does. */
  lemma MainPruneIsIsPrune(ops: PathOps, rx: Config.RegexOps, cfg: Config.Loaded, p: string)
    ensures Excludes(MainOptions(ops, rx, cfg).prune, p) == Config.IsPrune(ops, rx, cfg, p)
    ensures MainOptions(ops, rx, cfg).prune.value(p).Holds?
  {
  }

  /** Listing and pruning agree: a child other than `index.html` appears in
      its directory's rendered listing exactly when the walk does not prune
      it. The listing tests `join(fullname, x)` while the walk tests
      `normalize(join(fullname, x))`; `isPrune` normalises both, so they
      agree as soon as normalising twice is normalising once. */
  lemma ListedIffNotPruned(ops: PathOps, rx: Config.RegexOps, cfg: Config.Loaded,
                           full: string, children: seq<string>, x: string)
    requires NormalizeIdempotent(ops)
    requires x in children && x != IndexName
    ensures x in ListedFiles(ops, rx, cfg, full, children)
            <==> !Excludes(MainOptions(ops, rx, cfg).prune, Resolve(ops, full, x))
  {
    assert ops.normalize(ops.normalize(ops.join(full, x))) == ops.normalize(ops.join(full, x));
    Config.PredicatesSeeNormalForm(ops, rx, cfg, ops.join(full, x), Resolve(ops, full, x));
  }

  /** The generator's own output file is never listed, and a directory whose
      existing `index.html` is protected is left untouched. */
  lemma ProtectedIndexIsPreserved(ops: PathOps, rx: Config.RegexOps, cfg: Config.Loaded, host: Host, e: Event)
    requires e.children.Some?
    requires host.fileExists(IndexFile(e.fullname))
    requires Config.IsNoOverwrite(ops, rx, cfg, IndexFile(e.fullname))
    ensures ProcessEntry(ops, rx, cfg, host, e) == Preserved
    ensures Visitor(ops, rx, cfg, host)(e).None?
  {
  }

  /** A directory that is not protected gets exactly one write attempt: to
      its own `index.html`, with the rendered listing; a failed render or
      write is the visitor's rejection. */
  lemma UnprotectedIndexIsWritten(ops: PathOps, rx: Config.RegexOps, cfg: Config.Loaded, host: Host, e: Event)
    requires e.children.Some?
    requires !(host.fileExists(IndexFile(e.fullname)) && Config.IsNoOverwrite(ops, rx, cfg, IndexFile(e.fullname)))
    ensures var data := RenderData(ListedFiles(ops, rx, cfg, e.fullname, e.children.value), e.basename);
            var eff := ProcessEntry(ops, rx, cfg, host, e);
            && (host.render(data).Err? ==> eff == Failed(host.render(data).error))
            && (host.render(data).Ok? ==>
                  var content := host.render(data).value;
                  && (host.writeFile(IndexFile(e.fullname), content).None? ==> eff == Wrote(IndexFile(e.fullname), content))
                  && (host.writeFile(IndexFile(e.fullname), content).Some? ==>
                        eff == Failed(host.writeFile(IndexFile(e.fullname), content).value)))
            && (Visitor(ops, rx, cfg, host)(e).Some? <==> eff.Failed?)
  {
  }
}
