/**
 What utils/fs.js promises about one call of `traverseImp`: which entries
 are looked at, which error codes are tolerated, what the visitor receives,
 and in which order the subtree is visited.
 */
module WalkerFacts {
  import opened Common
  import opened Paths
  import opened Walker

  /** Neither gate of the entry's own path excludes it. */
  predicate Admitted(opts: Options, full: string) {
    !Excludes(opts.ignore, full) && !Excludes(opts.prune, full)
  }

  lemma {:induction false} NoVisits(log: seq<Call>)
    requires forall c :: c in log ==> !c.Visit?
    ensures Visits(log) == []
  {
    if log != [] {
      assert log[0] in log;
      assert forall c :: c in log[1..] ==> c in log;
      NoVisits(log[1..]);
    }
  }

  /** An entry that `ignore` or `prune` holds of is never stat'ed, read or
      visited, and nothing below it is either: the walk of it only asks the
      two callbacks about its own path and ends without error. */
  lemma ExcludedEntryIsSilent(ops: PathOps, opts: Options, visit: Event -> Option<Error>,
                              dirname: string, basename: string, node: Node)
    requires !Admitted(opts, Resolve(ops, dirname, basename))
    ensures var r := Walk(ops, opts, visit, dirname, basename, node);
            && r.abort == None
            && (forall c :: c in r.log ==> (c.AskIgnore? || c.AskPrune?))
            && (forall c :: c in r.log ==> PathOf(c) == Resolve(ops, dirname, basename))
            && Visits(r.log) == []
  {
    var r := Walk(ops, opts, visit, dirname, basename, node);
    NoVisits(r.log);
  }

  /** A callback that rejects on the entry's own path counts as false: when
      each callback is absent, resolves falsy or rejects, the entry is
      stat'ed. */
  lemma RejectedGateReadsAsFalse(ops: PathOps, opts: Options, visit: Event -> Option<Error>,
                                 dirname: string, basename: string, node: Node)
    requires var full := Resolve(ops, dirname, basename);
             && (opts.ignore.Some? ==> opts.ignore.value(full) != Holds(true))
             && (opts.prune.Some? ==> opts.prune.value(full) != Holds(true))
    ensures Stat(Resolve(ops, dirname, basename)) in Walk(ops, opts, visit, dirname, basename, node).log
  {
    var full := Resolve(ops, dirname, basename);
    var asks := Asked(opts.ignore, AskIgnore(full)) + Asked(opts.prune, AskPrune(full));
    var rest := Examine(ops, opts, visit, dirname, basename, node);
    assert rest.log[0] == Stat(full);
    assert (asks + rest.log)[|asks|] == Stat(full);
  }

  /** A failed `stat` produces no visitor call; ENOENT and EACCES end the
      entry quietly, any other code aborts the walk with that error. */
  lemma StatFailureSkipsOrAborts(ops: PathOps, opts: Options, visit: Event -> Option<Error>,
                                 dirname: string, basename: string, err: Error)
    requires Admitted(opts, Resolve(ops, dirname, basename))
    ensures var r := Walk(ops, opts, visit, dirname, basename, StatFailed(err));
            && Visits(r.log) == []
            && (r.abort.None? <==> (err.code == ENOENT || err.code == EACCES))
            && (r.abort.Some? ==> r.abort.value == err)
  {
    var full := Resolve(ops, dirname, basename);
    var ex := Examine(ops, opts, visit, dirname, basename, StatFailed(err));
    assert ex == Outcome([Stat(full)], OnFailure(err));
    var r := Walk(ops, opts, visit, dirname, basename, StatFailed(err));
    assert r == Outcome(Asks(opts, full) + [Stat(full)], OnFailure(err));
    NoVisits(r.log);
  }

  /** A non-directory gets exactly one visitor call, without `children`, and
      is never listed; the walk ends as the visitor's promise settles. */
  lemma FileVisitedOnce(ops: PathOps, opts: Options, visit: Event -> Option<Error>,
                        dirname: string, basename: string)
    requires Admitted(opts, Resolve(ops, dirname, basename))
    ensures var r := Walk(ops, opts, visit, dirname, basename, File);
            var e := Event(dirname, basename, Resolve(ops, dirname, basename), None);
            && Visits(r.log) == [e]
            && (forall c :: c in r.log ==> !c.ReadDir?)
            && r.abort == visit(e)
  {
    var full := Resolve(ops, dirname, basename);
    var e := Event(dirname, basename, full, None);
    var ex := Examine(ops, opts, visit, dirname, basename, File);
    assert ex == Outcome([Stat(full), Visit(e)], visit(e));
    var r := Walk(ops, opts, visit, dirname, basename, File);
    assert r == Outcome(Asks(opts, full) + [Stat(full), Visit(e)], visit(e));
    var before := Asks(opts, full) + [Stat(full)];
    assert r.log == before + [Visit(e)];
    NoVisits(before);
    VisitsAppend(before, [Visit(e)]);
    assert Visits([Visit(e)]) == [e] by {
      assert [Visit(e)][1..] == [];
    }
  }

  /** A directory whose `readdir` fails gets no visitor call, and nothing
      below it does; the failure follows the same ENOENT/EACCES policy as
      `stat`. */
  lemma ReadDirFailureSkipsOrAborts(ops: PathOps, opts: Options, visit: Event -> Option<Error>,
                                    dirname: string, basename: string, err: Error)
    requires Admitted(opts, Resolve(ops, dirname, basename))
    ensures var r := Walk(ops, opts, visit, dirname, basename, Dir(ListFailed(err)));
            && Visits(r.log) == []
            && (r.abort.None? <==> CanSkip(err))
            && (r.abort.Some? ==> r.abort.value == err)
  {
    var full := Resolve(ops, dirname, basename);
    var node := Dir(ListFailed(err));
    var ls := ListDir(ops, opts, visit, dirname, basename, node);
    assert ls == Outcome([ReadDir(full)], OnFailure(err));
    var ex := Examine(ops, opts, visit, dirname, basename, node);
    assert ex == Outcome([Stat(full), ReadDir(full)], OnFailure(err));
    var r := Walk(ops, opts, visit, dirname, basename, node);
    assert r == Outcome(Asks(opts, full) + [Stat(full), ReadDir(full)], OnFailure(err));
    NoVisits(r.log);
  }

  /** A rejection of `ignore` while the listing is filtered is handled like a
      failed `readdir`: no visitor call for the directory or below it, and
      the ENOENT/EACCES policy decides between skipping and aborting. */
  lemma FilterRejectionSkipsOrAborts(ops: PathOps, opts: Options, visit: Event -> Option<Error>,
                                     dirname: string, basename: string, entries: seq<Entry>, err: Error)
    requires var full := Resolve(ops, dirname, basename);
             && Admitted(opts, full)
             && FilterChildren(ops, opts.ignore, full, entries).kept == Err(err)
    ensures var r := Walk(ops, opts, visit, dirname, basename, Dir(Listed(entries)));
            && Visits(r.log) == []
            && (r.abort.None? <==> CanSkip(err))
            && (r.abort.Some? ==> r.abort.value == err)
  {
    var full := Resolve(ops, dirname, basename);
    var node := Dir(Listed(entries));
    var f := FilterChildren(ops, opts.ignore, full, entries);
    var ls := ListDir(ops, opts, visit, dirname, basename, node);
    assert ls == Outcome([ReadDir(full)] + f.log, OnFailure(err));
    var ex := Examine(ops, opts, visit, dirname, basename, node);
    assert ex == Outcome([Stat(full)] + ([ReadDir(full)] + f.log), OnFailure(err));
    var r := Walk(ops, opts, visit, dirname, basename, node);
    assert r == Outcome(Asks(opts, full) + ([Stat(full)] + ([ReadDir(full)] + f.log)), OnFailure(err));
    assert forall c :: c in [ReadDir(full)] + f.log ==> !c.Visit?;
    assert forall c :: c in [Stat(full)] + ([ReadDir(full)] + f.log) ==> !c.Visit?;
    NoVisits(r.log);
  }

  /** The children handed to the visitor: the `readdir` names in `readdir`
      order, minus those whose full name `ignore` holds of. */
  lemma ChildrenAreFilteredListing(ops: PathOps, opts: Options, full: string, entries: seq<Entry>)
    requires FilterChildren(ops, opts.ignore, full, entries).kept.Ok?
    ensures var kept := FilterChildren(ops, opts.ignore, full, entries).kept.value;
            && IsSubsequence(Names(kept), Names(entries))
            && (forall e :: e in entries ==> (e in kept <==> !Excludes(opts.ignore, Resolve(ops, full, e.name))))
            && (opts.ignore.None? ==> Names(kept) == Names(entries))
            && kept == Keep(entries, Survives(ops, opts.ignore, full))
  {
    var kept := FilterChildren(ops, opts.ignore, full, entries).kept.value;
    NamesKeepOrder(kept, entries);
    FilterKeepsEveryCopy(ops, opts.ignore, full, entries);
  }

  lemma {:induction false} NamesKeepOrder(a: seq<Entry>, b: seq<Entry>)
    requires IsSubsequence(a, b)
    ensures IsSubsequence(Names(a), Names(b))
    decreases |b|
  {
    if a != [] && b != [] {
      assert Names(b)[1..] == Names(b[1..]);
      if a[0] == b[0] && IsSubsequence(a[1..], b[1..]) {
        assert Names(a)[1..] == Names(a[1..]);
        NamesKeepOrder(a[1..], b[1..]);
      } else {
        NamesKeepOrder(a, b[1..]);
      }
    }
  }

  /** A child that survives the listing filter passes its own `ignore` gate
      too: the second `ignore` call on the same full name cannot exclude it. */
  lemma KeptChildPassesOwnGate(ops: PathOps, opts: Options, full: string, entries: seq<Entry>, e: Entry)
    requires FilterChildren(ops, opts.ignore, full, entries).kept.Ok?
    requires e in FilterChildren(ops, opts.ignore, full, entries).kept.value
    ensures !Excludes(opts.ignore, Resolve(ops, full, e.name))
    ensures !ChildRejects(ops, opts.ignore, full, e)
  {
  }

  /** Pre-order: a listed directory's own visitor call comes before every
      call of its subtree, which is walked only when that call resolves. */
  lemma DirectoryVisitedFirst(ops: PathOps, opts: Options, visit: Event -> Option<Error>,
                              dirname: string, basename: string, entries: seq<Entry>)
    requires var full := Resolve(ops, dirname, basename);
             && Admitted(opts, full)
             && FilterChildren(ops, opts.ignore, full, entries).kept.Ok?
    ensures var full := Resolve(ops, dirname, basename);
            var node := Dir(Listed(entries));
            var kept := FilterChildren(ops, opts.ignore, full, entries).kept.value;
            var e := Event(dirname, basename, full, Some(Names(kept)));
            var r := Walk(ops, opts, visit, dirname, basename, node);
            var below := WalkEntries(ops, opts, visit, full, node, kept);
            && (visit(e).Some? ==> Visits(r.log) == [e] && r.abort == visit(e))
            && (visit(e).None? ==> Visits(r.log) == [e] + Visits(below.log) && r.abort == below.abort)
  {
    var full := Resolve(ops, dirname, basename);
    var node := Dir(Listed(entries));
    var f := FilterChildren(ops, opts.ignore, full, entries);
    var e := Event(dirname, basename, full, Some(Names(f.kept.value)));
    var below := WalkEntries(ops, opts, visit, full, node, f.kept.value);
    var tail := if visit(e).Some? then [] else below.log;
    var ls := ListDir(ops, opts, visit, dirname, basename, node);
    var ex := Examine(ops, opts, visit, dirname, basename, node);
    var r := Walk(ops, opts, visit, dirname, basename, node);
    ListDirOfKept(ops, opts, visit, dirname, basename, entries);
    ExamineOfDirectory(ops, opts, visit, dirname, basename, node);
    WalkOfAdmitted(ops, opts, visit, dirname, basename, node);
    assert r.log == Asks(opts, full) + ([Stat(full)] + ((([ReadDir(full)] + f.log) + [Visit(e)]) + tail));
    VisitsOfDirectoryLog(Asks(opts, full), Stat(full), [ReadDir(full)] + f.log, e, tail);
  }

  /** The visitor events of a directory's log: none among the gate calls,
      the `stat`, the `readdir` and the filter calls, then the directory's
      own event, then those of what follows. */
  lemma VisitsOfDirectoryLog(asks: seq<Call>, stat: Call, pre: seq<Call>, e: Event, tail: seq<Call>)
    requires forall c :: c in asks ==> !c.Visit?
    requires !stat.Visit?
    requires forall c :: c in pre ==> !c.Visit?
    ensures Visits(asks + ([stat] + ((pre + [Visit(e)]) + tail))) == [e] + Visits(tail)
  {
    var mid := pre + [Visit(e)];
    NoVisits(asks);
    NoVisits([stat]);
    NoVisits(pre);
    VisitsAppend(asks, [stat] + (mid + tail));
    VisitsAppend([stat], mid + tail);
    VisitsAppend(mid, tail);
    VisitsAppend(pre, [Visit(e)]);
    assert Visits([Visit(e)]) == [e] by {
      assert [Visit(e)][1..] == [];
    }
  }

  /** The call log of a listed directory that both gates admit: its gate
      calls, `stat`, `readdir`, the filter's `ignore` calls, its own visit,
      and, when that visit resolves, its children's calls. */
  lemma WalkOfListedDirectory(ops: PathOps, opts: Options, visit: Event -> Option<Error>,
                              dirname: string, basename: string, entries: seq<Entry>)
    requires var full := Resolve(ops, dirname, basename);
             && Admitted(opts, full)
             && FilterChildren(ops, opts.ignore, full, entries).kept.Ok?
    ensures var full := Resolve(ops, dirname, basename);
            var node := Dir(Listed(entries));
            var f := FilterChildren(ops, opts.ignore, full, entries);
            var e := Event(dirname, basename, full, Some(Names(f.kept.value)));
            var below := WalkEntries(ops, opts, visit, full, node, f.kept.value);
            var r := Walk(ops, opts, visit, dirname, basename, node);
            && r.log == Asks(opts, full) + [Stat(full), ReadDir(full)] + f.log + [Visit(e)]
                        + (if visit(e).Some? then [] else below.log)
            && r.abort == (if visit(e).Some? then visit(e) else below.abort)
  {
    var full := Resolve(ops, dirname, basename);
    var node := Dir(Listed(entries));
    var f := FilterChildren(ops, opts.ignore, full, entries);
    var e := Event(dirname, basename, full, Some(Names(f.kept.value)));
    var below := WalkEntries(ops, opts, visit, full, node, f.kept.value);
    var tail := if visit(e).Some? then [] else below.log;
    ListDirOfKept(ops, opts, visit, dirname, basename, entries);
    ExamineOfDirectory(ops, opts, visit, dirname, basename, node);
    WalkOfAdmitted(ops, opts, visit, dirname, basename, node);
    Flatten(Asks(opts, full), Stat(full), ReadDir(full), f.log, Visit(e), tail);
  }

  lemma Flatten(a: seq<Call>, s: Call, rd: Call, f: seq<Call>, v: Call, t: seq<Call>)
    ensures a + ([s] + ((([rd] + f) + [v]) + t)) == a + [s, rd] + f + [v] + t
  {
  }

  lemma WalkOfAdmitted(ops: PathOps, opts: Options, visit: Event -> Option<Error>,
                       dirname: string, basename: string, node: Node)
    requires Admitted(opts, Resolve(ops, dirname, basename))
    ensures var ex := Examine(ops, opts, visit, dirname, basename, node);
            Walk(ops, opts, visit, dirname, basename, node)
              == Outcome(Asks(opts, Resolve(ops, dirname, basename)) + ex.log, ex.abort)
  {
  }

  lemma ExamineOfDirectory(ops: PathOps, opts: Options, visit: Event -> Option<Error>,
                           dirname: string, basename: string, node: Node)
    requires node.Dir?
    ensures var ls := ListDir(ops, opts, visit, dirname, basename, node);
            Examine(ops, opts, visit, dirname, basename, node)
              == Outcome([Stat(Resolve(ops, dirname, basename))] + ls.log, ls.abort)
  {
  }

  lemma ListDirOfKept(ops: PathOps, opts: Options, visit: Event -> Option<Error>,
                      dirname: string, basename: string, entries: seq<Entry>)
    requires FilterChildren(ops, opts.ignore, Resolve(ops, dirname, basename), entries).kept.Ok?
    ensures var full := Resolve(ops, dirname, basename);
            var node := Dir(Listed(entries));
            var f := FilterChildren(ops, opts.ignore, full, entries);
            var e := Event(dirname, basename, full, Some(Names(f.kept.value)));
            var ls := ListDir(ops, opts, visit, dirname, basename, node);
            var below := WalkEntries(ops, opts, visit, full, node, f.kept.value);
            && (visit(e).Some? ==> ls == Outcome([ReadDir(full)] + f.log + [Visit(e)], visit(e)))
            && (visit(e).None? ==> ls == Outcome([ReadDir(full)] + f.log + [Visit(e)] + below.log, below.abort))
  {
  }

  /** The outcomes of walking each kept child on its own. */
  function ChildRuns(ops: PathOps, opts: Options, visit: Event -> Option<Error>,
                     full: string, kept: seq<Entry>): (runs: seq<Outcome>)
    ensures |runs| == |kept|
    ensures forall i :: 0 <= i < |kept| ==> runs[i] == Walk(ops, opts, visit, full, kept[i].name, kept[i].node)
  {
    seq(|kept|, i requires 0 <= i < |kept| => Walk(ops, opts, visit, full, kept[i].name, kept[i].node))
  }

  function Concat(runs: seq<Outcome>): seq<Call> {
    if runs == [] then [] else runs[0].log + Concat(runs[1..])
  }

  /** The children are walked one after the other in listing order: when
      none aborts the calls are those of each child's own walk, concatenated;
      when one aborts, the walk stops right after it with its error, and the
      later siblings are never looked at. A skipped child (ENOENT, EACCES)
      does not abort, so its siblings are still walked. */
  lemma ChildrenRunInOrder(ops: PathOps, opts: Options, visit: Event -> Option<Error>,
                           full: string, parent: Node, kept: seq<Entry>)
    requires parent.Dir? && parent.listing.Listed?
    requires forall e :: e in kept ==> e in parent.listing.entries
    ensures var r := WalkEntries(ops, opts, visit, full, parent, kept);
            var runs := ChildRuns(ops, opts, visit, full, kept);
            && ((forall i :: 0 <= i < |runs| ==> runs[i].abort.None?) ==> r == Outcome(Concat(runs), None))
            && (forall i :: 0 <= i < |runs| && runs[i].abort.Some?
                  && (forall j :: 0 <= j < i ==> runs[j].abort.None?)
                  ==> r == Outcome(Concat(runs[..i+1]), runs[i].abort))
  {
    var runs := ChildRuns(ops, opts, visit, full, kept);
    if forall i :: 0 <= i < |runs| ==> runs[i].abort.None? {
      NoChildAborts(ops, opts, visit, full, parent, kept);
    }
    forall i | 0 <= i < |runs| && runs[i].abort.Some? && (forall j :: 0 <= j < i ==> runs[j].abort.None?)
      ensures WalkEntries(ops, opts, visit, full, parent, kept) == Outcome(Concat(runs[..i+1]), runs[i].abort)
    {
      FirstChildAbortStops(ops, opts, visit, full, parent, kept, i);
    }
  }

  /** One step of the children's loop. */
  lemma WalkEntriesStep(ops: PathOps, opts: Options, visit: Event -> Option<Error>,
                        full: string, parent: Node, kept: seq<Entry>)
    requires parent.Dir? && parent.listing.Listed?
    requires forall e :: e in kept ==> e in parent.listing.entries
    requires kept != []
    ensures var first := Walk(ops, opts, visit, full, kept[0].name, kept[0].node);
            var rest := WalkEntries(ops, opts, visit, full, parent, kept[1..]);
            && (forall e :: e in kept[1..] ==> e in parent.listing.entries)
            && ChildRuns(ops, opts, visit, full, kept)[0] == first
            && ChildRuns(ops, opts, visit, full, kept)[1..] == ChildRuns(ops, opts, visit, full, kept[1..])
            && WalkEntries(ops, opts, visit, full, parent, kept)
               == (if first.abort.Some? then first else Outcome(first.log + rest.log, rest.abort))
  {
    assert forall e :: e in kept[1..] ==> e in kept;
    var runs := ChildRuns(ops, opts, visit, full, kept);
    var tail := ChildRuns(ops, opts, visit, full, kept[1..]);
    assert forall i :: 0 <= i < |tail| ==> runs[1..][i] == runs[i+1] && kept[1..][i] == kept[i+1];
    assert runs[1..] == tail;
  }

  lemma {:induction false} NoChildAborts(ops: PathOps, opts: Options, visit: Event -> Option<Error>,
                                         full: string, parent: Node, kept: seq<Entry>)
    requires parent.Dir? && parent.listing.Listed?
    requires forall e :: e in kept ==> e in parent.listing.entries
    requires var runs := ChildRuns(ops, opts, visit, full, kept);
             forall i :: 0 <= i < |runs| ==> runs[i].abort.None?
    ensures WalkEntries(ops, opts, visit, full, parent, kept)
            == Outcome(Concat(ChildRuns(ops, opts, visit, full, kept)), None)
    decreases |kept|
  {
    if kept != [] {
      WalkEntriesStep(ops, opts, visit, full, parent, kept);
      var runs := ChildRuns(ops, opts, visit, full, kept);
      var tail := ChildRuns(ops, opts, visit, full, kept[1..]);
      assert forall i :: 0 <= i < |tail| ==> tail[i] == runs[i+1];
      NoChildAborts(ops, opts, visit, full, parent, kept[1..]);
    }
  }

  lemma {:induction false} FirstChildAbortStops(ops: PathOps, opts: Options, visit: Event -> Option<Error>,
                                                full: string, parent: Node, kept: seq<Entry>, i: nat)
    requires parent.Dir? && parent.listing.Listed?
    requires forall e :: e in kept ==> e in parent.listing.entries
    requires var runs := ChildRuns(ops, opts, visit, full, kept);
             && i < |runs| && runs[i].abort.Some?
             && forall j :: 0 <= j < i ==> runs[j].abort.None?
    ensures var runs := ChildRuns(ops, opts, visit, full, kept);
            WalkEntries(ops, opts, visit, full, parent, kept) == Outcome(Concat(runs[..i+1]), runs[i].abort)
    decreases i
  {
    WalkEntriesStep(ops, opts, visit, full, parent, kept);
    var runs := ChildRuns(ops, opts, visit, full, kept);
    if i == 0 {
      assert runs[..1] == [runs[0]];
      assert Concat([runs[0]]) == runs[0].log + Concat([]);
    } else {
      var tail := ChildRuns(ops, opts, visit, full, kept[1..]);
      assert forall j :: 0 <= j < |tail| ==> tail[j] == runs[j+1];
      FirstChildAbortStops(ops, opts, visit, full, parent, kept[1..], i - 1);
      assert runs[..i+1][0] == runs[0];
      assert runs[..i+1][1..] == tail[..i];
    }
  }
}
