/**
 The recursive directory walker of utils/fs.js (`traverse` and
 `traverseImp`), over a finite immutable filesystem tree.

 Every node of the tree carries what `stat` reports for it and, for a
 directory, what `readdir` reports. The walk is a pure function whose result
 records every call the walker makes to the outside (the `ignore` and `prune`
 callbacks, `stat`, `readdir`, the visitor) in the order it makes them, and
 whether the walk ended by a rejection that escapes `traverse`.
 */
module Walker {
  import opened Common
  import opened Paths

  /** How the promise returned by an `ignore` or `prune` callback settles:
      resolved with a value of the given truthiness, or rejected. */
  datatype Answer = Holds(truthy: bool) | Rejects(error: Error)

  /** The `options` argument: each callback may be absent. */
  datatype Options = Options(ignore: Option<string -> Answer>, prune: Option<string -> Answer>)

  /** What `stat` reports for an entry, and for a directory what `readdir` reports. */
  datatype Node = StatFailed(error: Error) | File | Dir(listing: Listing)

  /** `readdir` either fails or lists the children, in its own order. */
  datatype Listing = Listed(entries: seq<Entry>) | ListFailed(error: Error)

  /** A name as `readdir` returns it, and the node found at that name. */
  datatype Entry = Entry(name: string, node: Node)

  /** The object handed to the visitor. `children` is `None` for a
      non-directory, whose object has neither `children` nor `isDirectory`;
      `Some` for a directory, whose object has `isDirectory: true`. */
  datatype Event = Event(dirname: string, basename: string, fullname: string, children: Option<seq<string>>)

  /** One call from the walker to the outside. */
  datatype Call =
    | AskIgnore(path: string)
    | AskPrune(path: string)
    | Stat(path: string)
    | ReadDir(path: string)
    | Visit(event: Event)

  /** The calls made, in order, and the rejection that ended the walk, if any. */
  datatype Outcome = Outcome(log: seq<Call>, abort: Option<Error>)

  /** The result of filtering a directory's listing through `ignore`. */
  datatype Filtered = Filtered(log: seq<Call>, kept: Result<seq<Entry>>)

  function PathOf(c: Call): string {
    if c.Visit? then c.event.fullname else c.path
  }

  /** The event's full name is built from its own dirname and basename. */
  predicate WellFormed(ops: PathOps, e: Event) {
    e.fullname == Resolve(ops, e.dirname, e.basename)
  }

  function Names(es: seq<Entry>): (r: seq<string>)
    ensures |r| == |es|
    ensures forall i :: 0 <= i < |es| ==> r[i] == es[i].name
  {
    if es == [] then [] else [es[0].name] + Names(es[1..])
  }

  /** The visitor events of a log, in order. */
  function Visits(log: seq<Call>): (r: seq<Event>)
  {
    if log == [] then []
    else (if log[0].Visit? then [log[0].event] else []) + Visits(log[1..])
  }

  lemma {:induction false} VisitsAppend(a: seq<Call>, b: seq<Call>)
    ensures Visits(a + b) == Visits(a) + Visits(b)
  {
    if a == [] {
      assert a + b == b;
    } else {
      assert (a + b)[0] == a[0];
      assert (a + b)[1..] == a[1..] + b;
      VisitsAppend(a[1..], b);
      assert Visits(a + b) == (if a[0].Visit? then [a[0].event] else []) + Visits(a[1..] + b);
    }
  }

  /** The decision taken on the entry's own path (utils/fs.js, the `ignore`
      and `prune` gates): a rejected callback reads as false. */
  function Excludes(pred: Option<string -> Answer>, p: string): (b: bool)
    ensures b <==> pred.Some? && pred.value(p) == Holds(true)
  {
    match pred
    case None => false
    case Some(f) =>
      match f(p)
      case Holds(t) => t
      case Rejects(_) => false
  }

  /** The call recorded for a callback, when the callback is supplied. */
  function Asked(pred: Option<string -> Answer>, c: Call): seq<Call> {
    if pred.Some? then [c] else []
  }

  /** The two gate calls on an entry's own path, `ignore` first. */
  function Asks(opts: Options, full: string): (r: seq<Call>)
    ensures forall c :: c in r ==> (c.AskIgnore? || c.AskPrune?) && c.path == full
  {
    Asked(opts.ignore, AskIgnore(full)) + Asked(opts.prune, AskPrune(full))
  }

  /** The error policy of a failed `stat` or `readdir`. */
  function OnFailure(err: Error): (r: Option<Error>)
    ensures r.None? <==> CanSkip(err)
    ensures r.Some? ==> r.value == err
  {
    if CanSkip(err) then None else Some(err)
  }

  /** The child names `ignore` drops, in the sense of the listing filter. */
  predicate ChildRejects(ops: PathOps, ignore: Option<string -> Answer>, full: string, e: Entry) {
    ignore.Some? && ignore.value(Resolve(ops, full, e.name)).Rejects?
  }

  /** The loop over the `readdir` names: a child is dropped when `ignore`
      holds of its full name; the first rejection ends the loop and becomes
      the failure of the whole listing step. */
  function FilterChildren(ops: PathOps, ignore: Option<string -> Answer>, full: string, entries: seq<Entry>): (r: Filtered)
    ensures ignore.None? ==> r.log == [] && r.kept == Ok(entries)
    ensures forall c :: c in r.log ==> c.AskIgnore?
    ensures r.kept.Ok? <==> forall e :: e in entries ==> !ChildRejects(ops, ignore, full, e)
    ensures r.kept.Ok? ==> IsSubsequence(r.kept.value, entries)
    ensures r.kept.Ok? ==> forall e :: e in r.kept.value ==> e in entries
    ensures r.kept.Ok? ==> forall e :: e in entries ==>
              (e in r.kept.value <==> !Excludes(ignore, Resolve(ops, full, e.name)))
    ensures r.kept.Err? ==>
              exists e :: (e in entries && ChildRejects(ops, ignore, full, e)
                           && ignore.value(Resolve(ops, full, e.name)) == Rejects(r.kept.error))
    ensures ignore.Some? ==> |r.log| <= |entries|
    ensures r.kept.Err? ==> && ignore.Some? && 0 < |r.log|
                            && ignore.value(Resolve(ops, full, entries[|r.log| - 1].name)) == Rejects(r.kept.error)
                            && forall j :: 0 <= j < |r.log| - 1 ==> !ChildRejects(ops, ignore, full, entries[j])
    decreases |entries|
  {
    if ignore.None? then
      SubsequenceOfSelf(entries);
      Filtered([], Ok(entries))
    else if entries == [] then Filtered([], Ok([]))
    else
      var child := Resolve(ops, full, entries[0].name);
      match ignore.value(child)
      case Rejects(err) =>
        assert entries[0] in entries && ChildRejects(ops, ignore, full, entries[0]);
        Filtered([AskIgnore(child)], Err(err))
      case Holds(drop) =>
        var rest := FilterChildren(ops, ignore, full, entries[1..]);
        var kept :=
          if rest.kept.Err? || drop then rest.kept
          else
            var k := [entries[0]] + rest.kept.value;
            assert k[0] == entries[0] && k[1..] == rest.kept.value;
            Ok(k);
        var log := [AskIgnore(child)] + rest.log;
        assert forall j :: 1 <= j < |entries| ==> entries[j] == entries[1..][j-1];
        assert !ChildRejects(ops, ignore, full, entries[0]);
        Filtered(log, kept)
  }

  /** The path is some dirname joined with some basename, then normalised. */
  ghost predicate Resolved(ops: PathOps, p: string) {
    exists d, b :: p == Resolve(ops, d, b)
  }

  /** Every path the log hands to a callback, `stat`, `readdir` or the
      visitor is a normalised join. */
  ghost predicate PathsResolved(ops: PathOps, log: seq<Call>) {
    forall c :: c in log ==> Resolved(ops, PathOf(c))
  }

  /** The filter's test on one child: `ignore` does not hold of its full name. */
  function Survives(ops: PathOps, ignore: Option<string -> Answer>, full: string): Entry -> bool {
    (e: Entry) => !Excludes(ignore, Resolve(ops, full, e.name))
  }

  /** When no child rejects, the kept children are exactly what
      `Array.prototype.filter` would keep: every child, each copy of a
      repeated one included, that `ignore` does not hold of, in order. */
  lemma {:induction false} FilterKeepsEveryCopy(ops: PathOps, ignore: Option<string -> Answer>,
                                                full: string, entries: seq<Entry>)
    requires FilterChildren(ops, ignore, full, entries).kept.Ok?
    ensures FilterChildren(ops, ignore, full, entries).kept.value == Keep(entries, Survives(ops, ignore, full))
    decreases |entries|
  {
    var p := Survives(ops, ignore, full);
    if ignore.None? {
      KeepEverything(entries, p);
    } else if entries != [] {
      var child := Resolve(ops, full, entries[0].name);
      assert ignore.value(child).Holds?;
      assert p(entries[0]) == !ignore.value(child).truthy;
      FilterKeepsEveryCopy(ops, ignore, full, entries[1..]);
    }
  }

  /** `ignore` is asked about the children in `readdir` order, one call
      each, up to and including the first that rejects, or about every
      child when none does. */
  lemma {:induction false} FilterAsksInOrder(ops: PathOps, ignore: Option<string -> Answer>,
                                             full: string, entries: seq<Entry>)
    ensures var r := FilterChildren(ops, ignore, full, entries);
            && (forall j :: 0 <= j < |r.log| ==> r.log[j] == AskIgnore(Resolve(ops, full, entries[j].name)))
            && (ignore.Some? && r.kept.Ok? ==> |r.log| == |entries|)
    decreases |entries|
  {
    if ignore.Some? && entries != [] && ignore.value(Resolve(ops, full, entries[0].name)).Holds? {
      FilterAsksInOrder(ops, ignore, full, entries[1..]);
      var r := FilterChildren(ops, ignore, full, entries);
      var rest := FilterChildren(ops, ignore, full, entries[1..]);
      assert r.log == [AskIgnore(Resolve(ops, full, entries[0].name))] + rest.log;
      assert r.kept.Ok? ==> rest.kept.Ok?;
      ConsAsks(ops, full, entries, rest.log);
    }
  }

  lemma ConsAsks(ops: PathOps, full: string, entries: seq<Entry>, rest: seq<Call>)
    requires |rest| < |entries|
    requires forall j :: 0 <= j < |rest| ==> rest[j] == AskIgnore(Resolve(ops, full, entries[1..][j].name))
    ensures var log := [AskIgnore(Resolve(ops, full, entries[0].name))] + rest;
            forall j :: 0 <= j < |log| ==> log[j] == AskIgnore(Resolve(ops, full, entries[j].name))
  {
    var log := [AskIgnore(Resolve(ops, full, entries[0].name))] + rest;
    assert forall j :: 1 <= j < |log| ==> log[j] == rest[j-1] && entries[j] == entries[1..][j-1];
  }

  lemma ChildAsksResolved(ops: PathOps, full: string, entries: seq<Entry>, log: seq<Call>)
    requires |log| <= |entries|
    requires forall j :: 0 <= j < |log| ==> log[j] == AskIgnore(Resolve(ops, full, entries[j].name))
    ensures PathsResolved(ops, log)
  {
    forall c | c in log
      ensures Resolved(ops, PathOf(c))
    {
      var j :| 0 <= j < |log| && log[j] == c;
      assert PathOf(c) == Resolve(ops, full, entries[j].name);
    }
  }

  /** Every visitor event in the log has a well-formed full name. */
  ghost predicate VisitsWellFormed(ops: PathOps, log: seq<Call>) {
    forall c :: c in log && c.Visit? ==> WellFormed(ops, c.event)
  }

  /** `traverseImp(dirname, basename, visitor, options)` for the entry whose
      tree node is `node`: the `ignore` gate, then the `prune` gate. */
  function Walk(ops: PathOps, opts: Options, visit: Event -> Option<Error>,
                dirname: string, basename: string, node: Node): (r: Outcome)
    ensures VisitsWellFormed(ops, r.log)
    ensures PathsResolved(ops, r.log)
    decreases node, 3, 0
  {
    var full := Resolve(ops, dirname, basename);
    if Excludes(opts.ignore, full) then Outcome(Asked(opts.ignore, AskIgnore(full)), None)
    else if Excludes(opts.prune, full) then Outcome(Asks(opts, full), None)
    else
      var rest := Examine(ops, opts, visit, dirname, basename, node);
      Outcome(Asks(opts, full) + rest.log, rest.abort)
  }

  /** The part of `traverseImp` after both gates let the entry through:
      `stat`, then the visitor for a non-directory. */
  function Examine(ops: PathOps, opts: Options, visit: Event -> Option<Error>,
                   dirname: string, basename: string, node: Node): (r: Outcome)
    ensures VisitsWellFormed(ops, r.log)
    ensures PathsResolved(ops, r.log)
    decreases node, 2, 0
  {
    var full := Resolve(ops, dirname, basename);
    match node
    case StatFailed(err) => Outcome([Stat(full)], OnFailure(err))
    case File =>
      var e := Event(dirname, basename, full, None);
      Outcome([Stat(full), Visit(e)], visit(e))
    case Dir(listing) =>
      var rest := ListDir(ops, opts, visit, dirname, basename, node);
      Outcome([Stat(full)] + rest.log, rest.abort)
  }

  /** A directory: `readdir`, the filter, the visitor, then the children. */
  function ListDir(ops: PathOps, opts: Options, visit: Event -> Option<Error>,
                   dirname: string, basename: string, node: Node): (r: Outcome)
    requires node.Dir?
    ensures VisitsWellFormed(ops, r.log)
    ensures PathsResolved(ops, r.log)
    decreases node, 1, 0
  {
    var full := Resolve(ops, dirname, basename);
    match node.listing
    case ListFailed(err) => Outcome([ReadDir(full)], OnFailure(err))
    case Listed(entries) =>
      var f := FilterChildren(ops, opts.ignore, full, entries);
      FilterAsksInOrder(ops, opts.ignore, full, entries);
      ChildAsksResolved(ops, full, entries, f.log);
      match f.kept
      case Err(err) => Outcome([ReadDir(full)] + f.log, OnFailure(err))
      case Ok(kept) =>
        var e := Event(dirname, basename, full, Some(Names(kept)));
        var visited := [ReadDir(full)] + f.log + [Visit(e)];
        if visit(e).Some? then Outcome(visited, visit(e))
        else
          var rest := WalkEntries(ops, opts, visit, full, node, kept);
          Outcome(visited + rest.log, rest.abort)
  }

  /** The final loop of `traverseImp`: the kept children, one after the
      other, until one of them aborts. */
  function WalkEntries(ops: PathOps, opts: Options, visit: Event -> Option<Error>,
                       full: string, parent: Node, kept: seq<Entry>): (r: Outcome)
    requires parent.Dir? && parent.listing.Listed?
    requires forall e :: e in kept ==> e in parent.listing.entries
    ensures VisitsWellFormed(ops, r.log)
    ensures PathsResolved(ops, r.log)
    decreases parent, 0, |kept|
  {
    if kept == [] then Outcome([], None)
    else
      assert kept[0] in parent.listing.entries;
      var first := Walk(ops, opts, visit, full, kept[0].name, kept[0].node);
      if first.abort.Some? then first
      else
        var rest := WalkEntries(ops, opts, visit, full, parent, kept[1..]);
        Outcome(first.log + rest.log, rest.abort)
  }

  /** `traverse(directory, visitor, options)`: the root is split into its
      dirname and basename, and a missing `options` reads as no callbacks. */
  function Traverse(ops: PathOps, directory: string, visit: Event -> Option<Error>,
                    options: Option<Options>, root: Node): (r: Outcome)
    ensures |r.log| > 0
    ensures PathOf(r.log[0]) == Resolve(ops, ops.dirname(directory), ops.basename(directory))
    ensures VisitsWellFormed(ops, r.log)
    ensures PathsResolved(ops, r.log)
  {
    var opts := if options.Some? then options.value else Options(None, None);
    FirstCallConcernsEntry(ops, opts, visit, ops.dirname(directory), ops.basename(directory), root);
    Walk(ops, opts, visit, ops.dirname(directory), ops.basename(directory), root)
  }

  /** Whatever the callbacks and the tree, the first thing `traverseImp` does
      concerns the entry's own full name. */
  lemma FirstCallConcernsEntry(ops: PathOps, opts: Options, visit: Event -> Option<Error>,
                               dirname: string, basename: string, node: Node)
    ensures var r := Walk(ops, opts, visit, dirname, basename, node);
            |r.log| > 0 && PathOf(r.log[0]) == Resolve(ops, dirname, basename)
  {
    var full := Resolve(ops, dirname, basename);
    if !Excludes(opts.ignore, full) && !Excludes(opts.prune, full) {
      var rest := Examine(ops, opts, visit, dirname, basename, node);
      assert rest.log[0] == Stat(full);
    }
  }
}
