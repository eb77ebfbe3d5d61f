/**
 The configuration object of config/index.js: loading the `.html-indexer`
 file, normalising its two pattern fields into lists, and the two path
 predicates built on them.

 Reading the file and `JSON.parse` are summarised by a `Source`; the regular
 expression engine by `RegexOps`, whose `test(pattern, s)` stands for
 `new RegExp(pattern, 'i').test(s)` and whose `syntaxError(pattern)` is the
 error `new RegExp` throws for a malformed pattern.
 */
module Config {
  import opened Common
  import opened Paths

  const ConfigFileName: string := ".html-indexer"

  /** One field of the parsed object, as `_.castArray(value || [])` sees it:
      absent, a string, an array (its elements as the strings `RegExp`
      converts them to), or some other JSON value of the given truthiness
      and string form. */
  datatype Field = Absent | Text(text: string) | List(items: seq<string>) | Scalar(truthy: bool, asText: string)

  datatype ConfigObject = ConfigObject(noOverwrite: Field, ignore: Field)

  /** What reading `ConfigFileName` and parsing it produced: a JSON object,
      or a top-level `null`, number, string or boolean. */
  datatype Source = ReadFailed(error: Error) | ParseFailed(error: Error) | Parsed(obj: ConfigObject) | ParsedNonObject

  /** The `TypeError` of reading or setting a property of `null` or of a
      primitive in strict-mode code: it has neither `code` nor `errno`. */
  const NotAnObjectError: Error := Error(NoCode, None)

  datatype RegexOps = RegexOps(test: (string, string) -> bool, syntaxError: string -> Option<Error>)

  /** The loaded configuration: the source strings of `noOverwriteREs` and
      `ignoreREs`, in order. */
  datatype Loaded = Loaded(noOverwrite: seq<string>, ignore: seq<string>)

  /** `DEFAULT_CONFIG`, used when the file does not exist. */
  const DefaultConfig: ConfigObject := ConfigObject(List([]), List([]))

  /** JavaScript truthiness of a field; an array is truthy even when empty. */
  predicate Truthy(f: Field) {
    match f
    case Absent => false
    case Text(s) => s != ""
    case List(_) => true
    case Scalar(t, _) => t
  }

  /** The string `new RegExp` makes of a non-array field. */
  function AsPattern(f: Field): string
    requires !f.List? && !f.Absent?
  {
    if f.Text? then f.text else f.asText
  }

  /** `_.castArray(value || [])`. */
  function PatternList(f: Field): (r: seq<string>)
    ensures f.List? ==> r == f.items
    ensures !f.List? ==> |r| <= 1
    ensures !f.List? ==> (r != [] <==> Truthy(f))
    ensures !f.List? && r != [] ==> r[0] == AsPattern(f)
  {
    if !Truthy(f) then []
    else if f.List? then f.items
    else [AsPattern(f)]
  }

  /** The error of the first pattern `new RegExp` rejects, mapping in order. */
  function FirstSyntaxError(rx: RegexOps, pats: seq<string>): (r: Option<Error>)
    ensures r.None? <==> forall i :: 0 <= i < |pats| ==> rx.syntaxError(pats[i]).None?
    ensures r.Some? ==> exists i :: 0 <= i < |pats| && rx.syntaxError(pats[i]) == r
                                    && forall j :: 0 <= j < i ==> rx.syntaxError(pats[j]).None?
  {
    if pats == [] then None
    else if rx.syntaxError(pats[0]).Some? then rx.syntaxError(pats[0])
    else
      var rest := FirstSyntaxError(rx, pats[1..]);
      assert forall i :: 1 <= i < |pats| ==> pats[i] == pats[1..][i-1];
      rest
  }

  /** The object `loadConfig` works on once the `try` block is over: the
      parsed one, or the default when the caught error has code ENOENT. A
      top-level value that is not an object fails at the first property
      access on it. */
  function ConfigObjectOf(src: Source): (r: Result<ConfigObject>)
    ensures src.Parsed? ==> r == Ok(src.obj)
    ensures src.ParsedNonObject? ==> r == Err(NotAnObjectError)
    ensures (src.ReadFailed? || src.ParseFailed?) ==>
              && (r.Ok? <==> src.error.code == ENOENT)
              && (r.Ok? ==> r.value == DefaultConfig)
              && (r.Err? ==> r.error == src.error)
  {
    match src
    case Parsed(obj) => Ok(obj)
    case ParsedNonObject => Err(NotAnObjectError)
    case ReadFailed(err) => if err.code == ENOENT then Ok(DefaultConfig) else Err(err)
    case ParseFailed(err) => if err.code == ENOENT then Ok(DefaultConfig) else Err(err)
  }

  /** `loadConfig()`: the configuration it installs, or the error it rejects
      with. The `noOverwrite` patterns are compiled before the `ignore` ones. */
  function LoadConfig(src: Source, rx: RegexOps): (r: Result<Loaded>)
    ensures ConfigObjectOf(src).Err? ==> r == Err(ConfigObjectOf(src).error)
    ensures r.Ok? ==> && ConfigObjectOf(src).Ok?
                      && r.value == Loaded(PatternList(ConfigObjectOf(src).value.noOverwrite),
                                           PatternList(ConfigObjectOf(src).value.ignore))
    ensures r.Ok? ==> && (forall i :: 0 <= i < |r.value.noOverwrite| ==> rx.syntaxError(r.value.noOverwrite[i]).None?)
                      && (forall i :: 0 <= i < |r.value.ignore| ==> rx.syntaxError(r.value.ignore[i]).None?)
    ensures ConfigObjectOf(src).Ok? && r.Err? ==>
              var obj := ConfigObjectOf(src).value;
              || FirstSyntaxError(rx, PatternList(obj.noOverwrite)) == Some(r.error)
              || (FirstSyntaxError(rx, PatternList(obj.noOverwrite)).None?
                  && FirstSyntaxError(rx, PatternList(obj.ignore)) == Some(r.error))
  {
    match ConfigObjectOf(src)
    case Err(err) => Err(err)
    case Ok(obj) =>
      var noOverwrite := PatternList(obj.noOverwrite);
      var ignore := PatternList(obj.ignore);
      match FirstSyntaxError(rx, noOverwrite)
      case Some(err) => Err(err)
      case None =>
        match FirstSyntaxError(rx, ignore)
        case Some(err) => Err(err)
        case None => Ok(Loaded(noOverwrite, ignore))
  }

  /** `this.config` after `loadConfig()`, starting from `state`. */
  function Reload(state: Option<Loaded>, src: Source, rx: RegexOps): (r: Option<Loaded>)
    ensures LoadConfig(src, rx).Err? ==> r == state
    ensures LoadConfig(src, rx).Ok? ==> r == Some(LoadConfig(src, rx).value)
  {
    match LoadConfig(src, rx)
    case Ok(cfg) => Some(cfg)
    case Err(_) => state
  }

  /** `!!regexps.find(re => re.test(s))`. */
  function AnyMatches(rx: RegexOps, pats: seq<string>, s: string): (b: bool)
    ensures b <==> exists i :: 0 <= i < |pats| && rx.test(pats[i], s)
  {
    if pats == [] then false
    else if rx.test(pats[0], s) then true
    else
      var rest := AnyMatches(rx, pats[1..], s);
      assert forall i :: 1 <= i < |pats| ==> pats[i] == pats[1..][i-1];
      rest
  }

  /** `isNoOverwrite(fullname)`. */
  function IsNoOverwrite(ops: PathOps, rx: RegexOps, cfg: Loaded, fullname: string): (b: bool)
    ensures b <==> exists i :: 0 <= i < |cfg.noOverwrite|
                               && rx.test(cfg.noOverwrite[i], ops.normalize(fullname))
  {
    AnyMatches(rx, cfg.noOverwrite, ops.normalize(fullname))
  }

  /** `isPrune(fullname)`. */
  function IsPrune(ops: PathOps, rx: RegexOps, cfg: Loaded, fullname: string): (b: bool)
    ensures b <==> exists i :: 0 <= i < |cfg.ignore| && rx.test(cfg.ignore[i], ops.normalize(fullname))
  {
    AnyMatches(rx, cfg.ignore, ops.normalize(fullname))
  }

  /** A caught error with code ENOENT, from reading or from parsing, yields
      the default configuration: no patterns, so neither predicate ever holds. */
  lemma MissingFileMeansNoPatterns(src: Source, rx: RegexOps)
    requires (src.ReadFailed? || src.ParseFailed?) && src.error.code == ENOENT
    ensures LoadConfig(src, rx) == Ok(Loaded([], []))
    ensures forall ops, p :: !IsNoOverwrite(ops, rx, Loaded([], []), p) && !IsPrune(ops, rx, Loaded([], []), p)
  {
  }

  /** Any other caught error is rethrown, and `this.config` keeps its value. */
  lemma OtherLoadErrorIsRethrown(state: Option<Loaded>, src: Source, rx: RegexOps)
    requires (src.ReadFailed? || src.ParseFailed?) && src.error.code != ENOENT
    ensures LoadConfig(src, rx) == Err(src.error)
    ensures Reload(state, src, rx) == state
  {
  }

  /** A file whose top-level JSON value is not an object makes `loadConfig`
      reject with a `TypeError` that carries no `errno`, and `this.config`
      keeps its value. */
  lemma NonObjectFileIsRejected(state: Option<Loaded>, rx: RegexOps)
    ensures LoadConfig(ParsedNonObject, rx) == Err(NotAnObjectError)
    ensures LoadConfig(ParsedNonObject, rx).error.errno.None?
    ensures Reload(state, ParsedNonObject, rx) == state
  {
  }

  /** What `_.castArray(value || [])` means for the predicates, end to end:
      after a successful load, a field holding an array matches a path
      exactly when one of its elements does; any other field matches
      exactly when it is truthy and its own string form matches; so a
      single pattern string acts as a one-pattern list and a falsy field
      never matches. */
  lemma FieldDecidesPredicate(ops: PathOps, rx: RegexOps, obj: ConfigObject, p: string)
    requires LoadConfig(Parsed(obj), rx).Ok?
    ensures var cfg := LoadConfig(Parsed(obj), rx).value;
            var n := ops.normalize(p);
            && (obj.ignore.List? ==>
                  (IsPrune(ops, rx, cfg, p) <==> exists i :: 0 <= i < |obj.ignore.items| && rx.test(obj.ignore.items[i], n)))
            && (!obj.ignore.List? ==>
                  (IsPrune(ops, rx, cfg, p) <==> Truthy(obj.ignore) && rx.test(AsPattern(obj.ignore), n)))
            && (obj.noOverwrite.List? ==>
                  (IsNoOverwrite(ops, rx, cfg, p)
                   <==> exists i :: 0 <= i < |obj.noOverwrite.items| && rx.test(obj.noOverwrite.items[i], n)))
            && (!obj.noOverwrite.List? ==>
                  (IsNoOverwrite(ops, rx, cfg, p) <==> Truthy(obj.noOverwrite) && rx.test(AsPattern(obj.noOverwrite), n)))
  {
    var cfg := LoadConfig(Parsed(obj), rx).value;
    if !obj.ignore.List? && Truthy(obj.ignore) {
      assert cfg.ignore == [AsPattern(obj.ignore)];
    }
    if !obj.noOverwrite.List? && Truthy(obj.noOverwrite) {
      assert cfg.noOverwrite == [AsPattern(obj.noOverwrite)];
    }
  }

  /** A parsed file installs exactly its normalised pattern lists when every
      pattern compiles, and otherwise rejects with the first `new RegExp`
      error, leaving `this.config` as it was. */
  lemma ParsedFileInstallsItsPatterns(state: Option<Loaded>, obj: ConfigObject, rx: RegexOps)
    ensures var r := LoadConfig(Parsed(obj), rx);
            var noOverwrite := PatternList(obj.noOverwrite);
            var ignore := PatternList(obj.ignore);
            && (r.Ok? <==> (forall i :: 0 <= i < |noOverwrite| ==> rx.syntaxError(noOverwrite[i]).None?)
                           && (forall i :: 0 <= i < |ignore| ==> rx.syntaxError(ignore[i]).None?))
            && (r.Ok? ==> r.value == Loaded(noOverwrite, ignore) && Reload(state, Parsed(obj), rx) == Some(r.value))
            && (r.Err? ==> Reload(state, Parsed(obj), rx) == state
                           && (FirstSyntaxError(rx, noOverwrite) == Some(r.error)
                               || FirstSyntaxError(rx, ignore) == Some(r.error)))
  {
  }

  /** A single pattern string is a one-pattern list; an absent or falsy field
      is no pattern at all. */
  lemma SinglePatternBecomesList(f: Field)
    ensures f.Text? && f.text != "" ==> PatternList(f) == [f.text]
    ensures !Truthy(f) ==> PatternList(f) == []
    ensures |PatternList(f)| <= 1 || f.List?
  {
  }

  /** The two lists do not interfere: `ignore` patterns never affect
      `isNoOverwrite`, `noOverwrite` patterns never affect `isPrune`. */
  lemma PredicatesAreIndependent(ops: PathOps, rx: RegexOps, a: Loaded, b: Loaded, p: string)
    ensures a.noOverwrite == b.noOverwrite ==> IsNoOverwrite(ops, rx, a, p) == IsNoOverwrite(ops, rx, b, p)
    ensures a.ignore == b.ignore ==> IsPrune(ops, rx, a, p) == IsPrune(ops, rx, b, p)
  {
  }

  /** The predicates only see the normalised path: two names with the same
      normal form get the same answer. */
  lemma PredicatesSeeNormalForm(ops: PathOps, rx: RegexOps, cfg: Loaded, p: string, q: string)
    requires ops.normalize(p) == ops.normalize(q)
    ensures IsNoOverwrite(ops, rx, cfg, p) == IsNoOverwrite(ops, rx, cfg, q)
    ensures IsPrune(ops, rx, cfg, p) == IsPrune(ops, rx, cfg, q)
  {
  }
}
