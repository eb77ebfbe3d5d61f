/**
 Node's `path` module, kept abstract: the model never looks inside `join`,
 `normalize`, `dirname` or `basename`; it only records which of them is
 applied to what. A `PathOps` value is one fixed choice of all four.
 */
module Paths {

  datatype PathOps = PathOps(
    join: (string, string) -> string,
    normalize: string -> string,
    dirname: string -> string,
    basename: string -> string)

  /** `path.normalize(path.join(dir, base))`, the walker's full name of an entry. */
  function Resolve(ops: PathOps, dir: string, base: string): string {
    ops.normalize(ops.join(dir, base))
  }

  /** Normalising an already normalised path changes nothing. */
  ghost predicate NormalizeIdempotent(ops: PathOps) {
    forall p :: ops.normalize(ops.normalize(p)) == ops.normalize(p)
  }
}
