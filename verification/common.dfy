/**
 Shared vocabulary of the model: optional values, results, the error values
 that Node's filesystem calls reject with, and a few facts about sequences
 (order-preserving subsequences and filtering) used by every other module.
 */
module Common {

  datatype Option<+T> = None | Some(value: T)

  /** The outcome of an awaited step that either resolves with a value or rejects. */
  datatype Result<+T> = Ok(value: T) | Err(error: Error)

  /** The `code` property of a rejection: the two codes the walker tolerates,
      any other string code, or no code at all (a SyntaxError, a TypeError). */
  datatype ErrorCode = ENOENT | EACCES | OtherCode(name: string) | NoCode

  /** A rejection value. `errno` is `None` when the property is absent. */
  datatype Error = Error(code: ErrorCode, errno: Option<int>)

  /** The walker's policy for stat and readdir failures: these two codes skip
      the entry, every other code aborts the walk. */
  predicate CanSkip(e: Error) {
    e.code == ENOENT || e.code == EACCES
  }

  /** `a` is obtained from `b` by deleting elements, keeping the order. */
  predicate IsSubsequence<T(==)>(a: seq<T>, b: seq<T>)
    decreases |b|
  {
    if a == [] then true
    else if b == [] then false
    else (a[0] == b[0] && IsSubsequence(a[1..], b[1..])) || IsSubsequence(a, b[1..])
  }

  lemma {:induction false} SubsequenceOfSelf<T>(s: seq<T>)
    ensures IsSubsequence(s, s)
  {
    if s != [] {
      SubsequenceOfSelf(s[1..]);
    }
  }

  /** Array.prototype.filter: the elements of `s` satisfying `p`, in order. */
  function Keep<T(==,!new)>(s: seq<T>, p: T -> bool): (r: seq<T>)
    ensures IsSubsequence(r, s)
    ensures forall x :: x in r <==> x in s && p(x)
    ensures |r| <= |s|
    ensures forall x :: multiset(r)[x] == if p(x) then multiset(s)[x] else 0
  {
    if s == [] then []
    else
      assert s == [s[0]] + s[1..];
      assert multiset(s) == multiset([s[0]]) + multiset(s[1..]);
      var rest := Keep(s[1..], p);
      if p(s[0]) then
        assert multiset([s[0]] + rest) == multiset([s[0]]) + multiset(rest);
        [s[0]] + rest
      else rest
  }

  /** Filtering with a test every element passes keeps the whole sequence. */
  lemma {:induction false} KeepEverything<T(!new)>(s: seq<T>, p: T -> bool)
    requires forall x :: x in s ==> p(x)
    ensures Keep(s, p) == s
  {
    if s != [] {
      assert s[0] in s;
      assert forall x :: x in s[1..] ==> x in s;
      KeepEverything(s[1..], p);
    }
  }
}
