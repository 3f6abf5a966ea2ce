/**
 * Shared value types: optional values, results carrying the exceptions the
 * PHP code throws, and the loosely typed scalars that PHP arrays hold.
 */
module Base {

  datatype Option<T> = None | Some(value: T)

  /** The exceptions and fatal errors the modelled PHP code can raise. */
  datatype Error =
    | InvalidBranchFormat(branch: string)   // UnexpectedValueException from the branch regex check
    | UnknownBranch(major: nat, minor: nat) // UnexpectedValueException: minor above the major's maximum
    | DisallowedBranchName(branch: string)  // UnexpectedValueException from sanitizeBranch
    | MixedTypeFilter                       // a string-first setter list holding a non-string
    | UnknownLabel(name: string)            // a short label missing from its MagicIntMetadata table
    | ConflictingDateFilter                 // both a changed and a status-changed bound
    | CountOfNull                           // TypeError: sizeof() applied to an undefined variable
    | EmptyLog                              // parseLog on an empty raw log
    | UninitializedUrls                     // a typed property read before any assignment
    | UndefinedMethod(name: string)         // Error: a static method the class neither declares nor inherits
    | InaccessibleProperty(name: string)    // Error: a protected property read from outside its class

  datatype Result<T> = Ok(value: T) | Err(error: Error)

  /** The outcome of a void PHP method: it returned, or it threw. */
  datatype Outcome = Pass | Fail(error: Error)

  /** A PHP array element as the setters receive it: a short label or an integer code. */
  datatype Scalar = Str(s: string) | Int(i: int)

  /** The elements of a sequence are pairwise distinct. */
  predicate NoDuplicates<T(==)>(s: seq<T>)
  {
    forall i, j :: 0 <= i < j < |s| ==> s[i] != s[j]
  }
}
