/** Failure-compatible wrappers and the exceptions the scanner can raise. */
module Results {

  /** Python's "value or None". */
  datatype Option<+T> = None | Some(value: T)

  /** The exceptions `main` can raise on the paths this model covers. */
  datatype ScanError =
    | EmptyDirArgument                    // IndexError: `thehome[-1]` on an empty argument
    | MissingListingEntry(entry: string)  // ValueError: `files.remove(entry)` found no such entry
    | MalformedSize(sizestr: string)      // ValueError: `float(...)` rejected the numeric prefix
    | UnorderableSize                     // TypeError: a `None` size was compared or added

  /** Either a value or the exception that ended the run; usable with `:-`. */
  datatype Result<+T> = Ok(value: T) | Err(error: ScanError) {

    predicate IsFailure() {
      Err?
    }

    function PropagateFailure<U>(): Result<U>
      requires Err?
    {
      Err(error)
    }

    function Extract(): T
      requires Ok?
    {
      value
    }
  }
}
