/** Failure-compatible wrappers and the ways the display script can stop. */
module Errors {

  datatype Option<+T> = None | Some(value: T)

  /** Every exception the script can raise, by the condition that raises it. */
  datatype Error =
    /** `atoms[0]` or `atoms[1]` on a tuple with too few atoms (IndexError). */
    | MalformedRecord(field: string, row: nat)
    /** `int(label)` on a label that is not an integer (ValueError). */
    | MalformedNumber(atom: string)
    /** `label.split('$')[1]` without a `$` (IndexError), or a segment `int()` rejects. */
    | MalformedIndex(atom: string)
    /** `max_i` is never bound because no start time exceeds -1 (NameError). */
    | NoMaximum
    /** A dictionary lookup of a key it does not hold (KeyError). */
    | DanglingReference(table: string, key: string)
    /** An operation id whose first character has no colour (KeyError or IndexError). */
    | UnhandledKind(op: string)

  datatype Result<+T> = Ok(value: T) | Err(error: Error) {

    predicate IsFailure() {
      Err?
    }

    function PropagateFailure<U>(): Result<U>
      requires Err?
    {
      Err(error)
    }

    function Extract(): T
      requires Ok?
    {
      value
    }
  }
}
