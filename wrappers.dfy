/** Outcomes shared by every module: an optional value, and a value or the error
    the source would raise instead. */
module Wrappers {

  datatype Option<T> = None | Some(value: T)

  /** The exceptions the modelled code can raise, one constructor per cause. */
  datatype Error =
    | NoLegalMro            // `TypeError("no legal mro")` from `merge`
    | KeyError(key: string) // a lookup that no record in the resolution order answers
    | RecursionLimit        // `dump` re-entering a record it is already dumping
    | BadBaseSpec           // a `'$'` entry that is neither a string, a list of strings nor absent
    | NonAbstractBase       // a base id that does not start with `$`
    | NotARecord            // a base id that names a value that is not a record
    | BadGrades             // a `grades` entry that `parse_grades` rejects
    | NotADict              // a segment, or a definition in it, that is not a mapping

  datatype Result<T> = Ok(value: T) | Err(error: Error)
}
