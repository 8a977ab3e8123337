/** The optional value used for JavaScript's `null`/`undefined` fields and
    for a query that returns no data. */
module Wrappers {

  datatype Option<+T> = None | Some(value: T)
}
