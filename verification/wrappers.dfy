/** The optional value used for the results of external queries and for
    the JavaScript `null` that the handlers check. */
module Wrappers {

  datatype Option<+T> = None | Some(value: T)
}
