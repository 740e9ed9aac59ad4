/** The optional-value wrapper used wherever the source returns `undefined`
    or `null` for "absent". */
module Wrappers {

  datatype Option<+T> = None | Some(value: T)
}
