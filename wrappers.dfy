/** The optional-value wrapper the rest of the model uses for regex groups that may not
    take part in a match and for a path lookup that may find nothing. */
module Wrappers {

  datatype Option<+T> = None | Some(value: T)
}
