/** The optional value used throughout the model: `None` stands for "absent"
    or, where a Python operation can raise, for "raised". */
module Wrappers {

  datatype Option<+T> = None | Some(value: T)
}
