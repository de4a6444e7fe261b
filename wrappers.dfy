/** Option, used for the places where the Python program would raise
    (an IndexError or a ValueError) and abort the whole batch. */
module Wrappers {

  datatype Option<+T> = None | Some(value: T)
}
