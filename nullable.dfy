/** A JavaScript value that may be `null`: `selectedCard`, a story's `points`, and
    the result of `parseFloat` where `NaN` stands for "not a number". */
module Nullable {

  datatype Option<+T> = None | Some(value: T)
}
