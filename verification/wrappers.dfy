/** An optional value shared by the model: `None` stands for a JavaScript
    `null` result or a C null pointer. */
module Wrappers {

  datatype Option<+T> = None | Some(value: T)

}
