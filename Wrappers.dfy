/** The conventional optional value: `None` stands for a variable a query
    solution leaves unbound. */
module Wrappers {

  datatype Option<+T> = None | Some(value: T)
}
