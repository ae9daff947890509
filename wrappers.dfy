/** The optional value that stands for Java's nullable references throughout the model. */
module Wrappers {
  datatype Option<T> = None | Some(value: T)
}
