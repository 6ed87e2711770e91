/** The optional value used for absent keys in ACL grants and for absent rows in the bucket table. */
module Wrappers {
  datatype Option<+T> = None | Some(value: T)
}
