/** Small datatypes shared by every module. */
module Types {
  datatype Option<+T> = None | Some(value: T)
}
