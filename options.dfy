/** An optional value, used wherever the program yields `null` or may find nothing. */
module Options {

  datatype Option<+T> = None | Some(value: T)

}
