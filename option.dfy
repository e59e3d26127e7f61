/** An optional value: the model's stand-in for a pointer result that may be NULL. */
module Optional {

  datatype Option<+T> = None | Some(value: T)

}
