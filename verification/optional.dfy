/** An optional value: the result of a search or a reading that may find nothing. */
module Optional {

  datatype Option<T> = None | Some(value: T)
}
