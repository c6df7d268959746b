/** The optional value Swift writes as `T?`: lookups that find nothing return `None`. */
module Options {
  datatype Option<+T> = None | Some(value: T)
}
