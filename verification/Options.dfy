/** The one helper type the models share: a nullable column, a missing file, an absent map entry. */
module Options {
  datatype Option<+T> = None | Some(value: T)
}
