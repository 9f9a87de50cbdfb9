/** Java's nullable references, as values: `None` stands for `null`. */
module Options {
  datatype Option<+T> = None | Some(value: T)
}
