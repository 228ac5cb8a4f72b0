/** Java's nullable references: `None` stands for `null`. */
module Optional {

  datatype Option<+T> = None | Some(value: T)
}
