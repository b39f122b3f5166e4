/** The usual optional value: `None` stands for "nothing is produced". */
module Optional {
  datatype Option<+T> = None | Some(value: T)
}
