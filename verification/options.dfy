/** An optional value: `None` stands for an interaction that never completes. */
module Options {

  datatype Option<+T> = None | Some(value: T)

}
