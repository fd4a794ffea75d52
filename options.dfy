/** An optional value: stands for Python's `None` and for a missing payload key. */
module Options {

  datatype Option<+T> = None | Some(value: T)
}
