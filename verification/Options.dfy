/** The absent-or-present value used by the other modules for `null` results and fields. */
module Options {

  datatype Option<+T> = None | Some(value: T)
}
