/** The optional value used for cells that may be missing (pandas NaN / NaT). */
module Options {
  datatype Option<+T> = None | Some(value: T)
}
