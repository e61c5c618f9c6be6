/** Nullable columns and absent rows. SQL's `IS NOT` is inequality of options. */
module Options {
  datatype Option<+T> = None | Some(value: T)
}
