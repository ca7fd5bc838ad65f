/** The one wrapper type every module needs: a value that may be absent (`T | null` in the source). */
module Options {
  datatype Option<+T> = None | Some(value: T)
}
