/** The one value-or-nothing type every other module uses for `null` and `undefined`. */
module Options {
  datatype Option<+T> = None | Some(value: T)
}
