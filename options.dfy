/** An optional value: `None` stands for JavaScript's `NaN` or `undefined`. */
module Options {

  datatype Option<+T> = None | Some(value: T)
}
