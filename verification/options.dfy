/** An optional value, used where the modelled code either produces a value
    or rejects its input (an exception caught by the caller). */
module Options {

  datatype Option<+T> = None | Some(value: T)

}
