/** Small shared vocabulary: an optional value, as JavaScript's `undefined`/`null`
    versus a present value. */
module Common {

  datatype Option<+T> = None | Some(value: T)
}
