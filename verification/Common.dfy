/** Types that several modules share. */
module Common {

  type byte = b: int | 0 <= b < 256 witness 0

  datatype Option<T> = None | Some(value: T)
}
