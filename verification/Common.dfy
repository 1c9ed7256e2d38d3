/** Types that several components share. */
module Common {
  datatype Option<+T> = None | Some(value: T)

  /** The contents of a file. */
  type Bytes = seq<bv8>
}
