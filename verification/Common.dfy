/** Datatypes shared by the modules of the project. */
module Common {

  /** A value that may be missing: a null pointer, an absent header, a failed lookup. */
  datatype Option<+T> = None | Some(value: T)

  type Byte = b: int | 0 <= b < 256

  /** Some definitions are written so that they stay closed until `Unlock` is mentioned, which
      keeps the proofs of code that does not look inside them small. */
  ghost predicate Unlock(key: int) {
    true
  }
}
