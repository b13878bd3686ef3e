/** What all the other modules share. */
module Wrappers {
  datatype Option<+T> = None | Some(value: T)

  type Byte = b: nat | b < 256

  lemma Associates<T>(a: seq<T>, b: seq<T>, c: seq<T>)
    ensures a + (b + c) == (a + b) + c
  {
  }
}
