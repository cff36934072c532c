/** Concatenation of sequences. */
module Sequences {

  /** A loop that appends `next` to what it has keeps what it has plus what is still to come. */
  lemma {:induction false} AppendNext<T>(done: seq<T>, next: seq<T>, rest: seq<T>)
    ensures done + (next + rest) == done + next + rest
  {
  }
}
