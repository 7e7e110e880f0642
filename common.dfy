/** Option and Result, as Rust's `Option` and `Result`, source locations, and one sequence fact the emitters share. */
module Common {

  /** A position in the source text (the lexer's `Location`). */
  datatype Location = Location(row: nat, col: nat)

  datatype Option<T> = None | Some(value: T)

  datatype Result<T, E> = Ok(value: T) | Err(error: E)

  /** Appending is associative (the emitters append piece by piece). */
  lemma AppendAssoc<T>(a: seq<T>, b: seq<T>, c: seq<T>)
    ensures a + (b + c) == (a + b) + c
  {
  }
}
