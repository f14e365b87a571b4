/** Types shared by the models. */
module Common {
  datatype Option<+T> = None | Some(value: T)

  /** A nullable pointer as a list of at most one element. */
  function List<T>(o: Option<T>): seq<T> { if o.Some? then [o.value] else [] }

  /** The C type `unsigned char`. */
  type byte = x: int | 0 <= x < 256

  lemma Regroup<T>(a: seq<T>, b: seq<T>, c: seq<T>)
    ensures (a + b) + c == a + (b + c)
  {
  }
}
