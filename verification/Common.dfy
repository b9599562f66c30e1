/** Definitions that several models share. */
module Common {

  datatype Option<+T> = None | Some(value: T)

  /** The indicator of a condition, for counting. */
  function One(b: bool): nat { if b then 1 else 0 }

  lemma Regroup<T>(a: seq<T>, b: seq<T>, c: seq<T>)
    ensures (a + b) + c == a + (b + c)
  {
  }
}
