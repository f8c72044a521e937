/** What every part of the model uses: optional values, and two facts about sequences. */
module Common {

  datatype Option<+T> = None | Some(value: T)

  predicate StartsWith(s: string, p: string) { p <= s }

  lemma Glue<T>(a: seq<T>, b: seq<T>, c: seq<T>)
    ensures a + b + c == a + (b + c)
  {
  }
}
