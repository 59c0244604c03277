/** The optional value used wherever the source has a nullable result
    (`File?`, `listFiles() ?: return`, a regex `find` that may fail). */
module Options {

  datatype Option<+T> = None | Some(value: T)

  /** Regrouping a concatenation, for proofs that build a sequence piece by piece. */
  lemma AppendAssoc<T>(a: seq<T>, b: seq<T>, c: seq<T>)
    ensures (a + b) + c == a + (b + c)
  {
  }
}
