/** Types shared by the modules of the model. */
module Common {

  /** A value that may be absent: a missing dictionary key, a `None` return. */
  datatype Option<T> = None | Some(value: T) {
    function GetOr(default: T): T {
      match this
      case Some(v) => v
      case None => default
    }
  }

  /** One question/answer record, the `{"question": …, "answer": …}` dictionaries
      that the generator collects and the writer persists. */
  datatype QAPair = QAPair(question: string, answer: string)

  /** Regrouping a concatenation. */
  lemma AppendAssoc<T>(a: seq<T>, b: seq<T>, c: seq<T>)
    ensures (a + b) + c == a + (b + c)
  {
  }

  /** A suffix starts with its first element. */
  lemma DropCons<T>(s: seq<T>, i: nat)
    requires i < |s|
    ensures s[i..] == [s[i]] + s[i + 1..]
  {
  }

  /** A suffix splits at any later index. */
  lemma DropSplit<T>(s: seq<T>, a: nat, b: nat)
    requires a <= b <= |s|
    ensures s[a..] == s[a..b] + s[b..]
  {
  }
}
