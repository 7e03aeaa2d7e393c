/** Small facts about sequences shared by the loops that build their output piece by piece. */
module Sequences {
  /** Moving a piece from the pending part to the finished part keeps the whole. */
  lemma Regroup<T>(done: seq<T>, piece: seq<T>, rest: seq<T>, whole: seq<T>)
    requires done + (piece + rest) == whole
    ensures (done + piece) + rest == whole
  {
  }
}
