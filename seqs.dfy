/** Small facts about sequences, stated once so that the proofs that use them do not
    have to rediscover them in a crowded context. */
module Seqs {
  /** A non-empty sequence is its head followed by its tail. */
  lemma ConsAssoc<T>(a: seq<T>, s: seq<T>)
    requires s != []
    ensures a + [s[0]] + s[1..] == a + s
  {
    assert s == [s[0]] + s[1..];
  }

  /** A non-empty sequence is its front followed by its last element. */
  lemma SnocLast<T>(s: seq<T>)
    requires s != []
    ensures s[..|s| - 1] + [s[|s| - 1]] == s
  {
  }

  /** The tail of a prefix is a prefix of the tail. */
  lemma PrefixTail<T>(s: seq<T>, i: int)
    requires 0 < i <= |s|
    ensures s[..i][0] == s[0] && s[..i][1..] == s[1..][..i - 1]
  {
  }

  /** Replacing the element after a prefix. */
  lemma SnocReplace<T>(prefix: seq<T>, x: T, y: T, rest: seq<T>)
    ensures prefix + [y] + rest == (prefix + ([x] + rest))[|prefix| := y]
  {
  }
}
