/** Small facts about sequences that the proofs elsewhere cite by name. */
module Seqs {

  /** Concatenation is associative; stated generically so it is proved without looking at elements. */
  lemma AppendAssoc<T>(a: seq<T>, b: seq<T>, c: seq<T>)
    ensures a + (b + c) == (a + b) + c
  {
  }

  /** Appending nothing changes nothing. */
  lemma AppendEmpty<T>(a: seq<T>)
    ensures a + [] == a
  {
  }

  /** A non-empty sequence is its first element followed by the rest. */
  lemma FirstAndRest<T>(s: seq<T>)
    requires s != []
    ensures [s[0]] + s[1..] == s
  {
  }

  lemma PrependEmpty<T>(a: seq<T>)
    ensures [] + a == a
  {
  }

  lemma DropNone<T>(a: seq<T>)
    ensures a[0..] == a
  {
  }

  /** Dropping `i` elements, then `j` more, drops `i + j`. */
  lemma DropDrop<T>(a: seq<T>, i: nat, j: nat)
    requires i + j <= |a|
    ensures a[i..][j..] == a[i + j..]
  {
  }

  /** The first `j + 1` elements are the first `j` followed by the `j`th. */
  lemma TakeStep<T>(s: seq<T>, j: nat)
    requires j < |s|
    ensures s[..j + 1][..j] == s[..j] && s[..j + 1][j] == s[j]
    ensures s[..j + 1] == s[..j] + [s[j]]
  {
  }

  lemma TakeAll<T>(s: seq<T>)
    ensures s[..|s|] == s
  {
  }
}
