/**
 * Identities about slices and partitions, stated once so that proofs about
 * the routes can use them without re-deriving them among their own facts.
 */
module Collections {

  /** A sequence is its three consecutive slices put back together. */
  lemma ThreeParts<T>(s: seq<T>, i: nat, j: nat)
    requires i <= j <= |s|
    ensures s[..i] + s[i..j] + s[j..] == s
  {
  }

  /** A prefix grows by the next element. */
  lemma TakeOneMore<T>(s: seq<T>, i: nat)
    requires i < |s|
    ensures s[..i + 1] == s[..i] + [s[i]]
  {
  }

  /** A non-empty sequence is its head followed by its tail, as a sequence and as a multiset. */
  lemma HeadTail<T>(s: seq<T>)
    requires s != []
    ensures s == [s[0]] + s[1..]
    ensures multiset(s) == multiset{s[0]} + multiset(s[1..])
    ensures forall x :: x in s <==> x == s[0] || x in s[1..]
  {
    assert s == [s[0]] + s[1..];
  }

  /** Putting an element in front of a sequence. */
  lemma Cons<T>(x: T, s: seq<T>)
    ensures ([x] + s)[0] == x && ([x] + s)[1..] == s
    ensures multiset([x] + s) == multiset{x} + multiset(s)
  {
  }

  /** Moving one element from the first part of a partition to the second keeps it a partition. */
  lemma MoveOne<T>(pending: set<T>, done: set<T>, all: set<T>, x: T)
    requires pending + done == all && pending !! done && x in pending
    ensures (pending - {x}) + (done + {x}) == all && (pending - {x}) !! (done + {x})
  {
  }
}
