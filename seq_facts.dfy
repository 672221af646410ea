/** Facts about sequences used by the inductive proofs, stated once
    generically so that each proof gets them without unfolding its own
    definitions. */
module SeqFacts {
  /** A non-empty sequence is its prefix followed by its last element. */
  lemma SplitLast<T>(s: seq<T>)
    requires s != []
    ensures s[..|s| - 1] + [s[|s| - 1]] == s
  {
  }

  /** Appending a non-empty sequence is appending its prefix, then its last
      element. */
  lemma AppendSplitLast<T>(a: seq<T>, b: seq<T>)
    requires b != []
    ensures a + b == (a + b[..|b| - 1]) + [b[|b| - 1]]
  {
    SplitLast(b);
  }

  /** Concatenation is associative. */
  lemma AppendAssoc<T>(a: seq<T>, b: seq<T>, c: seq<T>)
    ensures (a + b) + c == a + (b + c)
  {
  }

  /** Taking the old length of an extended sequence gives it back. */
  lemma PrefixOfSnoc<T>(s: seq<T>, x: T)
    ensures (s + [x])[..|s|] == s
  {
  }

  /** Extending a prefix by one element. */
  lemma TakeSnoc<T>(s: seq<T>, i: nat)
    requires i < |s|
    ensures s[..i + 1] == s[..i] + [s[i]]
  {
  }

  /** The shorter prefix of a longer prefix. */
  lemma TakeTake<T>(s: seq<T>, i: nat)
    requires i < |s|
    ensures s[..i + 1][..i] == s[..i]
  {
  }

  /** The whole sequence as a prefix of itself. */
  lemma TakeAll<T>(s: seq<T>)
    ensures s[..|s|] == s
  {
  }

  /** A prefix extended after a fixed head. */
  lemma AppendTakeSnoc<T>(a: seq<T>, s: seq<T>, k: nat)
    requires k < |s|
    ensures a + s[..k + 1] == (a + s[..k]) + [s[k]]
  {
  }

  /** Map-then-filter extended by one element: the members of the result
      are the images of the input that are kept. */
  lemma MapFilterSnoc<T, U>(init: seq<T>, last: T, f: T -> U, keep: U -> bool, prev: seq<U>)
    requires forall y :: y in prev <==> exists a :: a in init && y == f(a) && keep(y)
    ensures forall y :: y in prev + (if keep(f(last)) then [f(last)] else []) <==> exists a :: a in init + [last] && y == f(a) && keep(y)
  {
    assert forall a :: a in init + [last] <==> a in init || a == last;
  }
}
