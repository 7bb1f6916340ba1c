/** Facts about sequence slices that the string and record proofs lean on. */
module Seqs {

  lemma SplitLast<T>(s: seq<T>)
    requires s != []
    ensures s[..|s| - 1] + [s[|s| - 1]] == s
  {
  }

  lemma PrefixStep<T>(s: seq<T>, i: nat)
    requires i < |s|
    ensures s[..i + 1] == s[..i] + [s[i]]
  {
  }

  lemma SplitJoin<T>(s: seq<T>, k: nat)
    requires k <= |s|
    ensures s[..k] + s[k..] == s
  {
  }

  /** Dropping the first element shifts every suffix and prefix of the rest by one. */
  lemma DropFirst<T>(s: seq<T>, k: nat)
    requires s != [] && k < |s|
    ensures s[1..][|s| - 1 - k..] == s[|s| - k..]
    ensures s[..|s| - k] == [s[0]] + s[1..][..|s| - 1 - k]
  {
  }

  /** Dropping the last element leaves every prefix, and every suffix but the last element. */
  lemma DropLast<T>(s: seq<T>, k: nat)
    requires s != [] && k < |s|
    ensures s[..|s| - 1][..k] == s[..k]
    ensures s[k..] == s[..|s| - 1][k..] + [s[|s| - 1]]
  {
  }

  /** Slicing `a + rest` inside `a` slices `a`. */
  lemma SliceOfAppend<T>(a: seq<T>, rest: seq<T>, n: nat)
    requires n <= |a|
    ensures (a + rest)[..n] == a[..n]
    ensures (a + rest)[n..] == a[n..] + rest
  {
  }

  lemma AppendAssoc<T>(x: seq<T>, y: seq<T>, z: seq<T>)
    ensures x + (y + z) == (x + y) + z
  {
  }

  /** A slice of the suffix from `i` is a slice of `s` shifted by `i`. */
  lemma SliceOfSuffix<T>(s: seq<T>, i: nat, k: nat)
    requires i + k <= |s|
    ensures s[i..][..k] == s[i..i + k]
    ensures s[i..][k..] == s[i + k..]
  {
  }
}
