/** Sequences shared by the other modules. */
module Sequences {

  /** The sequence without the element at `i`. */
  function Drop<T>(s: seq<T>, i: nat): seq<T>
    requires i < |s|
  {
    s[..i] + s[i + 1..]
  }

  lemma DropKeeps<T>(s: seq<T>, i: nat)
    requires i < |s|
    ensures forall x :: x in s && x != s[i] ==> x in Drop(s, i)
    ensures forall x :: x in Drop(s, i) ==> x in s
  {
    assert s == s[..i] + [s[i]] + s[i + 1..];
  }
}
