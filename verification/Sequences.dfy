// Small facts about sequences used by several components.
module Sequences {

  lemma Assoc<T>(a: seq<T>, b: seq<T>, c: seq<T>)
    ensures a + (b + c) == (a + b) + c
  {
  }

  lemma ConsConcat<T>(a: seq<T>, b: seq<T>)
    requires a != []
    ensures (a + b)[0] == a[0]
    ensures (a + b)[1..] == a[1..] + b
  {
  }

  lemma PrefixStep<T>(a: seq<T>, k: nat)
    requires k < |a|
    ensures a[..k + 1] == a[..k] + [a[k]]
  {
  }

  lemma Empties<T>(a: seq<T>)
    ensures a + [] == a && [] + a == a && a[..0] == [] && a[..|a|] == a
  {
  }
}
