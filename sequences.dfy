/** Sequence operations that the .NET collections and events of the diagram model rely on. */
module Sequences {

  /** Index of the first occurrence of `x` in `s`: the element `Collection<T>.Remove` takes out. */
  function FirstIndex<T(==)>(s: seq<T>, x: T): (i: nat)
    requires x in s
    ensures i < |s| && s[i] == x
    ensures x !in s[..i]
  {
    if s[0] == x then 0
    else
      var j := FirstIndex(s[1..], x);
      assert s[..j + 1] == [s[0]] + s[1..][..j];
      j + 1
  }

  /** The invocation list of an event after `list -= h`: the last occurrence of `h` is
      taken out, and a list that does not hold `h` is left as it is. */
  function RemoveLast<T(==)>(s: seq<T>, h: T): (r: seq<T>)
    ensures h in s ==> |r| == |s| - 1 && multiset(r) + multiset{h} == multiset(s)
    ensures h !in s ==> r == s
    decreases |s|
  {
    if s == [] then []
    else
      var init, last := s[..|s| - 1], s[|s| - 1];
      assert s == init + [last];
      if last == h then init
      else RemoveLast(init, h) + [last]
  }

  /** `RemoveLast` takes out exactly the element at the last position `i` that holds `h`. */
  lemma {:induction false} RemoveLastAt<T>(s: seq<T>, h: T, i: nat)
    requires i < |s| && s[i] == h && h !in s[i + 1..]
    ensures RemoveLast(s, h) == s[..i] + s[i + 1..]
  {
    var init, last := s[..|s| - 1], s[|s| - 1];
    assert s == init + [last];
    if i < |s| - 1 {
      assert last in s[i + 1..];
      assert init[i + 1..] + [last] == s[i + 1..];
      RemoveLastAt(init, h, i);
      assert s[..i] == init[..i];
    }
  }

  /** Subscribing `h` and then unsubscribing it gives back the invocation list as it was. */
  lemma UnsubscribeUndoesSubscribe<T>(s: seq<T>, h: T)
    ensures RemoveLast(s + [h], h) == s
  {
  }
}
