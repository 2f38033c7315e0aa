/** What several modules share: optional values, and lists that one element is taken out of. */
module Wrappers {

  datatype Option<+T> = None | Some(value: T)

  /** The list without the first occurrence of an element. */
  function Erase<T(==)>(s: seq<T>, x: T): seq<T> {
    if s == [] then [] else if s[0] == x then s[1..] else [s[0]] + Erase(s[1..], x)
  }

  lemma {:induction false} EraseOne<T>(s: seq<T>, x: T)
    ensures multiset(Erase(s, x)) == multiset(s) - multiset{x}
  {
    if s != [] {
      assert s == [s[0]] + s[1..];
      if s[0] != x {
        EraseOne(s[1..], x);
      }
    }
  }

  lemma {:induction false} EraseSubset<T>(s: seq<T>, x: T, y: T)
    ensures y in Erase(s, x) ==> y in s
  {
    if s != [] && s[0] != x {
      EraseSubset(s[1..], x, y);
    }
  }

  lemma {:induction false} EraseAbsent<T>(s: seq<T>, x: T)
    ensures x !in s ==> Erase(s, x) == s
  {
    if s != [] {
      EraseAbsent(s[1..], x);
    }
  }
}
