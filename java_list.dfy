/**
 * The java.util.List operations the services rely on: indexOf and
 * remove(Object), both by the first occurrence of an element; and the
 * ArrayList object the Galataman builders receive their URLs in.
 */
module JavaList {
  /** List.remove(Object): the list without its first occurrence of the element. */
  function RemoveFirst<T(==)>(s: seq<T>, p: T): (r: seq<T>)
    ensures p !in s ==> r == s
    ensures |r| == if p in s then |s| - 1 else |s|
  {
    if s == [] then []
    else if s[0] == p then
      assert s == [s[0]] + s[1..];
      s[1..]
    else
      assert s == [s[0]] + s[1..];
      [s[0]] + RemoveFirst(s[1..], p)
  }

  /** The position of the first occurrence of an element that occurs. */
  function FirstIndex<T(==)>(s: seq<T>, p: T): (i: nat)
    requires p in s
    ensures i < |s| && s[i] == p && p !in s[..i]
  {
    if s[0] == p then 0
    else
      assert s[1..][..FirstIndex(s[1..], p)] == s[1..FirstIndex(s[1..], p) + 1];
      assert s[..FirstIndex(s[1..], p) + 1] == [s[0]] + s[1..FirstIndex(s[1..], p) + 1];
      FirstIndex(s[1..], p) + 1
  }

  /** The occurrence removed is the first one, and the rest keep their order. */
  lemma {:induction false} RemoveFirstAt<T>(s: seq<T>, p: T)
    requires p in s
    ensures RemoveFirst(s, p) == s[..FirstIndex(s, p)] + s[FirstIndex(s, p) + 1..]
  {
    if s[0] == p {
      assert s[..0] + s[1..] == s[1..];
    } else {
      var t := s[1..];
      assert p in t by { assert s == [s[0]] + t; }
      var i := FirstIndex(t, p);
      assert FirstIndex(s, p) == i + 1;
      assert RemoveFirst(s, p) == [s[0]] + RemoveFirst(t, p);
      RemoveFirstAt(t, p);
      ConsSplit(s, i + 1);
    }
  }

  /** Taking the head off and putting it back around a cut. */
  lemma ConsSplit<T>(s: seq<T>, i: nat)
    requires 0 < i < |s|
    ensures [s[0]] + (s[1..][..i - 1] + s[1..][i..]) == s[..i] + s[i + 1..]
  {
    assert s[..i] == [s[0]] + s[1..][..i - 1];
    assert s[i + 1..] == s[1..][i..];
  }

  /** Removal takes one occurrence of the element away, when there is one, and keeps every other entry. */
  lemma {:induction false} RemoveCounts<T>(s: seq<T>, p: T)
    ensures multiset(RemoveFirst(s, p)) == multiset(s) - multiset{p}
  {
    if s != [] {
      assert s == [s[0]] + s[1..];
      if s[0] != p {
        RemoveCounts(s[1..], p);
      }
    }
  }

  /** List.indexOf: the position of the first occurrence, or -1. */
  function IndexOf<T(==)>(s: seq<T>, x: T): (i: int)
    ensures x in s ==> 0 <= i < |s| && s[i] == x && x !in s[..i]
    ensures x !in s <==> i == -1
  {
    if x in s then FirstIndex(s, x) else -1
  }

  /** An element other than the one removed stays in the list. */
  lemma RemoveKeepsOthers<T>(s: seq<T>, x: T, y: T)
    requires y in s && x != y
    ensures y in RemoveFirst(s, x)
  {
    RemoveCounts(s, x);
    assert y in multiset(s);
    assert y in multiset(RemoveFirst(s, x));
  }

  /** A java.util.ArrayList shared by reference: whoever holds it sees every element added to it. */
  class ArrayList<T> {
    var elements: seq<T>

    /** new ArrayList<>(): empty. */
    constructor()
      ensures elements == []
    {
      elements := [];
    }

    /** new ArrayList<>(c): a new list with the elements of c, in order. */
    constructor Copy(c: seq<T>)
      ensures elements == c
    {
      elements := c;
    }

    /** add: the element appended at the end. */
    method Add(x: T)
      modifies this
      ensures elements == old(elements) + [x]
    {
      elements := elements + [x];
    }
  }
}
