/** Facts about sequences standing for the daemon's linked lists. */
module ListFacts {

  ghost predicate NoDup<T(!new)>(s: seq<T>) {
    forall i, j :: 0 <= i < j < |s| ==> s[i] != s[j]
  }

  /** `s` without its last occurrence of `x` (`_dbus_list_remove_last`); `s` itself when there is none. */
  function RemoveLast<T(==)>(s: seq<T>, x: T): (r: seq<T>)
    ensures |r| == if x in s then |s| - 1 else |s|
    ensures x !in s ==> r == s
  {
    if s == [] then []
    else if s[|s| - 1] == x then s[..|s| - 1]
    else RemoveLast(s[..|s| - 1], x) + [s[|s| - 1]]
  }

  lemma NoDupCons<T(!new)>(x: T, s: seq<T>)
    requires NoDup(s) && x !in s
    ensures NoDup([x] + s)
  {
  }

  lemma NoDupSnoc<T(!new)>(s: seq<T>, x: T)
    requires NoDup(s) && x !in s
    ensures NoDup(s + [x])
  {
  }

  /** Without repetitions, removing the last occurrence removes the element and nothing else. */
  lemma {:induction false} RemoveLastNoDup<T(!new)>(s: seq<T>, x: T)
    requires NoDup(s)
    ensures NoDup(RemoveLast(s, x))
    ensures forall y :: y in RemoveLast(s, x) <==> y in s && y != x
  {
    if s != [] {
      var front, last := s[..|s| - 1], s[|s| - 1];
      assert forall y :: y in s <==> y in front || y == last;
      if last != x {
        RemoveLastNoDup(front, x);
        assert last !in front;
        NoDupSnoc(RemoveLast(front, x), last);
      }
    }
  }

  lemma NonEmptyHasElement<T>(s: seq<T>)
    ensures s != [] ==> exists x :: x in s
  {
    if s != [] {
      assert s[0] in s;
    }
  }
}
