/**
 * Toggling an item's membership in a list, as both screens do for the
 * locations they let the user pick.
 */
module Selection {

  /** `list.filter(i => i !== x)`: every occurrence of `x` dropped. */
  function Without(list: seq<string>, x: string): (r: seq<string>)
    ensures x !in r
    ensures multiset(r) == multiset(list)[x := 0]
    ensures x !in list ==> r == list
  {
    if list == [] then []
    else
      assert list == [list[0]] + list[1..];
      if list[0] == x then Without(list[1..], x) else [list[0]] + Without(list[1..], x)
  }

  /** Dropping `x` keeps the order of the other entries: it distributes over concatenation. */
  lemma {:induction false} WithoutAppend(a: seq<string>, b: seq<string>, x: string)
    ensures Without(a + b, x) == Without(a, x) + Without(b, x)
  {
    if a == [] {
      assert a + b == b;
    } else {
      assert (a + b)[1..] == a[1..] + b;
      WithoutAppend(a[1..], b, x);
    }
  }

  /**
   * `toggleSelection` / `toggleLocation`: a present item is removed (every
   * occurrence), an absent one is appended at the end.
   */
  function Toggled(list: seq<string>, x: string): (r: seq<string>)
    ensures x in r <==> x !in list
    ensures forall y :: y != x ==> (y in r <==> y in list)
    ensures x !in list ==> r == list + [x]
    ensures x in list ==> multiset(r) == multiset(list)[x := 0]
  {
    if x in list then
      var r := Without(list, x);
      assert forall y :: y != x ==> (y in r <==> y in multiset(r));
      r
    else list + [x]
  }

  /** Toggling an item twice into a list that lacked it gives the list back. */
  lemma ToggleTwiceAbsent(list: seq<string>, x: string)
    requires x !in list
    ensures Toggled(Toggled(list, x), x) == list
  {
    WithoutAppend(list, [x], x);
  }
}
