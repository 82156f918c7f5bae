/**
 * The discovery query of the home screen: keep the records that match the
 * search text and the selected location, then order them by rating.
 */
module Discovery {
  import opened Directory
  import opened Text

  /** The sort direction the home screen toggles. */
  datatype SortOrder = Asc | Desc

  /** The order the sort button switches to from `order`. */
  function Flipped(order: SortOrder): (r: SortOrder)
    ensures r != order
  {
    if order == Asc then Desc else Asc
  }

  /**
   * The filter's test: the lower-cased name or category includes the
   * lower-cased search text, and, when a location is selected (non-empty),
   * the record's locations include it.
   */
  function Matches(a: Artist, searchText: string, selectedLocation: string): (r: bool)
    ensures searchText == "" && selectedLocation == "" ==> r
    ensures selectedLocation != "" && selectedLocation !in a.locations ==> !r
    ensures Contains(Lower(a.name), Lower(searchText)) && selectedLocation in a.locations ==> r
  {
    ContainsEmpty(Lower(a.name));
    var q := Lower(searchText);
    (Contains(Lower(a.name), q) || Contains(Lower(a.category), q)) &&
    (selectedLocation == "" || selectedLocation in a.locations)
  }

  /** `artists.filter(...)`: a fresh list of the matching records, in list order. */
  function Filtered(s: seq<Artist>, searchText: string, selectedLocation: string): (r: seq<Artist>)
    ensures forall a :: a in r <==> a in s && Matches(a, searchText, selectedLocation)
    ensures multiset(r) <= multiset(s)
    ensures (forall a :: a in s ==> Matches(a, searchText, selectedLocation)) ==> r == s
  {
    if s == [] then []
    else
      var tail := Filtered(s[1..], searchText, selectedLocation);
      assert s == [s[0]] + s[1..];
      if Matches(s[0], searchText, selectedLocation) then [s[0]] + tail else tail
  }

  /** Filtering keeps list order: it distributes over concatenation. */
  lemma {:induction false} FilteredAppend(s: seq<Artist>, t: seq<Artist>, searchText: string, selectedLocation: string)
    ensures Filtered(s + t, searchText, selectedLocation) ==
            Filtered(s, searchText, selectedLocation) + Filtered(t, searchText, selectedLocation)
  {
    if s == [] {
      assert s + t == t;
    } else {
      assert (s + t)[1..] == s[1..] + t;
      FilteredAppend(s[1..], t, searchText, selectedLocation);
    }
  }

  /** With no search text and no selected location, every record is shown. */
  lemma EmptyQueryKeepsAll(s: seq<Artist>)
    ensures Filtered(s, "", "") == s
  {
  }

  /**
   * The comparator's verdict that `a` may stand before `b`: `a.rating -
   * b.rating <= 0` for ascending order, `b.rating - a.rating <= 0` otherwise.
   */
  function Before(a: Artist, b: Artist, order: SortOrder): (r: bool)
    ensures a.rating == b.rating ==> r
  {
    if order == Asc then a.rating <= b.rating else a.rating >= b.rating
  }

  /**
   * The comparator is a total preorder: any two records are comparable, two
   * records that may each stand before the other are tied on rating, and it
   * is transitive.
   */
  lemma BeforeIsTotalPreorder(a: Artist, b: Artist, c: Artist, order: SortOrder)
    ensures Before(a, b, order) || Before(b, a, order)
    ensures Before(a, b, order) && Before(b, a, order) ==> a.rating == b.rating
    ensures Before(a, b, order) && Before(b, c, order) ==> Before(a, c, order)
  {
  }

  /** Ratings nondecreasing (ascending) or nonincreasing (descending) along `s`. */
  predicate Ordered(s: seq<Artist>, order: SortOrder)
  {
    forall i, j :: 0 <= i < j < |s| ==> Before(s[i], s[j], order)
  }

  /** Inserts `x` before the first record it may stand before. */
  function Insert(x: Artist, t: seq<Artist>, order: SortOrder): (r: seq<Artist>)
    ensures multiset(r) == multiset(t) + multiset{x}
  {
    if t == [] || Before(x, t[0], order) then [x] + t
    else
      assert t == [t[0]] + t[1..];
      [t[0]] + Insert(x, t[1..], order)
  }

  lemma {:induction false} InsertOrdered(x: Artist, t: seq<Artist>, order: SortOrder)
    requires Ordered(t, order)
    ensures Ordered(Insert(x, t, order), order)
  {
    if t == [] || Before(x, t[0], order) {
    } else {
      var tail := Insert(x, t[1..], order);
      InsertOrdered(x, t[1..], order);
      forall y | y in tail ensures Before(t[0], y, order) {
        assert y in multiset(tail);
        if y != x {
          assert y in t[1..];
        }
      }
      var r := [t[0]] + tail;
      forall i, j | 0 <= i < j < |r| ensures Before(r[i], r[j], order) {
        if i == 0 {
          assert r[j] in tail;
        } else {
          assert r[i] == tail[i - 1] && r[j] == tail[j - 1];
        }
      }
    }
  }

  /**
   * `Array.prototype.sort` with the rating comparator: a stable sort,
   * written as an insertion sort.
   */
  function SortByRating(s: seq<Artist>, order: SortOrder): (r: seq<Artist>)
    ensures multiset(r) == multiset(s)
    ensures Ordered(r, order)
  {
    if s == [] then []
    else
      assert s == [s[0]] + s[1..];
      var sorted := SortByRating(s[1..], order);
      InsertOrdered(s[0], sorted, order);
      Insert(s[0], sorted, order)
  }

  /** The records of `s` whose rating is `v`, in list order. */
  function WithRating(s: seq<Artist>, v: int): seq<Artist>
  {
    if s == [] then []
    else if s[0].rating == v then [s[0]] + WithRating(s[1..], v)
    else WithRating(s[1..], v)
  }

  lemma {:induction false} InsertWithRating(x: Artist, t: seq<Artist>, order: SortOrder, v: int)
    ensures WithRating(Insert(x, t, order), v) ==
            (if x.rating == v then [x] else []) + WithRating(t, v)
  {
    if t == [] || Before(x, t[0], order) {
    } else {
      InsertWithRating(x, t[1..], order, v);
    }
  }

  /**
   * Stability: among records of equal rating, the sorted list keeps the order
   * they had before sorting.
   */
  lemma {:induction false} SortIsStable(s: seq<Artist>, order: SortOrder, v: int)
    ensures WithRating(SortByRating(s, order), v) == WithRating(s, v)
  {
    if s != [] {
      InsertWithRating(s[0], SortByRating(s[1..], order), order, v);
      SortIsStable(s[1..], order, v);
    }
  }

  /** The first record of an ordered list has the extreme rating of the whole list. */
  lemma OrderedHeadIsExtreme(r: seq<Artist>, order: SortOrder, a: Artist)
    requires Ordered(r, order) && r != [] && a in r
    ensures Before(r[0], a, order)
  {
  }

  lemma {:induction false} WithRatingMember(s: seq<Artist>, v: int, a: Artist)
    requires a in WithRating(s, v)
    ensures a in s && a.rating == v
  {
    if s != [] && !(s[0].rating == v && a == s[0]) {
      WithRatingMember(s[1..], v, a);
    }
  }

  lemma {:induction false} WithRatingHas(s: seq<Artist>, a: Artist)
    requires a in s
    ensures a in WithRating(s, a.rating)
  {
    if s[0] != a {
      WithRatingHas(s[1..], a);
    }
  }

  /**
   * Two lists ordered by rating in which every rating's records come in the
   * same order are equal.
   */
  lemma {:induction false} OrderedStableUnique(r: seq<Artist>, t: seq<Artist>, order: SortOrder)
    requires Ordered(r, order) && Ordered(t, order)
    requires forall v :: WithRating(r, v) == WithRating(t, v)
    ensures r == t
  {
    if r == [] || t == [] {
      if r != [] {
        WithRatingHas(r, r[0]);
      } else if t != [] {
        WithRatingHas(t, t[0]);
      }
    } else {
      var v, w := r[0].rating, t[0].rating;
      WithRatingHas(r, r[0]);
      WithRatingHas(t, t[0]);
      WithRatingMember(t, v, WithRating(r, v)[0]);
      WithRatingMember(r, w, WithRating(t, w)[0]);
      OrderedHeadIsExtreme(t, order, WithRating(r, v)[0]);
      OrderedHeadIsExtreme(r, order, WithRating(t, w)[0]);
      assert v == w;
      assert r[0] == t[0] by {
        assert WithRating(r, v)[0] == r[0];
        assert WithRating(t, v)[0] == t[0];
      }
      forall u ensures WithRating(r[1..], u) == WithRating(t[1..], u) {
        assert WithRating(r, u) == WithRating(t, u);
        if r[0].rating == u {
          assert WithRating(r, u)[1..] == WithRating(r[1..], u);
          assert WithRating(t, u)[1..] == WithRating(t[1..], u);
        }
      }
      OrderedStableUnique(r[1..], t[1..], order);
    }
  }

  /**
   * The sort's result is determined by its two properties: any list ordered
   * by rating that keeps each rating's records in their original order is
   * the sort of the input.
   */
  lemma SortIsTheStableSort(s: seq<Artist>, order: SortOrder, r: seq<Artist>)
    requires Ordered(r, order)
    requires forall v :: WithRating(r, v) == WithRating(s, v)
    ensures r == SortByRating(s, order)
  {
    forall v ensures WithRating(r, v) == WithRating(SortByRating(s, order), v) {
      SortIsStable(s, order, v);
    }
    OrderedStableUnique(r, SortByRating(s, order), order);
  }

  /** The list the home screen shows: filter, then sort. */
  function Discover(artists: seq<Artist>, searchText: string, selectedLocation: string, order: SortOrder): (r: seq<Artist>)
    ensures forall a :: a in r <==> a in artists && Matches(a, searchText, selectedLocation)
    ensures multiset(r) == multiset(Filtered(artists, searchText, selectedLocation))
    ensures Ordered(r, order)
  {
    var kept := Filtered(artists, searchText, selectedLocation);
    var r := SortByRating(kept, order);
    assert forall a :: a in r <==> a in kept by {
      forall a ensures a in r <==> a in kept {
        assert a in r <==> a in multiset(r);
        assert a in kept <==> a in multiset(kept);
      }
    }
    r
  }
}
