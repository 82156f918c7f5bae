/**
 * Worked instances of the discovery query on small directories.
 */
module Scenarios {
  import opened Wrappers
  import opened Directory
  import opened Text
  import opened Discovery

  const Anita := Artist("1", "Anita", "Painting", 4, ["Pune"], None, None)
  const Raj := Artist("2", "Raj", "Singing", 2, ["Mumbai"], None, None)

  lemma AnitaMatchesAn()
    ensures Matches(Anita, "an", "")
  {
  }

  lemma RajMissesAn()
    ensures !Matches(Raj, "an", "")
  {
    assert Lower("an") == "an";
    assert Lower("Raj") == "raj";
    assert !OccursAt("raj", "an", 0) by {
      assert "raj"[0..2][0] == 'r';
    }
    assert !OccursAt("raj", "an", 1) by {
      assert "raj"[1..3][1] == 'j';
    }
    assert forall i :: OccursAt("raj", "an", i) ==> i == 0 || i == 1;
    assert Lower("Singing") == "singing";
    forall i | OccursAt("singing", "an", i) ensures "singing"[i] == 'a' {
      assert "singing"[i..i + 2][0] == "singing"[i];
    }
    assert forall i :: 0 <= i < 7 ==> "singing"[i] != 'a';
  }

  /** The search text "an" finds "Anita" by name, case-insensitively, and not "Raj". */
  lemma SearchIsCaseInsensitive()
    ensures Discover([Anita, Raj], "an", "", Desc) == [Anita]
  {
    AnitaMatchesAn();
    RajMissesAn();
    assert Filtered([Anita, Raj], "an", "") == [Anita] by {
      assert [Anita, Raj][1..] == [Raj];
    }
  }

  /** Selecting "Mumbai" with an empty search keeps only the record listing Mumbai. */
  lemma LocationFilterSelects()
    ensures Discover([Anita, Raj], "", "Mumbai", Asc) == [Raj]
  {
    assert Filtered([Anita, Raj], "", "Mumbai") == [Raj] by {
      assert [Anita, Raj][1..] == [Raj];
      assert "Mumbai" !in Anita.locations;
      ContainsEmpty(Lower(Raj.name));
    }
  }

  /** Ratings 4, 2, 5 come out as 5, 4, 2 in descending order. */
  lemma SortDescendingExample(a: Artist, b: Artist, c: Artist)
    requires a.rating == 4 && b.rating == 2 && c.rating == 5
    ensures SortByRating([a, b, c], Desc) == [c, a, b]
  {
    assert SortByRating([c], Desc) == [c];
    assert SortByRating([b, c], Desc) == [c, b] by {
      assert [b, c][1..] == [c];
      assert Insert(b, [c], Desc) == [c, b];
    }
    assert [a, b, c][1..] == [b, c];
    assert Insert(a, [c, b], Desc) == [c, a, b] by {
      assert [c, b][1..] == [b];
    }
  }

  /** Ratings 4, 2, 5 come out as 2, 4, 5 in ascending order. */
  lemma SortAscendingExample(a: Artist, b: Artist, c: Artist)
    requires a.rating == 4 && b.rating == 2 && c.rating == 5
    ensures SortByRating([a, b, c], Asc) == [b, a, c]
  {
    assert SortByRating([c], Asc) == [c];
    assert SortByRating([b, c], Asc) == [b, c] by {
      assert [b, c][1..] == [c];
    }
    assert [a, b, c][1..] == [b, c];
    assert Insert(a, [b, c], Asc) == [b, a, c] by {
      assert [b, c][1..] == [c];
    }
  }
}
