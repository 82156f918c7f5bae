/**
 * The directory store (the `artists` slice): an ordered list of provider
 * ("artist") records with two reducers, `addArtist` and `updateArtist`.
 */
module Directory {
  import opened Wrappers

  /**
   * A provider record. `rating` is 0 when no rating was chosen (the source
   * stores '' or 0, and both read as 0 under the sort's subtraction).
   * `email` and `currentLocation` are present only on records created by
   * registration; records added from the discovery screen lack them.
   */
  datatype Artist = Artist(
    id: string,
    name: string,
    category: string,
    rating: int,
    locations: seq<string>,
    email: Option<string>,
    currentLocation: Option<string>)

  /** No record of `s` before index `k` carries `id`. */
  predicate NoMatchBefore(s: seq<Artist>, id: string, k: int)
    requires 0 <= k <= |s|
  {
    forall j :: 0 <= j < k ==> s[j].id != id
  }

  /**
   * `Array.prototype.findIndex` with the predicate `artist.id === id`:
   * the first index whose record carries `id`, or -1 when there is none.
   */
  method FindIndex(s: seq<Artist>, id: string) returns (index: int)
    ensures -1 <= index < |s|
    ensures index == -1 ==> forall j :: 0 <= j < |s| ==> s[j].id != id
    ensures index != -1 ==> s[index].id == id && NoMatchBefore(s, id, index)
  {
    index := 0;
    while index < |s|
      invariant 0 <= index <= |s|
      invariant NoMatchBefore(s, id, index)
    {
      if s[index].id == id {
        return;
      }
      index := index + 1;
    }
    index := -1;
  }

  /**
   * The list after `updateArtist(payload)`: the first record whose id is
   * `payload.id` is replaced by the whole payload; with no such record the
   * list is left as it is.
   */
  function Replaced(s: seq<Artist>, payload: Artist): (r: seq<Artist>)
    ensures |r| == |s|
  {
    if s == [] then []
    else if s[0].id == payload.id then [payload] + s[1..]
    else [s[0]] + Replaced(s[1..], payload)
  }

  /** An update whose id matches no record leaves the list identical. */
  lemma {:induction false} ReplacedNoMatch(s: seq<Artist>, payload: Artist)
    requires NoMatchBefore(s, payload.id, |s|)
    ensures Replaced(s, payload) == s
  {
    if s != [] {
      ReplacedNoMatch(s[1..], payload);
    }
  }

  /**
   * An update whose id first matches at index `k` replaces exactly that
   * record; every other index, and the length, stay as they were.
   */
  lemma {:induction false} ReplacedFirstMatch(s: seq<Artist>, payload: Artist, k: int)
    requires 0 <= k < |s| && s[k].id == payload.id && NoMatchBefore(s, payload.id, k)
    ensures Replaced(s, payload) == s[k := payload]
  {
    if k != 0 {
      assert s[0].id != payload.id;
      ReplacedFirstMatch(s[1..], payload, k - 1);
      assert s[k := payload] == [s[0]] + s[1..][k - 1 := payload];
    }
  }

  /** The directory slice's state, updated in place by its two reducers. */
  class ArtistSlice {
    var artists: seq<Artist>

    /** The initial state: no records. */
    constructor ()
      ensures artists == []
    {
      artists := [];
    }

    /** `addArtist`: appends the payload; there is no check on its id. */
    method AddArtist(payload: Artist)
      modifies this
      ensures artists == old(artists) + [payload]
    {
      artists := artists + [payload];
    }

    /** `updateArtist`: `findIndex` by id, then an in-place write at that index. */
    method UpdateArtist(payload: Artist)
      modifies this
      ensures artists == Replaced(old(artists), payload)
    {
      var index := FindIndex(artists, payload.id);
      if index != -1 {
        ReplacedFirstMatch(artists, payload, index);
        artists := artists[index := payload];
      } else {
        ReplacedNoMatch(artists, payload);
      }
    }
  }

  /**
   * Appending a record whose id is already present keeps both copies, and a
   * later update reaches only the earlier one.
   */
  lemma {:induction false} DuplicateIdShadowed(s: seq<Artist>, a: Artist, a2: Artist, b: Artist)
    requires a.id == a2.id && a.id == b.id
    requires NoMatchBefore(s, a.id, |s|)
    ensures Replaced(s + [a] + [a2], b) == s + [b] + [a2]
  {
    var t := s + [a] + [a2];
    assert t[|s|].id == b.id;
    assert NoMatchBefore(t, b.id, |s|) by {
      forall j | 0 <= j < |s| ensures t[j].id != b.id {
        assert t[j] == s[j];
      }
    }
    ReplacedFirstMatch(t, b, |s|);
    assert t[|s| := b] == s + [b] + [a2];
  }
}
