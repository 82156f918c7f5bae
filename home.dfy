/**
 * The home (discovery) screen: its component state, the list it shows, and
 * the handlers that change its state or dispatch into the store.
 */
module Home {
  import opened Wrappers
  import opened Directory
  import opened AppStore
  import opened Discovery
  import opened Selection

  /** The "add artist" form's draft record; rating 0 means none chosen. */
  datatype Draft = Draft(name: string, category: string, rating: int, locations: seq<string>)

  const BlankDraft := Draft("", "", 0, [])

  /** `{...newArtist, id}`: the draft's fields plus the given id; no email, no current location. */
  function DraftRecord(d: Draft, id: string): (a: Artist)
    ensures Draft(a.name, a.category, a.rating, a.locations) == d
    ensures a.id == id && a.email == None && a.currentLocation == None
  {
    Artist(id, d.name, d.category, d.rating, d.locations, None, None)
  }

  class HomeScreen {
    const store: Store
    var searchText: string
    var isModalVisible: bool
    var newArtist: Draft
    var sortOrder: SortOrder
    var selectedLocation: string

    ghost predicate Valid()
      reads this, store, store.user
    {
      store.Valid()
    }

    /** The screen's initial state: empty search, descending order, no location, a blank draft. */
    constructor (store: Store)
      requires store.Valid()
      ensures this.store == store && Valid()
      ensures searchText == "" && selectedLocation == "" && sortOrder == Desc
      ensures newArtist == BlankDraft && !isModalVisible
    {
      this.store := store;
      searchText := "";
      isModalVisible := false;
      newArtist := BlankDraft;
      sortOrder := Desc;
      selectedLocation := "";
    }

    /** `sortedArtists`: the list the screen shows for its current inputs. */
    function SortedArtists(): (r: seq<Artist>)
      reads this, store, store.artist
      ensures forall a :: a in r <==> a in store.artist.artists && Matches(a, searchText, selectedLocation)
      ensures Ordered(r, sortOrder)
    {
      Discover(store.artist.artists, searchText, selectedLocation, sortOrder)
    }

    /** The search box's `onChangeText`. */
    method SetSearchText(text: string)
      modifies this`searchText
      ensures searchText == text
    {
      searchText := text;
    }

    /** The sort button flips between ascending and descending. */
    method PressSortButton()
      modifies this`sortOrder
      ensures sortOrder != old(sortOrder)
      ensures sortOrder == Flipped(old(sortOrder))
    {
      sortOrder := Flipped(sortOrder);
    }

    /**
     * A location button: pressing the selected location clears the filter,
     * pressing any other location selects it.
     */
    method PressLocation(value: string)
      modifies this`selectedLocation
      ensures old(selectedLocation) == value ==> selectedLocation == ""
      ensures old(selectedLocation) != value ==> selectedLocation == value
    {
      selectedLocation := if value == selectedLocation then "" else value;
    }

    /** `toggleLocation`: flips the location's membership in the draft's locations. */
    method ToggleLocation(location: string)
      modifies this`newArtist
      ensures newArtist == old(newArtist).(locations := Toggled(old(newArtist.locations), location))
    {
      newArtist := newArtist.(locations := Toggled(newArtist.locations, location));
    }

    /**
     * `handleAddArtist`: with a non-empty name and category, dispatches
     * `addArtist` with the draft and the given id, resets the draft and
     * closes the form; otherwise nothing changes.
     */
    method HandleAddArtist(id: string)
      requires Valid()
      modifies this, store, store.artist, store.user
      ensures Valid()
      ensures old(newArtist.name) != "" && old(newArtist.category) != "" ==>
        var record := DraftRecord(old(newArtist), id);
        store.artist.artists == old(store.artist.artists) + [record] &&
        store.dispatched == old(store.dispatched) + [AddArtist(record)] &&
        store.user.State() == old(store.user.State()) &&
        newArtist == BlankDraft && !isModalVisible &&
        searchText == old(searchText) && sortOrder == old(sortOrder) && selectedLocation == old(selectedLocation)
      ensures old(newArtist.name) == "" || old(newArtist.category) == "" ==>
        unchanged(this) && unchanged(store) && unchanged(store.artist) && unchanged(store.user)
    {
      if newArtist.name != "" && newArtist.category != "" {
        var record := DraftRecord(newArtist, id);
        store.Dispatch(AddArtist(record));
        newArtist := BlankDraft;
        isModalVisible := false;
      }
    }
  }
}
