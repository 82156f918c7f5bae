/**
 * The application store: the two slices side by side, and the actions that
 * the screens dispatch into them.
 */
module AppStore {
  import opened Wrappers
  import opened Directory
  import opened Session

  /** The actions the two slices understand. */
  datatype Action =
    | AddArtist(artist: Directory.Artist)
    | UpdateArtist(artist: Directory.Artist)
    | Login(info: UserInfo)
    | Logout
    | SetUserType(userType: Option<UserType>)

  /**
   * The combined store. Every action reaches both slices; only the slice that
   * owns the action changes. `dispatched` records the actions received, in
   * order, so that the order of a screen's dispatches can be stated.
   */
  class Store {
    const artist: ArtistSlice
    const user: UserSlice
    ghost var dispatched: seq<Action>

    ghost predicate Valid()
      reads this, user
    {
      user.Valid()
    }

    /** Both slices in their initial states, nothing dispatched yet. */
    constructor ()
      ensures Valid()
      ensures fresh(artist) && fresh(user)
      ensures artist.artists == [] && user.State() == SignedOut
      ensures dispatched == []
    {
      artist := new ArtistSlice();
      user := new UserSlice();
      dispatched := [];
    }

    method Dispatch(action: Action)
      requires Valid()
      modifies this, artist, user
      ensures Valid()
      ensures dispatched == old(dispatched) + [action]
      ensures action.AddArtist? ==> artist.artists == old(artist.artists) + [action.artist]
      ensures action.UpdateArtist? ==> artist.artists == Replaced(old(artist.artists), action.artist)
      ensures !action.AddArtist? && !action.UpdateArtist? ==> artist.artists == old(artist.artists)
      ensures action.Login? ==> user.State() == old(user.State()).(isAuthenticated := true, userInfo := Some(action.info))
      ensures action.Logout? ==> user.State() == SignedOut
      ensures action.SetUserType? ==> user.State() == old(user.State()).(userType := action.userType)
      ensures action.AddArtist? || action.UpdateArtist? ==> user.State() == old(user.State())
    {
      match action {
        case AddArtist(a) => artist.AddArtist(a);
        case UpdateArtist(a) => artist.UpdateArtist(a);
        case Login(info) => user.Login(info);
        case Logout => user.Logout();
        case SetUserType(t) => user.SetUserType(t);
      }
      dispatched := dispatched + [action];
    }
  }
}
