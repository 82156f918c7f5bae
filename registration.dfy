/**
 * The registration screen: its form state, the membership toggle for
 * preferred locations, and `handleRegister`, which runs its checks in a
 * fixed order and then dispatches into the store.
 */
module Registration {
  import opened Wrappers
  import opened Directory
  import opened Session
  import opened AppStore
  import opened Selection
  import opened Validation

  /**
   * What one press of "Register" ends in. `MissingFields` and `NoRole` raise
   * an alert, `BadEmail` and `BadPassword` set a field error, `Ok`
   * navigates to the home screen.
   */
  datatype Outcome = MissingFields | NoRole | BadEmail | BadPassword | Ok

  const EmailErrorMessage := "Please enter a valid email."
  const PasswordErrorMessage :=
    "Password must be at least 6 characters long, with at least one uppercase letter, one lowercase letter, and one number."

  /** The directory record an artist's registration creates. */
  function RegistrationRecord(id: string, category: string, locations: seq<string>, currentLocation: string,
                              email: string, name: string, rating: int): (a: Directory.Artist)
    ensures a.id == id && a.name == name && a.email == Some(email)
    ensures a.category == category && a.locations == locations && a.rating == rating
    ensures a.currentLocation == Some(currentLocation)
  {
    Directory.Artist(id, name, category, rating, locations, Some(email), Some(currentLocation))
  }

  class RegistrationScreen {
    const store: Store
    var name: string
    var email: string
    var password: string
    var userType: Option<UserType>
    var currentLocation: string
    var locations: seq<string>
    var category: string
    var rating: int
    var emailError: string
    var passwordError: string

    ghost predicate Valid()
      reads this, store, store.user
    {
      store.Valid()
    }

    ghost predicate FieldsFilled()
      reads this
    {
      name != "" && email != "" && password != ""
    }

    /** The form's initial state: empty fields, no role, no locations, rating 0, no errors. */
    constructor (store: Store)
      requires store.Valid()
      ensures this.store == store && Valid()
      ensures name == "" && email == "" && password == "" && userType == None
      ensures currentLocation == "" && locations == [] && category == "" && rating == 0
      ensures emailError == "" && passwordError == ""
    {
      this.store := store;
      name, email, password := "", "", "";
      userType := None;
      currentLocation := "";
      locations := [];
      category := "";
      rating := 0;
      emailError, passwordError := "", "";
    }

    /** `toggleSelection` on the preferred locations. */
    method ToggleSelection(item: string)
      modifies this`locations
      ensures locations == Toggled(old(locations), item)
    {
      locations := Toggled(locations, item);
    }

    /**
     * `handleRegister`: clears both field errors, then checks in order that
     * the fields are filled, a role is chosen, the email is valid and the
     * password is valid, stopping at the first failure without touching the
     * store. When all pass it dispatches `login` and, for an artist, then
     * `addArtist` with a record built from the form.
     */
    method HandleRegister(id: string) returns (outcome: Outcome)
      requires Valid()
      modifies this`emailError, this`passwordError, store, store.artist, store.user
      ensures Valid()
      ensures outcome == MissingFields <==> !FieldsFilled()
      ensures outcome == NoRole <==> FieldsFilled() && userType.None?
      ensures outcome == BadEmail <==> FieldsFilled() && userType.Some? && !ValidEmail(email)
      ensures outcome == BadPassword <==>
        FieldsFilled() && userType.Some? && ValidEmail(email) && !ValidPassword(password)
      ensures outcome == Ok <==>
        FieldsFilled() && userType.Some? && ValidEmail(email) && ValidPassword(password)
      ensures emailError == (if outcome == BadEmail then EmailErrorMessage else "")
      ensures passwordError == (if outcome == BadPassword then PasswordErrorMessage else "")
      ensures outcome != Ok ==> unchanged(store) && unchanged(store.artist) && unchanged(store.user)
      ensures outcome == Ok ==>
        var info := UserInfo(name, email, currentLocation, password, userType.value);
        store.user.isAuthenticated && store.user.userInfo == Some(info) &&
        store.user.userType == old(store.user.userType)
      ensures outcome == Ok && userType == Some(Session.Artist) ==>
        var info := UserInfo(name, email, currentLocation, password, userType.value);
        var record := RegistrationRecord(id, category, locations, currentLocation, email, name, rating);
        store.artist.artists == old(store.artist.artists) + [record] &&
        store.dispatched == old(store.dispatched) + [Login(info), AddArtist(record)]
      ensures outcome == Ok && userType == Some(Session.User) ==>
        var info := UserInfo(name, email, currentLocation, password, userType.value);
        store.artist.artists == old(store.artist.artists) &&
        store.dispatched == old(store.dispatched) + [Login(info)]
    {
      emailError := "";
      passwordError := "";

      if name == "" || email == "" || password == "" {
        return MissingFields;
      }

      if userType.None? {
        return NoRole;
      }

      if !ValidEmail(email) {
        emailError := EmailErrorMessage;
        return BadEmail;
      }

      if !ValidPassword(password) {
        passwordError := PasswordErrorMessage;
        return BadPassword;
      }

      var info := UserInfo(name, email, currentLocation, password, userType.value);
      store.Dispatch(Login(info));

      if userType == Some(Session.Artist) {
        var record := RegistrationRecord(id, category, locations, currentLocation, email, name, rating);
        store.Dispatch(AddArtist(record));
      }
      outcome := Ok;
    }
  }
}
