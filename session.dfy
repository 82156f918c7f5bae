/**
 * The session store (the `user` slice): whether someone is signed in, who,
 * and the account type chosen, with the reducers `login`, `logout` and
 * `setUserType`.
 */
module Session {
  import opened Wrappers

  datatype UserType = User | Artist

  /** The `login` payload assembled by registration. */
  datatype UserInfo = UserInfo(
    name: string,
    email: string,
    currentLocation: string,
    password: string,
    userType: UserType)

  /** A snapshot of the three fields of the slice. */
  datatype SessionState = SessionState(
    isAuthenticated: bool,
    userInfo: Option<UserInfo>,
    userType: Option<UserType>)

  /** The state the slice starts in, and the state `logout` always produces. */
  const SignedOut := SessionState(false, None, None)

  /** The slice's state, whose fields each reducer assigns directly. */
  class UserSlice {
    var isAuthenticated: bool
    var userInfo: Option<UserInfo>
    var userType: Option<UserType>

    /** The session invariant: a user record is held exactly when signed in. */
    ghost predicate Valid()
      reads this
    {
      userInfo.Some? <==> isAuthenticated
    }

    ghost function State(): SessionState
      reads this
    {
      SessionState(isAuthenticated, userInfo, userType)
    }

    /** The initial state: signed out, no user record, no account type. */
    constructor ()
      ensures State() == SignedOut
      ensures Valid()
    {
      isAuthenticated := false;
      userInfo := None;
      userType := None;
    }

    /**
     * `login`: signs in and keeps the payload verbatim; the top-level
     * `userType` field is not touched.
     */
    method Login(payload: UserInfo)
      modifies this
      ensures isAuthenticated && userInfo == Some(payload)
      ensures userType == old(userType)
      ensures Valid()
    {
      isAuthenticated := true;
      userInfo := Some(payload);
    }

    /** `logout`: clears all three fields whatever the prior state, so it is idempotent. */
    method Logout()
      modifies this
      ensures State() == SignedOut
      ensures Valid()
    {
      isAuthenticated := false;
      userInfo := None;
      userType := None;
    }

    /** `setUserType`: changes the account type and nothing else. */
    method SetUserType(payload: Option<UserType>)
      modifies this
      ensures userType == payload
      ensures isAuthenticated == old(isAuthenticated) && userInfo == old(userInfo)
      ensures Valid() <==> old(Valid())
    {
      userType := payload;
    }
  }
}
