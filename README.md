# Directory state of the kalaapp client, in Dafny

kalaapp is a React Native directory app. Plain users and service-providing
"artists" register, and the artists can then be found by searching,
filtering by location and sorting by rating. This project models the
app's client-side state:

- **The directory store.** This is the `artists` Redux slice: an ordered
  list of provider records with the reducers `addArtist` and
  `updateArtist`. It is modelled as the class `Directory.ArtistSlice`.
- **The session store.** This is the `user` slice: `isAuthenticated`,
  `userInfo` and `userType`, with the reducers `login`, `logout` and
  `setUserType`. It is modelled as the class `Session.UserSlice`. Its
  invariant, "a user record is held exactly when signed in", is kept by
  every reducer.
- **The combined store** (`AppStore.Store`). It holds the two slices side by
  side. It also keeps a ghost log of the actions dispatched to it, so that
  the order of a screen's dispatches can be stated.
- **The discovery query of the home screen** (`Discovery`). It is a filter
  on the name or category, case-insensitive, and on the selected location,
  followed by a stable sort by rating in either direction. The module
  proves:
  - the result is a permutation of the filtered list;
  - the result is ordered by rating;
  - records with equal ratings keep their order;
  - these properties determine the result uniquely.
- **The home screen's handlers** (`Home.HomeScreen`): the sort-order button,
  the location filter buttons, the membership toggle for the new record's
  locations, and the guarded "add artist" dispatch.
- **The registration screen** (`Registration.RegistrationScreen`,
  `Validation`). The email and password regular expressions are written as
  scanning functions. Each is proved equal to a declarative statement of
  its pattern. `handleRegister` runs its four checks in their fixed order
  and stops at the first failure without touching the store. Otherwise it
  dispatches `login` and then, for an artist only, `addArtist`.
- **`Scenarios`** holds worked instances of the discovery query.

Modelling decisions:

- **Ratings.** The source stores either `''` or `0` for "no rating". Both
  read as 0 under the comparator's subtraction, so a rating is an `int`, and
  0 means unselected.
- **Sort order.** The descending comparator `b.rating - a.rating` is an
  ascending sort on the negated rating, and the model treats it that way.
- **Record ids.** The source takes ids from `Date.now()`. The model takes
  them as parameters.
- **Navigation and alerts.** These become the `Registration.Outcome` value
  that `handleRegister` returns.

The code does not enforce the following:

- **Id uniqueness.** Nothing checks that ids are unique. `addArtist`
  appends a record whose id is already present, and `updateArtist` then
  reaches only the first record with that id (`Directory.DuplicateIdShadowed`).
- **Role check.** A missing role is its own check, reported after the
  empty-field check, not as part of it.
- **Category.** The category is a plain string, not an enumeration. The
  screens only ever set one of the four button values, but an artist who
  picks none registers with `''`.
- **Missing ratings.** The comparator never sees a missing rating, because
  every record carries `''`, `0` or 1–5.
- **Password length.** The password's minimum length counts UTF-16 code
  units, as JavaScript does. A character outside the Basic Multilingual
  Plane counts twice (`Validation.AstralCharactersCountTwice`).

## Model

| member | source | states |
|---|---|---|
| `Directory.FindIndex` | redux/slices/artistSlice.js:16 | `findIndex` by id: -1 exactly when no record carries the id; otherwise the index of a matching record with no match before it |
| `Directory.Replaced` | redux/slices/artistSlice.js:15-20 | an update never changes the length of the list |
| `Directory.ReplacedFirstMatch` | redux/slices/artistSlice.js:16-18 | when the id first matches at index k, the update is exactly "write the payload at k": the whole record is replaced there and every other index is unchanged |
| `Directory.ReplacedNoMatch` | redux/slices/artistSlice.js:17 | an update whose id matches nothing leaves the list identical |
| `Directory.DuplicateIdShadowed` | redux/slices/artistSlice.js:11-18 | appending a second record whose id is already present keeps both records; a later update with that id replaces only the first |
| `Directory.ArtistSlice.constructor` | redux/slices/artistSlice.js:3-5 | the directory starts empty |
| `Directory.ArtistSlice.AddArtist` | redux/slices/artistSlice.js:11-14 | appends the payload with no id check: one longer, the payload last, every earlier record unchanged and in order |
| `Directory.ArtistSlice.UpdateArtist` | redux/slices/artistSlice.js:15-20 | the new list is the old one with the first id match replaced, or unchanged when none matches |
| `Session.UserSlice.constructor` | redux/slices/userSlice.js:3-7 | starts signed out, with no user record and no account type; the session invariant holds |
| `Session.UserSlice.Login` | redux/slices/userSlice.js:13-17 | signs in and stores the payload verbatim; `userType` is not touched; the invariant holds afterwards |
| `Session.UserSlice.Logout` | redux/slices/userSlice.js:18-22 | from any state, yields signed out with all three fields cleared, so a second logout changes nothing |
| `Session.UserSlice.SetUserType` | redux/slices/userSlice.js:23-25 | changes only `userType`; the invariant holds afterwards exactly when it held before |
| `AppStore.Store.constructor` | redux/store.js:5-10 | both slices start in their initial states |
| `AppStore.Store.Dispatch` | redux/store.js:5-10 | each action changes only the slice that owns it, as that slice's reducer says; the session invariant is kept; the action is logged |
| `Text.Lower` | screens/HomeScreen.jsx:43-44 | ASCII `toLowerCase`: the length is kept, every upper-case letter becomes its lower-case form (32 code points up), every other character is unchanged, and no upper-case letter remains |
| `Text.Contains` | screens/HomeScreen.jsx:43-44 | `includes`: true exactly when the needle occurs at some index of the haystack |
| `Text.ContainsEmpty` | screens/HomeScreen.jsx:43-44 | every string includes the empty search text |
| `Discovery.Flipped` | screens/HomeScreen.jsx:113 | the sort button always switches to the other order |
| `Discovery.Matches` | screens/HomeScreen.jsx:42-45 | the filter callback: empty search text with no location accepts every record; a selected location the record does not list rejects it; a name hit with a listed location accepts it |
| `Discovery.Filtered` | screens/HomeScreen.jsx:41-46 | a record is kept iff (its lower-cased name or category includes the lower-cased search text) and (no location is selected, or its locations include it); nothing is invented; when every record matches, the list is returned whole |
| `Discovery.FilteredAppend` | screens/HomeScreen.jsx:41-46 | the filter keeps list order: it distributes over concatenation |
| `Discovery.EmptyQueryKeepsAll` | screens/HomeScreen.jsx:41-46 | with empty search text and no selected location, every stored record passes |
| `Discovery.Before` | screens/HomeScreen.jsx:49-55 | the comparator lets either of two equally rated records go first (it returns 0) |
| `Discovery.BeforeIsTotalPreorder` | screens/HomeScreen.jsx:49-55 | the comparator is a total preorder: any two records are comparable, mutual precedence means equal ratings, and it is transitive |
| `Discovery.Insert` | screens/HomeScreen.jsx:49-55 | one insertion step of the sort adds exactly the inserted record |
| `Discovery.InsertOrdered` | screens/HomeScreen.jsx:49-55 | inserting into a list ordered by rating keeps it ordered |
| `Discovery.SortByRating` | screens/HomeScreen.jsx:49-55 | the sorted list is a permutation of its input, nondecreasing in rating for ascending order and nonincreasing otherwise |
| `Discovery.InsertWithRating` | screens/HomeScreen.jsx:49-55 | an insertion step puts the new record ahead of every record that has its rating |
| `Discovery.SortIsStable` | screens/HomeScreen.jsx:49-55 | for every rating, the records with that rating appear in the same order before and after sorting (`Array.prototype.sort` is stable) |
| `Discovery.OrderedStableUnique` | screens/HomeScreen.jsx:49-55 | two rating-ordered lists that agree on the order within every rating are equal |
| `Discovery.SortIsTheStableSort` | screens/HomeScreen.jsx:49-55 | any rating-ordered list that keeps each rating's records in input order is the sort's result |
| `Discovery.Discover` | screens/HomeScreen.jsx:41-55 | the displayed list holds exactly the matching records, is a permutation of the filtered list and is ordered by rating in the chosen direction |
| `Selection.Without` | screens/RegistrationScreen.jsx:106 | dropping an item removes every occurrence and no other entry; the list is unchanged when the item is absent |
| `Selection.WithoutAppend` | screens/RegistrationScreen.jsx:106 | dropping an item keeps the other entries in order: it distributes over concatenation |
| `Selection.Toggled` | screens/RegistrationScreen.jsx:104-110 | the item ends up present iff it was absent; an absent item is appended at the end; a present one is removed everywhere, other entries kept |
| `Selection.ToggleTwiceAbsent` | screens/RegistrationScreen.jsx:104-110 | toggling an absent item twice gives the original list back |
| `Home.DraftRecord` | screens/HomeScreen.jsx:59 | `{...newArtist, id}`: the record carries exactly the draft's name, category, rating and locations, plus the given id, and no email or current location |
| `Home.HomeScreen.constructor` | screens/HomeScreen.jsx:16-25 | empty search, sort order `desc`, no location, blank draft |
| `Home.HomeScreen.SortedArtists` | screens/HomeScreen.jsx:41-55 | the list on screen holds exactly the stored records that match the current inputs, ordered by rating |
| `Home.HomeScreen.SetSearchText` | screens/HomeScreen.jsx:101-106 | typing replaces the search text |
| `Home.HomeScreen.PressSortButton` | screens/HomeScreen.jsx:111-113 | flips between `asc` and `desc` |
| `Home.HomeScreen.PressLocation` | screens/HomeScreen.jsx:133-138 | pressing the selected location clears the filter; pressing any other selects it |
| `Home.HomeScreen.ToggleLocation` | screens/HomeScreen.jsx:66-73 | only the draft's locations change, toggled as `Selection.Toggled` says |
| `Home.HomeScreen.HandleAddArtist` | screens/HomeScreen.jsx:57-64 | with a non-empty name and category, appends exactly the draft plus the given id, resets the draft and closes the form; otherwise nothing at all changes |
| `Validation.ValidEmail` | screens/RegistrationScreen.jsx:47-50 | `validateEmail`: every string it accepts is local part, `@`, domain, `.`, two to four letters |
| `Validation.ValidEmailComplete` | screens/RegistrationScreen.jsx:47-50 | every string of that shape is accepted |
| `Validation.ValidEmailMatchesPattern` | screens/RegistrationScreen.jsx:47-50 | the email check accepts exactly the strings matching `^[a-zA-Z0-9._-]+@[a-zA-Z0-9.-]+\.[a-zA-Z]{2,4}$` |
| `Validation.Scan` | screens/RegistrationScreen.jsx:52-55 | one pass reports whether some character is a lowercase letter, an uppercase letter, a digit or a line terminator |
| `Validation.ValidPassword` | screens/RegistrationScreen.jsx:52-55 | accepts exactly the strings at least 6 UTF-16 code units long that contain a lowercase letter, an uppercase letter and a digit, and no line terminator |
| `Validation.Utf16Length` | screens/RegistrationScreen.jsx:53 | the length JavaScript counts: at least the number of characters and at most twice that, and equal to it exactly when every character lies in the Basic Multilingual Plane |
| `Validation.AstralCharactersCountTwice` | screens/RegistrationScreen.jsx:52-55 | a five-character password with two characters outside the Basic Multilingual Plane is seven code units long and is accepted |
| `Registration.RegistrationRecord` | screens/RegistrationScreen.jsx:86-97 | the `addArtist` record from the form: the given id, name, category, locations and rating, with the email and current location present |
| `Registration.RegistrationScreen.constructor` | screens/RegistrationScreen.jsx:33-42 | empty fields, no role, no locations, rating 0, no errors |
| `Registration.RegistrationScreen.ToggleSelection` | screens/RegistrationScreen.jsx:104-110 | the preferred locations are toggled as `Selection.Toggled` says |
| `Registration.RegistrationScreen.HandleRegister` | screens/RegistrationScreen.jsx:57-102 | both errors cleared; outcome is the first failing check in the order fields, role, email, password; a failure leaves the store untouched; success dispatches `login` with the form, then `addArtist` with exactly one record (rating default 0) for an artist and nothing more for a user |
| `Scenarios.SearchIsCaseInsensitive` | screens/HomeScreen.jsx:41-55 | "an" finds "Anita" (by name, ignoring case) and not "Raj" |
| `Scenarios.LocationFilterSelects` | screens/HomeScreen.jsx:41-55 | selecting "Mumbai" keeps only the record that lists Mumbai |
| `Scenarios.SortDescendingExample` | screens/HomeScreen.jsx:49-55 | ratings 4, 2, 5 are shown as 5, 4, 2 in descending order |
| `Scenarios.SortAscendingExample` | screens/HomeScreen.jsx:49-55 | ratings 4, 2, 5 are shown as 2, 4, 5 in ascending order |

## Left out

- Rendering (JSX, styles, `FlatList`), and the `disabled` props of the buttons. For example, the Register button is also disabled without a current location. That is a UI gate and not part of `handleRegister`.
- Opening and cancelling the "add artist" form, and the inline setters for the draft's name, category and rating and for the registration form's fields. These are plain assignments of a single value. Only the form's closing inside `handleAddArtist` is modelled.
- Navigation (`navigation.navigate('Home')`) and `Alert.alert`. They become the `Registration.Outcome` value. `console.log` is dropped.
- The `Date.now().toString()` record ids are taken as a parameter.
- Unicode `toLowerCase`. Only ASCII letters are lower-cased.
- The JavaScript regular-expression engine. The two patterns are written out by hand, and each is proved equal to a declarative statement of its pattern.
- React's batched, asynchronous state updates. Each setter is modelled as an immediate assignment. `handleAddArtist` and `handleRegister` read only the values that were current when they started, so this changes nothing they do.
- JavaScript coercion, apart from the rating. Ratings are integers, and `''` reads as 0.
- `Session.UserSlice.Login`: the payload is a non-null user record, because the only caller passes an object literal. A `null` payload would break the session invariant, and this is not modelled.
- The logout confirmation dialog, the app and navigator wiring, and the profile screen. They only wire providers and render. The logout itself is `Session.UserSlice.Logout`.
- The optional chaining `state.artist?.artists` and `artistData?.filter`, which guard against a missing slice. Here the store always holds both slices.
