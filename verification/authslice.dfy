/** The sign-in slice of the store, frontend/src/store/slices/authSlice.js:
    whether someone is signed in and the user object the pages read. The
    user object is a plain record of named fields, modelled as a map from
    field name to value; the copy kept in local storage is left out. */
module AuthSlice {
  import opened Wrappers

  type UserObject = map<string, string>

  datatype State = State(status: bool, user: Option<UserObject>)

  const Initial: State := State(false, None)

  /** Signed in exactly when `status` is set. */
  predicate SignedIn(s: State) {
    s.status
  }

  /** `login`: signed in, holding the given user. */
  function Login(s: State, user: UserObject): (r: State)
    ensures SignedIn(r) && r.user == Some(user)
  {
    State(true, Some(user))
  }

  /** `logout`: back to the initial state, whatever came before. */
  function Logout(s: State): (r: State)
    ensures r == Initial && !SignedIn(r)
  {
    State(false, None)
  }

  /** Signing in and out returns to the initial state. */
  lemma LoginThenLogout(s: State, user: UserObject)
    ensures Logout(Login(s, user)) == Initial
  {
  }

  /** `setUserDetails`: `{ ...state.user, ...payload }`. The payload's fields
      win, every other field is kept, and `status` is not touched. Spreading
      a missing user gives the empty object, so the result is always a user
      object. */
  function SetUserDetails(s: State, payload: UserObject): (r: State)
    ensures r.status == s.status
    ensures r.user.Some?
    ensures r.user.value.Keys == payload.Keys + (if s.user.Some? then s.user.value.Keys else {})
    ensures forall k :: k in payload ==> r.user.value[k] == payload[k]
    ensures s.user.Some? ==> forall k :: k in s.user.value && k !in payload ==> r.user.value[k] == s.user.value[k]
  {
    var base := if s.user.Some? then s.user.value else map[];
    State(s.status, Some(base + payload))
  }

  /** Applying the same details twice is applying them once. */
  lemma SetUserDetailsIdempotent(s: State, payload: UserObject)
    ensures SetUserDetails(SetUserDetails(s, payload), payload) == SetUserDetails(s, payload)
  {
    var once := SetUserDetails(s, payload).user.value;
    assert once + payload == once;
  }

  /** Updating a signed-in user's details keeps them signed in as a user
      who has those details. */
  lemma DetailsAfterLogin(s: State, user: UserObject, payload: UserObject)
    ensures var r := SetUserDetails(Login(s, user), payload);
      SignedIn(r) && r.user == Some(user + payload)
  {
  }

  /** Updating details while signed out leaves a user object behind,
      though `status` still says nobody is signed in. */
  lemma DetailsWhileSignedOut(payload: UserObject)
    ensures var r := SetUserDetails(Initial, payload);
      !SignedIn(r) && r.user == Some(payload)
  {
    assert map[] + payload == payload;
  }
}
