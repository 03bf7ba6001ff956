/**
 * `AuthService`: five hard-coded accounts whose password is the user name.
 * The signed-in user survives a reload through the browser's storage, which
 * is the field `storedUser` here.
 */
module Auth {
  import opened Wrappers

  const VALID_USERS: seq<string> := ["u1", "u2", "u3", "u4", "u5"]

  /** The credentials `login` accepts: a known user whose password is the user name. */
  predicate Accepts(username: string, password: string)
  {
    username in VALID_USERS && username == password
  }

  /** Exactly five pairs of credentials are accepted, and they are `uN`/`uN`. */
  lemma AcceptedCredentials(username: string, password: string)
    ensures Accepts(username, password) <==>
      password == username
      && (username == "u1" || username == "u2" || username == "u3" || username == "u4" || username == "u5")
    ensures Accepts(username, password) ==> |username| == 2 && username[0] == 'u'
  {
  }

  /** A stored user is adopted at start-up only if it is a known user. */
  function RestoredUser(storedUser: Option<string>): (r: Option<string>)
    ensures r.Some? <==> storedUser.Some? && storedUser.value in VALID_USERS
    ensures r.Some? ==> r == storedUser
  {
    if storedUser.Some? && storedUser.value != "" && storedUser.value in VALID_USERS then storedUser else None
  }

  class AuthService {
    var currentUser: Option<string>
    /** `localStorage['currentUser']`. */
    var storedUser: Option<string>

    /** Restores the user kept from an earlier session, if it is still a valid one. */
    constructor (stored: Option<string>)
      ensures currentUser == RestoredUser(stored) && storedUser == stored
      ensures Valid()
    {
      storedUser := stored;
      currentUser := None;
      if stored.Some? && stored.value != "" && stored.value in VALID_USERS {
        currentUser := stored;
      }
    }

    /** The signed-in user, if any, is one of the known users. */
    predicate Valid()
      reads this
    {
      currentUser.None? || currentUser.value in VALID_USERS
    }

    /** `login`: on success the user is signed in and stored; otherwise nothing changes. */
    method Login(username: string, password: string) returns (success: bool)
      requires Valid()
      modifies this
      ensures success <==> Accepts(username, password)
      ensures success ==> currentUser == Some(username) && storedUser == Some(username)
      ensures !success ==> currentUser == old(currentUser) && storedUser == old(storedUser)
      ensures Valid()
    {
      if username in VALID_USERS && username == password {
        currentUser := Some(username);
        storedUser := Some(username);
        return true;
      }
      return false;
    }

    /** `logout`: signed out, and the stored user dropped. */
    method Logout()
      modifies this
      ensures currentUser.None? && storedUser.None? && Valid()
    {
      currentUser := None;
      storedUser := None;
    }

    /** `isLoggedIn`. */
    function IsLoggedIn(): (r: bool)
      reads this
      ensures r ==> currentUser.Some? && (Valid() ==> Accepts(currentUser.value, currentUser.value))
    {
      currentUser.Some?
    }
  }
}
