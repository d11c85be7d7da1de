/**
 * The session context `AuthProvider` (context/AuthContext.tsx): the current
 * user, the loading flag, and the 'socialpulse_user' key of the browser's
 * local store that keeps the session across reloads.
 */
module Auth {
  import opened Types

  class AuthProvider {
    var user: Option<User>
    var isLoading: bool
    /** The persisted session; None while the key is absent. */
    var persistedUser: Option<User>

    /** The provider starts with no user and loading, whatever the store holds. */
    constructor (persisted: Option<User>)
      ensures user == None && isLoading && persistedUser == persisted
    {
      user, isLoading, persistedUser := None, true, persisted;
    }

    /** `isAuthenticated: !!user`. */
    function IsAuthenticated(): bool
      reads this
    {
      user.Some?
    }

    /** The in-memory user and the persisted session agree. */
    ghost predicate SessionSaved()
      reads this
    {
      persistedUser == user
    }

    /**
     * The mount effect: takes the persisted session when there is one and
     * ends loading. `isLoading` is never set back to true.
     */
    method Init()
      modifies this`user, this`isLoading
      ensures user == if persistedUser.Some? then persistedUser else old(user)
      ensures !isLoading
      ensures old(user) == None ==> SessionSaved()
      ensures IsAuthenticated() <==> persistedUser.Some? || old(user).Some?
    {
      if persistedUser.Some? {
        user := persistedUser;
      }
      isLoading := false;
    }

    /** Sets the user and persists the same record. */
    method Login(userData: User)
      modifies this`user, this`persistedUser
      ensures user == Some(userData) && persistedUser == Some(userData)
      ensures IsAuthenticated() && SessionSaved()
    {
      user := Some(userData);
      persistedUser := Some(userData);
    }

    /** Forgets the user and removes the persisted session. */
    method Logout()
      modifies this`user, this`persistedUser
      ensures user == None && persistedUser == None
      ensures !IsAuthenticated() && SessionSaved()
    {
      user := None;
      persistedUser := None;
    }

    /** Replaces the user after a profile change and persists the same record. */
    method UpdateUser(updatedUser: User)
      modifies this`user, this`persistedUser
      ensures user == Some(updatedUser) && persistedUser == Some(updatedUser)
      ensures IsAuthenticated() && SessionSaved()
    {
      user := Some(updatedUser);
      persistedUser := Some(updatedUser);
    }
  }
}
