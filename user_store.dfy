/** The user store: the signed-in user, or nothing. */
module UserStore {
  import opened Js
  import opened Types

  /** `user` starts as `null`. */
  const InitialUser: Option<User> := None

  /** `set({ user })`. */
  function Assign(current: Option<User>, user: Option<User>): (r: Option<User>)
    ensures r == user
  {
    user
  }

  /** `set({ user: null })`. */
  function Cleared(current: Option<User>): (r: Option<User>)
    ensures r.None?
  {
    None
  }

  /** Clearing is idempotent, and setting `null` is the same as clearing. */
  lemma ClearIdempotent(u: Option<User>)
    ensures Cleared(Cleared(u)) == Cleared(u)
    ensures Assign(u, None) == Cleared(u)
  {
  }

  /** The last write wins: an earlier set or clear leaves no trace. */
  lemma LastWriteWins(u: Option<User>, a: Option<User>, b: Option<User>)
    ensures Assign(Assign(u, a), b) == Assign(u, b) && Assign(Cleared(u), b) == Assign(u, b)
  {
  }

  /** `useUserStore`: one shared store object whose only data field is `user`. */
  class Store {
    var user: Option<User>

    constructor ()
      ensures user == InitialUser
    {
      user := None;
    }

    method SetUser(u: Option<User>)
      modifies this
      ensures user == Assign(old(user), u)
    {
      user := u;
    }

    method ClearUser()
      modifies this
      ensures user == Cleared(old(user))
    {
      user := None;
    }
  }
}
