/**
 * The user-store initialiser: a component instance that copies the user it is
 * given into the user store on its first render only, guarded by a ref flag
 * that is never reset. It renders nothing.
 */
module UserStoreInitializer {
  import opened Js
  import opened Types
  import UserStore

  /** One instance's ref flag, the store's user, and how many times this instance wrote the store. */
  datatype InitState = InitState(initialized: bool, storeUser: Option<User>, writes: nat)

  /** A fresh instance: the flag is down and nothing has been written yet. */
  function Fresh(storeUser: Option<User>): InitState {
    InitState(false, storeUser, 0)
  }

  /** One render: `if (!initialized.current) { setState({ user }); initialized.current = true }`. */
  function Render(s: InitState, user: User): (r: InitState)
    ensures r.initialized
    ensures !s.initialized ==> r.storeUser == Some(user) && r.writes == s.writes + 1
    ensures s.initialized ==> r.storeUser == s.storeUser && r.writes == s.writes
  {
    if !s.initialized then InitState(true, Some(user), s.writes + 1) else s
  }

  /** Renders with the given users, one after another. */
  function RenderAll(s: InitState, users: seq<User>): InitState
    decreases |users|
  {
    if users == [] then s else RenderAll(Render(s, users[0]), users[1..])
  }

  /**
   * Over any run of renders of a fresh instance the store is written at most
   * once; after the first render it holds the first user and the flag is up.
   */
  lemma {:induction false} AtMostOneWrite(storeUser: Option<User>, users: seq<User>)
    ensures users == [] ==> RenderAll(Fresh(storeUser), users) == Fresh(storeUser)
    ensures users != [] ==> RenderAll(Fresh(storeUser), users) == InitState(true, Some(users[0]), 1)
  {
    if users != [] {
      AfterInitialized(InitState(true, Some(users[0]), 1), users[1..]);
    }
  }

  /** Once the flag is up, further renders change nothing, whatever user they are given. */
  lemma {:induction false} AfterInitialized(s: InitState, users: seq<User>)
    requires s.initialized
    ensures RenderAll(s, users) == s
    decreases |users|
  {
    if users != [] {
      AfterInitialized(Render(s, users[0]), users[1..]);
    }
  }

  /** A render never lowers the flag. */
  lemma {:induction false} FlagNeverReverts(s: InitState, users: seq<User>)
    requires s.initialized || users != []
    ensures RenderAll(s, users).initialized
    decreases |users|
  {
    if users != [] {
      var next := Render(s, users[0]);
      if users[1..] == [] {
        assert RenderAll(next, users[1..]) == next;
      } else {
        FlagNeverReverts(next, users[1..]);
      }
    }
  }

  /** One mounted `UserStoreInitializer` instance writing into a shared user store. */
  class Initializer {
    var initialized: bool
    ghost var writes: nat
    const store: UserStore.Store

    ghost function Snapshot(): InitState
      reads this, store
    {
      InitState(initialized, store.user, writes)
    }

    constructor (store: UserStore.Store)
      ensures this.store == store && Snapshot() == Fresh(store.user)
    {
      this.store := store;
      initialized := false;
      writes := 0;
    }

    /** The component body; it renders `null`, so nothing is returned. */
    method RenderOnce(user: User)
      modifies this, store
      ensures Snapshot() == Render(old(Snapshot()), user)
    {
      if !initialized {
        store.SetUser(Some(user));
        initialized := true;
        writes := writes + 1;
      }
    }
  }
}
