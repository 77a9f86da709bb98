/** The admin page's session guard: it waits for the current session, sends
    a visitor without one to the sign-in page, follows later session changes,
    and offers sign-out. */
module AdminPage {
  import opened Wrappers
  import opened Toasts

  /** The signed-in account, as far as the page uses it. */
  datatype User = User(email: string)

  datatype Session = Session(user: User)

  /** What the page renders. */
  datatype View = LoadingView | Blank | Dashboard(user: User)

  /** The render gating: the loading view while loading, then nothing
      without a user, then the panels. */
  function Render(loading: bool, user: Option<User>): (v: View)
    ensures v == LoadingView <==> loading
    ensures v == Blank <==> !loading && user.None?
    ensures v.Dashboard? ==> user == Some(v.user)
  {
    if loading then LoadingView
    else if user.None? then Blank
    else Dashboard(user.value)
  }

  /** The page's state: the user, the loading flag and whether the
      auth-change subscription is still held. */
  datatype State = State(user: Option<User>, loading: bool, subscribed: bool)

  const Initial := State(None, true, true)

  /** The answer to a session report, shared by the initial check and the
      auth-change callback: without a session, navigation to "/auth" and no
      change; with one, its user and the end of loading. */
  function OnSession(s: State, session: Option<Session>): (State, Option<string>) {
    if session.None? then (s, Some("/auth"))
    else (s.(user := Some(session.value.user), loading := false), None)
  }

  /** An auth change reaches the page only while it is subscribed. */
  function OnAuthChange(s: State, session: Option<Session>): (State, Option<string>) {
    if s.subscribed then OnSession(s, session) else (s, None)
  }

  /** How the call `supabase.auth.signOut()` ends: it resolves without an
      error, it resolves with an `error` field, or it throws. */
  datatype SignOutOutcome = Done | ErrorReturned | Threw

  /** `handleSignOut`: the toast and the navigation; the user is left to the
      auth-change callback. The handler awaits the call but does not look at
      the `error` it resolves with, so only a throw reaches the `catch`. */
  function SignOut(outcome: SignOutOutcome): (Toast, Option<string>) {
    if outcome.Threw? then (SignOutFailed, None) else (SignedOut, Some("/"))
  }

  /** Loading ends only together with a user being set. */
  predicate Guarded(s: State) {
    !s.loading ==> s.user.Some?
  }

  /** A report without a session sends the visitor to "/auth" and leaves the
      user and the loading flag as they were; a report with one sets its
      user, ends loading and does not navigate. An auth change acts the same
      way while the page is subscribed, and does nothing after unmount. */
  lemma {:induction false} SessionCases(s: State, session: Option<Session>)
    ensures session.None? ==> OnSession(s, session) == (s, Some("/auth"))
    ensures session.Some? ==>
      OnSession(s, session).0.user == Some(session.value.user) && !OnSession(s, session).0.loading
      && OnSession(s, session).1.None?
    ensures OnSession(Initial, None).0.loading && OnSession(Initial, None).0.user.None?
    ensures !s.subscribed ==> OnAuthChange(s, session) == (s, None)
    ensures s.subscribed && session.None? ==> OnAuthChange(s, session) == (s, Some("/auth"))
    ensures s.subscribed && session.Some? ==>
      OnAuthChange(s, session) == (s.(user := Some(session.value.user), loading := false), None)
  {
  }

  /** Every event keeps the guard, and the guard rules out the blank view:
      the page never settles on rendering nothing. */
  lemma {:induction false} GuardHolds(s: State, session: Option<Session>)
    ensures Guarded(Initial)
    ensures Guarded(s) ==> Guarded(OnSession(s, session).0) && Guarded(OnAuthChange(s, session).0)
    ensures Guarded(s) ==> Render(s.loading, s.user) != Blank
  {
  }

  /** Sign-out navigates home exactly when the call does not throw, and its
      toast tells which way it went. */
  lemma {:induction false} SignOutCases(outcome: SignOutOutcome)
    ensures SignOut(outcome).1 == Some("/") <==> !outcome.Threw?
    ensures SignOut(outcome).1.None? <==> outcome.Threw?
    ensures SignOut(outcome).0 == SignedOut <==> !outcome.Threw?
    ensures SignOut(outcome).0 == SignOutFailed <==> outcome.Threw?
  {
  }

  /** An error the auth server returns is not noticed: the visitor gets the
      same success toast and is sent home as after a clean sign-out, so the
      failure toast and staying on the page need a throw. */
  lemma {:induction false} ReturnedErrorIgnored()
    ensures SignOut(ErrorReturned) == SignOut(Done) == (SignedOut, Some("/"))
  {
  }

  class Admin {
    var user: Option<User>
    var loading: bool
    var subscribed: bool

    function Snapshot(): State
      reads this
    {
      State(user, loading, subscribed)
    }

    predicate Valid()
      reads this
    {
      Guarded(Snapshot())
    }

    /** Mounting: no user, loading, subscribed to auth changes. */
    constructor ()
      ensures Valid()
      ensures Snapshot() == Initial
    {
      user := None;
      loading := true;
      subscribed := true;
    }

    function View(): View
      reads this
    {
      Render(loading, user)
    }

    /** `checkAuth`, with the session the auth client reports. */
    method CheckAuth(session: Option<Session>) returns (navigateTo: Option<string>)
      requires Valid()
      modifies this
      ensures Valid()
      ensures (Snapshot(), navigateTo) == OnSession(old(Snapshot()), session)
    {
      if session.None? {
        return Some("/auth");
      }
      user := Some(session.value.user);
      loading := false;
      navigateTo := None;
    }

    /** The `onAuthStateChange` callback. */
    method AuthStateChanged(session: Option<Session>) returns (navigateTo: Option<string>)
      requires Valid()
      modifies this
      ensures Valid()
      ensures (Snapshot(), navigateTo) == OnAuthChange(old(Snapshot()), session)
    {
      if !subscribed {
        return None;
      }
      if session.None? {
        navigateTo := Some("/auth");
      } else {
        user := Some(session.value.user);
        loading := false;
        navigateTo := None;
      }
    }

    /** The effect's cleanup: the subscription is released. */
    method Unmount()
      requires Valid()
      modifies this
      ensures Valid()
      ensures Snapshot() == old(Snapshot()).(subscribed := false)
    {
      subscribed := false;
    }

    /** `handleSignOut`, with how the remote sign-out ended. */
    method HandleSignOut(outcome: SignOutOutcome) returns (toast: Toast, navigateTo: Option<string>)
      ensures (toast, navigateTo) == SignOut(outcome)
    {
      if outcome.Threw? {
        toast := SignOutFailed;
        navigateTo := None;
      } else {
        toast := SignedOut;
        navigateTo := Some("/");
      }
    }
  }
}
