/** The signed-in session: how the authentication observer fills the
    shared user, profile and loading state, and how the two route guards
    decide from that state what a visitor sees. */
module Session {
  import opened Base
  import opened Model

  /** The shared authentication state. `signOutRequested` records that the
      observer asked the provider to sign the user out; the provider then
      reports a signed-out user as a new event. */
  datatype AuthState = AuthState(
    user: Option<AuthUser>,
    userData: Option<Profile>,
    loading: bool,
    signOutRequested: bool)

  /** Before the first event: nobody, no profile, loading. */
  const Initial: AuthState := AuthState(None, None, true, false)

  /** One `onAuthStateChanged` event, with `users` the profile documents.
      A suspended profile makes the observer request a sign-out and stop,
      leaving the state loading and the previous profile in place; a
      missing profile or a signed-out user clears the profile. */
  function OnAuthChange(st: AuthState, current: Option<AuthUser>, users: map<Uid, Profile>): (r: AuthState)
    ensures r.user == current
    ensures r.signOutRequested <==> current.Some? && current.value.uid in users && users[current.value.uid].isSuspended
    ensures r.signOutRequested ==> r.loading && r.userData == st.userData
    ensures !r.signOutRequested ==> !r.loading
    ensures !r.signOutRequested ==>
              (r.userData.Some? <==> current.Some? && current.value.uid in users)
    ensures r.userData.Some? && !r.signOutRequested ==> r.userData == Some(users[current.value.uid])
  {
    if current.Some? then
      var uid := current.value.uid;
      if uid in users then
        if users[uid].isSuspended then AuthState(current, st.userData, true, true)
        else AuthState(current, Some(users[uid]), false, false)
      else AuthState(current, None, false, false)
    else AuthState(None, None, false, false)
  }

  /** `isAdmin`: the signed-in account's email is the administrator's. */
  predicate IsAdmin(st: AuthState) {
    st.user.Some? && st.user.value.email == Some(AdminEmail)
  }

  /** What a guarded page renders. */
  datatype Guard = Spinner | Nothing | Redirect(path: string) | Children

  /** `ProtectedRoute`: a spinner while loading, then the login page for a
      visitor, the profile setup for an account without a profile, and the
      page itself otherwise. */
  function Protected(st: AuthState): (g: Guard)
    ensures g == Children <==> !st.loading && st.user.Some? && st.userData.Some?
    ensures g == Spinner <==> st.loading
    ensures g == Redirect("/login") <==> !st.loading && st.user.None?
    ensures g == Redirect("/profile-setup") <==> !st.loading && st.user.Some? && st.userData.None?
  {
    if st.loading then Spinner
    else if st.user.None? then Redirect("/login")
    else if st.userData.None? then Redirect("/profile-setup")
    else Children
  }

  /** `AdminRoute`: nothing while loading, the home page for anyone but
      the administrator, the page itself for the administrator, whether or
      not a profile exists. */
  function Admin(st: AuthState): (g: Guard)
    ensures g == Children <==> !st.loading && IsAdmin(st)
    ensures g == Nothing <==> st.loading
    ensures g == Redirect("/") <==> !st.loading && !IsAdmin(st)
  {
    if st.loading then Nothing
    else if st.user.None? || !IsAdmin(st) then Redirect("/")
    else Children
  }

  /** After an event, a protected page opens exactly for a signed-in user
      with a profile that is not suspended, and shows that profile. */
  lemma ProtectedAfterEvent(st: AuthState, current: Option<AuthUser>, users: map<Uid, Profile>)
    ensures var r := OnAuthChange(st, current, users);
            Protected(r) == Children <==>
              current.Some? && current.value.uid in users && !users[current.value.uid].isSuspended
    ensures var r := OnAuthChange(st, current, users);
            Protected(r) == Children ==> r.userData == Some(users[current.value.uid])
  {
  }

  /** A suspended account never gets past either guard: while its
      sign-out is pending the state stays loading, and the event the
      sign-out causes leaves a signed-out, settled state that sends
      protected pages to the login page. */
  lemma SuspendedNeverAdmitted(st: AuthState, u: AuthUser, users: map<Uid, Profile>)
    requires u.uid in users && users[u.uid].isSuspended
    ensures var r := OnAuthChange(st, Some(u), users);
            && r.signOutRequested
            && Protected(r) == Spinner && Admin(r) == Nothing
            && var r2 := OnAuthChange(r, None, users);
               && r2 == AuthState(None, None, false, false)
               && Protected(r2) == Redirect("/login") && Admin(r2) == Redirect("/")
  {
  }

  /** A new account lands on the profile setup page, and once its profile
      is stored the next event admits it. */
  lemma NewAccountSetsUpProfile(st: AuthState, u: AuthUser, users: map<Uid, Profile>, p: Profile)
    requires u.uid !in users && !p.isSuspended
    ensures Protected(OnAuthChange(st, Some(u), users)) == Redirect("/profile-setup")
    ensures Protected(OnAuthChange(st, Some(u), users[u.uid := p])) == Children
  {
  }

  /** The administrator account is admitted to the dashboard even before
      its profile exists, while protected pages still ask for the setup. */
  lemma AdminWithoutProfile(st: AuthState, u: AuthUser, users: map<Uid, Profile>)
    requires u.email == Some(AdminEmail) && u.uid !in users
    ensures Admin(OnAuthChange(st, Some(u), users)) == Children
    ensures Protected(OnAuthChange(st, Some(u), users)) == Redirect("/profile-setup")
  {
  }
}
