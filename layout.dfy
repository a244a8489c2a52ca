/** The layout around every admin page (src/components/Layout.jsx): the
    authentication check run when it mounts, and the gate that renders the
    protected pages only for a signed-in admin. */
module Layout {
  import opened Js
  import opened Backend

  const LoginPath := "/login"

  /** The signed-in user is an admin: the session read went through and found
      a session whose user id names exactly one admin row (what `.single()`
      accepts). */
  predicate AdminSession(sessionCall: Outcome, session: Option<Session>, lookupCall: Outcome, admins: seq<Admin>)
    ensures admins == [] ==> !AdminSession(sessionCall, session, lookupCall, admins)
  {
    && sessionCall.Ok? && session.Some?
    && lookupCall.Ok? && |AdminsWithId(admins, session.value.userId)| == 1
  }

  /** What the layout renders. */
  datatype Screen = Checking | Blank | Protected

  /** A signed-in user that is accepted is an admin: some admin row carries the
      session's user id. */
  lemma AdminSessionHasRow(sessionCall: Outcome, session: Option<Session>, lookupCall: Outcome, admins: seq<Admin>)
    requires AdminSession(sessionCall, session, lookupCall, admins)
    ensures exists k :: 0 <= k < |admins| && admins[k].id == session.value.userId
  {
    var rows := AdminsWithId(admins, session.value.userId);
    assert rows[0] in rows;
  }

  class AuthGate {
    var loading: bool
    var isAuthenticated: bool
    /** The last `navigate` target, if any. */
    var redirect: Option<string>

    constructor ()
      ensures loading && !isAuthenticated && redirect == None
    {
      loading := true;
      isAuthenticated := false;
      redirect := None;
    }

    /** The render gate: "Checking authentication..." while loading, nothing
        when not authenticated, the layout otherwise. */
    function Render(): (s: Screen)
      reads this
      ensures s.Protected? <==> !loading && isAuthenticated
      ensures s.Checking? <==> loading
    {
      if loading then Checking
      else if !isAuthenticated then Blank
      else Protected
    }

    /** `checkAuth`: read the session; without one, go to the login page.
        Look the user up among the admins; when the lookup returns no single
        row, sign the user out and go to the login page. A rejected request
        goes to the login page too. Only an admin ends the check: every other
        path leaves `loading` set. */
    method CheckAuth(db: Db, sessionCall: Outcome, lookupCall: Outcome, signOutCall: Outcome)
      modifies this, db`requests, db`session
      ensures var found := sessionCall.Ok? && old(db.session).Some?;
              var refused := found && !lookupCall.Rejected?
                             && !(lookupCall.Ok? && |AdminsWithId(db.admins, old(db.session).value.userId)| == 1);
        && db.requests == old(db.requests) + [AuthGetSession]
             + (if found then [Select(AdminTable)] else [])
             + (if refused then [AuthSignOut] else [])
        && db.session == (if refused && signOutCall.Ok? then None else old(db.session))
      ensures AdminSession(sessionCall, old(db.session), lookupCall, db.admins) ==>
                isAuthenticated && !loading && redirect == old(redirect)
      ensures !AdminSession(sessionCall, old(db.session), lookupCall, db.admins) ==>
                isAuthenticated == old(isAuthenticated) && loading == old(loading) && redirect == Some(LoginPath)
    {
      var got := db.GetSession(sessionCall);
      if got.Rejected? || got.Failed? || got.value.None? {
        redirect := Some(LoginPath);
        return;
      }
      var admin := db.SingleAdminById(got.value.value.userId, lookupCall);
      if admin.Rejected? {
        redirect := Some(LoginPath);
        return;
      }
      if admin.Failed? {
        var _ := db.SignOut(signOutCall);
        redirect := Some(LoginPath);
        return;
      }
      isAuthenticated := true;
      loading := false;
    }

    /** From a freshly mounted layout, the protected pages are rendered
        exactly when the check finds an admin session; otherwise the user is
        sent to the login page. */
    method Mount(db: Db, sessionCall: Outcome, lookupCall: Outcome, signOutCall: Outcome) returns (s: Screen)
      requires loading && !isAuthenticated
      modifies this, db`requests, db`session
      ensures var found := sessionCall.Ok? && old(db.session).Some?;
              var refused := found && !lookupCall.Rejected?
                             && !(lookupCall.Ok? && |AdminsWithId(db.admins, old(db.session).value.userId)| == 1);
        && db.requests == old(db.requests) + [AuthGetSession]
             + (if found then [Select(AdminTable)] else [])
             + (if refused then [AuthSignOut] else [])
        && db.session == (if refused && signOutCall.Ok? then None else old(db.session))
      ensures s == Render()
      ensures s.Protected? <==> AdminSession(sessionCall, old(db.session), lookupCall, db.admins)
      ensures !s.Protected? ==> s.Checking? && redirect == Some(LoginPath)
    {
      CheckAuth(db, sessionCall, lookupCall, signOutCall);
      s := Render();
    }
  }
}
