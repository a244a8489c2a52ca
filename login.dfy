/** The login page (src/Pages/Login.jsx): sign in, then admit only users
    found in the admin table. */
module Login {
  import opened Js
  import opened Backend

  const AccessDenied := "Access denied. This portal is for administrators only."
  const LoginFailed := "Login failed"

  /** The catch block's text: `err.message` when it is a string (even an
      empty one), "Login failed" otherwise. */
  function LoginErrorText(t: Thrown): (text: string)
    ensures MessageOf(t).Some? ==> text == MessageOf(t).value
    ensures MessageOf(t).None? ==> text == LoginFailed
  {
    match MessageOf(t)
    case Some(m) => m
    case None => LoginFailed
  }

  /** The admin lookup found the user: it went through (a returned error is
      not checked and leaves no rows) and returned at least one row. */
  predicate FoundAdmin(lookupCall: Outcome, admins: seq<Admin>, userId: string)
    ensures admins == [] ==> !FoundAdmin(lookupCall, admins, userId)
  {
    lookupCall.Ok? && AdminsWithId(admins, userId) != []
  }

  /** The user the lookup finds is an admin whose row carries their id. */
  lemma FoundAdminHasRow(lookupCall: Outcome, admins: seq<Admin>, userId: string)
    requires FoundAdmin(lookupCall, admins, userId)
    ensures exists k :: 0 <= k < |admins| && admins[k].id == userId
  {
    var rows := AdminsWithId(admins, userId);
    assert rows[0] in rows;
  }

  /** The error `handleLogin` shows, from the three requests' outcomes. */
  function LoginError(signInAnswer: Reply<Session>, lookupCall: Outcome, signOutCall: Outcome,
                      admins: seq<Admin>): (e: string)
    ensures signInAnswer.Ok? && FoundAdmin(lookupCall, admins, signInAnswer.value.userId) ==> e == ""
    ensures (signInAnswer.Ok? && !lookupCall.Rejected? && !FoundAdmin(lookupCall, admins, signInAnswer.value.userId)
             && !signOutCall.Rejected?) ==> e == AccessDenied
  {
    match signInAnswer
    case Rejected(t) => LoginErrorText(t)
    case Failed(m) => LoginErrorText(Raise(m))
    case Ok(session) =>
      if lookupCall.Rejected? then LoginErrorText(lookupCall.thrown)
      else if FoundAdmin(lookupCall, admins, session.userId) then ""
      else if signOutCall.Rejected? then LoginErrorText(signOutCall.thrown)
      else LoginErrorText(Raise(Text(AccessDenied)))
  }

  class LoginPage {
    var error: string
    var loading: bool
    /** The last `navigate` target, if any. */
    var redirect: Option<string>

    constructor ()
      ensures error == "" && !loading && redirect == None
    {
      error := "";
      loading := false;
      redirect := None;
    }

    /** `handleLogin`: sign in; look the user up in the admin table; a user
        with no admin row is signed out again and refused. Only an admin
        reaches the dashboard; `loading` is always cleared at the end. */
    method HandleLogin(db: Db, signInAnswer: Reply<Session>, lookupCall: Outcome, signOutCall: Outcome)
      modifies this, db`requests, db`session
      ensures !loading
      ensures var signedIn := signInAnswer.Ok?;
              var admitted := signedIn && FoundAdmin(lookupCall, db.admins, signInAnswer.value.userId);
              var refused := signedIn && !lookupCall.Rejected? && !admitted;
        && db.requests == old(db.requests) + [AuthSignIn]
             + (if signedIn then [Select(AdminTable)] else [])
             + (if refused then [AuthSignOut] else [])
        && db.session == (if refused && signOutCall.Ok? then None
                          else if signedIn then Some(signInAnswer.value)
                          else old(db.session))
        && redirect == (if admitted then Some(DashboardPath) else old(redirect))
        && error == LoginError(signInAnswer, lookupCall, signOutCall, db.admins)
    {
      error := "";
      loading := true;
      var signIn := db.SignInWithPassword(signInAnswer);
      match signIn {
        case Rejected(t) =>
          error := LoginErrorText(t);
        case Failed(m) =>
          error := LoginErrorText(Raise(m));
        case Ok(session) =>
          var rows := db.SelectAdminsById(session.userId, lookupCall);
          if rows.Rejected? {
            error := LoginErrorText(rows.thrown);
          } else if rows.Failed? || rows.value == [] {
            var out := db.SignOut(signOutCall);
            if out.Rejected? {
              error := LoginErrorText(out.thrown);
            } else {
              error := LoginErrorText(Raise(Text(AccessDenied)));
            }
          } else {
            redirect := Some(DashboardPath);
          }
      }
      loading := false;
    }
  }
}
