/** The sign-up page (src/Pages/SignUp.jsx): the check for an existing admin,
    creating the first admin account, and the view that sends visitors to
    the login page once an admin exists. */
module SignUp {
  import opened Js
  import opened Backend

  const UserNotFound := "User not found"
  const CouldNotSignUp := "Could not Sign Up"

  /** The catch block's text: a thrown string itself, otherwise
      `err.message || "Could not Sign Up"`. */
  function SignUpErrorText(t: Thrown): (text: string)
    ensures t.ThrownString? ==> text == t.s
    ensures t.ThrownError? ==> text == MessageOr(t, CouldNotSignUp)
    ensures t.ThrownError? ==> text != ""
  {
    match t
    case ThrownString(s) => s
    case ThrownError(_) => MessageOr(t, CouldNotSignUp)
  }

  /** The row `handleSignUp` inserts for the new user. */
  function AdminRow(user: User, fullName: string): (a: Admin)
    ensures a.id == user.id && a.email == user.email && a.fullName == fullName
  {
    Admin(user.id, fullName, user.email)
  }

  /** What the page shows. */
  datatype Screen = AlreadyExists | SignUpForm

  class SignUpPage {
    var fullName: string
    var error: string
    var loading: bool
    var adminExists: bool
    /** The last `navigate` target, if any. */
    var redirect: Option<string>

    constructor ()
      ensures fullName == "" && error == "" && !loading && !adminExists && redirect == None
    {
      fullName := "";
      error := "";
      loading := false;
      adminExists := false;
      redirect := None;
    }

    /** The page shows "Admin Already Exists" once an admin is known to
        exist, and the sign-up form otherwise. */
    function Render(): (s: Screen)
      reads this
      ensures s.AlreadyExists? <==> adminExists
    {
      if adminExists then AlreadyExists else SignUpForm
    }

    /** `checkAdminExists`: read at most one admin row; when one comes back,
        remember that an admin exists. A failed or rejected read changes
        nothing (the effect has no error handling), and the flag is never
        cleared. */
    method CheckAdminExists(db: Db, call: Outcome)
      modifies this`adminExists, db`requests
      ensures db.requests == old(db.requests) + [Select(AdminTable)]
      ensures adminExists == (old(adminExists) || (call.Ok? && db.admins != []))
    {
      var first := db.SelectFirstAdmin(call);
      if first.Ok? && |first.value| > 0 {
        adminExists := true;
      }
    }

    /** `handleSignUp`: create the auth user, then insert their admin row
        (its returned error is not checked) and go to the dashboard. A
        sign-up that returns no user fails with "User not found". `loading`
        is always cleared at the end. The existing-admin flag is not
        consulted. */
    method HandleSignUp(db: Db, signUpAnswer: Reply<Option<User>>, insertCall: Outcome)
      modifies this`error, this`loading, this`redirect, db`requests, db`admins
      ensures !loading
      ensures var created := signUpAnswer.Ok? && signUpAnswer.value.Some?;
        && db.requests == old(db.requests) + [AuthSignUp] + (if created then [Insert(AdminTable)] else [])
        && db.admins == (if created && insertCall.Ok?
                         then old(db.admins) + [AdminRow(signUpAnswer.value.value, fullName)]
                         else old(db.admins))
        && redirect == (if created && !insertCall.Rejected? then Some(DashboardPath) else old(redirect))
        && error == (if signUpAnswer.Rejected? then SignUpErrorText(signUpAnswer.thrown)
                     else if signUpAnswer.Failed? then SignUpErrorText(Raise(signUpAnswer.error))
                     else if !created then UserNotFound
                     else if insertCall.Rejected? then SignUpErrorText(insertCall.thrown)
                     else "")
    {
      loading := true;
      error := "";
      var answer := db.SignUp(signUpAnswer);
      match answer {
        case Rejected(t) =>
          error := SignUpErrorText(t);
        case Failed(m) =>
          error := SignUpErrorText(Raise(m));
        case Ok(None) =>
          error := SignUpErrorText(Raise(Text(UserNotFound)));
        case Ok(Some(user)) =>
          var inserted := db.InsertAdmin(AdminRow(user, fullName), insertCall);
          if inserted.Rejected? {
            error := SignUpErrorText(inserted.thrown);
          } else {
            redirect := Some(DashboardPath);
          }
      }
      loading := false;
    }
  }
}
