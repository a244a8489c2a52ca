/** The landing page (src/Pages/HomePage.jsx): it checks whether an admin
    exists and offers "Admin Login" if one does, "Admin Sign Up" otherwise. */
module HomePage {
  import opened Js
  import opened Backend
  import SignUp

  /** The one call-to-action button the page shows. */
  datatype Button = AdminLogin | AdminSignUp

  class Landing {
    var adminExists: bool
    var loading: bool
    /** The shown error; `None` stands for both `null` and `undefined`. */
    var error: Option<string>

    constructor ()
      ensures !adminExists && loading && error == None
    {
      adminExists := false;
      loading := true;
      error := None;
    }

    /** The page offers login exactly when an admin is known to exist, and
        sign-up otherwise: never both, never neither. */
    function Offered(): (b: Button)
      reads this
      ensures b == AdminLogin <==> adminExists
      ensures b == AdminSignUp <==> !adminExists
    {
      if adminExists then AdminLogin else AdminSignUp
    }

    /** `checkForAdmin`: read at most one admin row and record whether one
        came back. A failed or rejected read records the error's `message`
        (absent on a thrown string) and keeps the previous flag. `loading`
        is always cleared at the end. */
    method CheckForAdmin(db: Db, call: Outcome)
      modifies this, db`requests
      ensures !loading
      ensures db.requests == old(db.requests) + [Select(AdminTable)]
      ensures call.Ok? ==> adminExists == (db.admins != []) && error == old(error)
      ensures call.Failed? ==> adminExists == old(adminExists) && error == MessageOf(Raise(call.error))
      ensures call.Rejected? ==> adminExists == old(adminExists) && error == MessageOf(call.thrown)
    {
      loading := true;
      var first := db.SelectFirstAdmin(call);
      match first {
        case Rejected(t) =>
          error := MessageOf(t);
        case Failed(m) =>
          error := MessageOf(Raise(m));
        case Ok(rows) =>
          adminExists := rows != [];
      }
      loading := false;
    }
  }

  /** The first-admin journey against a backend that answers every request:
      with no admin yet the landing page offers sign-up; once the first
      account has signed up, a fresh landing page offers login. */
  method FirstAdminJourney(user: User, fullName: string) returns (before: Button, after: Button)
    ensures before == AdminSignUp && after == AdminLogin
  {
    var db := new Db(None, [], [], []);
    var home := new Landing();
    home.CheckForAdmin(db, Ok(()));
    before := home.Offered();
    var page := new SignUp.SignUpPage();
    page.fullName := fullName;
    page.HandleSignUp(db, Ok(Some(user)), Ok(()));
    var home' := new Landing();
    home'.CheckForAdmin(db, Ok(()));
    after := home'.Offered();
  }
}
