/** The Outages page (src/Pages/Outages.jsx): the creation form and its
    validation, creating an outage with its notification, resolving an outage
    with its notification, and cancelling the form. */
module Outages {
  import opened Js
  import opened Text
  import opened Backend

  const AllFieldsRequired := "All fields are required"
  const NotLoggedIn := "Admmin not logged in "
  const CreateFailed := "Failed to create outage"
  const ResolveFailed := "Failed to resolved outage"

  /** The creation form; `kind` is the form's `type`. */
  datatype Form = Form(communityId: string, kind: string, startTime: string, endTime: string, reason: string)

  /** The form as first shown and after every reset. */
  const BlankForm := Form("", "Scheduled", "", "", "")

  /** `validateForm`'s test: community, start, end and reason must all be
      non-empty; the type is not checked. */
  predicate IsComplete(f: Form)
    ensures f == BlankForm ==> !IsComplete(f)
  {
    f.communityId != "" && f.startTime != "" && f.endTime != "" && f.reason != ""
  }

  /** The literal head of the creation message. The template's second line,
      `type === "Emergency" ? "n" : ""`, has no `${` before it, so it is text
      of the message (with its line breaks and indentation), not code. */
  const MessageHead := "A\n" + LiteralTernary + "\n        } "

  /** The template's second line, indentation included. */
  const LiteralTernary := "          type === \"Emergency\" ? \"n\" : \"\""

  /** The creation message after its head. */
  function MessageTail(f: Form): string
  {
    Lower(f.kind) + " power outage is planned from " + f.startTime + " to " + f.endTime + ". Reason: " + f.reason
  }

  /** The message of the notification announcing an outage created from `f`. */
  function CreationMessage(f: Form): string
  {
    MessageHead + MessageTail(f)
  }

  /** The notification inserted after an outage is created from form `f`. */
  function CreationNotification(f: Form, outageId: string, now: Timestamp): (n: Notification)
    ensures n.kind == ScheduledOutage <==> f.kind == "Scheduled"
    ensures n.kind == UnscheduledOutage <==> f.kind != "Scheduled"
    ensures n.title == f.kind + " Power Outage"
    ensures n.recipientCommunityId == f.communityId && n.recipientUserId == None
    ensures n.relatedOutageId == Some(outageId) && n.relatedReportId == None
    ensures n.message == CreationMessage(f)
    ensures n.sentTime == now
  {
    Notification(
      recipientCommunityId := f.communityId,
      recipientUserId := None,
      kind := if f.kind == "Scheduled" then ScheduledOutage else UnscheduledOutage,
      title := f.kind + " Power Outage",
      message := CreationMessage(f),
      relatedOutageId := Some(outageId),
      relatedReportId := None,
      sentTime := now)
  }

  /** The creation message ends with the lower-cased type, the two times and
      the reason, and it starts with the same literal head whatever the type:
      an Emergency outage is never announced with "An". */
  lemma CreationMessageShape(f: Form, outageId: string, now: Timestamp)
    ensures var m := CreationNotification(f, outageId, now).message;
      && |m| == |MessageHead| + |MessageTail(f)|
      && m[..|MessageHead|] == MessageHead
      && m[|MessageHead|..|MessageHead| + |f.kind|] == Lower(f.kind)
      && m[|m| - |f.reason|..] == f.reason
      && m[2..2 + |LiteralTernary|] == LiteralTernary
      && m[1] == '\n'
  {
    var m := CreationNotification(f, outageId, now).message;
    assert m == MessageHead + MessageTail(f);
    assert MessageTail(f)[..|f.kind|] == Lower(f.kind);
    assert MessageHead[..2] == "A\n";
    assert MessageHead[2..2 + |LiteralTernary|] == LiteralTernary;
  }

  /** Two forms that differ only in a type with the same lower-case spelling
      give the same creation message. */
  lemma CreationMessageDependsOnLowerType(f: Form, g: Form, id: string, now: Timestamp)
    requires f.(kind := g.kind) == g && Lower(f.kind) == Lower(g.kind)
    ensures CreationNotification(f, id, now).message == CreationNotification(g, id, now).message
  {
  }

  /** The notification inserted after outage `outage` (read back by id) is resolved. */
  function RestoredNotification(outage: Outage, outageId: string, now: Timestamp): (n: Notification)
    ensures n.kind == PowerRestored
    ensures n.title == "Power Restored" && n.message == "Power has been restored in your community."
    ensures n.recipientCommunityId == outage.communityId && n.recipientUserId == None
    ensures n.relatedOutageId == Some(outageId) && n.relatedReportId == None
    ensures n.sentTime == now
  {
    Notification(
      recipientCommunityId := outage.communityId,
      recipientUserId := None,
      kind := PowerRestored,
      title := "Power Restored",
      message := "Power has been restored in your community.",
      relatedOutageId := Some(outageId),
      relatedReportId := None,
      sentTime := now)
  }

  /** The row handleSubmit asks the backend to store; the backend picks the id. */
  function NewOutage(f: Form, id: string, adminId: string): (o: Outage)
    ensures o.id == id && o.communityId == f.communityId && o.kind == f.kind
    ensures o.startTime == f.startTime && o.endTime == f.endTime && o.reason == f.reason
    ensures o.status == None && o.createdByAdmin == adminId
  {
    Outage(id, f.communityId, f.kind, f.startTime, f.endTime, f.reason, None, adminId)
  }

  /** A form error is shown when it is a non-empty string. */
  predicate Truthy(e: Option<string>)
    ensures e.None? || e == Some("") ==> !Truthy(e)
  {
    e.Some? && e.value != ""
  }

  /** The session check of `handleSubmit` passes: the read went through and
      found a session (a returned error leaves `session` null). */
  predicate SignedIn(sessionCall: Outcome, session: Option<Session>)
    ensures !sessionCall.Ok? || session.None? ==> !SignedIn(sessionCall, session)
  {
    sessionCall.Ok? && session.Some?
  }

  /** What `handleSubmit` does to the tables once signed in as `adminId`:
      the requests it sends, the outage it adds when the insert goes
      through, and the notification it adds when that insert goes through
      too. */
  ghost predicate Created(f: Form, adminId: string, insertAnswer: Reply<string>, notifyCall: Outcome,
                          now: Timestamp, requests: seq<Request>, requests': seq<Request>,
                          outages: seq<Outage>, outages': seq<Outage>,
                          notifications: seq<Notification>, notifications': seq<Notification>)
  {
    && requests' == requests + [Insert(OutageTable)] + (if insertAnswer.Ok? then [Insert(NotificationTable)] else [])
    && outages' == (if insertAnswer.Ok? then outages + [NewOutage(f, insertAnswer.value, adminId)] else outages)
    && notifications' == (if insertAnswer.Ok? && notifyCall.Ok?
                          then notifications + [CreationNotification(f, insertAnswer.value, now)]
                          else notifications)
  }

  /** The error `handleSubmit` records in `error` (which the page never
      renders) after the session check: the outage
      insert's error, or the rejection of the notification insert; a
      returned notification error is ignored. */
  function SubmitError(insertAnswer: Reply<string>, notifyCall: Outcome): (e: Option<string>)
    ensures e == None <==> insertAnswer.Ok? && !notifyCall.Rejected?
  {
    match insertAnswer
    case Rejected(t) => Some(MessageOr(t, CreateFailed))
    case Failed(m) => Some(MessageOr(Raise(m), CreateFailed))
    case Ok(_) => if notifyCall.Rejected? then Some(MessageOr(notifyCall.thrown, CreateFailed)) else None
  }

  class OutagesPage {
    var selectedCommunityId: string
    var kind: string
    var startTime: string
    var endTime: string
    var reason: string
    var outagesError: Option<string>
    var error: Option<string>
    var loading: bool
    var isModalOpen: bool

    function CurrentForm(): Form
      reads this
    {
      Form(selectedCommunityId, kind, startTime, endTime, reason)
    }

    constructor ()
      ensures CurrentForm() == BlankForm
      ensures outagesError == Some("") && error == None && loading && !isModalOpen
    {
      selectedCommunityId, kind, startTime, endTime, reason := "", "Scheduled", "", "", "";
      outagesError := Some("");
      error := None;
      loading := true;
      isModalOpen := false;
    }

    /** The "+ Create New Outage" button. */
    method OpenModal()
      modifies this`isModalOpen
      ensures isModalOpen
    {
      isModalOpen := true;
    }

    /** The effect that clears the form error once all four required fields
        are filled. */
    method ClearErrorWhenComplete()
      modifies this`outagesError
      ensures IsComplete(CurrentForm()) ==> !Truthy(outagesError)
      ensures outagesError == if IsComplete(CurrentForm()) && Truthy(old(outagesError)) then None
                              else old(outagesError)
    {
      if IsComplete(CurrentForm()) && Truthy(outagesError) {
        outagesError := None;
      }
    }

    /** `validateForm`: fails exactly when a required field is empty, and then
        sets the single combined message. */
    method ValidateForm() returns (ok: bool)
      modifies this`outagesError
      ensures ok <==> IsComplete(CurrentForm())
      ensures outagesError == if ok then old(outagesError) else Some(AllFieldsRequired)
    {
      if selectedCommunityId == "" || startTime == "" || endTime == "" || reason == "" {
        outagesError := Some(AllFieldsRequired);
        return false;
      }
      return true;
    }

    method ResetForm()
      modifies this`selectedCommunityId, this`kind, this`startTime, this`endTime, this`reason
      ensures CurrentForm() == BlankForm
    {
      selectedCommunityId := "";
      startTime := "";
      endTime := "";
      reason := "";
      kind := "Scheduled";
    }

    /** `handleSubmit`: validate, read the session, insert the outage, insert
        its notification (unchecked), then reset and close the form. A step
        that fails stops the later ones. On success `loading` is left true:
        only the validation and error paths reset it. */
    method HandleSubmit(db: Db, sessionCall: Outcome, insertAnswer: Reply<string>,
                        notifyCall: Outcome, now: Timestamp)
      requires db.Valid()
      modifies this, db
      ensures db.Valid()
      ensures db.session == old(db.session) && db.admins == old(db.admins) && db.reports == old(db.reports)
      ensures OutagesAdvance(old(db.outages), db.outages)
      ensures outagesError == if IsComplete(old(CurrentForm())) then None else Some(AllFieldsRequired)
      ensures !IsComplete(old(CurrentForm())) ==>
                && db.requests == old(db.requests) && db.outages == old(db.outages)
                && db.notifications == old(db.notifications)
                && error == None && !loading
                && CurrentForm() == old(CurrentForm()) && isModalOpen == old(isModalOpen)
      ensures IsComplete(old(CurrentForm())) && !SignedIn(sessionCall, old(db.session)) ==>
                && db.requests == old(db.requests) + [AuthGetSession]
                && db.outages == old(db.outages) && db.notifications == old(db.notifications)
                && error == Some(if sessionCall.Rejected? then MessageOr(sessionCall.thrown, CreateFailed)
                                 else NotLoggedIn)
                && !loading
                && CurrentForm() == old(CurrentForm()) && isModalOpen == old(isModalOpen)
      ensures IsComplete(old(CurrentForm())) && SignedIn(sessionCall, old(db.session)) ==>
                && Created(old(CurrentForm()), old(db.session).value.userId, insertAnswer, notifyCall, now,
                           old(db.requests) + [AuthGetSession], db.requests, old(db.outages), db.outages,
                           old(db.notifications), db.notifications)
                && error == SubmitError(insertAnswer, notifyCall)
                && loading == (error == None)
                && CurrentForm() == (if error == None then BlankForm else old(CurrentForm()))
                && isModalOpen == (if error == None then false else old(isModalOpen))
    {
      outagesError := None;
      error := None;
      loading := true;
      var ok := ValidateForm();
      if !ok {
        loading := false;
        return;
      }
      var reply := db.GetSession(sessionCall);
      if reply.Rejected? {
        error := Some(MessageOr(reply.thrown, CreateFailed));
        loading := false;
        return;
      }
      if reply.Failed? || reply.value.None? {
        error := Some(MessageOr(Raise(Text(NotLoggedIn)), CreateFailed));
        loading := false;
        return;
      }
      CreateOutage(db, reply.value.value.userId, insertAnswer, notifyCall, now);
    }

    /** The steps of `handleSubmit` after the session check: insert the
        outage, then announce it. */
    method CreateOutage(db: Db, adminId: string, insertAnswer: Reply<string>,
                        notifyCall: Outcome, now: Timestamp)
      requires db.Valid()
      requires error == None && loading
      modifies this, db
      ensures db.Valid()
      ensures db.session == old(db.session) && db.admins == old(db.admins) && db.reports == old(db.reports)
      ensures OutagesAdvance(old(db.outages), db.outages)
      ensures outagesError == old(outagesError)
      ensures Created(old(CurrentForm()), adminId, insertAnswer, notifyCall, now,
                      old(db.requests), db.requests, old(db.outages), db.outages,
                      old(db.notifications), db.notifications)
      ensures error == SubmitError(insertAnswer, notifyCall)
      ensures loading == (error == None)
      ensures CurrentForm() == (if error == None then BlankForm else old(CurrentForm()))
      ensures isModalOpen == (if error == None then false else old(isModalOpen))
    {
      var f := CurrentForm();
      var inserted := db.InsertOutage(NewOutage(f, "", adminId), insertAnswer);
      match inserted
      case Rejected(t) =>
        error := Some(MessageOr(t, CreateFailed));
        loading := false;
      case Failed(m) =>
        error := Some(MessageOr(Raise(m), CreateFailed));
        loading := false;
      case Ok(outage) =>
        assert db.outages[|db.outages| - 1].id == outage.id;
        Announce(db, CreationNotification(f, outage.id, now), notifyCall);
    }

    /** The steps of `handleSubmit` after the outage is stored: insert its
        notification `n` (a returned error is ignored), then reset and close
        the form. */
    method Announce(db: Db, n: Notification, notifyCall: Outcome)
      requires db.Valid() && Correlated(n, db.outages, db.reports)
      requires error == None && loading
      modifies this, db
      ensures db.Valid()
      ensures db.session == old(db.session) && db.admins == old(db.admins)
      ensures db.outages == old(db.outages) && db.reports == old(db.reports)
      ensures outagesError == old(outagesError)
      ensures db.requests == old(db.requests) + [Insert(NotificationTable)]
      ensures db.notifications == if notifyCall.Ok? then old(db.notifications) + [n] else old(db.notifications)
      ensures error == if notifyCall.Rejected? then Some(MessageOr(notifyCall.thrown, CreateFailed)) else None
      ensures loading == (error == None)
      ensures CurrentForm() == (if error == None then BlankForm else old(CurrentForm()))
      ensures isModalOpen == (if error == None then false else old(isModalOpen))
    {
      var sent := db.InsertNotification(n, notifyCall);
      if sent.Rejected? {
        error := Some(MessageOr(sent.thrown, CreateFailed));
        loading := false;
      } else {
        ResetForm();
        isModalOpen := false;
      }
    }

    /** `handleResolveOutage`: read the outage (its error is never checked),
        set it Resolved with `end_time = now`, then insert a PowerRestored
        notification (unchecked). A failed update stops before the
        notification; a read that found nothing lets the update run and then
        fails on `outage.community_id`. */
    method HandleResolveOutage(db: Db, outageId: string, readCall: Outcome, updateCall: Outcome,
                               notifyCall: Outcome, now: Timestamp)
      requires db.Valid()
      modifies this`error, db
      ensures db.Valid()
      ensures db.session == old(db.session) && db.admins == old(db.admins) && db.reports == old(db.reports)
      ensures OutagesAdvance(old(db.outages), db.outages)
      ensures var read := Single(readCall, OutagesWithId(old(db.outages), outageId));
              var updated := !readCall.Rejected? && updateCall.Ok?;
              var notifying := updated && read.Ok?;
        && db.requests == old(db.requests) + [Select(OutageTable)]
             + (if readCall.Rejected? then [] else [Update(OutageTable)])
             + (if notifying then [Insert(NotificationTable)] else [])
        && db.outages == (if updated then ResolveOutageRows(old(db.outages), outageId, now) else old(db.outages))
        && db.notifications == (if notifying && notifyCall.Ok?
                                then old(db.notifications) + [RestoredNotification(read.value, outageId, now)]
                                else old(db.notifications))
        && error == (if readCall.Rejected? then Some(MessageOr(readCall.thrown, ResolveFailed))
                     else if updateCall.Rejected? then Some(MessageOr(updateCall.thrown, ResolveFailed))
                     else if updateCall.Failed? then Some(MessageOr(Raise(updateCall.error), ResolveFailed))
                     else if !read.Ok? then Some(MessageOr(NullPropertyRead("community_id"), ResolveFailed))
                     else if notifyCall.Rejected? then Some(MessageOr(notifyCall.thrown, ResolveFailed))
                     else old(error))
    {
      var read := db.SingleOutageById(outageId, readCall);
      if read.Rejected? {
        error := Some(MessageOr(read.thrown, ResolveFailed));
        return;
      }
      var updated := db.UpdateOutageResolved(outageId, now, updateCall);
      if updated.Rejected? {
        error := Some(MessageOr(updated.thrown, ResolveFailed));
        return;
      }
      if updated.Failed? {
        error := Some(MessageOr(Raise(updated.error), ResolveFailed));
        return;
      }
      if !read.Ok? {
        error := Some(MessageOr(NullPropertyRead("community_id"), ResolveFailed));
        return;
      }
      var outage := read.value;
      assert outage in old(db.outages) && outage.id == outageId;
      ghost var i :| 0 <= i < |old(db.outages)| && old(db.outages)[i] == outage;
      assert db.outages[i].id == outageId;
      AnnounceRestored(db, RestoredNotification(outage, outageId, now), notifyCall);
    }

    /** The last step of `handleResolveOutage`: insert the PowerRestored
        notification `n`; only a rejection is reported. */
    method AnnounceRestored(db: Db, n: Notification, notifyCall: Outcome)
      requires db.Valid() && Correlated(n, db.outages, db.reports)
      modifies this`error, db
      ensures db.Valid()
      ensures db.session == old(db.session) && db.admins == old(db.admins)
      ensures db.outages == old(db.outages) && db.reports == old(db.reports)
      ensures db.requests == old(db.requests) + [Insert(NotificationTable)]
      ensures db.notifications == if notifyCall.Ok? then old(db.notifications) + [n] else old(db.notifications)
      ensures error == if notifyCall.Rejected? then Some(MessageOr(notifyCall.thrown, ResolveFailed)) else old(error)
    {
      var sent := db.InsertNotification(n, notifyCall);
      if sent.Rejected? {
        error := Some(MessageOr(sent.thrown, ResolveFailed));
      }
    }

    /** `handleCancel`: reset the form, clear the form error, close the modal. */
    method HandleCancel()
      modifies this
      ensures CurrentForm() == BlankForm && outagesError == None && !isModalOpen
      ensures error == old(error) && loading == old(loading)
    {
      ResetForm();
      outagesError := None;
      isModalOpen := false;
    }
  }
}
