/** The hosted backend as the pages see it: the auth session, the four tables
    the core touches (admin, outages, reports, notifications), and one method
    per request the pages issue. Each request's transport outcome is an input
    (`Reply`); what a read returns is computed from the tables, and a write
    changes the tables only when it goes through. Every request is appended to
    `requests`, so contracts can say which requests a page made, in which
    order. */
module Backend {
  import opened Js

  /** An ISO-8601 instant as produced by `new Date().toISOString()`; the clock
      itself is an input. */
  type Timestamp = string

  /** The signed-in identity held by the auth client. */
  datatype Session = Session(userId: string)

  /** The user object the auth sign-up returns. */
  datatype User = User(id: string, email: string)

  /** A row of the `admin` table; `id` is the auth identity. */
  datatype Admin = Admin(id: string, fullName: string, email: string)

  /** A row of the `outages` table. `status` is `None` on a row inserted
      without one (the column's default, not part of this model, applies). */
  datatype Outage = Outage(id: string, communityId: string, kind: string,
                           startTime: string, endTime: string, reason: string,
                           status: Option<string>, createdByAdmin: string)

  /** A row of the `reports` table (the columns the core reads or writes). */
  datatype Report = Report(id: string, communityId: string, userId: Option<string>, status: string)

  /** The four values the core writes into a notification's `type`. */
  datatype NotificationType = ScheduledOutage | UnscheduledOutage | PowerRestored | ReportResolved

  /** A row of the `notifications` table. */
  datatype Notification = Notification(
    recipientCommunityId: string,
    recipientUserId: Option<string>,
    kind: NotificationType,
    title: string,
    message: string,
    relatedOutageId: Option<string>,
    relatedReportId: Option<string>,
    sentTime: Timestamp)

  datatype Table = AdminTable | OutageTable | ReportTable | NotificationTable

  /** One request sent to the backend. */
  datatype Request =
    | AuthGetSession | AuthSignIn | AuthSignUp | AuthSignOut
    | Select(table: Table) | Insert(table: Table) | Update(table: Table)

  const Resolved := "Resolved"

  /** Where the login and sign-up pages send an admin. */
  const DashboardPath := "/dashboard"

  /** The error `.single()` returns when its filter does not match exactly one
      row; no page shows its text. */
  const NotSingleRow := Text("JSON object requested, multiple (or no) rows returned")

  /** The rows satisfying an equality filter (`.eq(column, value)`), in order. */
  function Where<T(!new)>(rows: seq<T>, keep: T -> bool): (r: seq<T>)
    ensures |r| <= |rows|
    ensures forall x :: x in r <==> x in rows && keep(x)
  {
    if rows == [] then []
    else (if keep(rows[0]) then [rows[0]] else []) + Where(rows[1..], keep)
  }

  /** Filtering a concatenation filters each side, keeping their order. */
  lemma {:induction false} WhereAppend<T(!new)>(a: seq<T>, b: seq<T>, keep: T -> bool)
    ensures Where(a + b, keep) == Where(a, keep) + Where(b, keep)
    decreases |a|
  {
    if a == [] {
      assert a + b == b;
    } else {
      assert (a + b)[0] == a[0];
      assert (a + b)[1..] == a[1..] + b;
      WhereAppend(a[1..], b, keep);
    }
  }

  /** A filter every row passes keeps the rows as they are. */
  lemma {:induction false} WhereAll<T(!new)>(rows: seq<T>, keep: T -> bool)
    requires forall k :: 0 <= k < |rows| ==> keep(rows[k])
    ensures Where(rows, keep) == rows
    decreases |rows|
  {
    if rows != [] {
      WhereAll(rows[1..], keep);
    }
  }

  /** Two filters that agree on every row keep the same rows. */
  lemma {:induction false} WhereAgree<T(!new)>(rows: seq<T>, keep: T -> bool, keep': T -> bool)
    requires forall k :: 0 <= k < |rows| ==> keep(rows[k]) == keep'(rows[k])
    ensures Where(rows, keep) == Where(rows, keep')
    decreases |rows|
  {
    if rows != [] {
      WhereAgree(rows[1..], keep, keep');
    }
  }

  function AdminsWithId(rows: seq<Admin>, id: string): seq<Admin>
  {
    Where(rows, (a: Admin) => a.id == id)
  }

  function OutagesWithId(rows: seq<Outage>, id: string): seq<Outage>
  {
    Where(rows, (o: Outage) => o.id == id)
  }

  function ReportsWithId(rows: seq<Report>, id: string): seq<Report>
  {
    Where(rows, (r: Report) => r.id == id)
  }

  /** `.single()`: the one matching row, or an error when there is not
      exactly one; a failed transport passes through. */
  function Single<T>(call: Outcome, matches: seq<T>): (r: Reply<T>)
    ensures r.Ok? <==> call.Ok? && |matches| == 1
    ensures r.Ok? ==> r.value == matches[0]
    ensures call.Ok? && |matches| != 1 ==> r.Failed?
    ensures call.Failed? ==> r == Failed(call.error)
    ensures call.Rejected? ==> r == Rejected(call.thrown)
  {
    match call
    case Ok(_) => if |matches| == 1 then Ok(matches[0]) else Failed(NotSingleRow)
    case Failed(e) => Failed(e)
    case Rejected(t) => Rejected(t)
  }

  predicate HasOutage(rows: seq<Outage>, id: string)
  {
    exists i :: 0 <= i < |rows| && rows[i].id == id
  }

  predicate HasReport(rows: seq<Report>, id: string)
  {
    exists i :: 0 <= i < |rows| && rows[i].id == id
  }

  /** A notification is correlated when it names an outage or a report that
      exists. */
  predicate Correlated(n: Notification, outages: seq<Outage>, reports: seq<Report>)
  {
    || (n.relatedOutageId.Some? && HasOutage(outages, n.relatedOutageId.value))
    || (n.relatedReportId.Some? && HasReport(reports, n.relatedReportId.value))
  }

  /** The outages table after `update({status: "Resolved", end_time: now}).eq("id", id)`. */
  function ResolveOutageRows(rows: seq<Outage>, id: string, now: Timestamp): (r: seq<Outage>)
    ensures |r| == |rows|
    ensures forall i :: 0 <= i < |rows| ==>
              r[i] == if rows[i].id == id then rows[i].(status := Some(Resolved), endTime := now) else rows[i]
  {
    if rows == [] then []
    else [if rows[0].id == id then rows[0].(status := Some(Resolved), endTime := now) else rows[0]]
         + ResolveOutageRows(rows[1..], id, now)
  }

  /** The reports table after `update({status: "Resolved"}).eq("id", id)`. */
  function ResolveReportRows(rows: seq<Report>, id: string): (r: seq<Report>)
    ensures |r| == |rows|
    ensures forall i :: 0 <= i < |rows| ==>
              r[i] == if rows[i].id == id then rows[i].(status := Resolved) else rows[i]
  {
    if rows == [] then []
    else [if rows[0].id == id then rows[0].(status := Resolved) else rows[0]]
         + ResolveReportRows(rows[1..], id)
  }

  /** `after` is `before` with rows possibly added at the end, every existing
      row keeping its id, and no resolved outage reopened. */
  ghost predicate OutagesAdvance(before: seq<Outage>, after: seq<Outage>)
  {
    && |before| <= |after|
    && (forall i :: 0 <= i < |before| ==> after[i].id == before[i].id)
    && (forall i :: 0 <= i < |before| && before[i].status == Some(Resolved) ==>
          after[i].status == Some(Resolved))
  }

  /** The same for reports. */
  ghost predicate ReportsAdvance(before: seq<Report>, after: seq<Report>)
  {
    && |before| <= |after|
    && (forall i :: 0 <= i < |before| ==> after[i].id == before[i].id)
    && (forall i :: 0 <= i < |before| && before[i].status == Resolved ==> after[i].status == Resolved)
  }

  /** Resolving moves the matching outages to Resolved, never away from it. */
  lemma ResolveOutageRowsAdvance(rows: seq<Outage>, id: string, now: Timestamp)
    ensures OutagesAdvance(rows, ResolveOutageRows(rows, id, now))
    ensures forall i :: 0 <= i < |rows| && rows[i].id == id ==>
              ResolveOutageRows(rows, id, now)[i].status == Some(Resolved)
  {
  }

  /** Resolving moves the matching reports to Resolved, never away from it. */
  lemma ResolveReportRowsAdvance(rows: seq<Report>, id: string)
    ensures ReportsAdvance(rows, ResolveReportRows(rows, id))
    ensures forall i :: 0 <= i < |rows| && rows[i].id == id ==>
              ResolveReportRows(rows, id)[i].status == Resolved
  {
  }

  /** A notification correlated with some tables stays correlated once the
      tables advance. */
  lemma CorrelatedKept(n: Notification, outages: seq<Outage>, outages': seq<Outage>,
                       reports: seq<Report>, reports': seq<Report>)
    requires Correlated(n, outages, reports)
    requires OutagesAdvance(outages, outages') && ReportsAdvance(reports, reports')
    ensures Correlated(n, outages', reports')
  {
    if n.relatedOutageId.Some? && HasOutage(outages, n.relatedOutageId.value) {
      var i :| 0 <= i < |outages| && outages[i].id == n.relatedOutageId.value;
      assert outages'[i].id == n.relatedOutageId.value;
    } else {
      var i :| 0 <= i < |reports| && reports[i].id == n.relatedReportId.value;
      assert reports'[i].id == n.relatedReportId.value;
    }
  }

  class Db {
    var session: Option<Session>
    var admins: seq<Admin>
    var outages: seq<Outage>
    var reports: seq<Report>
    var notifications: seq<Notification>
    var requests: seq<Request>

    /** Every notification is correlated with an existing outage or report. */
    ghost predicate Valid()
      reads this
    {
      forall k :: 0 <= k < |notifications| ==> Correlated(notifications[k], outages, reports)
    }

    constructor (session: Option<Session>, admins: seq<Admin>, outages: seq<Outage>, reports: seq<Report>)
      ensures Valid()
      ensures this.session == session && this.admins == admins
      ensures this.outages == outages && this.reports == reports
      ensures notifications == [] && requests == []
    {
      this.session := session;
      this.admins := admins;
      this.outages := outages;
      this.reports := reports;
      notifications := [];
      requests := [];
    }

    /** `supabase.auth.getSession()`: the current session, if any. */
    method GetSession(call: Outcome) returns (r: Reply<Option<Session>>)
      modifies this`requests
      ensures requests == old(requests) + [AuthGetSession]
      ensures r == call.Carrying(session)
    {
      requests := requests + [AuthGetSession];
      r := call.Carrying(session);
    }

    /** `supabase.auth.signInWithPassword(...)`: the credential check is the
        backend's, so its answer is the input; on success the client holds
        the new session. */
    method SignInWithPassword(answer: Reply<Session>) returns (r: Reply<Session>)
      modifies this`requests, this`session
      ensures requests == old(requests) + [AuthSignIn]
      ensures r == answer
      ensures session == if answer.Ok? then Some(answer.value) else old(session)
    {
      requests := requests + [AuthSignIn];
      if answer.Ok? {
        session := Some(answer.value);
      }
      r := answer;
    }

    /** `supabase.auth.signUp(...)`: the backend's answer is the input; it may
        carry no user. */
    method SignUp(answer: Reply<Option<User>>) returns (r: Reply<Option<User>>)
      modifies this`requests
      ensures requests == old(requests) + [AuthSignUp]
      ensures r == answer
    {
      requests := requests + [AuthSignUp];
      r := answer;
    }

    /** `supabase.auth.signOut()`: drops the session when it goes through. */
    method SignOut(call: Outcome) returns (r: Outcome)
      modifies this`requests, this`session
      ensures requests == old(requests) + [AuthSignOut]
      ensures r == call
      ensures session == if call.Ok? then None else old(session)
    {
      requests := requests + [AuthSignOut];
      if call.Ok? {
        session := None;
      }
      r := call;
    }

    /** `from("admin").select(...).eq("id", id)`: every admin row with that id. */
    method SelectAdminsById(id: string, call: Outcome) returns (r: Reply<seq<Admin>>)
      modifies this`requests
      ensures requests == old(requests) + [Select(AdminTable)]
      ensures r == call.Carrying(AdminsWithId(admins, id))
    {
      requests := requests + [Select(AdminTable)];
      r := call.Carrying(AdminsWithId(admins, id));
    }

    /** `from("admin").select("id").limit(1)`: the first admin row, if any. */
    method SelectFirstAdmin(call: Outcome) returns (r: Reply<seq<Admin>>)
      modifies this`requests
      ensures requests == old(requests) + [Select(AdminTable)]
      ensures r == call.Carrying(if admins == [] then [] else admins[..1])
    {
      requests := requests + [Select(AdminTable)];
      r := call.Carrying(if admins == [] then [] else admins[..1]);
    }

    /** `from("admin").select("id").eq("id", id).single()`. */
    method SingleAdminById(id: string, call: Outcome) returns (r: Reply<Admin>)
      modifies this`requests
      ensures requests == old(requests) + [Select(AdminTable)]
      ensures r == Single(call, AdminsWithId(admins, id))
    {
      requests := requests + [Select(AdminTable)];
      r := Single(call, AdminsWithId(admins, id));
    }

    /** `from("outages").select(...).eq("id", id).single()`. */
    method SingleOutageById(id: string, call: Outcome) returns (r: Reply<Outage>)
      modifies this`requests
      ensures requests == old(requests) + [Select(OutageTable)]
      ensures r == Single(call, OutagesWithId(outages, id))
    {
      requests := requests + [Select(OutageTable)];
      r := Single(call, OutagesWithId(outages, id));
    }

    /** `from("reports").select("*").eq("id", id).single()`. */
    method SingleReportById(id: string, call: Outcome) returns (r: Reply<Report>)
      modifies this`requests
      ensures requests == old(requests) + [Select(ReportTable)]
      ensures r == Single(call, ReportsWithId(reports, id))
    {
      requests := requests + [Select(ReportTable)];
      r := Single(call, ReportsWithId(reports, id));
    }

    /** `from("outages").insert(row).select().single()`: the backend chooses
        the new id (the answer's value); the stored row is returned. */
    method InsertOutage(row: Outage, answer: Reply<string>) returns (r: Reply<Outage>)
      requires Valid()
      modifies this`requests, this`outages
      ensures Valid()
      ensures requests == old(requests) + [Insert(OutageTable)]
      ensures r == answer.Carrying(row.(id := if answer.Ok? then answer.value else row.id))
      ensures outages == if answer.Ok? then old(outages) + [r.value] else old(outages)
      ensures OutagesAdvance(old(outages), outages)
    {
      requests := requests + [Insert(OutageTable)];
      if answer.Ok? {
        var stored := row.(id := answer.value);
        outages := outages + [stored];
        forall k | 0 <= k < |notifications|
          ensures Correlated(notifications[k], outages, reports)
        {
          CorrelatedKept(notifications[k], old(outages), outages, reports, reports);
        }
        r := Ok(stored);
      } else {
        r := answer.Carrying(row);
      }
    }

    /** `from("outages").update({status: "Resolved", end_time: now}).eq("id", id)`. */
    method UpdateOutageResolved(id: string, now: Timestamp, call: Outcome) returns (r: Outcome)
      requires Valid()
      modifies this`requests, this`outages
      ensures Valid()
      ensures requests == old(requests) + [Update(OutageTable)]
      ensures r == call
      ensures outages == if call.Ok? then ResolveOutageRows(old(outages), id, now) else old(outages)
      ensures OutagesAdvance(old(outages), outages)
    {
      requests := requests + [Update(OutageTable)];
      if call.Ok? {
        outages := ResolveOutageRows(outages, id, now);
        ResolveOutageRowsAdvance(old(outages), id, now);
        forall k | 0 <= k < |notifications|
          ensures Correlated(notifications[k], outages, reports)
        {
          CorrelatedKept(notifications[k], old(outages), outages, reports, reports);
        }
      }
      r := call;
    }

    /** `from("reports").update({status: "Resolved"}).eq("id", id)`. */
    method UpdateReportResolved(id: string, call: Outcome) returns (r: Outcome)
      requires Valid()
      modifies this`requests, this`reports
      ensures Valid()
      ensures requests == old(requests) + [Update(ReportTable)]
      ensures r == call
      ensures reports == if call.Ok? then ResolveReportRows(old(reports), id) else old(reports)
      ensures ReportsAdvance(old(reports), reports)
    {
      requests := requests + [Update(ReportTable)];
      if call.Ok? {
        reports := ResolveReportRows(reports, id);
        ResolveReportRowsAdvance(old(reports), id);
        forall k | 0 <= k < |notifications|
          ensures Correlated(notifications[k], outages, reports)
        {
          CorrelatedKept(notifications[k], outages, outages, old(reports), reports);
        }
      }
      r := call;
    }

    /** `from("notifications").insert(n)`; only correlated notifications are
        ever inserted, which keeps `Valid`. */
    method InsertNotification(n: Notification, call: Outcome) returns (r: Outcome)
      requires Valid() && Correlated(n, outages, reports)
      modifies this`requests, this`notifications
      ensures Valid()
      ensures requests == old(requests) + [Insert(NotificationTable)]
      ensures r == call
      ensures notifications == if call.Ok? then old(notifications) + [n] else old(notifications)
    {
      requests := requests + [Insert(NotificationTable)];
      if call.Ok? {
        notifications := notifications + [n];
      }
      r := call;
    }

    /** `from("admin").insert([row])`. */
    method InsertAdmin(row: Admin, call: Outcome) returns (r: Outcome)
      modifies this`requests, this`admins
      ensures requests == old(requests) + [Insert(AdminTable)]
      ensures r == call
      ensures admins == if call.Ok? then old(admins) + [row] else old(admins)
    {
      requests := requests + [Insert(AdminTable)];
      if call.Ok? {
        admins := admins + [row];
      }
      r := call;
    }
  }
}
