/** The Reports page (src/Pages/Report.jsx): the search and status filter over
    the fetched reports, the short report id on each card, the Resolve button,
    and resolving a report with its notification. */
module Reports {
  import opened Js
  import opened Text
  import opened Backend

  const ResolveReportFailed := "Failed to resolved report"

  /** A fetched report as the list shows it: its id, the joined community's
      name and its status, either of which may be missing. */
  datatype Listing = Listing(id: string, communityName: Option<string>, status: Option<string>)

  /** `report.communities?.name?.toLowerCase() || ""`. */
  function SearchedName(l: Listing): (name: string)
    ensures l.communityName.None? ==> name == ""
    ensures l.communityName.Some? ==> |name| == |l.communityName.value|
    ensures l.communityName.Some? ==>
              forall i :: 0 <= i < |name| ==> name[i] == LowerChar(l.communityName.value[i])
  {
    match l.communityName
    case None => ""
    case Some(n) => Lower(n)
  }

  /** The search box: the lower-cased query occurs in the lower-cased
      community name (a missing name searches as the empty string). */
  predicate MatchesSearch(l: Listing, query: string)
    ensures query == "" ==> MatchesSearch(l, query)
    ensures MatchesSearch(l, query) ==> |query| <= |SearchedName(l)|
  {
    Includes(SearchedName(l), Lower(query))
  }

  /** The status select: no filter, or the listing's status equals the filter
      ignoring case (a missing status matches no filter). */
  predicate MatchesStatus(l: Listing, statusFilter: string)
    ensures l.status == Some(statusFilter) ==> MatchesStatus(l, statusFilter)
    ensures l.status.None? ==> (MatchesStatus(l, statusFilter) <==> statusFilter == "")
  {
    statusFilter == "" || (l.status.Some? && Lower(l.status.value) == Lower(statusFilter))
  }

  /** `filteredReports`: the listings matching both the search and the status
      filter, in their fetched order. */
  function Filtered(rows: seq<Listing>, query: string, statusFilter: string): (shown: seq<Listing>)
    ensures |shown| <= |rows|
    ensures forall l :: l in shown <==> l in rows && MatchesSearch(l, query) && MatchesStatus(l, statusFilter)
  {
    Where(rows, (l: Listing) => MatchesSearch(l, query) && MatchesStatus(l, statusFilter))
  }

  /** The search matches exactly when the lower-cased query occurs somewhere
      in the lower-cased name. */
  lemma MatchesSearchIffOccurs(l: Listing, query: string)
    ensures MatchesSearch(l, query) <==> exists i :: OccursAt(SearchedName(l), Lower(query), i)
  {
    IncludesIffOccurs(SearchedName(l), Lower(query));
  }

  /** An empty search and no status filter show every report. */
  lemma NoFilterShowsAll(rows: seq<Listing>)
    ensures Filtered(rows, "", "") == rows
  {
    forall k | 0 <= k < |rows|
      ensures MatchesSearch(rows[k], "") && MatchesStatus(rows[k], "")
    {
      IncludesEmpty(SearchedName(rows[k]));
    }
    WhereAll(rows, (l: Listing) => MatchesSearch(l, "") && MatchesStatus(l, ""));
  }

  /** A report without a community name is found only by the empty search. */
  lemma MissingNameMatchesOnlyEmptyQuery(l: Listing, query: string)
    requires l.communityName.None?
    ensures MatchesSearch(l, query) <==> query == ""
  {
    if query != "" {
      IncludesInEmpty(Lower(query));
    } else {
      IncludesEmpty("");
    }
  }

  /** A report without a status is hidden by every status filter. */
  lemma MissingStatusHiddenByFilter(l: Listing, statusFilter: string)
    requires l.status.None? && statusFilter != ""
    ensures !MatchesStatus(l, statusFilter)
  {
  }

  /** Search and status filter ignore case: lower-casing them first shows the
      same reports. */
  lemma FilterIgnoresCase(rows: seq<Listing>, query: string, statusFilter: string)
    ensures Filtered(rows, Lower(query), Lower(statusFilter)) == Filtered(rows, query, statusFilter)
  {
    LowerIdempotent(query);
    LowerIdempotent(statusFilter);
    WhereAgree(rows, (l: Listing) => MatchesSearch(l, Lower(query)) && MatchesStatus(l, Lower(statusFilter)),
                     (l: Listing) => MatchesSearch(l, query) && MatchesStatus(l, statusFilter));
  }

  /** Filtering keeps the fetched order: the shown part of a concatenation is
      the shown part of each side, in order. */
  lemma FilterKeepsOrder(a: seq<Listing>, b: seq<Listing>, query: string, statusFilter: string)
    ensures Filtered(a + b, query, statusFilter) == Filtered(a, query, statusFilter) + Filtered(b, query, statusFilter)
  {
    WhereAppend(a, b, (l: Listing) => MatchesSearch(l, query) && MatchesStatus(l, statusFilter));
  }

  /** Filtering what is shown again changes nothing. */
  lemma FilterIdempotent(rows: seq<Listing>, query: string, statusFilter: string)
    ensures Filtered(Filtered(rows, query, statusFilter), query, statusFilter) == Filtered(rows, query, statusFilter)
  {
    var shown := Filtered(rows, query, statusFilter);
    assert forall k :: 0 <= k < |shown| ==> shown[k] in shown;
    WhereAll(shown, (l: Listing) => MatchesSearch(l, query) && MatchesStatus(l, statusFilter));
  }

  /** `report.id.split("-")[(4, 3)]`: the comma expression selects index 3,
      the fourth dash-separated group, which is missing when the id has fewer
      than three dashes. */
  function ShortId(id: string): (group: Option<string>)
    ensures group.Some? <==> CountChar(id, '-') >= 3
    ensures group.Some? ==> '-' !in group.value
  {
    var parts := Split(id, '-');
    if |parts| > 3 then Some(parts[3]) else None
  }

  /** Of an id made of dash-free groups joined by dashes (a UUID has five),
      the card shows the fourth group. */
  lemma ShortIdOfGroups(groups: seq<string>)
    requires |groups| >= 4
    requires forall k :: 0 <= k < |groups| ==> '-' !in groups[k]
    ensures ShortId(Join(groups, '-')) == Some(groups[3])
  {
    SplitJoin(groups, '-');
  }

  /** The Resolve button is offered exactly for reports whose status is not
      the exact string "Resolved" (unlike the filter, this test is
      case-sensitive). */
  predicate ShowsResolve(status: string)
    ensures Lower(status) != Lower(Resolved) ==> ShowsResolve(status)
  {
    status != Resolved
  }

  /** Once a report is resolved its card offers no Resolve button, and no
      other report's button changes. */
  lemma ResolvedHidesButton(rows: seq<Report>, id: string)
    ensures forall k :: 0 <= k < |rows| ==>
              (ShowsResolve(ResolveReportRows(rows, id)[k].status) <==> rows[k].id != id && ShowsResolve(rows[k].status))
  {
    ResolveReportRowsAdvance(rows, id);
  }

  /** The notification inserted after report `report` (read back by id) is
      resolved: it goes to the report's community and its author. */
  function ResolvedNotification(report: Report, reportId: string, now: Timestamp): (n: Notification)
    ensures n.kind == ReportResolved
    ensures n.title == "Report Resolved" && n.message == "Your report has been resolved"
    ensures n.recipientCommunityId == report.communityId && n.recipientUserId == report.userId
    ensures n.relatedReportId == Some(reportId) && n.relatedOutageId == None
    ensures n.sentTime == now
  {
    Notification(
      recipientCommunityId := report.communityId,
      recipientUserId := report.userId,
      kind := ReportResolved,
      title := "Report Resolved",
      message := "Your report has been resolved",
      relatedOutageId := None,
      relatedReportId := Some(reportId),
      sentTime := now)
  }

  /** What the page renders, in the order it decides. `Crashed` is the
      render that throws: a shown card reads `report.status.toLowerCase()`
      without `?.`, so one shown report without a status fails the whole
      list. */
  datatype View = Spinner | ErrorView(message: string) | NoReports | Cards(shown: seq<Listing>) | Crashed

  /** Every shown card can be drawn: each listing carries a status. */
  predicate AllHaveStatus(shown: seq<Listing>)
    ensures AllHaveStatus(shown) <==> forall l :: l in shown ==> l.status.Some?
  {
    forall k :: 0 <= k < |shown| ==> shown[k].status.Some?
  }

  class ReportsPage {
    var reports: seq<Listing>
    var loading: bool
    var error: Option<string>
    var searchQuery: string
    var statusFilter: string

    constructor ()
      ensures reports == [] && loading && error == None
      ensures searchQuery == "" && statusFilter == ""
    {
      reports := [];
      loading := true;
      error := None;
      searchQuery := "";
      statusFilter := "";
    }

    /** The rendered page: a spinner while loading, then the error view when
        an error is set, then the filtered cards or "No reports found"; the
        cards fail to render when one of them has no status. */
    function Render(): (v: View)
      reads this
      ensures loading <==> v.Spinner?
      ensures v.ErrorView? <==> !loading && error.Some? && error.value != ""
      ensures v.ErrorView? ==> v.message == error.value
      ensures v.Cards? ==> v.shown != [] && v.shown == Filtered(reports, searchQuery, statusFilter)
                           && AllHaveStatus(v.shown)
      ensures v.NoReports? ==> Filtered(reports, searchQuery, statusFilter) == []
      ensures v.Crashed? <==> !loading && !(error.Some? && error.value != "")
                              && !AllHaveStatus(Filtered(reports, searchQuery, statusFilter))
    {
      if loading then Spinner
      else if error.Some? && error.value != "" then ErrorView(error.value)
      else
        var shown := Filtered(reports, searchQuery, statusFilter);
        if shown == [] then NoReports
        else if !AllHaveStatus(shown) then Crashed
        else Cards(shown)
    }

    /** `handleResolveReport`: read the report (its error is never checked),
        set it Resolved, then insert a ReportResolved notification
        (unchecked). A failed update stops before the notification; a read
        that found nothing lets the update run and then fails on
        `report.community_id`. Every failure sets the page error, which
        replaces the list with the error view. */
    method ResolveReport(db: Db, reportId: string, readCall: Outcome, updateCall: Outcome,
                         notifyCall: Outcome, now: Timestamp)
      requires db.Valid()
      modifies this`error, db
      ensures db.Valid()
      ensures db.session == old(db.session) && db.admins == old(db.admins) && db.outages == old(db.outages)
      ensures ReportsAdvance(old(db.reports), db.reports)
      ensures var read := Single(readCall, ReportsWithId(old(db.reports), reportId));
              var updated := !readCall.Rejected? && updateCall.Ok?;
              var notifying := updated && read.Ok?;
        && db.requests == old(db.requests) + [Select(ReportTable)]
             + (if readCall.Rejected? then [] else [Update(ReportTable)])
             + (if notifying then [Insert(NotificationTable)] else [])
        && db.reports == (if updated then ResolveReportRows(old(db.reports), reportId) else old(db.reports))
        && db.notifications == (if notifying && notifyCall.Ok?
                                then old(db.notifications) + [ResolvedNotification(read.value, reportId, now)]
                                else old(db.notifications))
        && error == (if readCall.Rejected? then Some(MessageOr(readCall.thrown, ResolveReportFailed))
                     else if updateCall.Rejected? then Some(MessageOr(updateCall.thrown, ResolveReportFailed))
                     else if updateCall.Failed? then Some(MessageOr(Raise(updateCall.error), ResolveReportFailed))
                     else if !read.Ok? then Some(MessageOr(NullPropertyRead("community_id"), ResolveReportFailed))
                     else if notifyCall.Rejected? then Some(MessageOr(notifyCall.thrown, ResolveReportFailed))
                     else old(error))
      ensures var read := Single(readCall, ReportsWithId(old(db.reports), reportId));
              readCall.Rejected? || !updateCall.Ok? || !read.Ok? || notifyCall.Rejected? ==>
                error.Some? && error.value != "" && (!loading ==> Render() == ErrorView(error.value))
    {
      var read := db.SingleReportById(reportId, readCall);
      if read.Rejected? {
        error := Some(MessageOr(read.thrown, ResolveReportFailed));
        return;
      }
      var updated := db.UpdateReportResolved(reportId, updateCall);
      if updated.Rejected? {
        error := Some(MessageOr(updated.thrown, ResolveReportFailed));
        return;
      }
      if updated.Failed? {
        error := Some(MessageOr(Raise(updated.error), ResolveReportFailed));
        return;
      }
      if !read.Ok? {
        error := Some(MessageOr(NullPropertyRead("community_id"), ResolveReportFailed));
        return;
      }
      var report := read.value;
      assert report in old(db.reports) && report.id == reportId;
      ghost var i :| 0 <= i < |old(db.reports)| && old(db.reports)[i] == report;
      assert db.reports[i].id == reportId;
      AnnounceResolved(db, ResolvedNotification(report, reportId, now), notifyCall);
    }

    /** The last step of `handleResolveReport`: insert the notification `n`;
        only a rejection is reported. */
    method AnnounceResolved(db: Db, n: Notification, notifyCall: Outcome)
      requires db.Valid() && Correlated(n, db.outages, db.reports)
      modifies this`error, db
      ensures db.Valid()
      ensures db.session == old(db.session) && db.admins == old(db.admins)
      ensures db.outages == old(db.outages) && db.reports == old(db.reports)
      ensures db.requests == old(db.requests) + [Insert(NotificationTable)]
      ensures db.notifications == if notifyCall.Ok? then old(db.notifications) + [n] else old(db.notifications)
      ensures error == if notifyCall.Rejected? then Some(MessageOr(notifyCall.thrown, ResolveReportFailed)) else old(error)
    {
      var sent := db.InsertNotification(n, notifyCall);
      if sent.Rejected? {
        error := Some(MessageOr(sent.thrown, ResolveReportFailed));
      }
    }
  }
}
