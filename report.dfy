/**
 * The moderation view for reported posts and replies: two tabs, each with
 * its own server-paginated list, page counter and page count. An effect
 * fetches the active tab's list whenever the tab or a page counter changes.
 */
module ReportView {
  import opened Common
  import opened Text

  const PageSize := 10
  const PostReportsPath := "/api/v1/post-reports"
  const ReplyReportsPath := "/api/v1/reply-reports"

  datatype PostReport = PostReport(
    postReportNo: int,
    category: string,
    content: string,
    status: string,
    reporterNo: int,
    reportedPostNo: string,
    postContent: string)

  datatype ReplyReport = ReplyReport(
    replyReportNo: int,
    category: string,
    content: string,
    status: string,
    reporterNo: int,
    reportedReplyNo: string,
    replyContent: string)

  /** The `data` of a page response; every field may be missing from the JSON. */
  datatype ReportPage<T> = ReportPage(content: Option<seq<T>>, currentPage: Option<int>, totalPages: Option<int>)

  datatype Tab = PostTab | ReplyTab

  /** `getStatusInKorean`: the label of a report status; an unknown status is shown as it is. */
  function StatusInKorean(status: string): string {
    if status == "INPROGRESS" then "처리중"
    else if status == "ACCEPTED" then "신고 수락"
    else if status == "REJECTED" then "신고거절"
    else status
  }

  predicate IsKnownStatus(status: string) {
    status == "INPROGRESS" || status == "ACCEPTED" || status == "REJECTED"
  }

  /** A status is relabelled exactly when it is one of the three known ones, and the three labels differ. */
  lemma StatusInKoreanFallback(status: string)
    ensures StatusInKorean(status) != status <==> IsKnownStatus(status)
    ensures forall other :: IsKnownStatus(status) && IsKnownStatus(other) && StatusInKorean(status) == StatusInKorean(other) ==> status == other
  {
  }

  /** The request URL for one page of a list: `path?page=<page>&size=10`. */
  function PageQuery(path: string, page: int): string {
    path + "?page=" + IntToString(page) + "&size=" + IntToString(PageSize)
  }

  /** Equal strings with the same prefix and suffix have the same middle. */
  lemma CancelAffixes(prefix: string, x: string, y: string, suffix: string)
    requires prefix + x + suffix == prefix + y + suffix
    ensures x == y
  {
    assert |x| == |y|;
    assert x == (prefix + x + suffix)[|prefix|..|prefix| + |x|];
    assert y == (prefix + y + suffix)[|prefix|..|prefix| + |y|];
  }

  /** The query determines the list and the page asked for: different pages are different requests. */
  lemma PageQueryInjective(path: string, page: int, otherPage: int)
    requires PageQuery(path, page) == PageQuery(path, otherPage)
    ensures page == otherPage
  {
    var prefix := path + "?page=";
    var tail := "&size=" + IntToString(PageSize);
    assert PageQuery(path, page) == prefix + IntToString(page) + tail;
    assert PageQuery(path, otherPage) == prefix + IntToString(otherPage) + tail;
    CancelAffixes(prefix, IntToString(page), IntToString(otherPage), tail);
    IntToStringInjective(page, otherPage);
  }

  /** Every list query asks for ten reports. */
  lemma PageQuerySize(path: string, page: int)
    ensures var url := PageQuery(path, page);
      |url| >= 8 && url[|url| - 8..] == "&size=10"
  {
    assert IntToString(PageSize) == "10";
  }

  /** What the effect fetches: the active tab's list at that tab's own page. */
  function ActiveQuery(activeTab: Tab, postCurrentPage: int, replyCurrentPage: int): string {
    match activeTab
    case PostTab => PageQuery(PostReportsPath, postCurrentPage)
    case ReplyTab => PageQuery(ReplyReportsPath, replyCurrentPage)
  }

  /** The effect never fetches the other tab's list, and only the active tab's counter matters. */
  lemma ActiveQueryIgnoresOtherTab(activeTab: Tab, postCurrentPage: int, replyCurrentPage: int, otherPage: int)
    ensures activeTab == PostTab ==> ActiveQuery(activeTab, postCurrentPage, otherPage) == ActiveQuery(activeTab, postCurrentPage, replyCurrentPage)
    ensures activeTab == ReplyTab ==> ActiveQuery(activeTab, otherPage, replyCurrentPage) == ActiveQuery(activeTab, postCurrentPage, replyCurrentPage)
    ensures ActiveQuery(activeTab, postCurrentPage, replyCurrentPage)[..|PostReportsPath|] == PostReportsPath <==> activeTab == PostTab
  {
    var q := ActiveQuery(activeTab, postCurrentPage, replyCurrentPage);
    if activeTab == ReplyTab {
      assert q[..|PostReportsPath|] == ReplyReportsPath[..|PostReportsPath|];
      assert ReplyReportsPath[..|PostReportsPath|] != PostReportsPath by {
        assert ReplyReportsPath[8] != PostReportsPath[8];
      }
    }
  }

  /** The state of the report view. */
  class ReportsState {
    var postReports: seq<PostReport>
    var replyReports: seq<ReplyReport>
    var postCurrentPage: int
    var replyCurrentPage: int
    var postTotalPages: int
    var replyTotalPages: int
    var activeTab: Tab

    constructor ()
      ensures postReports == [] && replyReports == []
      ensures postCurrentPage == 1 && replyCurrentPage == 1 && postTotalPages == 1 && replyTotalPages == 1
      ensures activeTab == PostTab
      ensures Query() == PageQuery(PostReportsPath, 1)
    {
      postReports, replyReports := [], [];
      postCurrentPage, replyCurrentPage := 1, 1;
      postTotalPages, replyTotalPages := 1, 1;
      activeTab := PostTab;
    }

    /** What the effect fetches in the current state. */
    function Query(): string
      reads this
    {
      ActiveQuery(activeTab, postCurrentPage, replyCurrentPage)
    }

    /** The effect's dependencies that can change. */
    function Deps(): (Tab, int, int)
      reads this
    {
      (activeTab, postCurrentPage, replyCurrentPage)
    }

    /**
     * `fetchPostReports(page)` once its request has resolved: with `data`, the
     * list and the page count come from the server (`[]` and 1 when missing)
     * and the post page becomes the page that was asked for; otherwise nothing
     * changes. Returns what the effect fetches next, if a dependency changed.
     */
    method ApplyPostFetch(page: int, response: Response<ReportPage<PostReport>>) returns (refetch: Option<string>)
      modifies this
      ensures response.Ok? ==>
        postReports == response.data.content.GetOr([]) && postTotalPages == response.data.totalPages.GetOr(1)
        && postCurrentPage == page
      ensures !response.Ok? ==>
        postReports == old(postReports) && postTotalPages == old(postTotalPages) && postCurrentPage == old(postCurrentPage)
      ensures replyReports == old(replyReports) && replyTotalPages == old(replyTotalPages)
      ensures replyCurrentPage == old(replyCurrentPage) && activeTab == old(activeTab)
      ensures refetch == if Deps() != old(Deps()) then Some(Query()) else None
    {
      var before := Deps();
      if response.Ok? {
        postReports := response.data.content.GetOr([]);
        postTotalPages := response.data.totalPages.GetOr(1);
        postCurrentPage := page;
      }
      refetch := if Deps() != before then Some(Query()) else None;
    }

    /** `fetchReplyReports(page)` once its request has resolved; the reply counterpart of ApplyPostFetch. */
    method ApplyReplyFetch(page: int, response: Response<ReportPage<ReplyReport>>) returns (refetch: Option<string>)
      modifies this
      ensures response.Ok? ==>
        replyReports == response.data.content.GetOr([]) && replyTotalPages == response.data.totalPages.GetOr(1)
        && replyCurrentPage == page
      ensures !response.Ok? ==>
        replyReports == old(replyReports) && replyTotalPages == old(replyTotalPages) && replyCurrentPage == old(replyCurrentPage)
      ensures postReports == old(postReports) && postTotalPages == old(postTotalPages)
      ensures postCurrentPage == old(postCurrentPage) && activeTab == old(activeTab)
      ensures refetch == if Deps() != old(Deps()) then Some(Query()) else None
    {
      var before := Deps();
      if response.Ok? {
        replyReports := response.data.content.GetOr([]);
        replyTotalPages := response.data.totalPages.GetOr(1);
        replyCurrentPage := page;
      }
      refetch := if Deps() != before then Some(Query()) else None;
    }

    /** A click on a tab; switching tabs fetches the new tab's list at its own page. */
    method HandleTabChange(tab: Tab) returns (refetch: Option<string>)
      modifies this`activeTab
      ensures activeTab == tab
      ensures refetch == if tab != old(activeTab) then Some(ActiveQuery(tab, postCurrentPage, replyCurrentPage)) else None
    {
      var before := activeTab;
      activeTab := tab;
      refetch := if tab != before then Some(Query()) else None;
    }

    /** `handlePostPageChange`: only a different page changes the post counter; the reply counter never moves. */
    method HandlePostPageChange(page: int) returns (refetch: Option<string>)
      modifies this`postCurrentPage
      ensures postCurrentPage == page
      ensures refetch == if page != old(postCurrentPage) then Some(Query()) else None
      ensures refetch.Some? && activeTab == PostTab ==> refetch.value == PageQuery(PostReportsPath, page)
    {
      var before := postCurrentPage;
      if page != postCurrentPage {
        postCurrentPage := page;
      }
      refetch := if page != before then Some(Query()) else None;
    }

    /** `handleReplyPageChange`: only a different page changes the reply counter; the post counter never moves. */
    method HandleReplyPageChange(page: int) returns (refetch: Option<string>)
      modifies this`replyCurrentPage
      ensures replyCurrentPage == page
      ensures refetch == if page != old(replyCurrentPage) then Some(Query()) else None
      ensures refetch.Some? && activeTab == ReplyTab ==> refetch.value == PageQuery(ReplyReportsPath, page)
    {
      var before := replyCurrentPage;
      if page != replyCurrentPage {
        replyCurrentPage := page;
      }
      refetch := if page != before then Some(Query()) else None;
    }
  }

  /** Paging through the post tab and switching to the reply tab fetches the reply list at page 1. */
  method TabScenario() {
    var view := new ReportsState();
    var refetch := view.HandlePostPageChange(3);
    assert refetch == Some(PageQuery(PostReportsPath, 3));
    refetch := view.ApplyPostFetch(3, OkWithoutData);
    assert refetch == None && view.postCurrentPage == 3;
    refetch := view.HandleTabChange(ReplyTab);
    assert refetch == Some(PageQuery(ReplyReportsPath, 1));
  }
}
