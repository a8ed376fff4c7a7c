/**
 * The detail modal of one report: it fetches the report's details and the
 * list of every report against the same post or reply, and lets the admin
 * tick rows of that list.
 */
module ReportModal {
  import opened Common
  import opened Text

  const PostDetailPrefix := "/api/v1/post-reports/"
  const ReplyDetailPrefix := "/api/v1/reply-reports/"
  const PostListPrefix := "/api/v1/post-reports/post?postNo="
  const ReplyListPrefix := "/api/v1/reply-reports/reply?replyNo="

  /**
   * The fields of the clicked table row that the modal reads. The row is
   * untyped in the view, so a field of the other kind of report is missing.
   */
  datatype ClickedReport = ClickedReport(
    postReportNo: Option<int>,
    replyReportNo: Option<int>,
    reportedPostNo: Option<string>,
    reportedReplyNo: Option<string>)

  /** A report's details as the server sends them; `reportNo` and `reportedNo` are the post or reply fields. */
  datatype ReportDetail = ReportDetail(
    reportNo: int,
    category: string,
    content: string,
    status: string,
    reportedNo: int,
    reportedContent: string,
    imageUrl: Option<string>)

  /**
   * A row of the related-reports list. The list is fetched for the same kind
   * as the modal shows, so `reportNo` is the field the modal keys rows by.
   */
  datatype ListRow = ListRow(reportNo: int, category: string, content: string, status: string, reporterNo: int)

  /** A value in a template literal: a missing field prints as "undefined". */
  function Interpolate(value: Option<string>): string {
    match value
    case Some(s) => s
    case None => "undefined"
  }

  function InterpolateNumber(value: Option<int>): string {
    match value
    case Some(n) => IntToString(n)
    case None => "undefined"
  }

  /** The URL of the report's details. */
  function DetailUrl(isPostReport: bool, report: ClickedReport): string {
    if isPostReport then PostDetailPrefix + InterpolateNumber(report.postReportNo)
    else ReplyDetailPrefix + InterpolateNumber(report.replyReportNo)
  }

  /** The URL of every report against the same post or reply. */
  function ListUrl(isPostReport: bool, report: ClickedReport): string {
    if isPostReport then PostListPrefix + Interpolate(report.reportedPostNo)
    else ReplyListPrefix + Interpolate(report.reportedReplyNo)
  }

  /**
   * The detail URL names the post-report collection exactly when the modal
   * shows a post report, and the report number can be read back from it.
   */
  lemma DetailUrlNamesReport(isPostReport: bool, report: ClickedReport)
    ensures var url := DetailUrl(isPostReport, report);
      && (|url| >= |PostDetailPrefix| && url[..|PostDetailPrefix|] == PostDetailPrefix <==> isPostReport)
      && (isPostReport && report.postReportNo.Some? ==>
            ParseInt(url[|PostDetailPrefix|..]) == report.postReportNo.value)
      && (!isPostReport && report.replyReportNo.Some? ==>
            ParseInt(url[|ReplyDetailPrefix|..]) == report.replyReportNo.value)
  {
    var url := DetailUrl(isPostReport, report);
    if isPostReport {
      assert url == PostDetailPrefix + InterpolateNumber(report.postReportNo);
      if report.postReportNo.Some? {
        assert url[|PostDetailPrefix|..] == IntToString(report.postReportNo.value);
        ParseIntToString(report.postReportNo.value);
      }
    } else {
      assert url == ReplyDetailPrefix + InterpolateNumber(report.replyReportNo);
      assert url[8] == 'r' && PostDetailPrefix[8] == 'p';
      if report.replyReportNo.Some? {
        assert url[|ReplyDetailPrefix|..] == IntToString(report.replyReportNo.value);
        ParseIntToString(report.replyReportNo.value);
      }
    }
  }

  /**
   * The list URL asks for the reports of the reported post when the modal
   * shows a post report and of the reported reply otherwise, carrying its number.
   */
  lemma ListUrlNamesTarget(isPostReport: bool, report: ClickedReport)
    ensures var url := ListUrl(isPostReport, report);
      && (|url| >= |PostListPrefix| && url[..|PostListPrefix|] == PostListPrefix <==> isPostReport)
      && (isPostReport && report.reportedPostNo.Some? ==> url[|PostListPrefix|..] == report.reportedPostNo.value)
      && (!isPostReport && report.reportedReplyNo.Some? ==> url[|ReplyListPrefix|..] == report.reportedReplyNo.value)
  {
    var url := ListUrl(isPostReport, report);
    if !isPostReport {
      assert url[8] == 'r' && PostListPrefix[8] == 'p';
    }
  }

  /** `selected.filter(id => id !== reportNo)` */
  function Remove(selected: seq<int>, reportNo: int): seq<int> {
    if selected == [] then []
    else (if selected[0] != reportNo then [selected[0]] else []) + Remove(selected[1..], reportNo)
  }

  /** `handleRowSelect`: a selected number is removed, any other is appended. */
  function Toggle(selected: seq<int>, reportNo: int): seq<int> {
    if reportNo in selected then Remove(selected, reportNo) else selected + [reportNo]
  }

  predicate NoDuplicates(s: seq<int>) {
    forall i, j :: 0 <= i < j < |s| ==> s[i] != s[j]
  }

  /** Removing takes out every occurrence of the number and keeps everything else, in order. */
  lemma {:induction false} RemoveSpec(selected: seq<int>, reportNo: int)
    ensures forall x :: x in Remove(selected, reportNo) <==> x in selected && x != reportNo
    ensures reportNo !in selected ==> Remove(selected, reportNo) == selected
    ensures NoDuplicates(selected) ==> NoDuplicates(Remove(selected, reportNo))
    ensures |Remove(selected, reportNo)| <= |selected|
  {
    if selected != [] {
      var rest := Remove(selected[1..], reportNo);
      RemoveSpec(selected[1..], reportNo);
      assert selected == [selected[0]] + selected[1..];
      if NoDuplicates(selected) {
        assert NoDuplicates(selected[1..]);
        assert selected[0] !in selected[1..];
      }
    }
  }

  /** Removing distributes over concatenation: the kept numbers stay in their order. */
  lemma {:induction false} RemoveAppend(a: seq<int>, b: seq<int>, reportNo: int)
    ensures Remove(a + b, reportNo) == Remove(a, reportNo) + Remove(b, reportNo)
  {
    if a == [] {
      assert a + b == b;
    } else {
      var ab := a + b;
      var keep := if a[0] != reportNo then [a[0]] else [];
      assert ab[0] == a[0] && ab[1..] == a[1..] + b;
      RemoveAppend(a[1..], b, reportNo);
      calc {
        Remove(ab, reportNo);
        keep + Remove(a[1..] + b, reportNo);
        keep + (Remove(a[1..], reportNo) + Remove(b, reportNo));
        (keep + Remove(a[1..], reportNo)) + Remove(b, reportNo);
      }
    }
  }

  /** After a toggle the toggled number's checkbox has flipped and every other checkbox is as it was. */
  lemma ToggleFlipsOnlyThatRow(selected: seq<int>, reportNo: int)
    ensures forall x :: x in Toggle(selected, reportNo) <==> (if x == reportNo then reportNo !in selected else x in selected)
  {
    RemoveSpec(selected, reportNo);
  }

  /** A selection without duplicates stays without duplicates. */
  lemma ToggleKeepsNoDuplicates(selected: seq<int>, reportNo: int)
    requires NoDuplicates(selected)
    ensures NoDuplicates(Toggle(selected, reportNo))
  {
    RemoveSpec(selected, reportNo);
  }

  /** Ticking an unticked row and unticking it again gives back the same selection. */
  lemma ToggleTwiceUnselected(selected: seq<int>, reportNo: int)
    requires reportNo !in selected
    ensures Toggle(Toggle(selected, reportNo), reportNo) == selected
  {
    RemoveAppend(selected, [reportNo], reportNo);
    RemoveSpec(selected, reportNo);
  }

  /**
   * Unticking a ticked row and ticking it again gives back the same numbers,
   * with that one moved to the end.
   */
  lemma ToggleTwiceSelected(selected: seq<int>, reportNo: int)
    requires reportNo in selected
    ensures Toggle(Toggle(selected, reportNo), reportNo) == Remove(selected, reportNo) + [reportNo]
    ensures forall x :: x in Toggle(Toggle(selected, reportNo), reportNo) <==> x in selected
  {
    RemoveSpec(selected, reportNo);
  }

  /** So a double toggle does not always restore the order: [1, 2] comes back as [2, 1]. */
  lemma ToggleTwiceReorders()
    ensures Toggle(Toggle([1, 2], 1), 1) == [2, 1]
  {
    assert Remove([1, 2], 1) == [2] by {
      assert [1, 2][1..] == [2];
      assert [2][1..] == [];
    }
    assert 1 !in [2];
  }

  /** The checkboxes of the related list: a row is ticked when its number is selected. */
  function CheckedRows(rows: seq<ListRow>, selected: seq<int>): (checked: seq<bool>)
    ensures |checked| == |rows|
  {
    seq(|rows|, i requires 0 <= i < |rows| => rows[i].reportNo in selected)
  }

  /**
   * Toggling a number flips the checkboxes of the rows with that number and
   * leaves every other checkbox as it was.
   */
  lemma ToggleFlipsOnlyThoseCheckboxes(rows: seq<ListRow>, selected: seq<int>, reportNo: int)
    ensures forall i :: 0 <= i < |rows| ==>
      CheckedRows(rows, Toggle(selected, reportNo))[i]
        == if rows[i].reportNo == reportNo then !CheckedRows(rows, selected)[i] else CheckedRows(rows, selected)[i]
  {
    ToggleFlipsOnlyThatRow(selected, reportNo);
  }

  /** The state of the modal. */
  class ModalState {
    const isPostReport: bool
    const report: ClickedReport
    var detailedReport: Option<ReportDetail>
    var reportList: Option<seq<ListRow>>
    var selectedRows: seq<int>

    constructor (isPostReport: bool, report: ClickedReport)
      ensures this.isPostReport == isPostReport && this.report == report
      ensures detailedReport == None && reportList == Some([]) && selectedRows == []
      ensures !Visible() && !RenderFails()
      ensures Requests() == (DetailUrl(isPostReport, report), ListUrl(isPostReport, report))
    {
      this.isPostReport := isPostReport;
      this.report := report;
      detailedReport := None;
      reportList := Some([]);
      selectedRows := [];
    }

    /** `if (!detailedReport) return null`: nothing is drawn until the details have arrived. */
    predicate Visible()
      reads this
    {
      detailedReport.Some?
    }

    /**
     * The details are drawn but the related list is missing: `reportList.map`
     * throws while the modal renders.
     */
    predicate RenderFails()
      reads this
    {
      detailedReport.Some? && reportList.None?
    }

    /** The two requests of the mount effect: the details, then the related list. */
    function Requests(): (string, string)
      reads this
    {
      (DetailUrl(isPostReport, report), ListUrl(isPostReport, report))
    }

    /** `fetchDetailedReport` resolved: `data` is stored as it is, missing `data` reads as undefined; a failure keeps the state. */
    method ApplyDetail(response: Response<ReportDetail>)
      modifies this`detailedReport
      ensures response.Ok? ==> detailedReport == Some(response.data)
      ensures response.OkWithoutData? ==> detailedReport == None
      ensures response.Failed? ==> detailedReport == old(detailedReport)
    {
      match response
      case Ok(d) => detailedReport := Some(d);
      case OkWithoutData => detailedReport := None;
      case Failed =>
    }

    /**
     * `fetchDetailedReportList` resolved: `data` is stored as it is; a missing
     * `data` stores undefined (`None`), which makes the render fail as soon as
     * the details are drawn; a failure keeps the list.
     */
    method ApplyList(response: Response<seq<ListRow>>)
      modifies this`reportList
      ensures response.Ok? ==> reportList == Some(response.data) && !RenderFails()
      ensures response.OkWithoutData? ==> reportList == None && (RenderFails() <==> Visible())
      ensures response.Failed? ==> reportList == old(reportList)
    {
      match response
      case Ok(rows) => reportList := Some(rows);
      case OkWithoutData => reportList := None;
      case Failed =>
    }

    /** The checkboxes of the list, once it has arrived. */
    function Checked(): seq<bool>
      reads this
      requires reportList.Some?
    {
      CheckedRows(reportList.value, selectedRows)
    }

    /** `handleRowSelect`: toggles one number; only that row's checkbox changes. */
    method HandleRowSelect(reportNo: int)
      modifies this`selectedRows
      ensures selectedRows == Toggle(old(selectedRows), reportNo)
      ensures forall x :: x in selectedRows <==> (if x == reportNo then reportNo !in old(selectedRows) else x in old(selectedRows))
      ensures NoDuplicates(old(selectedRows)) ==> NoDuplicates(selectedRows)
      ensures reportList.Some? ==> forall i :: 0 <= i < |reportList.value| ==>
        Checked()[i] == if reportList.value[i].reportNo == reportNo then !old(Checked())[i] else old(Checked())[i]
    {
      ToggleFlipsOnlyThatRow(selectedRows, reportNo);
      if reportList.Some? {
        ToggleFlipsOnlyThoseCheckboxes(reportList.value, selectedRows, reportNo);
      }
      if NoDuplicates(selectedRows) {
        ToggleKeepsNoDuplicates(selectedRows, reportNo);
      }
      selectedRows := Toggle(selectedRows, reportNo);
    }
  }

  /**
   * The details arrive, then the list request answers without `data`: the
   * modal is drawn and its render fails on the missing list.
   */
  method MissingListScenario() {
    var modal := new ModalState(true, ClickedReport(Some(7), None, Some("3"), None));
    modal.ApplyDetail(Ok(ReportDetail(7, "SPAM", "c", "PENDING", 3, "p", None)));
    assert !modal.RenderFails();
    modal.ApplyList(OkWithoutData);
    assert modal.Visible() && modal.RenderFails();
  }
}
