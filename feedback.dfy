/**
 * The feedback view: a server-paginated list of user feedback, one reply
 * draft per feedback, a previous/next pager and a submit button per row.
 */
module FeedbackView {
  import opened Common
  import opened Text

  datatype Feedback = Feedback(
    feedbackNo: int,
    title: string,
    content: string,
    category: string,
    createDate: string,
    updateDate: string,
    hasReply: bool,
    reply: Option<string>,
    nickname: string)

  /** The `data` of a page response; every field may be missing from the JSON. */
  datatype FeedbackPage = FeedbackPage(content: Option<seq<Feedback>>, currentPage: Option<int>, totalPages: Option<int>)

  /** A row of the table: one per feedback with the draft in its text area, or the "no feedback" placeholder. */
  datatype Row = FeedbackRow(feedbackNo: int, draft: string) | Placeholder

  /** `feedback.reply?.trim() ?? ''` */
  function ReplyText(f: Feedback): string {
    match f.reply
    case Some(r) => Trim(r)
    case None => ""
  }

  /** The previous button: `Math.max(prev - 1, 1)`. */
  function PrevPage(currentPage: int): int {
    Max(currentPage - 1, 1)
  }

  /** The next button: `Math.min(prev + 1, totalPages)`. */
  function NextPage(currentPage: int, totalPages: int): int {
    Min(currentPage + 1, totalPages)
  }

  predicate PrevDisabled(currentPage: int) {
    currentPage == 1
  }

  predicate NextDisabled(currentPage: int, totalPages: int) {
    currentPage == totalPages
  }

  /** Inside [1, totalPages] the pager never leaves [1, totalPages], and moves by one page at most. */
  lemma PagerStaysInRange(currentPage: int, totalPages: int)
    requires 1 <= currentPage <= totalPages
    ensures 1 <= PrevPage(currentPage) <= totalPages && currentPage - PrevPage(currentPage) <= 1
    ensures 1 <= NextPage(currentPage, totalPages) <= totalPages && NextPage(currentPage, totalPages) - currentPage <= 1
  {
  }

  /** Inside [1, totalPages] a button is disabled exactly when clicking it would not change the page. */
  lemma DisabledIffNoMove(currentPage: int, totalPages: int)
    requires 1 <= currentPage <= totalPages
    ensures PrevDisabled(currentPage) <==> PrevPage(currentPage) == currentPage
    ensures NextDisabled(currentPage, totalPages) <==> NextPage(currentPage, totalPages) == currentPage
  {
  }

  function FeedbackNos(content: seq<Feedback>): set<int> {
    set f | f in content :: f.feedbackNo
  }

  /** No feedback in content[j+1..upTo) has the same number as content[j]. */
  ghost predicate LastBefore(content: seq<Feedback>, j: int, upTo: int)
    requires 0 <= j < upTo <= |content|
  {
    forall k :: j < k < upTo ==> content[k].feedbackNo != content[j].feedbackNo
  }

  /** No two feedbacks of the page share a number. */
  predicate DistinctNumbers(content: seq<Feedback>) {
    forall a, b :: 0 <= a < b < |content| ==> content[a].feedbackNo != content[b].feedbackNo
  }

  /** With distinct numbers, every feedback is the last one with its number. */
  lemma DistinctNumbersLast(content: seq<Feedback>, j: int)
    requires DistinctNumbers(content)
    requires 0 <= j < |content|
    ensures LastBefore(content, j, |content|)
  {
  }

  /** The keys of a prefix grow by the number of the next feedback. */
  lemma FeedbackNosStep(content: seq<Feedback>, i: int)
    requires 0 <= i < |content|
    ensures FeedbackNos(content[..i + 1]) == FeedbackNos(content[..i]) + {content[i].feedbackNo}
  {
    assert content[..i + 1] == content[..i] + [content[i]];
  }

  /** One step of the `reduce`: the invariant of BuildReplyDrafts holds one feedback further on. */
  lemma DraftsStep(content: seq<Feedback>, i: int, drafts: map<int, string>)
    requires 0 <= i < |content|
    requires forall j :: 0 <= j < i && LastBefore(content, j, i) ==> content[j].feedbackNo in drafts && drafts[content[j].feedbackNo] == ReplyText(content[j])
    ensures var next := drafts[content[i].feedbackNo := ReplyText(content[i])];
      forall j :: 0 <= j < i + 1 && LastBefore(content, j, i + 1) ==> content[j].feedbackNo in next && next[content[j].feedbackNo] == ReplyText(content[j])
  {
    var next := drafts[content[i].feedbackNo := ReplyText(content[i])];
    forall j | 0 <= j < i + 1 && LastBefore(content, j, i + 1)
      ensures content[j].feedbackNo in next && next[content[j].feedbackNo] == ReplyText(content[j])
    {
      if j < i {
        assert content[i].feedbackNo != content[j].feedbackNo;
        assert LastBefore(content, j, i);
      }
    }
  }

  /**
   * The `reduce` that builds the reply drafts from a fetched page: one key per
   * feedback number; when a number repeats, the later feedback's reply wins.
   */
  method BuildReplyDrafts(content: seq<Feedback>) returns (drafts: map<int, string>)
    ensures drafts.Keys == FeedbackNos(content)
    ensures forall j :: 0 <= j < |content| && LastBefore(content, j, |content|) ==>
      drafts[content[j].feedbackNo] == ReplyText(content[j])
    ensures DistinctNumbers(content) ==>
      forall j :: 0 <= j < |content| ==> drafts[content[j].feedbackNo] == ReplyText(content[j])
  {
    drafts := map[];
    for i := 0 to |content|
      invariant drafts.Keys == FeedbackNos(content[..i])
      invariant forall j :: 0 <= j < i && LastBefore(content, j, i) ==> content[j].feedbackNo in drafts && drafts[content[j].feedbackNo] == ReplyText(content[j])
    {
      FeedbackNosStep(content, i);
      DraftsStep(content, i, drafts);
      drafts := drafts[content[i].feedbackNo := ReplyText(content[i])];
    }
    assert content[..|content|] == content;
    if DistinctNumbers(content) {
      forall j | 0 <= j < |content|
        ensures drafts[content[j].feedbackNo] == ReplyText(content[j])
      {
        DistinctNumbersLast(content, j);
      }
    }
  }

  function DraftRow(feedbackNo: int, replyContent: map<int, string>): Row {
    FeedbackRow(feedbackNo, if feedbackNo in replyContent then replyContent[feedbackNo] else "")
  }

  /**
   * The table: the placeholder alone when the page is empty; otherwise one row
   * per feedback, in page order, whose text area shows that number's stored
   * draft, or nothing when no draft is stored (`replyContent[no] || ''`).
   */
  function TableRows(feedbacks: seq<Feedback>, replyContent: map<int, string>): (rows: seq<Row>)
    ensures rows == [Placeholder] <==> feedbacks == []
    ensures feedbacks != [] ==> |rows| == |feedbacks|
    ensures feedbacks != [] ==> forall i :: 0 <= i < |feedbacks| ==>
      && rows[i].FeedbackRow?
      && rows[i].feedbackNo == feedbacks[i].feedbackNo
      && (feedbacks[i].feedbackNo in replyContent ==> rows[i].draft == replyContent[feedbacks[i].feedbackNo])
      && (feedbacks[i].feedbackNo !in replyContent ==> rows[i].draft == "")
  {
    if feedbacks == [] then [Placeholder]
    else
      var rows := seq(|feedbacks|, i requires 0 <= i < |feedbacks| => DraftRow(feedbacks[i].feedbackNo, replyContent));
      assert rows[0].FeedbackRow?;
      rows
  }

  /**
   * Right after a page is fetched, with distinct feedback numbers, every row
   * shows its own feedback's trimmed reply, and an empty text area for a
   * feedback without one.
   */
  lemma FetchedRowsShowReplies(content: seq<Feedback>, drafts: map<int, string>, i: int)
    requires drafts.Keys == FeedbackNos(content)
    requires forall j :: 0 <= j < |content| && LastBefore(content, j, |content|) ==>
      drafts[content[j].feedbackNo] == ReplyText(content[j])
    requires DistinctNumbers(content)
    requires 0 <= i < |content|
    ensures TableRows(content, drafts)[i] == FeedbackRow(content[i].feedbackNo, ReplyText(content[i]))
    ensures content[i].reply.None? ==> TableRows(content, drafts)[i].draft == ""
  {
    assert content[i] in content;
    DistinctNumbersLast(content, i);
  }

  /** The page the `[currentPage]` effect fetches after a state change, if the page changed. */
  function EffectFetch(oldPage: int, newPage: int): Option<int> {
    if oldPage != newPage then Some(newPage) else None
  }

  /** The state of the feedback view. */
  class FeedbackState {
    var feedbacks: seq<Feedback>
    var currentPage: int
    var totalPages: int
    var replyContent: map<int, string>

    constructor ()
      ensures feedbacks == [] && currentPage == 1 && totalPages == 1 && replyContent == map[]
    {
      feedbacks := [];
      currentPage := 1;
      totalPages := 1;
      replyContent := map[];
    }

    /**
     * `fetchFeedbacks` once its request has resolved. With `data`: the list,
     * the page count and the page come from the server (1 and [] when missing)
     * and the drafts are rebuilt; when `content` itself is missing, `reduce`
     * throws after the first three updates, so the drafts stay. Without `data`,
     * or on failure, nothing changes. Returns what the page effect fetches next.
     */
    method ApplyFetch(response: Response<FeedbackPage>) returns (refetch: Option<int>)
      modifies this
      ensures response.Ok? ==>
        && feedbacks == response.data.content.GetOr([])
        && totalPages == response.data.totalPages.GetOr(1)
        && currentPage == response.data.currentPage.GetOr(1)
        && (response.data.content.Some? ==>
              replyContent.Keys == FeedbackNos(feedbacks)
              && forall j :: 0 <= j < |feedbacks| && LastBefore(feedbacks, j, |feedbacks|) ==>
                   replyContent[feedbacks[j].feedbackNo] == ReplyText(feedbacks[j]))
        && (response.data.content.None? ==> replyContent == old(replyContent))
      ensures !response.Ok? ==>
        feedbacks == old(feedbacks) && totalPages == old(totalPages) && currentPage == old(currentPage)
        && replyContent == old(replyContent)
      ensures refetch == EffectFetch(old(currentPage), currentPage)
    {
      var before := currentPage;
      if response.Ok? {
        var page := response.data;
        feedbacks := page.content.GetOr([]);
        totalPages := page.totalPages.GetOr(1);
        currentPage := page.currentPage.GetOr(1);
        if page.content.Some? {
          replyContent := BuildReplyDrafts(page.content.value);
        }
      }
      refetch := EffectFetch(before, currentPage);
    }

    /** `handleReplyChange`: one draft is replaced, every other draft is kept. */
    method HandleReplyChange(feedbackNo: int, content: string)
      modifies this`replyContent
      ensures replyContent == old(replyContent)[feedbackNo := content]
      ensures forall no :: no != feedbackNo ==> (no in replyContent <==> no in old(replyContent))
      ensures forall no :: no != feedbackNo && no in replyContent ==> replyContent[no] == old(replyContent)[no]
    {
      replyContent := replyContent[feedbackNo := content];
    }

    /**
     * `submitReply`: the PUT body carries the draft (`undefined` when there is
     * none), and the current page is fetched again only when the PUT succeeded.
     */
    method SubmitReply(feedbackNo: int, putSucceeded: bool) returns (path: string, body: Option<string>, refetch: Option<int>)
      ensures path == "/api/v1/feedbacks/admin/" + IntToString(feedbackNo)
      ensures body.Some? <==> feedbackNo in replyContent
      ensures body.Some? ==> body.value == replyContent[feedbackNo]
      ensures refetch.Some? <==> putSucceeded
      ensures refetch.Some? ==> refetch.value == currentPage
    {
      path := "/api/v1/feedbacks/admin/" + IntToString(feedbackNo);
      body := if feedbackNo in replyContent then Some(replyContent[feedbackNo]) else None;
      refetch := if putSucceeded then Some(currentPage) else None;
    }

    /** The previous button, when enabled. */
    method ClickPrev() returns (refetch: Option<int>)
      requires !PrevDisabled(currentPage)
      modifies this`currentPage
      ensures currentPage == PrevPage(old(currentPage))
      ensures refetch == EffectFetch(old(currentPage), currentPage)
    {
      var before := currentPage;
      currentPage := PrevPage(currentPage);
      refetch := EffectFetch(before, currentPage);
    }

    /** The next button, when enabled. */
    method ClickNext() returns (refetch: Option<int>)
      requires !NextDisabled(currentPage, totalPages)
      modifies this`currentPage
      ensures currentPage == NextPage(old(currentPage), totalPages)
      ensures refetch == EffectFetch(old(currentPage), currentPage)
    {
      var before := currentPage;
      currentPage := NextPage(currentPage, totalPages);
      refetch := EffectFetch(before, currentPage);
    }
  }

  /**
   * An empty first page from the server: the table shows only the placeholder
   * row and both pager buttons are disabled.
   */
  method EmptyPageScenario() {
    var view := new FeedbackState();
    var refetch := view.ApplyFetch(Ok(FeedbackPage(Some([]), Some(1), Some(1))));
    assert refetch == None;
    assert TableRows(view.feedbacks, view.replyContent) == [Placeholder];
    assert PrevDisabled(view.currentPage) && NextDisabled(view.currentPage, view.totalPages);
  }
}
