# RunningHi admin dashboard — view logic in Dafny

This project models the client-side logic of the RunningHi admin dashboard, a
React app that moderators use to manage members, feedback, reports, challenges
and FAQs. Each page or component whose state changes step by step becomes a
`class`. Its React state variables are the class's fields, and its handlers
are methods with `modifies` clauses. The pure parts become functions with
lemmas: the pagination bar, filtering, URL building, status labels and the
selection toggle.

Modules:

- `Common`: the `Option` type, and `Response`, the outcome of a request.
  `Response` has three cases: ok with a `data` field, ok without one, and
  failed. The request helper throws on every non-2xx status, so a non-ok
  status is the failed case.
- `Text`: the JavaScript string operations the views use:
  - `toString` of an integer;
  - ASCII `toLowerCase`;
  - `includes`;
  - `trim`, over the ECMAScript whitespace set.
- `Pagination`: the numbered pagination bar.
- `MemberView`: the member page. It filters by tab and search text, splits
  the list into pages of ten on the client, and toggles the blacklist flag.
- `FeedbackView`: the feedback page. It has server pages, reply drafts
  and a previous/next pager.
- `ReportView`: the post-report and reply-report tabs. The two tabs have
  independent page counters.
- `ReportModal`: the report detail modal. It builds the detail and
  related-list URLs and keeps the row selection.
- `ChallengeView`: the challenge page. It has a status filter, and the save
  handler appends the new challenge.
- `FaqList`: the inline FAQ editor.
- `CreateChallengeModal`: the challenge creation form and the multipart body
  it submits.

Effects that depend on state are modelled as return values. A handler returns
`refetch`, which holds the request the effect would issue when the handler
changed one of the effect's dependencies, and `None` otherwise. Alerts and
`onSave` calls are also returned as values.

The member view can show the pagination bar for a page past the last one.
Changing the tab or the search text keeps the current page, while the page
count shrinks with the filtered list. Such a bar marks no button active and
has no next button; `Pagination.StalePageExamples` shows page 5 of two pages
as page 1 followed by an ellipsis with no page after it.

A double toggle of a report row does not always give back the same
selection. Ticking an unticked row and then unticking it restores the
selection. Unticking a ticked row and then ticking it again moves that number
to the end. `ReportModal.ToggleTwiceReorders` exhibits `[1, 2]` coming back as
`[2, 1]`.

## Model

| member | source | states |
|---|---|---|
| Pagination.WindowIsConsecutive | src/components/Pagination.tsx:11-39 | the numbered buttons are the consecutive pages from `max(1, cur-2)` to `min(total, cur+2)`; there are at most 5, and none when the end is before the start |
| Pagination.PrevShownIff | src/components/Pagination.tsx:18-22 | the previous button is shown iff `currentPage > 1`, and it targets `currentPage - 1` |
| Pagination.NextShownIff | src/components/Pagination.tsx:48-52 | the next button is shown iff `currentPage < totalPages`, and it targets `currentPage + 1` |
| Pagination.TargetsAtLeastOne | src/components/Pagination.tsx:18-52 | when the current page is at least 1, no button asks for a page below 1, whatever the page count |
| Pagination.TargetsInRange | src/components/Pagination.tsx:18-52 | when `1 <= cur <= total`, every button asks for a page in `[1, total]` |
| Pagination.ExactlyOneActive | src/components/Pagination.tsx:31-39 | when `1 <= cur <= total`, exactly one button of the bar is marked active, and it is the current page's button |
| Pagination.MiddleAt | src/components/Pagination.tsx:23-47 | when `1 <= cur <= total`, item i between the previous and next buttons is the page-1 shortcut, the leading ellipsis, a window page, the trailing ellipsis or the last-page shortcut, according to its position |
| Pagination.MiddleGapsMarked | src/components/Pagination.tsx:23-47 | when `1 <= cur <= total`, between the previous and next buttons the bar reads page 1 … page total; adjacent numbered buttons are consecutive pages, and an ellipsis stands exactly where pages are skipped |
| Pagination.NoPagesNoBar | src/components/Pagination.tsx:18-52 | on page 1 with no pages (for example an empty member list) the bar is empty |
| Pagination.StalePageBar | src/components/Pagination.tsx:13-52 | when currentPage > totalPages (reachable in the member view, whose tab and search changes keep the page) the bar ends with the window: no last-page shortcut, no next button, and no button marked active |
| Pagination.StalePageExamples | src/components/Pagination.tsx:13-52 | page 3 of no pages shows only a previous button; page 5 of two pages shows page 1 and an ellipsis with no page after it |
| Pagination.SinglePageBar | src/components/Pagination.tsx:18-52 | with one page the bar is the single active button for page 1 |
| Text.NatToString | src/pages/report.tsx:96 | the decimal rendering is non-empty, all digits, with no leading zero |
| Text.IntToString | src/pages/report.tsx:96 | a rendered integer is non-empty and starts with '-' iff it is negative |
| Text.ParseIntToString | src/pages/report.tsx:95-98 | the decimal rendering of an integer reads back to that integer |
| Text.IntToStringInjective | src/pages/report.tsx:95-98 | different integers render differently |
| Text.IncludesIffOccurs | src/pages/member.tsx:72-73 | `includes` holds iff the needle occurs at some position of the haystack |
| Text.IncludesEmpty | src/pages/member.tsx:72-73 | the empty search text occurs in every string |
| Text.TrimShape | src/pages/feedback.tsx:63 | `trim` gives a contiguous slice of the input with only whitespace cut on both sides, and the result neither starts nor ends with whitespace |
| Text.TrimIdempotent | src/pages/feedback.tsx:63 | trimming a trimmed reply changes nothing |
| MemberView.FilterMembersKeepsPassing | src/pages/member.tsx:70-74 | a member is listed iff it is in the list and passes both the tab and the search condition; filtering never adds members |
| MemberView.FilterMembersAppend | src/pages/member.tsx:70-74 | filtering keeps the list order (it distributes over concatenation) |
| MemberView.FilterAllEmptyQuery | src/pages/member.tsx:70-74 | the "all" tab with an empty search lists every member, in order |
| MemberView.MatchesQueryIffOccurs | src/pages/member.tsx:72-73 | the search matches iff the lower-cased query occurs in the lower-cased nickname or name |
| MemberView.TotalPagesIsCeiling | src/pages/member.tsx:79 | the page count is the least number of 10-member pages holding every filtered member; it is 0 iff there are none |
| MemberView.CurrentMembersIsPageSlice | src/pages/member.tsx:76-78 | page p shows positions `[(p-1)*10, p*10)` of the filtered list, clipped at its end, so at most 10 members |
| MemberView.PageNonEmptyIff | src/pages/member.tsx:76-79 | a page from 1 on shows some member iff it is at most the page count |
| MemberView.EveryMemberOnItsPage | src/pages/member.tsx:76-79 | the filtered member at position i is shown on page `i/10 + 1`, at row `i mod 10` |
| MemberView.ToggleByIdChangesOnlyFlag | src/pages/member.tsx:51-55 | the toggle flips the flag of the members with that id and changes no other field, no other member, and neither length nor order |
| MemberView.ToggleByIdTwice | src/pages/member.tsx:51-55 | toggling the same id twice gives the list back |
| MemberView.FindByIdFirst | src/pages/member.tsx:59 | `find` returns the first member with that id, and nothing iff no member has it |
| MemberView.FlagSentIsNewFlag | src/pages/member.tsx:50-61 | the flag posted is the new flag of the first member with that id; with no such member the list is unchanged and `true` is posted |
| MemberView.MemberPage.constructor | src/pages/member.tsx:22-25 | the page starts on the "all" tab, at page 1, with no members and an empty search |
| MemberView.MemberPage.ApplyFetch | src/pages/member.tsx:28-48 | an array response becomes the member list; a non-array body or a failure empties it |
| MemberView.MemberPage.ToggleBlacklist | src/pages/member.tsx:50-62 | the list becomes the toggled list, and the request goes to `/api/members/{id}/blacklist` carrying the negated flag read before the update |
| MemberView.MemberPage.HandleSearch | src/pages/member.tsx:64-68 | submitting the search returns to page 1, so the table shows the first ten filtered members |
| MemberView.MemberPage.SetSearchQuery | src/pages/member.tsx:106 | typing sets the search text and keeps the page |
| MemberView.MemberPage.SetActiveTab | src/pages/member.tsx:87-98 | a tab click sets the tab and keeps the page |
| MemberView.MemberPage.ClickPagination | src/pages/member.tsx:155-159 | a click on a bar button moves to the page that button targets, which is at least 1 |
| FeedbackView.PagerStaysInRange | src/pages/feedback.tsx:156-160 | inside `[1, total]` the previous and next buttons keep the page inside `[1, total]` and move it by at most one |
| FeedbackView.DisabledIffNoMove | src/pages/feedback.tsx:156-160 | inside `[1, total]` a pager button is disabled iff clicking it would not change the page |
| FeedbackView.BuildReplyDrafts | src/pages/feedback.tsx:62-65 | the drafts have exactly one key per fetched feedback number; each value is the trimmed reply, or '' when there is none; a repeated number keeps its last feedback's reply; with distinct numbers every feedback's draft is its own trimmed reply |
| FeedbackView.TableRows | src/pages/feedback.tsx:120-151 | the table is the placeholder alone iff the page is empty; otherwise row i is feedback i's row, and its text area shows the stored draft for that number, or nothing when none is stored |
| FeedbackView.FetchedRowsShowReplies | src/pages/feedback.tsx:120-151 | right after a fetch of a page with distinct numbers, every row's text area shows its own feedback's trimmed reply, and is empty for a feedback without a reply |
| FeedbackView.FeedbackState.constructor | src/pages/feedback.tsx:35-38 | the view starts with no feedback, at page 1 of 1, with no drafts |
| FeedbackView.FeedbackState.ApplyFetch | src/pages/feedback.tsx:40-83 | with `data`: list `content ?? []`, page count `totalPages ?? 1`, page `currentPage ?? 1`, and drafts rebuilt from `content`; when `content` is missing, `reduce` throws after the first three updates, so the drafts stay; without `data` or on failure nothing changes; a changed page is fetched again |
| FeedbackView.FeedbackState.HandleReplyChange | src/pages/feedback.tsx:85-87 | one draft is replaced and every other key and value is kept |
| FeedbackView.FeedbackState.SubmitReply | src/pages/feedback.tsx:89-96 | the PUT goes to `/api/v1/feedbacks/admin/{no}` and carries that number's draft, or none; the current page is fetched again iff the PUT succeeded |
| FeedbackView.FeedbackState.ClickPrev | src/pages/feedback.tsx:156 | an enabled previous button sets the page to `max(page-1, 1)` and fetches it |
| FeedbackView.FeedbackState.ClickNext | src/pages/feedback.tsx:160 | an enabled next button sets the page to `min(page+1, total)` and fetches it |
| ReportView.StatusInKoreanFallback | src/pages/report.tsx:72-79 | a status is relabelled iff it is INPROGRESS, ACCEPTED or REJECTED, and the three labels differ; any other status is shown as it is |
| ReportView.PageQueryInjective | src/pages/report.tsx:92-100 | different pages give different list queries |
| ReportView.PageQuerySize | src/pages/report.tsx:95-100 | every list query ends with `&size=10` |
| ReportView.ActiveQueryIgnoresOtherTab | src/pages/report.tsx:139-145 | the effect fetches the active tab's list at that tab's own page; the other tab's counter does not matter |
| ReportView.ReportsState.constructor | src/pages/report.tsx:53-59 | both tabs start at page 1 of 1 with no reports, the post tab is active, and the first fetch is post page 1 |
| ReportView.ReportsState.ApplyPostFetch | src/pages/report.tsx:92-113 | with `data`: the posts are `content ?? []`, the page count is `totalPages ?? 1`, and the post page is the page asked for; otherwise nothing changes; the reply tab is never touched |
| ReportView.ReportsState.ApplyReplyFetch | src/pages/report.tsx:116-137 | the same for the reply tab; the post tab is never touched |
| ReportView.ReportsState.HandleTabChange | src/pages/report.tsx:147-149 | switching tabs fetches the new tab's list at its own page |
| ReportView.ReportsState.HandlePostPageChange | src/pages/report.tsx:151-155 | the same page changes nothing and fetches nothing; another page moves only the post counter |
| ReportView.ReportsState.HandleReplyPageChange | src/pages/report.tsx:157-161 | the same page changes nothing and fetches nothing; another page moves only the reply counter |
| ReportModal.DetailUrlNamesReport | src/components/ReportModal.tsx:65-67 | the detail URL is under `/api/v1/post-reports/` iff the modal shows a post report, and the report number reads back from it |
| ReportModal.ListUrlNamesTarget | src/components/ReportModal.tsx:79-81 | the related-list URL asks by `postNo` iff the modal shows a post report, and it carries the reported post or reply number |
| ReportModal.RemoveSpec | src/components/ReportModal.tsx:101 | `filter` removes every occurrence of the number and keeps everything else; it keeps a selection free of duplicates |
| ReportModal.RemoveAppend | src/components/ReportModal.tsx:101 | `filter` keeps the order of the kept numbers |
| ReportModal.ToggleFlipsOnlyThatRow | src/components/ReportModal.tsx:98-104 | after a toggle only the toggled number's membership has flipped |
| ReportModal.ToggleKeepsNoDuplicates | src/components/ReportModal.tsx:98-104 | a selection without duplicates stays without duplicates |
| ReportModal.ToggleTwiceUnselected | src/components/ReportModal.tsx:98-104 | toggling an unselected number twice restores the selection exactly |
| ReportModal.ToggleTwiceSelected | src/components/ReportModal.tsx:98-104 | toggling a selected number twice keeps the same numbers but moves it to the end, for any selection holding it |
| ReportModal.ToggleTwiceReorders | src/components/ReportModal.tsx:98-104 | `[1, 2]` toggled twice on 1 becomes `[2, 1]` |
| ReportModal.CheckedRows | src/components/ReportModal.tsx:157-163 | there is one checkbox per row of the related list |
| ReportModal.ToggleFlipsOnlyThoseCheckboxes | src/components/ReportModal.tsx:157-163 | a toggle flips the checkboxes of the rows with that number and no other checkbox |
| ReportModal.ModalState.constructor | src/components/ReportModal.tsx:57-60 | no details, an empty list and no selection; nothing is drawn yet; the mount effect asks for the detail URL and the related-list URL of the clicked report |
| ReportModal.ModalState.ApplyDetail | src/components/ReportModal.tsx:63-75 | `data` is stored as it is; a missing `data` stores nothing and hides the modal; a failure keeps the state |
| ReportModal.ModalState.ApplyList | src/components/ReportModal.tsx:77-89 | `data` is stored as it is and lets the modal render; a missing `data` stores undefined, and then the render fails exactly when the details are drawn (`reportList.map` at line 157); a failure keeps the list |
| ReportModal.ModalState.HandleRowSelect | src/components/ReportModal.tsx:98-104 | the selection becomes the toggled selection; only that number flips, freedom from duplicates is kept, and exactly the checkboxes of rows with that number flip |
| ChallengeView.StatusLabelFallback | src/pages/challenge.tsx:45-52 | a status is relabelled iff it is SCHEDULED, IN_PROGRESS or COMPLETED, and the three labels differ |
| ChallengeView.ExactlyOneFilterActive | src/pages/challenge.tsx:125-144 | exactly one filter button is highlighted, and each button's caption is its status label |
| ChallengeView.TableRows | src/pages/challenge.tsx:159-174 | the placeholder row appears iff the list is empty; otherwise there is one row per challenge in order, showing the challenge's number, title, category and status label, which differs from the raw status iff it is a known status |
| ChallengeView.ChallengeState.constructor | src/pages/challenge.tsx:38-76 | no challenges, the IN_PROGRESS filter, nothing selected, the add modal closed; the mount effect asks for the IN_PROGRESS list |
| ChallengeView.ChallengeState.ApplyFetch | src/pages/challenge.tsx:54-72 | a present `challengeList` (an empty one too) replaces the list wholesale; anything else leaves it unchanged |
| ChallengeView.ChallengeState.HandleStatusChange | src/pages/challenge.tsx:74-80 | the filter is set; a different filter fetches `/api/v1/challenges/status?status=NAME` |
| ChallengeView.ChallengeState.HandleChallengeClick | src/pages/challenge.tsx:82-84 | a row click selects that challenge |
| ChallengeView.ChallengeState.HandleAddChallenge | src/pages/challenge.tsx:86-88 | the add button opens the modal |
| ChallengeView.ChallengeState.HandleCloseModal | src/pages/challenge.tsx:90-92 | closing the modal closes it |
| ChallengeView.ChallengeState.HandleSaveChallenge | src/pages/challenge.tsx:94-117 | the parsed body of an ok response is appended after the others, the modal closes, and the success alert is raised; an unreadable body raises the success and then the error alert; a failure raises the error alert; in both error cases the list and the modal are unchanged |
| FaqList.WithField | src/components/FaqList.tsx:34-39 | an input change replaces only the named field and keeps `faqNo` |
| FaqList.EmptyListPlaceholder | src/components/FaqList.tsx:52-107 | an empty list renders exactly one placeholder row; a non-empty one renders none |
| FaqList.RowsEditModeIff | src/components/FaqList.tsx:52-102 | there is one row per FAQ; a row shows inputs iff its number is `editFaqNo`, and then it shows the draft; other rows show the FAQ's own text |
| FaqList.AtMostOneEditRow | src/components/FaqList.tsx:57-85 | with distinct numbers at most one row is in edit mode, and none when nothing is edited |
| FaqList.FaqListState.constructor | src/components/FaqList.tsx:17-19 | nothing is being edited and there is no draft |
| FaqList.FaqListState.HandleEditClick | src/components/FaqList.tsx:21-24 | the clicked FAQ's row is edited, with the FAQ as the draft |
| FaqList.FaqListState.HandleSaveClick | src/components/FaqList.tsx:26-32 | with a draft, `onSave` gets that draft once and both the edited row and the draft are cleared; without a draft nothing happens |
| FaqList.FaqListState.HandleInputChange | src/components/FaqList.tsx:34-39 | with a draft, only the named field changes; without a draft nothing happens |
| FaqList.FaqListState.Cancel | src/components/FaqList.tsx:89 | cancel leaves edit mode and keeps the draft |
| CreateChallengeModal.CategoryFromName | src/components/CreateChallengeModal.tsx:114-123 | a recognised category name is the name of the category it gives |
| CreateChallengeModal.CategoryRoundTrip | src/components/CreateChallengeModal.tsx:114-123 | each of DISTANCE, SPEED and ATTENDANCE reads back to its own category |
| CreateChallengeModal.Encode | src/components/CreateChallengeModal.tsx:39-47 | the body has exactly 8 entries, keyed title, content, challengeCategory, goal, goalDetail, startDate, endDate, image |
| CreateChallengeModal.DecodeEncode | src/components/CreateChallengeModal.tsx:39-47 | reading the body back key by key gives every field's value, with `goal` as its decimal string |
| CreateChallengeModal.EncodeInjective | src/components/CreateChallengeModal.tsx:39-47 | different forms give different bodies |
| CreateChallengeModal.ChallengeForm.constructor | src/components/CreateChallengeModal.tsx:21-28 | every text field starts empty, the category is DISTANCE, the goal is 0, and there is no image |
| CreateChallengeModal.ChallengeForm.HandleTextChange | src/components/CreateChallengeModal.tsx:95-168 | a text input sets its own field and no other |
| CreateChallengeModal.ChallengeForm.HandleCategoryChange | src/components/CreateChallengeModal.tsx:117 | the select sets the category, always one of the three |
| CreateChallengeModal.ChallengeForm.HandleGoalChange | src/components/CreateChallengeModal.tsx:132 | the number input sets the goal |
| CreateChallengeModal.ChallengeForm.HandleImageChange | src/components/CreateChallengeModal.tsx:52-62 | a picked file becomes the image; picking nothing keeps the previous one |
| CreateChallengeModal.ChallengeForm.HandleSubmit | src/components/CreateChallengeModal.tsx:32-50 | the alert is raised iff there is no image; otherwise `onSave` gets, once, the 8-entry body of the current state, which reads back to that state; the state is unchanged |

## Left out

- Rendering: JSX markup, CSS classes, badge class strings, the sidebar and
  the layout.
- Locale formatting of dates (`toLocaleString`, `toLocaleDateString`).
- ChallengeView.ChallengeState.HandleSaveChallenge: the parsed body of the
  POST response is taken to be the saved challenge. Every other call site
  reads its result from the `data` field of the API envelope (for example
  src/pages/challenge.tsx:62-63), so the program most likely appends the
  whole envelope. The model does not tell an envelope from a challenge.
- CreateChallengeModal.ChallengeForm.HandleSubmit models the submit handler
  once the submit event fires. Every text, number, select and date input is
  `required` (src/components/CreateChallengeModal.tsx:100-167), so the
  browser blocks the submit event, and with it the image alert, while one of
  them is empty. Browser form validation is not modelled.
- Text.IntToString renders every integer in plain decimal. JavaScript
  prints integral numbers of magnitude 1e21 and above in exponent form
  ("1e+21"); that range is not modelled.
- ReportModal.ModalState.ApplyList: a failing render is a predicate of the
  state. What React does after the render throws is not modelled.
- The image preview through `FileReader`: it is an asynchronous browser API.
- CreateChallengeModal.ChallengeForm.HandleGoalChange: the goal is modelled
  as an integer. `parseFloat`, fractional goals and `NaN` are floating point
  and are not modelled.
- Text.Lower: only ASCII letters are lower-cased. Full Unicode case mapping
  is not modelled.
- Text.Trim uses the ECMAScript whitespace and line-terminator characters.
  Surrogate pairs are not treated specially.
- The request helpers, the authentication page, the landing page, the logout
  button and the database connection are not part of this model. They are
  I/O, browser storage and routing. Each response is an input instead: ok
  with data, ok without data, or failed.
- The feedback view's GET query parameters are not modelled. Its requests
  are given by the page number they ask for.
- Races between overlapping fetches and updates after unmount are not
  modelled. These are concurrency; handlers are applied one at a time.
- The report page's `handleReportClick` and `closeModal` only open and close
  the detail modal. They are left out with the rest of the modal's
  mounting.
- The status lookup tables in `getStatusInKorean` and `getChallengeStatus`
  are plain objects. Their inherited `Object.prototype` keys (such as
  "toString") are not modelled.
- Console logging and the text of the alerts are not modelled. Alerts are
  returned as values.
- FaqList: the `onEdit` prop is never called. `onDelete` only passes the
  row's number to the parent, whose handler is not part of this model. The
  `faqs` prop is read-only (a `const` field).
