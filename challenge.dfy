/**
 * The challenge management view: challenges filtered by lifecycle status, a
 * modal to create a new one, and the handler that posts the new challenge.
 */
module ChallengeView {
  import opened Common

  const StatusPath := "/api/v1/challenges/status"
  const ChallengesPath := "/api/v1/challenges"

  /** The `ChallengeStatus` union: the only values the status filter takes. */
  datatype ChallengeStatus = Scheduled | InProgress | Completed

  /** The string a filter value is sent as. */
  function StatusName(status: ChallengeStatus): string {
    match status
    case Scheduled => "SCHEDULED"
    case InProgress => "IN_PROGRESS"
    case Completed => "COMPLETED"
  }

  datatype Challenge = Challenge(
    challengeNo: int,
    title: string,
    category: string,
    imageUrl: string,
    startDate: string,
    endDate: string,
    status: string,
    remainingTime: int,
    participantsCount: int)

  /** The `data` of the list response; either field may be missing from the JSON. */
  datatype ChallengeData = ChallengeData(challengeList: Option<seq<Challenge>>, challengeCount: Option<int>)

  /**
   * What saving gave back: an ok response whose parsed body is appended to
   * the list (read here as a challenge), an ok response whose body cannot be
   * read as JSON, or a thrown error (the request client throws on every
   * non-2xx status).
   */
  datatype SaveResponse = Saved(challenge: Challenge) | SavedUnreadable | SaveFailed

  /** The two alerts the save handler can raise. */
  datatype Alert = SavedAlert | SaveErrorAlert

  /** `getChallengeStatus`: the label of a challenge status; an unknown status is shown as it is. */
  function StatusLabel(status: string): string {
    if status == "SCHEDULED" then "예정"
    else if status == "IN_PROGRESS" then "진행중"
    else if status == "COMPLETED" then "종료"
    else status
  }

  /**
   * A status is relabelled exactly when it is the name of one of the three
   * filter values, and the three get different labels.
   */
  lemma StatusLabelFallback(status: string)
    ensures StatusLabel(status) != status <==> exists s :: StatusName(s) == status
    ensures forall s, t :: StatusLabel(StatusName(s)) == StatusLabel(StatusName(t)) ==> s == t
  {
    if status == "SCHEDULED" {
      assert StatusName(Scheduled) == status;
    } else if status == "IN_PROGRESS" {
      assert StatusName(InProgress) == status;
    } else if status == "COMPLETED" {
      assert StatusName(Completed) == status;
    }
  }

  /** The list request for one status filter. */
  function StatusQuery(status: ChallengeStatus): string {
    StatusPath + "?status=" + StatusName(status)
  }

  /** The three filter buttons, in the order they are drawn. */
  const FilterButtons: seq<ChallengeStatus> := [Scheduled, InProgress, Completed]

  /**
   * Exactly one filter button is highlighted, the selected one, and each
   * button's caption is the label its own status gets in the table.
   */
  lemma ExactlyOneFilterActive(selected: ChallengeStatus)
    ensures exists i :: 0 <= i < |FilterButtons| && FilterButtons[i] == selected
    ensures forall i, j :: 0 <= i < j < |FilterButtons| ==> FilterButtons[i] != FilterButtons[j]
    ensures StatusLabel(StatusName(FilterButtons[0])) == "예정"
    ensures StatusLabel(StatusName(FilterButtons[1])) == "진행중"
    ensures StatusLabel(StatusName(FilterButtons[2])) == "종료"
  {
    match selected
    case Scheduled => assert FilterButtons[0] == selected;
    case InProgress => assert FilterButtons[1] == selected;
    case Completed => assert FilterButtons[2] == selected;
  }

  /** A row of the table, or the "no challenges" placeholder. */
  datatype Row = ChallengeRow(challengeNo: int, title: string, category: string, statusLabel: string) | Placeholder

  /** The table: the placeholder when the list is empty, otherwise one row per challenge in list order. */
  function TableRows(challenges: seq<Challenge>): (rows: seq<Row>)
    ensures rows == [Placeholder] <==> challenges == []
    ensures challenges != [] ==> |rows| == |challenges|
    ensures challenges != [] ==> forall i :: 0 <= i < |challenges| ==>
      && rows[i].ChallengeRow?
      && rows[i].challengeNo == challenges[i].challengeNo
      && rows[i].title == challenges[i].title
      && rows[i].category == challenges[i].category
      && rows[i].statusLabel == StatusLabel(challenges[i].status)
      && (rows[i].statusLabel != challenges[i].status <==> exists s :: StatusName(s) == challenges[i].status)
  {
    if challenges == [] then [Placeholder]
    else
      var rows := seq(|challenges|, i requires 0 <= i < |challenges| =>
        var c := challenges[i];
        ChallengeRow(c.challengeNo, c.title, c.category, StatusLabel(c.status)));
      assert rows[0].ChallengeRow?;
      forall i | 0 <= i < |rows|
        ensures rows[i].statusLabel != challenges[i].status <==> exists s :: StatusName(s) == challenges[i].status
      {
        StatusLabelFallback(challenges[i].status);
      }
      rows
  }

  /** The state of the challenge view. */
  class ChallengeState {
    var challenges: seq<Challenge>
    var selectedStatus: ChallengeStatus
    var selectedChallenge: Option<Challenge>
    var isAddModalOpen: bool

    /** The view opens on the in-progress challenges, and its mount effect fetches them. */
    constructor ()
      ensures challenges == [] && selectedStatus == InProgress && selectedChallenge == None && !isAddModalOpen
      ensures StatusQuery(selectedStatus) == "/api/v1/challenges/status?status=IN_PROGRESS"
    {
      challenges := [];
      selectedStatus := InProgress;
      selectedChallenge := None;
      isAddModalOpen := false;
    }

    /**
     * `fetchChallenges` resolved: a present `challengeList` replaces the list
     * wholesale (an empty one too); a missing list, a missing `data` (whose
     * destructuring throws) or a failure leaves it as it was.
     */
    method ApplyFetch(response: Response<ChallengeData>)
      modifies this`challenges
      ensures response.Ok? && response.data.challengeList.Some? ==> challenges == response.data.challengeList.value
      ensures !(response.Ok? && response.data.challengeList.Some?) ==> challenges == old(challenges)
    {
      if response.Ok? && response.data.challengeList.Some? {
        challenges := response.data.challengeList.value;
      }
    }

    /** A click on a filter button; a different filter makes the effect fetch that status. */
    method HandleStatusChange(status: ChallengeStatus) returns (refetch: Option<string>)
      modifies this`selectedStatus
      ensures selectedStatus == status
      ensures refetch == if status != old(selectedStatus) then Some(StatusQuery(status)) else None
    {
      var before := selectedStatus;
      selectedStatus := status;
      refetch := if status != before then Some(StatusQuery(status)) else None;
    }

    method HandleChallengeClick(challenge: Challenge)
      modifies this`selectedChallenge
      ensures selectedChallenge == Some(challenge)
    {
      selectedChallenge := Some(challenge);
    }

    method HandleAddChallenge()
      modifies this`isAddModalOpen
      ensures isAddModalOpen
    {
      isAddModalOpen := true;
    }

    method HandleCloseModal()
      modifies this`isAddModalOpen
      ensures !isAddModalOpen
    {
      isAddModalOpen := false;
    }

    /**
     * `handleSaveChallenge` once the POST has resolved. A readable saved
     * challenge is appended after all the others and the modal closes. An
     * unreadable body has already raised the success alert, then raises the
     * error alert; like a failure it leaves the list and the modal as they were.
     */
    method HandleSaveChallenge(response: SaveResponse) returns (alerts: seq<Alert>)
      modifies this`challenges, this`isAddModalOpen
      ensures response.Saved? ==> challenges == old(challenges) + [response.challenge] && !isAddModalOpen
      ensures !response.Saved? ==> challenges == old(challenges) && isAddModalOpen == old(isAddModalOpen)
      ensures alerts == match response
        case Saved(_) => [SavedAlert]
        case SavedUnreadable => [SavedAlert, SaveErrorAlert]
        case SaveFailed => [SaveErrorAlert]
    {
      alerts := [];
      if response.SaveFailed? {
        alerts := alerts + [SaveErrorAlert];
        return;
      }
      alerts := alerts + [SavedAlert];
      if response.SavedUnreadable? {
        alerts := alerts + [SaveErrorAlert];
        return;
      }
      challenges := challenges + [response.challenge];
      isAddModalOpen := false;
    }
  }
}
