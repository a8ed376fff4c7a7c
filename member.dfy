/**
 * The member management view. The whole member list is fetched once; the
 * view filters it by tab and search text and cuts the current page of ten
 * out of the filtered list on the client. A click on a member's button flips
 * its blacklist flag locally and posts the new flag to the server.
 */
module MemberView {
  import opened Common
  import opened Text
  import Pagination

  const MembersPerPage := 10

  datatype Member = Member(
    id: string,
    nickname: string,
    level: int,
    name: string,
    isBlacklisted: bool,
    reportCnt: int,
    isActive: bool)

  /** The two tabs of the view. */
  datatype Tab = All | Blacklist

  /** What the member request gave back: a JSON array, some other JSON value, or a thrown error. */
  datatype MembersResponse = MemberArray(list: seq<Member>) | NotAnArray | FetchFailed

  /** The blacklist request: its path and the `isBlacklisted` field of its JSON body. */
  datatype BlacklistRequest = BlacklistRequest(path: string, isBlacklisted: bool)

  predicate MatchesTab(m: Member, tab: Tab) {
    tab == All || (tab == Blacklist && m.isBlacklisted)
  }

  predicate MatchesQuery(m: Member, query: string) {
    Includes(Lower(m.nickname), Lower(query)) || Includes(Lower(m.name), Lower(query))
  }

  predicate Passes(m: Member, tab: Tab, query: string) {
    MatchesTab(m, tab) && MatchesQuery(m, query)
  }

  /** `members.filter(...)` with the tab and search conditions. */
  function FilterMembers(members: seq<Member>, tab: Tab, query: string): seq<Member> {
    if members == [] then []
    else (if Passes(members[0], tab, query) then [members[0]] else []) + FilterMembers(members[1..], tab, query)
  }

  /** Exactly the members that pass both conditions are kept, and never more than there were. */
  lemma {:induction false} FilterMembersKeepsPassing(members: seq<Member>, tab: Tab, query: string)
    ensures forall m :: m in FilterMembers(members, tab, query) <==> m in members && Passes(m, tab, query)
    ensures |FilterMembers(members, tab, query)| <= |members|
  {
    if members != [] {
      FilterMembersKeepsPassing(members[1..], tab, query);
      assert members == [members[0]] + members[1..];
    }
  }

  /** Filtering keeps the order of the list: it distributes over concatenation. */
  lemma {:induction false} FilterMembersAppend(a: seq<Member>, b: seq<Member>, tab: Tab, query: string)
    ensures FilterMembers(a + b, tab, query) == FilterMembers(a, tab, query) + FilterMembers(b, tab, query)
  {
    if a == [] {
      assert a + b == b;
    } else {
      var ab := a + b;
      var keep := if Passes(a[0], tab, query) then [a[0]] else [];
      assert ab[0] == a[0] && ab[1..] == a[1..] + b;
      FilterMembersAppend(a[1..], b, tab, query);
      calc {
        FilterMembers(ab, tab, query);
        keep + FilterMembers(a[1..] + b, tab, query);
        keep + (FilterMembers(a[1..], tab, query) + FilterMembers(b, tab, query));
        (keep + FilterMembers(a[1..], tab, query)) + FilterMembers(b, tab, query);
      }
    }
  }

  /** In the "all" tab with an empty search box, every member is listed in order. */
  lemma {:induction false} FilterAllEmptyQuery(members: seq<Member>)
    ensures FilterMembers(members, All, "") == members
  {
    if members != [] {
      FilterAllEmptyQuery(members[1..]);
      IncludesEmpty(Lower(members[0].nickname));
      assert Lower("") == "";
      assert members == [members[0]] + members[1..];
    }
  }

  /**
   * The search condition is "the lower-cased query occurs somewhere in the
   * lower-cased nickname or name".
   */
  lemma MatchesQueryIffOccurs(m: Member, query: string)
    ensures MatchesQuery(m, query) <==>
      (exists i :: OccursAt(Lower(m.nickname), Lower(query), i)) || (exists i :: OccursAt(Lower(m.name), Lower(query), i))
  {
    IncludesIffOccurs(Lower(m.nickname), Lower(query));
    IncludesIffOccurs(Lower(m.name), Lower(query));
  }

  /** The index `Array.prototype.slice` starts or stops at for argument `i`: negative counts from the end. */
  function SliceIndex(i: int, length: nat): (r: nat)
    ensures r <= length
  {
    if i < 0 then Max(length + i, 0) else Min(i, length)
  }

  /** `s.slice(start, end)` */
  function Slice<T>(s: seq<T>, start: int, end: int): seq<T> {
    var from, to := SliceIndex(start, |s|), SliceIndex(end, |s|);
    if from < to then s[from..to] else []
  }

  /** The members shown on page `currentPage`. */
  function CurrentMembers(filtered: seq<Member>, currentPage: int): seq<Member> {
    var indexOfLastMember := currentPage * MembersPerPage;
    var indexOfFirstMember := indexOfLastMember - MembersPerPage;
    Slice(filtered, indexOfFirstMember, indexOfLastMember)
  }

  /** `Math.ceil(count / membersPerPage)` */
  function TotalPages(count: nat): nat {
    (count + MembersPerPage - 1) / MembersPerPage
  }

  /** The page count is the least number of pages of ten that holds every member. */
  lemma TotalPagesIsCeiling(count: nat)
    ensures TotalPages(count) * MembersPerPage >= count
    ensures count > 0 ==> (TotalPages(count) - 1) * MembersPerPage < count
    ensures TotalPages(count) == 0 <==> count == 0
  {
  }

  /** Page p holds the members at positions [(p-1)*10, p*10) of the filtered list, so at most ten. */
  lemma CurrentMembersIsPageSlice(filtered: seq<Member>, currentPage: int)
    requires currentPage >= 1
    ensures var first := (currentPage - 1) * MembersPerPage;
      CurrentMembers(filtered, currentPage) ==
        if first < |filtered| then filtered[first..Min(first + MembersPerPage, |filtered|)] else []
    ensures |CurrentMembers(filtered, currentPage)| <= MembersPerPage
  {
  }

  /** A page at or after page 1 shows something exactly when it is one of the TotalPages pages. */
  lemma PageNonEmptyIff(filtered: seq<Member>, currentPage: int)
    requires currentPage >= 1
    ensures |CurrentMembers(filtered, currentPage)| > 0 <==> currentPage <= TotalPages(|filtered|)
  {
    CurrentMembersIsPageSlice(filtered, currentPage);
  }

  /** Every filtered member is shown on exactly the page its position calls for, at the matching row. */
  lemma EveryMemberOnItsPage(filtered: seq<Member>, i: int)
    requires 0 <= i < |filtered|
    ensures var page := i / MembersPerPage + 1;
      && 1 <= page <= TotalPages(|filtered|)
      && i % MembersPerPage < |CurrentMembers(filtered, page)|
      && CurrentMembers(filtered, page)[i % MembersPerPage] == filtered[i]
  {
    var page := i / MembersPerPage + 1;
    CurrentMembersIsPageSlice(filtered, page);
  }

  /** `members.map(...)` in toggleBlacklist: flip the flag of every member with that id. */
  function ToggleById(members: seq<Member>, memberId: string): seq<Member> {
    seq(|members|, i requires 0 <= i < |members| =>
      if members[i].id == memberId then members[i].(isBlacklisted := !members[i].isBlacklisted) else members[i])
  }

  /**
   * The toggle flips the flag of the members with that id and nothing else:
   * same length, same order, every other field and every other member unchanged.
   */
  lemma ToggleByIdChangesOnlyFlag(members: seq<Member>, memberId: string)
    ensures |ToggleById(members, memberId)| == |members|
    ensures forall i :: 0 <= i < |members| ==>
      var r := ToggleById(members, memberId)[i];
      && r.(isBlacklisted := members[i].isBlacklisted) == members[i]
      && (r.isBlacklisted == members[i].isBlacklisted <==> members[i].id != memberId)
  {
  }

  /** Toggling the same id twice gives the list back. */
  lemma ToggleByIdTwice(members: seq<Member>, memberId: string)
    ensures ToggleById(ToggleById(members, memberId), memberId) == members
  {
  }

  /** `members.find(m => m.id === memberId)`: the first member with that id. */
  function FindById(members: seq<Member>, memberId: string): Option<Member> {
    if members == [] then None
    else if members[0].id == memberId then Some(members[0])
    else FindById(members[1..], memberId)
  }

  lemma {:induction false} FindByIdFirst(members: seq<Member>, memberId: string)
    ensures FindById(members, memberId).None? <==> forall i :: 0 <= i < |members| ==> members[i].id != memberId
    ensures FindById(members, memberId).Some? ==>
      exists i :: 0 <= i < |members| && members[i] == FindById(members, memberId).value && members[i].id == memberId
        && forall j :: 0 <= j < i ==> members[j].id != memberId
  {
    if members != [] && members[0].id != memberId {
      FindByIdFirst(members[1..], memberId);
      if FindById(members[1..], memberId).Some? {
        var i :| 0 <= i < |members| - 1 && members[1..][i] == FindById(members, memberId).value && members[1..][i].id == memberId
          && forall j :: 0 <= j < i ==> members[1..][j].id != memberId;
        assert members[i + 1] == members[1..][i];
        assert forall j :: 1 <= j < i + 1 ==> members[j] == members[1..][j - 1];
      } else {
        assert forall i :: 1 <= i < |members| ==> members[i] == members[1..][i - 1];
      }
    }
  }

  /** `!members.find(...)?.isBlacklisted`: a missing member reads as `!undefined`, that is true. */
  function BlacklistFlagSent(members: seq<Member>, memberId: string): bool {
    match FindById(members, memberId)
    case Some(m) => !m.isBlacklisted
    case None => true
  }

  /**
   * The flag sent to the server is the new flag of the first member with that
   * id; when no member has that id, nothing changes locally and `true` is sent.
   */
  lemma FlagSentIsNewFlag(members: seq<Member>, memberId: string)
    ensures forall i :: 0 <= i < |members| && members[i].id == memberId && (forall j :: 0 <= j < i ==> members[j].id != memberId) ==>
      BlacklistFlagSent(members, memberId) == ToggleById(members, memberId)[i].isBlacklisted
    ensures (forall i :: 0 <= i < |members| ==> members[i].id != memberId) ==>
      BlacklistFlagSent(members, memberId) && ToggleById(members, memberId) == members
  {
    FindByIdFirst(members, memberId);
  }

  /** The state of the member view. */
  class MemberPage {
    var activeTab: Tab
    var members: seq<Member>
    var currentPage: int
    var searchQuery: string

    /** Every page the view can be on is at least 1. */
    ghost predicate Valid()
      reads this
    {
      currentPage >= 1
    }

    constructor ()
      ensures Valid()
      ensures activeTab == All && members == [] && currentPage == 1 && searchQuery == ""
    {
      activeTab := All;
      members := [];
      currentPage := 1;
      searchQuery := "";
    }

    function Filtered(): seq<Member>
      reads this
    {
      FilterMembers(members, activeTab, searchQuery)
    }

    /** The rows of the table. */
    function Shown(): seq<Member>
      reads this
    {
      CurrentMembers(Filtered(), currentPage)
    }

    /** The page count handed to the pagination bar. */
    function PageCount(): nat
      reads this
    {
      TotalPages(|Filtered()|)
    }

    /** The mount effect: an array replaces the list; anything else, or a failure, empties it. */
    method ApplyFetch(response: MembersResponse)
      requires Valid()
      modifies this`members
      ensures Valid()
      ensures members == if response.MemberArray? then response.list else []
    {
      match response
      case MemberArray(list) => members := list;
      case NotAnArray => members := [];
      case FetchFailed => members := [];
    }

    /**
     * `toggleBlacklist`: the local list is updated first (optimistically) and the
     * request carries the new flag read from the list as it was before.
     */
    method ToggleBlacklist(memberId: string) returns (request: BlacklistRequest)
      requires Valid()
      modifies this`members
      ensures Valid()
      ensures members == ToggleById(old(members), memberId)
      ensures request.path == "/api/members/" + memberId + "/blacklist"
      ensures request.isBlacklisted == BlacklistFlagSent(old(members), memberId)
    {
      var flag := BlacklistFlagSent(members, memberId);
      members := ToggleById(members, memberId);
      request := BlacklistRequest("/api/members/" + memberId + "/blacklist", flag);
    }

    /** `handleSearch`: submitting the search form goes back to page 1. */
    method HandleSearch()
      requires Valid()
      modifies this`currentPage
      ensures Valid()
      ensures currentPage == 1
      ensures Shown() == Filtered()[..Min(MembersPerPage, |Filtered()|)]
    {
      currentPage := 1;
    }

    /** Typing in the search box. */
    method SetSearchQuery(query: string)
      requires Valid()
      modifies this`searchQuery
      ensures Valid()
      ensures searchQuery == query
    {
      searchQuery := query;
    }

    /** A click on a tab; the page is kept. */
    method SetActiveTab(tab: Tab)
      requires Valid()
      modifies this`activeTab
      ensures Valid()
      ensures activeTab == tab
    {
      activeTab := tab;
    }

    /** A click on a button of the pagination bar moves to the page it targets. */
    method ClickPagination(item: Pagination.Item)
      requires Valid()
      requires item in Pagination.Bar(currentPage, PageCount()) && Pagination.IsButton(item)
      modifies this`currentPage
      ensures Valid()
      ensures currentPage == Pagination.Target(item)
    {
      Pagination.TargetsAtLeastOne(currentPage, PageCount());
      currentPage := Pagination.Target(item);
    }
  }
}
