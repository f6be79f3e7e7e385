/** The Thales Royale scoreboard: the user array is sorted in place on the
    chosen column, cut into pages of fifteen numbered from 1, and paged with
    previous/next arrows; the footer, avatar and round title are chosen by
    the user's status and the round. */
module Scoreboard {
  import opened Common
  import opened StableSort
  import opened Paging
  import opened SortHeader

  /** The status column. */
  const DefaultOrderBy := 1
  const ShowPerPage := 15

  /** The numeric values of the UserStatus enumeration, which is declared in a
      file that is not part of this model; only their distinctness is used. */
  datatype StatusCodes = StatusCodes(rdy: int, notSigned: int, notVerified: int)

  predicate DistinctCodes(codes: StatusCodes)
  {
    codes.rdy != codes.notSigned && codes.rdy != codes.notVerified && codes.notSigned != codes.notVerified
  }

  datatype User = User(status: int, name: string, number: int, isAlive: bool, avatar: string)

  datatype HeadCell = HeadCell(id: int, sortable: bool)

  /** Status, avatar, name and number; the avatar column does not sort. */
  const HeadCells: seq<HeadCell> := [HeadCell(1, true), HeadCell(2, false), HeadCell(3, true), HeadCell(4, true)]

  function StatusKey(): User -> real
  {
    (u: User) => u.status as real
  }

  function NumberKey(): User -> real
  {
    (u: User) => u.number as real
  }

  /** `a.name.localeCompare(b.name)` under DESC and the reverse otherwise;
      `localeCompare` belongs to the runtime and is a parameter. */
  function NameCompare(localeCompare: (string, string) -> int, direction: OrderDirection): (User, User) -> int
  {
    (a: User, b: User) =>
      if direction == DESC then localeCompare(a.name, b.name) else localeCompare(b.name, a.name)
  }

  /** The comparator of a sortable column. Under DESC the source subtracts
      b from a, so DESC sorts ascending and every other direction descending. */
  function UserCompare(orderBy: int, direction: OrderDirection, localeCompare: (string, string) -> int): (User, User) -> int
    requires orderBy in {1, 3, 4}
  {
    if orderBy == 1 then KeyComparator(StatusKey(), direction != DESC)
    else if orderBy == 3 then NameCompare(localeCompare, direction)
    else KeyComparator(NumberKey(), direction != DESC)
  }

  /** The users the table lists: sorted on a sortable column, none otherwise. */
  function UsersToShow(users: seq<User>, sort: SortState, localeCompare: (string, string) -> int): seq<User>
  {
    if sort.orderBy in {1, 3, 4} then Sorted(users, UserCompare(sort.orderBy, sort.direction, localeCompare))
    else []
  }

  /** Status and number: DESC lists them smallest first, and every other
      direction largest first. */
  lemma NumericColumnsOrder(users: seq<User>, sort: SortState, localeCompare: (string, string) -> int)
    requires sort.orderBy in {1, 4}
    ensures var key := if sort.orderBy == 1 then StatusKey() else NumberKey();
      var r := UsersToShow(users, sort, localeCompare);
      forall i, j :: 0 <= i < j < |r| ==>
        if sort.direction == DESC then key(r[i]) <= key(r[j]) else key(r[i]) >= key(r[j])
  {
    var key := if sort.orderBy == 1 then StatusKey() else NumberKey();
    var r := UsersToShow(users, sort, localeCompare);
    assert UserCompare(sort.orderBy, sort.direction, localeCompare) == KeyComparator(key, sort.direction != DESC);
    assert r == Sorted(users, KeyComparator(key, sort.direction != DESC));
    SortedByKey(users, key, sort.direction != DESC);
    assert forall i, j :: 0 <= i < j < |r| ==>
      if sort.direction != DESC then key(r[i]) >= key(r[j]) else key(r[i]) <= key(r[j]);
  }

  /** Names: with an antisymmetric localeCompare, neighbours are in
      localeCompare order under DESC and in reverse order otherwise. */
  lemma NameColumnOrder(users: seq<User>, sort: SortState, localeCompare: (string, string) -> int)
    requires sort.orderBy == 3
    requires Antisymmetric(localeCompare)
    ensures var r := UsersToShow(users, sort, localeCompare);
      forall i :: 0 < i < |r| ==>
        if sort.direction == DESC then localeCompare(r[i - 1].name, r[i].name) <= 0
        else localeCompare(r[i].name, r[i - 1].name) <= 0
  {
    var cmp := NameCompare(localeCompare, sort.direction);
    assert UserCompare(sort.orderBy, sort.direction, localeCompare) == cmp;
    assert Antisymmetric(cmp) by {
      forall a: User, b: User | cmp(a, b) > 0 ensures cmp(b, a) < 0 {
        if sort.direction == DESC {
          assert localeCompare(a.name, b.name) > 0;
        } else {
          assert localeCompare(b.name, a.name) > 0;
        }
      }
    }
    SortedOrdered(users, cmp);
  }

  /** Sorting never adds or loses a user. */
  lemma UsersToShowPermutes(users: seq<User>, sort: SortState, localeCompare: (string, string) -> int)
    requires sort.orderBy in {1, 3, 4}
    ensures multiset(UsersToShow(users, sort, localeCompare)) == multiset(users)
  {
    SortedPermutes(users, UserCompare(sort.orderBy, sort.direction, localeCompare));
  }

  /** `Math.ceil(users.length / 15)`, which is 0 for no users. */
  function PageCount(count: nat): nat
  {
    CeilDiv(count, ShowPerPage)
  }

  lemma PageCountBounds(count: nat)
    ensures PageCount(count) == 0 <==> count == 0
    ensures PageCount(count) * ShowPerPage >= count
    ensures PageCount(count) > 0 ==> (PageCount(count) - 1) * ShowPerPage < count
  {
    CeilDivBounds(count, ShowPerPage);
  }

  /** Page p, numbered from 1: `usersToShow.slice((p - 1) * 15, 15 * p)`. */
  function UsersToDisplay(shown: seq<User>, page: nat): (rows: seq<User>)
    requires page >= 1
    ensures |rows| <= ShowPerPage
    ensures rows == Paging.Page(shown, page - 1, ShowPerPage)
  {
    Slice(shown, (page - 1) * ShowPerPage, ShowPerPage * page)
  }

  /** The footer under the user's card. */
  datatype Footer = Nothing | EliminatedText | SignUpButton | VerifyButton

  function GetFooter(user: Option<User>, codes: StatusCodes): (f: Footer)
    requires DistinctCodes(codes)
    ensures f == Nothing <==> user.Some? && user.value.status == codes.rdy && user.value.isAlive
    ensures f == EliminatedText <==> user.Some? && user.value.status == codes.rdy && !user.value.isAlive
    ensures f == SignUpButton <==> user.Some? && user.value.status == codes.notSigned
    ensures f == VerifyButton <==> user.None? || (user.value.status != codes.rdy && user.value.status != codes.notSigned)
  {
    if user.Some? && user.value.status == codes.rdy then
      (if user.value.isAlive then Nothing else EliminatedText)
    else if user.Some? && user.value.status == codes.notSigned then SignUpButton
    else VerifyButton
  }

  /** The avatar cell of a row; any other status shows nothing. */
  datatype Avatar = OwnAvatar(src: string) | NotVerifiedIcon | NotSignedIcon

  function GetAvatar(user: User, codes: StatusCodes): (a: Option<Avatar>)
    requires DistinctCodes(codes)
    ensures a == Some(OwnAvatar(user.avatar)) <==> user.status == codes.rdy
    ensures a == Some(NotVerifiedIcon) <==> user.status == codes.notVerified
    ensures a == Some(NotSignedIcon) <==> user.status == codes.notSigned
    ensures a.None? <==> user.status !in {codes.rdy, codes.notVerified, codes.notSigned}
  {
    if user.status == codes.rdy then Some(OwnAvatar(user.avatar))
    else if user.status == codes.notVerified then Some(NotVerifiedIcon)
    else if user.status == codes.notSigned then Some(NotSignedIcon)
    else None
  }

  /** The intro's title; `now` and the sign-up deadline are milliseconds. */
  datatype Title = StartsWithStartButton | StartsWithCountdown | Ends | RoundStarts(roundLabel: int)

  function GetTitle(round: int, rounds: int, signUpPeriod: int, now: int): (t: Title)
    ensures t == StartsWithStartButton <==> round == 0 && signUpPeriod < now
    ensures t == StartsWithCountdown <==> round == 0 && signUpPeriod >= now
    ensures t == Ends <==> round != 0 && round == rounds
    ensures t.RoundStarts? <==> round != 0 && round != rounds
    ensures t.RoundStarts? ==> t.roundLabel == round + 1
  {
    if round == 0 then (if signUpPeriod < now then StartsWithStartButton else StartsWithCountdown)
    else if round == rounds then Ends
    else RoundStarts(round + 1)
  }

  /** The scoreboard's state. */
  class ScoreboardView {
    var users: array<User>
    var page: nat
    var sort: SortState

    ghost predicate Valid()
      reads this
    {
      page >= 1 && sort.orderBy in {1, 3, 4}
    }

    constructor(users: array<User>)
      ensures Valid()
      ensures this.users == users && page == 1 && sort == SortState(DefaultOrderBy, DESC)
    {
      this.users := users;
      page := 1;
      sort := SortState(DefaultOrderBy, DESC);
    }

    function MaxPages(): nat
      reads this
    {
      PageCount(users.Length)
    }

    /** The user list arrives from the Royale data source. */
    method SetUsers(fetched: array<User>)
      requires Valid()
      modifies this
      ensures Valid()
      ensures users == fetched && page == old(page) && sort == old(sort)
    {
      users := fetched;
    }

    /** A click on a sortable header steps the sort; a new column also goes
        back to page 1. */
    method ClickHeader(cell: HeadCell)
      requires Valid() && cell in HeadCells
      modifies this
      ensures Valid()
      ensures cell.sortable ==> sort == CalcDirection(old(sort), cell.id, DefaultOrderBy)
      ensures !cell.sortable ==> sort == old(sort)
      ensures page == (if cell.sortable && old(sort).orderBy != cell.id then 1 else old(page))
      ensures users == old(users)
    {
      if cell.sortable {
        if sort.orderBy == cell.id {
          match sort.direction {
            case NONE => sort := sort.(direction := DESC);
            case DESC => sort := sort.(direction := ASC);
            case ASC => sort := SortState(DefaultOrderBy, DESC);
          }
        } else {
          sort := SortState(cell.id, DESC);
          page := 1;
        }
      }
    }

    /** The previous arrow: nothing on page 1, else one page back. */
    method Previous()
      requires Valid()
      modifies this
      ensures Valid()
      ensures page == PreviousPage(old(page))
      ensures users == old(users) && sort == old(sort)
    {
      if page > 1 {
        page := page - 1;
      }
    }

    /** The next arrow: nothing when the page equals the page count, else one
        page on. The test is equality, so with no users (zero pages) the arrow
        never stops. */
    method Next()
      requires Valid()
      modifies this
      ensures Valid()
      ensures page == NextPage(old(page), MaxPages())
      ensures users == old(users) && sort == old(sort)
    {
      if page != MaxPages() {
        page := page + 1;
      }
    }

    /** One render: a sortable column sorts the array in place; the page
        shown is cut from the sorted users. */
    method Render(localeCompare: (string, string) -> int) returns (display: seq<User>)
      requires Valid()
      modifies users
      ensures users[..] == UsersToShow(old(users[..]), sort, localeCompare)
      ensures display == UsersToDisplay(users[..], page)
    {
      SortInPlace(users, UserCompare(sort.orderBy, sort.direction, localeCompare));
      display := UsersToDisplay(users[..], page);
    }
  }

  /** The page the previous arrow leads to: none before page 1. */
  function PreviousPage(page: nat): nat
  {
    if page <= 1 then page else page - 1
  }

  /** The page the next arrow leads to. The test is `page === maxPages`, not
      `>=`, so a page past the count keeps moving on. */
  function NextPage(page: nat, maxPages: nat): nat
  {
    if page == maxPages then page else page + 1
  }

  /** The page after k presses of the next arrow. */
  function NextPresses(page: nat, maxPages: nat, k: nat): nat
    decreases k
  {
    if k == 0 then page else NextPresses(NextPage(page, maxPages), maxPages, k - 1)
  }

  /** Next then previous returns to the page it started from, unless next was
      already a no-op on the last page. */
  lemma NextThenPrevious(page: nat, maxPages: nat)
    requires page >= 1 && page != maxPages
    ensures PreviousPage(NextPage(page, maxPages)) == page
  {
  }

  /** Previous then next returns to the page it started from, on any page
      after the first within the count. */
  lemma PreviousThenNext(page: nat, maxPages: nat)
    requires 1 < page <= maxPages
    ensures NextPage(PreviousPage(page), maxPages) == page
  {
  }

  /** Within the page count, next never passes the last page. */
  lemma NextStaysWithinPages(page: nat, maxPages: nat)
    requires 1 <= page <= maxPages
    ensures 1 <= NextPage(page, maxPages) <= maxPages
  {
  }

  /** Within the count, k presses of next move k pages on and then stop at
      the last page. */
  lemma {:induction false} NextPressesStopAtLast(page: nat, maxPages: nat, k: nat)
    requires page <= maxPages
    ensures NextPresses(page, maxPages, k) == if page + k <= maxPages then page + k else maxPages
    decreases k
  {
    if k > 0 {
      NextPressesStopAtLast(NextPage(page, maxPages), maxPages, k - 1);
    }
  }

  /** With no users there are no pages: from page 1 the next arrow never
      stops, and k presses lead to page 1 + k. */
  lemma {:induction false} NextPastEmptyBoard(page: nat, k: nat)
    requires page >= 1
    ensures PageCount(0) == 0
    ensures NextPresses(page, PageCount(0), k) == page + k
    decreases k
  {
    if k > 0 {
      NextPastEmptyBoard(page + 1, k - 1);
    }
  }
}
