/** The leaderboard table: the query's leaderboard array is sorted in place by
    volume on every render and then by the chosen column; the rows are ranked,
    filtered by the search string and cut into pages. */
module LeaderboardTable {
  import opened Common
  import opened StableSort
  import opened Paging
  import opened SortHeader

  /** The volume column. */
  const DefaultOrderBy := 6
  const InitialRowsPerPage := 15

  datatype Leader = Leader(walletAddress: string, trades: real, volume: real,
                           netProfit: real, investment: real, gain: real)

  datatype RankedLeader = RankedLeader(rank: int, leader: Leader)

  datatype HeadCell = HeadCell(id: int, sortable: bool)

  /** The table's header: columns 1 to 9, of which 5 to 9 sort. */
  const HeadCells: seq<HeadCell> :=
    [HeadCell(1, false), HeadCell(2, false), HeadCell(3, false), HeadCell(4, false),
     HeadCell(5, true), HeadCell(6, true), HeadCell(7, true), HeadCell(8, true), HeadCell(9, true)]

  /** The page sizes the pagination offers. */
  const RowsPerPageOptions: set<nat> := {5, 10, 15, 20, 30, 50}

  /** The metric a sortable column shows. */
  function Column(orderBy: int): Leader -> real
    requires 5 <= orderBy <= 9
  {
    match orderBy
    case 5 => (l: Leader) => l.trades
    case 6 => (l: Leader) => l.volume
    case 7 => (l: Leader) => l.netProfit
    case 8 => (l: Leader) => l.investment
    case 9 => (l: Leader) => l.gain
  }

  /** The render-time sort `(a, b) => b.volume - a.volume`. */
  function VolumeDesc(): (Leader, Leader) -> int
  {
    KeyComparator((l: Leader) => l.volume, true)
  }

  /** The column sort: descending or ascending on columns 5 to 9, and a
      comparator that ties everything for any other column or direction. */
  function LeaderCompare(orderBy: int, direction: OrderDirection): (Leader, Leader) -> int
  {
    if 5 <= orderBy <= 9 && direction == DESC then KeyComparator(Column(orderBy), true)
    else if 5 <= orderBy <= 9 && direction == ASC then KeyComparator(Column(orderBy), false)
    else Unsorted()
  }

  /** The two sorts a render applies, one after the other, to the array. */
  function Arranged(s: seq<Leader>, sort: SortState): seq<Leader>
  {
    Sorted(Sorted(s, VolumeDesc()), LeaderCompare(sort.orderBy, sort.direction))
  }

  /** Under DESC the chosen column never increases down the table; under ASC
      it never decreases; any other sort leaves the volume order as it is. */
  lemma ArrangedOrder(s: seq<Leader>, sort: SortState)
    ensures var r := Arranged(s, sort);
      if 5 <= sort.orderBy <= 9 && sort.direction != NONE then
        forall i, j :: 0 <= i < j < |r| ==>
          if sort.direction == DESC then Column(sort.orderBy)(r[i]) >= Column(sort.orderBy)(r[j])
          else Column(sort.orderBy)(r[i]) <= Column(sort.orderBy)(r[j])
      else r == Sorted(s, VolumeDesc())
  {
    var v := Sorted(s, VolumeDesc());
    if 5 <= sort.orderBy <= 9 && sort.direction != NONE {
      var key := Column(sort.orderBy);
      var r := Arranged(s, sort);
      assert LeaderCompare(sort.orderBy, sort.direction) == KeyComparator(key, sort.direction == DESC);
      assert r == Sorted(v, KeyComparator(key, sort.direction == DESC));
      SortedByKey(v, key, sort.direction == DESC);
      assert forall i, j :: 0 <= i < j < |r| ==>
        if sort.direction == DESC then key(r[i]) >= key(r[j]) else key(r[i]) <= key(r[j]);
    } else {
      UnsortedIdentity(v);
    }
  }

  /** Rows tied on the chosen column keep the volume order of the first sort:
      the table breaks ties by volume, descending. */
  lemma ArrangedTiesByVolume(s: seq<Leader>, sort: SortState, e: Leader)
    ensures var cmp := LeaderCompare(sort.orderBy, sort.direction);
      OrderedAll(Filter(Arranged(s, sort), TiesWith(cmp, e)), VolumeDesc())
  {
    var cmp := LeaderCompare(sort.orderBy, sort.direction);
    var v := Sorted(s, VolumeDesc());
    if 5 <= sort.orderBy <= 9 && sort.direction != NONE {
      KeyComparatorConsistent(Column(sort.orderBy), sort.direction == DESC);
    }
    SortedStable(v, cmp, e);
    KeyComparatorConsistent((l: Leader) => l.volume, true);
    SortedOrdered(s, VolumeDesc());
    OrderedAllFromOrdered(v, VolumeDesc());
    FilterOrderedAll(v, VolumeDesc(), TiesWith(cmp, e));
  }

  /** The rank of the row at index i of n rows. */
  function RankAt(i: nat, n: nat, direction: OrderDirection): int
  {
    if direction == DESC then i + 1 else n - i
  }

  /** Ranks are assigned to the sorted rows before filtering. */
  function Rank(sorted: seq<Leader>, direction: OrderDirection): (r: seq<RankedLeader>)
    ensures |r| == |sorted|
    ensures forall i :: 0 <= i < |r| ==> r[i].leader == sorted[i]
    ensures forall i :: 0 <= i < |r| ==> 1 <= r[i].rank <= |r|
    ensures forall i, j :: 0 <= i < j < |r| ==> r[i].rank != r[j].rank
  {
    seq(|sorted|, i requires 0 <= i < |sorted| => RankedLeader(RankAt(i, |sorted|, direction), sorted[i]))
  }

  /** The index that gets rank k of n. */
  function IndexOfRank(k: int, n: nat, direction: OrderDirection): int
  {
    if direction == DESC then k - 1 else n - k
  }

  /** Every rank 1 .. n is given, to the row at IndexOfRank: with the
      distinctness Rank ensures, the ranks are a permutation of 1 .. n. */
  lemma RanksArePermutation(sorted: seq<Leader>, direction: OrderDirection)
    ensures var r := Rank(sorted, direction);
      forall k :: 1 <= k <= |r| ==>
        0 <= IndexOfRank(k, |r|, direction) < |r| && r[IndexOfRank(k, |r|, direction)].rank == k
  {
  }

  /** The search: an empty string keeps every row; otherwise the address
      contains the search, ignoring case, or the row's display name is set and
      contains it. */
  predicate Matches(row: RankedLeader, search: string, displayNames: map<string, string>)
  {
    var address := row.leader.walletAddress;
    search == ""
    || Contains(Lower(address), Lower(search))
    || (address in displayNames && displayNames[address] != ""
        && Contains(Lower(displayNames[address]), Lower(search)))
  }

  function SearchFilter(rows: seq<RankedLeader>, search: string, displayNames: map<string, string>): (r: seq<RankedLeader>)
    ensures forall i :: 0 <= i < |r| ==> r[i] in rows && Matches(r[i], search, displayNames)
    ensures forall i :: 0 <= i < |rows| && Matches(rows[i], search, displayNames) ==> rows[i] in r
  {
    Filter(rows, (row: RankedLeader) => Matches(row, search, displayNames))
  }

  /** With an empty search every row is kept, in order. */
  lemma {:induction false} EmptySearchKeepsAll(rows: seq<RankedLeader>, displayNames: map<string, string>)
    ensures SearchFilter(rows, "", displayNames) == rows
  {
    if rows != [] {
      EmptySearchKeepsAll(rows[1..], displayNames);
      assert [rows[0]] + rows[1..] == rows;
    }
  }

  /** The rows of the shown page. */
  function LeaderboardData(arranged: seq<Leader>, direction: OrderDirection, search: string,
                           displayNames: map<string, string>, page: nat, rowsPerPage: nat): seq<RankedLeader>
  {
    Page(SearchFilter(Rank(arranged, direction), search, displayNames), page, rowsPerPage)
  }

  /** Every shown row is a ranked row of the whole table that matches the
      search: filtering and paging never change a rank. */
  lemma DataRowsKeepRank(arranged: seq<Leader>, direction: OrderDirection, search: string,
                         displayNames: map<string, string>, page: nat, rowsPerPage: nat)
    ensures var data := LeaderboardData(arranged, direction, search, displayNames, page, rowsPerPage);
      |data| <= rowsPerPage &&
      forall k :: 0 <= k < |data| ==>
        Matches(data[k], search, displayNames) &&
        exists i :: 0 <= i < |arranged| && data[k] == RankedLeader(RankAt(i, |arranged|, direction), arranged[i])
  {
    var ranked := Rank(arranged, direction);
    var filtered := SearchFilter(ranked, search, displayNames);
    var data := Page(filtered, page, rowsPerPage);
    forall k | 0 <= k < |data|
      ensures Matches(data[k], search, displayNames)
      ensures exists i :: 0 <= i < |arranged| && data[k] == RankedLeader(RankAt(i, |arranged|, direction), arranged[i])
    {
      assert data[k] in filtered;
      var m :| 0 <= m < |filtered| && filtered[m] == data[k];
      var i :| 0 <= i < |ranked| && ranked[i] == filtered[m];
      assert data[k] == RankedLeader(RankAt(i, |arranged|, direction), arranged[i]);
    }
  }

  /** The highlighted rows: those of the connected wallet, ignoring case. */
  function OwnRows(rows: seq<RankedLeader>, walletAddress: string): (r: seq<RankedLeader>)
    ensures forall i :: 0 <= i < |r| ==> r[i] in rows && SameIgnoringCase(r[i].leader.walletAddress, walletAddress)
    ensures forall i :: 0 <= i < |rows| && SameIgnoringCase(rows[i].leader.walletAddress, walletAddress) ==> rows[i] in r
  {
    Filter(rows, (row: RankedLeader) => SameIgnoringCase(row.leader.walletAddress, walletAddress))
  }

  /** The rank cell's height: the podium is taller. */
  function Height(rank: int): (h: int)
    ensures rank == 1 ==> h == 160
    ensures rank == 2 ==> h == 130
    ensures rank == 3 ==> h == 100
    ensures rank !in {1, 2, 3} ==> h == 75
  {
    match rank
    case 1 => 160
    case 2 => 130
    case 3 => 100
    case _ => 75
  }

  /** The heights never increase with the rank. */
  lemma HeightNonIncreasing(a: int, b: int)
    requires 1 <= a <= b
    ensures Height(a) >= Height(b)
  {
  }

  /** The table's state: the leaderboard array it sorts and the page, page
      size, sort and search it keeps. */
  class LeaderboardView {
    var board: array<Leader>
    var page: nat
    var rowsPerPage: nat
    var sort: SortState
    var searchString: string

    ghost predicate Valid()
      reads this
    {
      rowsPerPage in RowsPerPageOptions
    }

    constructor(board: array<Leader>)
      ensures Valid()
      ensures this.board == board && page == 0 && rowsPerPage == InitialRowsPerPage
      ensures sort == SortState(DefaultOrderBy, DESC) && searchString == ""
    {
      this.board := board;
      page := 0;
      rowsPerPage := InitialRowsPerPage;
      sort := SortState(DefaultOrderBy, DESC);
      searchString := "";
    }

    /** `Math.ceil(leaderboard.length / rowsPerPage) || 1`, on the whole board
        whatever the search keeps. */
    function NumberOfPages(): nat
      requires Valid()
      reads this
    {
      Paging.NumberOfPages(board.Length, rowsPerPage)
    }

    /** The page actually shown: the requested one, clamped to the last. */
    function ShownPage(): (shown: nat)
      requires Valid()
      reads this
      ensures shown < NumberOfPages() && shown <= page
    {
      Paging.ShownPage(page, NumberOfPages())
    }

    method ChangePage(newPage: nat)
      requires Valid()
      modifies this
      ensures Valid()
      ensures page == newPage
      ensures board == old(board) && rowsPerPage == old(rowsPerPage)
      ensures sort == old(sort) && searchString == old(searchString)
    {
      page := newPage;
    }

    /** A new page size goes back to the first page. */
    method ChangeRowsPerPage(rows: nat)
      requires Valid() && rows in RowsPerPageOptions
      modifies this
      ensures Valid()
      ensures rowsPerPage == rows && page == 0
      ensures board == old(board) && sort == old(sort) && searchString == old(searchString)
    {
      rowsPerPage := rows;
      page := 0;
    }

    method SetSearch(search: string)
      requires Valid()
      modifies this
      ensures Valid()
      ensures searchString == search
      ensures board == old(board) && page == old(page) && rowsPerPage == old(rowsPerPage) && sort == old(sort)
    {
      searchString := search;
    }

    /** A click on a sortable header steps the sort; a new column also goes
        back to the first page. Other headers ignore clicks. */
    method ClickHeader(cell: HeadCell)
      requires Valid() && cell in HeadCells
      modifies this
      ensures Valid()
      ensures cell.sortable ==> sort == CalcDirection(old(sort), cell.id, DefaultOrderBy)
      ensures !cell.sortable ==> sort == old(sort)
      ensures page == (if cell.sortable && old(sort).orderBy != cell.id then 0 else old(page))
      ensures board == old(board) && rowsPerPage == old(rowsPerPage) && searchString == old(searchString)
    {
      if cell.sortable {
        if sort.orderBy == cell.id {
          match sort.direction {
            case NONE => sort := sort.(direction := DESC);
            case DESC => sort := sort.(direction := ASC);
            case ASC => sort := SortState(DefaultOrderBy, DESC);
          }
        } else {
          sort := SortState(cell.id, DESC);
          page := 0;
        }
      }
    }

    /** One render: the array is sorted in place by volume and then by the
        chosen column; the shown rows and the highlighted rows are returned. */
    method Render(walletAddress: string, displayNames: map<string, string>)
      returns (data: seq<RankedLeader>, own: seq<RankedLeader>)
      requires Valid()
      modifies board
      ensures board[..] == Arranged(old(board[..]), sort)
      ensures data == LeaderboardData(board[..], sort.direction, searchString, displayNames, ShownPage(), rowsPerPage)
      ensures own == OwnRows(data, walletAddress)
    {
      SortInPlace(board, VolumeDesc());
      SortInPlace(board, LeaderCompare(sort.orderBy, sort.direction));
      var ranked := Rank(board[..], sort.direction);
      var filtered := SearchFilter(ranked, searchString, displayNames);
      data := Page(filtered, ShownPage(), rowsPerPage);
      own := OwnRows(data, walletAddress);
    }
  }

  /** The sort state only ever holds a sortable column or the default one,
      and never NONE once a header was clicked. */
  lemma ClickKeepsSortableColumn(s: SortState, cell: HeadCell)
    requires cell in HeadCells && cell.sortable
    requires 5 <= s.orderBy <= 9
    ensures var r := CalcDirection(s, cell.id, DefaultOrderBy);
      5 <= r.orderBy <= 9 && r.direction != NONE
  {
  }
}
