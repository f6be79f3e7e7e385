/** The profile's exercises table: the exercises array it is given is sorted
    in place on the chosen column through comparators the profile page
    supplies, and one page of it is shown. The page goes back to the first
    whenever the sort changes. */
module UserExercisesTable {
  import opened Common
  import opened StableSort
  import opened Paging
  import opened SortHeader

  /** The date column. */
  const DefaultOrderBy := 1
  const InitialRowsPerPage := 10
  const RowsPerPageOptions: set<nat> := {5, 10, 15, 20, 30, 50}

  /** An exercise; its other fields are only displayed. */
  datatype Exercise = Exercise(market: string, timestamp: int, side: int, amount: real)

  /** A market of the markets list; its heading is read only by the supplied
      comparator. */
  datatype Market = Market(address: string, heading: string)

  /** The field names `sortByField` receives. */
  datatype Field = Timestamp | Side | Amount

  datatype HeadCell = HeadCell(id: int, sortable: bool)

  const HeadCells: seq<HeadCell> :=
    [HeadCell(1, true), HeadCell(2, true), HeadCell(3, true), HeadCell(4, true), HeadCell(5, false)]

  /** `marketsData.filter(m => m.address === address)[0]`: the first market
      with that address, or undefined. */
  function MarketOf(markets: seq<Market>, address: string): (m: Option<Market>)
    ensures m.Some? ==> m.value in markets && m.value.address == address
    ensures m.None? ==> forall i :: 0 <= i < |markets| ==> markets[i].address != address
  {
    if markets == [] then None
    else if markets[0].address == address then Some(markets[0])
    else MarketOf(markets[1..], address)
  }

  /** The first match really is the first: no earlier market has the address. */
  lemma {:induction false} MarketOfIsFirst(markets: seq<Market>, address: string)
    ensures var m := MarketOf(markets, address);
      m.Some? ==>
        (exists k :: 0 <= k < |markets| && markets[k] == m.value &&
                     (forall i :: 0 <= i < k ==> markets[i].address != address))
  {
    if markets != [] && markets[0].address != address {
      MarketOfIsFirst(markets[1..], address);
      var m := MarketOf(markets, address);
      if m.Some? {
        var k :| 0 <= k < |markets[1..]| && markets[1..][k] == m.value &&
          (forall i :: 0 <= i < k ==> markets[1..][i].address != address);
        assert markets[k + 1] == m.value;
        assert forall i :: 0 <= i < k + 1 ==> markets[i].address != address by {
          forall i | 0 <= i < k + 1 ensures markets[i].address != address {
            if i > 0 { assert markets[i] == markets[1..][i - 1]; }
          }
        }
      }
    } else if markets != [] {
      assert markets[0] == MarketOf(markets, address).value;
    }
  }

  /** The comparator of the current sort, built from the supplied
      `sortByField` and `sortByMarketHeading`; any other column ties. */
  function ExerciseCompare(orderBy: int, direction: OrderDirection,
                           sortByField: (Exercise, Exercise, OrderDirection, Field) -> int,
                           sortByMarketHeading: (Option<Market>, Option<Market>, OrderDirection) -> int,
                           markets: seq<Market>): (Exercise, Exercise) -> int
  {
    (a: Exercise, b: Exercise) =>
      if orderBy == 1 then sortByField(a, b, direction, Timestamp)
      else if orderBy == 2 then sortByMarketHeading(MarketOf(markets, a.market), MarketOf(markets, b.market), direction)
      else if orderBy == 3 then sortByField(a, b, direction, Side)
      else if orderBy == 4 then sortByField(a, b, direction, Amount)
      else 0
  }

  /** A column without a sort leaves the exercises in the order given. */
  lemma OtherColumnKeepsOrder(exercises: seq<Exercise>, orderBy: int, direction: OrderDirection,
                              sortByField: (Exercise, Exercise, OrderDirection, Field) -> int,
                              sortByMarketHeading: (Option<Market>, Option<Market>, OrderDirection) -> int,
                              markets: seq<Market>)
    requires orderBy !in {1, 2, 3, 4}
    ensures Sorted(exercises, ExerciseCompare(orderBy, direction, sortByField, sortByMarketHeading, markets)) == exercises
  {
    SortedIdentity(exercises, ExerciseCompare(orderBy, direction, sortByField, sortByMarketHeading, markets));
  }

  /** The shown page of the sorted exercises. */
  function SortedExercises(sorted: seq<Exercise>, shownPage: nat, rowsPerPage: nat): (rows: seq<Exercise>)
    ensures |rows| <= rowsPerPage
    ensures forall i :: 0 <= i < |rows| ==> rows[i] in sorted
  {
    Page(sorted, shownPage, rowsPerPage)
  }

  class ExercisesView {
    var exercises: array<Exercise>
    var sort: SortState
    var page: nat
    var rowsPerPage: nat

    ghost predicate Valid()
      reads this
    {
      rowsPerPage in RowsPerPageOptions
    }

    constructor(exercises: array<Exercise>)
      ensures Valid()
      ensures this.exercises == exercises && sort == SortState(DefaultOrderBy, DESC)
      ensures page == 0 && rowsPerPage == InitialRowsPerPage
    {
      this.exercises := exercises;
      sort := SortState(DefaultOrderBy, DESC);
      page := 0;
      rowsPerPage := InitialRowsPerPage;
    }

    /** `Math.ceil(usersExercises.length / rowsPerPage) || 1`. */
    function NumberOfPages(): (pages: nat)
      requires Valid()
      reads this
      ensures pages >= 1
    {
      Paging.NumberOfPages(exercises.Length, rowsPerPage)
    }

    method ChangePage(newPage: nat)
      requires Valid()
      modifies this
      ensures Valid()
      ensures page == newPage && sort == old(sort) && rowsPerPage == old(rowsPerPage) && exercises == old(exercises)
    {
      page := newPage;
    }

    method ChangeRowsPerPage(rows: nat)
      requires Valid() && rows in RowsPerPageOptions
      modifies this
      ensures Valid()
      ensures rowsPerPage == rows && page == 0 && sort == old(sort) && exercises == old(exercises)
    {
      rowsPerPage := rows;
      page := 0;
    }

    /** A click on a sortable header steps the sort; the effect on the sort
        then resets the page, and every click changes the sort. */
    method ClickHeader(cell: HeadCell)
      requires Valid() && cell in HeadCells
      modifies this
      ensures Valid()
      ensures cell.sortable ==> sort == CalcDirection(old(sort), cell.id, DefaultOrderBy) && page == 0
      ensures !cell.sortable ==> sort == old(sort) && page == old(page)
      ensures rowsPerPage == old(rowsPerPage) && exercises == old(exercises)
    {
      var before := sort;
      if cell.sortable {
        sort := CalcDirection(sort, cell.id, DefaultOrderBy);
        ClickChangesState(before, cell.id, DefaultOrderBy);
      }
      if sort != before {
        page := 0;
      }
    }

    /** The mobile sort picker: a non-zero choice becomes the column, zero the
        default column; a changed sort resets the page. */
    method SetMobileSort(mobileSort: int)
      requires Valid()
      modifies this
      ensures Valid()
      ensures sort == SortState(if mobileSort != 0 then mobileSort else DefaultOrderBy, old(sort).direction)
      ensures page == (if sort != old(sort) then 0 else old(page))
      ensures rowsPerPage == old(rowsPerPage) && exercises == old(exercises)
    {
      var before := sort;
      sort := sort.(orderBy := if mobileSort != 0 then mobileSort else DefaultOrderBy);
      if sort != before {
        page := 0;
      }
    }

    /** One render: the array is sorted in place and the shown page cut. */
    method Render(sortByField: (Exercise, Exercise, OrderDirection, Field) -> int,
                  sortByMarketHeading: (Option<Market>, Option<Market>, OrderDirection) -> int,
                  markets: seq<Market>) returns (rows: seq<Exercise>)
      requires Valid()
      modifies exercises
      ensures exercises[..] == Sorted(old(exercises[..]),
        ExerciseCompare(sort.orderBy, sort.direction, sortByField, sortByMarketHeading, markets))
      ensures rows == SortedExercises(exercises[..], Paging.ShownPage(page, NumberOfPages()), rowsPerPage)
    {
      SortInPlace(exercises, ExerciseCompare(sort.orderBy, sort.direction, sortByField, sortByMarketHeading, markets));
      rows := SortedExercises(exercises[..], Paging.ShownPage(page, NumberOfPages()), rowsPerPage);
    }
  }
}
