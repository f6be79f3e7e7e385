/** The header-click machine the three tables share: a click on the column
    already sorted steps its direction NONE -> DESC -> ASC, and a click on
    ASC falls back to the table's default column, descending; a click on
    another column sorts it descending. */
module SortHeader {

  datatype OrderDirection = NONE | ASC | DESC

  datatype SortState = SortState(orderBy: int, direction: OrderDirection)

  /** `calcDirection` without its page effect, for a table whose default
      column is defaultOrderBy. */
  function CalcDirection(s: SortState, cell: int, defaultOrderBy: int): (r: SortState)
    ensures r.direction != NONE
    ensures s.orderBy != cell ==> r == SortState(cell, DESC)
    ensures r.direction == ASC <==> s.orderBy == cell && s.direction == DESC
    ensures r.orderBy == cell || r.orderBy == defaultOrderBy
  {
    if s.orderBy == cell then
      match s.direction
      case NONE => SortState(s.orderBy, DESC)
      case DESC => SortState(s.orderBy, ASC)
      case ASC => SortState(defaultOrderBy, DESC)
    else
      SortState(cell, DESC)
  }

  /** Every click changes the sort: the column or the direction. */
  lemma ClickChangesState(s: SortState, cell: int, defaultOrderBy: int)
    ensures CalcDirection(s, cell, defaultOrderBy) != s
  {
  }

  /** Starting from a descending sort on a column, two more clicks on it
      return to the default column, descending. */
  lemma TwoClicksRestoreDefault(cell: int, defaultOrderBy: int)
    ensures var once := CalcDirection(SortState(cell, DESC), cell, defaultOrderBy);
      CalcDirection(once, cell, defaultOrderBy) == SortState(defaultOrderBy, DESC)
  {
  }

  /** On the default column, the clicks cycle with period two. */
  lemma DefaultColumnCycles(s: SortState, defaultOrderBy: int)
    requires s.orderBy == defaultOrderBy && s.direction != NONE
    ensures var once := CalcDirection(s, defaultOrderBy, defaultOrderBy);
      CalcDirection(once, defaultOrderBy, defaultOrderBy) == s
  {
  }
}
