/** The reference table loaded from the engine dataset and the match of a reading
    against it: same rounded engine speed, coolant temperature within two degrees. */
module ReferenceTable {
  import opened Wrappers
  import opened Catalog
  import opened Rounding

  /** One dataset row: the "Engine rpm", "Coolant temp" and "Engine Condition" columns. */
  datatype Row = Row(rpm: real, coolTemp: real, condition: Label)

  /** The boolean mask of the query: rounded speeds equal, and the row's coolant
      temperature in the closed window [coolTemp - 2, coolTemp + 2]. */
  predicate Matches(row: Row, rpm: real, coolTemp: real) {
    && RoundHalfEven(row.rpm) == RoundHalfEven(rpm)
    && coolTemp - 2.0 <= row.coolTemp <= coolTemp + 2.0
  }

  /** The position of the first row, in table order, that matches; None when no row does. */
  function FirstMatch(table: seq<Row>, rpm: real, coolTemp: real): (r: Option<nat>)
    ensures r.Some? ==> r.value < |table| && Matches(table[r.value], rpm, coolTemp)
    ensures r.Some? ==> forall k :: 0 <= k < r.value ==> !Matches(table[k], rpm, coolTemp)
    ensures r.None? <==> forall k :: 0 <= k < |table| ==> !Matches(table[k], rpm, coolTemp)
  {
    if table == [] then None
    else if Matches(table[0], rpm, coolTemp) then Some(0)
    else
      match FirstMatch(table[1..], rpm, coolTemp)
      case None => None
      case Some(k) => Some(k + 1)
  }

  /** The label of the first matching row, if any. */
  function TableCondition(table: seq<Row>, rpm: real, coolTemp: real): Option<Label> {
    match FirstMatch(table, rpm, coolTemp)
    case None => None
    case Some(k) => Some(table[k].condition)
  }

  /** The rows the mask keeps, in table order (`data[mask]`). */
  function Filter(table: seq<Row>, rpm: real, coolTemp: real): (rows: seq<Row>)
    ensures |rows| <= |table|
    ensures forall row :: row in rows <==> row in table && Matches(row, rpm, coolTemp)
  {
    if table == [] then []
    else if Matches(table[0], rpm, coolTemp) then [table[0]] + Filter(table[1..], rpm, coolTemp)
    else Filter(table[1..], rpm, coolTemp)
  }

  /** The mask works row by row and keeps table order: filtering two stretches of the
      table one after the other is filtering the whole, and a single row is kept exactly
      when it matches. */
  lemma {:induction false} FilterKeepsOrder(a: seq<Row>, b: seq<Row>, rpm: real, coolTemp: real)
    ensures Filter(a + b, rpm, coolTemp) == Filter(a, rpm, coolTemp) + Filter(b, rpm, coolTemp)
    ensures forall row :: Filter([row], rpm, coolTemp) == if Matches(row, rpm, coolTemp) then [row] else []
  {
    if a != [] {
      assert (a + b)[0] == a[0] && (a + b)[1..] == a[1..] + b;
      FilterKeepsOrder(a[1..], b, rpm, coolTemp);
    } else {
      assert a + b == b;
    }
    forall row ensures Filter([row], rpm, coolTemp) == if Matches(row, rpm, coolTemp) then [row] else [] {
      assert [row][1..] == [];
    }
  }

  /** Filter-then-first, as the source does it, is the first-match search: the filtered
      rows are empty exactly when the search finds nothing, and otherwise the first of
      them is the row the search finds. */
  lemma {:induction false} FilterThenFirst(table: seq<Row>, rpm: real, coolTemp: real)
    ensures Filter(table, rpm, coolTemp) == [] <==> FirstMatch(table, rpm, coolTemp).None?
    ensures FirstMatch(table, rpm, coolTemp).Some? ==>
      Filter(table, rpm, coolTemp)[0] == table[FirstMatch(table, rpm, coolTemp).value]
    ensures TableCondition(table, rpm, coolTemp).Some? ==>
      TableCondition(table, rpm, coolTemp).value == Filter(table, rpm, coolTemp)[0].condition
  {
    if table != [] && !Matches(table[0], rpm, coolTemp) {
      FilterThenFirst(table[1..], rpm, coolTemp);
    }
  }

  /** Only the rounded speed matters: two speeds that round alike find the same row. */
  lemma SameRoundingSameMatch(table: seq<Row>, rpm: real, rpm': real, coolTemp: real)
    requires RoundHalfEven(rpm) == RoundHalfEven(rpm')
    ensures FirstMatch(table, rpm, coolTemp) == FirstMatch(table, rpm', coolTemp)
  {
    assert forall row :: Matches(row, rpm, coolTemp) == Matches(row, rpm', coolTemp);
  }

  /** The coolant window is closed at both ends. */
  lemma WindowInclusive(row: Row, rpm: real, coolTemp: real)
    requires RoundHalfEven(row.rpm) == RoundHalfEven(rpm)
    requires row.coolTemp == coolTemp + 2.0 || row.coolTemp == coolTemp - 2.0
    ensures Matches(row, rpm, coolTemp)
  {
  }

  /** A row at speed 699.6 and 97 degrees answers a query at 700 and 95: the speed rounds
      to 700 and 97 lies on the upper edge of the window. */
  lemma MatchExample()
    ensures TableCondition([Row(699.6, 97.0, Code(1))], 700.0, 95.0) == Some(Code(1))
  {
    HalfEvenRoundingUnique(699.6, 700);
    HalfEvenRoundingUnique(700.0, 700);
    assert Matches(Row(699.6, 97.0, Code(1)), 700.0, 95.0);
  }
}
