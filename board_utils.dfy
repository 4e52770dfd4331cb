/** `getBoardCoordinates`: the board's addressing scheme. The column of a question is
    the position of its category in `Categories`, its row the position of its point
    tier in `PointValues`. */
module BoardUtils {
  import opened Wrappers
  import opened Js
  import opened Questions

  datatype Coordinates = Coordinates(row: int, col: int)

  datatype CoordinateError = InvalidCategory(category: string) | InvalidPoints(points: int)

  /** Both lookups happen first; the category is checked before the points, so a
      call with two bad arguments reports the category. */
  function GetBoardCoordinates(category: string, points: int): (r: Result<Coordinates, CoordinateError>)
    ensures category !in Categories ==> r == Failure(InvalidCategory(category))
    ensures category in Categories && points !in PointValues ==> r == Failure(InvalidPoints(points))
    ensures r.Success? <==> category in Categories && points in PointValues
    ensures r.Success? ==>
      && 0 <= r.value.row < |PointValues| && 0 <= r.value.col < |Categories|
      && Categories[r.value.col] == category && PointValues[r.value.row] == points
  {
    var colIndex := IndexOf(Categories, category);
    var rowIndex := IndexOf(PointValues, points);
    if colIndex == -1 then Failure(InvalidCategory(category))
    else if rowIndex == -1 then Failure(InvalidPoints(points))
    else Success(Coordinates(rowIndex, colIndex))
  }

  /** Every cell of the 5x5 grid is the image of exactly the pair found in that
      column of `Categories` and that row of `PointValues`. */
  lemma CoordinatesOnto(row: int, col: int)
    requires 0 <= row < 5 && 0 <= col < 5
    ensures GetBoardCoordinates(Categories[col], PointValues[row]) == Success(Coordinates(row, col))
  {
    CategoriesDistinct();
    PointValuesIncreasing();
  }

  /** Distinct valid (category, points) pairs land on distinct cells. */
  lemma CoordinatesInjective(c1: string, p1: int, c2: string, p2: int)
    requires GetBoardCoordinates(c1, p1).Success? && GetBoardCoordinates(c2, p2).Success?
    requires GetBoardCoordinates(c1, p1) == GetBoardCoordinates(c2, p2)
    ensures c1 == c2 && p1 == p2
  {
  }

  /** The mapping restricted to the configured pairs is a bijection onto
      [0,4] x [0,4]. */
  lemma CoordinatesBijective()
    ensures forall c, p :: c in Categories && p in PointValues ==>
      var r := GetBoardCoordinates(c, p);
      r.Success? && 0 <= r.value.row < 5 && 0 <= r.value.col < 5
    ensures forall row, col :: 0 <= row < 5 && 0 <= col < 5 ==>
      GetBoardCoordinates(Categories[col], PointValues[row]) == Success(Coordinates(row, col))
    ensures forall c1, p1, c2, p2 ::
      (c1 in Categories && p1 in PointValues && c2 in Categories && p2 in PointValues
       && GetBoardCoordinates(c1, p1) == GetBoardCoordinates(c2, p2)) ==> c1 == c2 && p1 == p2
  {
    CategoriesDistinct();
    PointValuesIncreasing();
    forall row, col | 0 <= row < 5 && 0 <= col < 5
      ensures GetBoardCoordinates(Categories[col], PointValues[row]) == Success(Coordinates(row, col))
    {
      CoordinatesOnto(row, col);
    }
  }
}
