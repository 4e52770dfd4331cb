/** The board view (src/components/GameBoard.tsx): one button per question, rows by
    point tier and columns by category, each disabled when its question is
    activated under either key format. */
module GameBoard {
  import opened Wrappers
  import opened Js
  import opened Questions
  import opened BoardUtils
  import opened GameData

  /** The key the game records for a clicked question: the category, `-` and the
      points printed in decimal. */
  function QuestionKey(category: string, points: int): string
  {
    category + "-" + IntToString(points)
  }

  /** The keys of all configured questions. */
  function AllQuestionKeys(): set<string>
  {
    set c, p | c in Categories && p in PointValues :: QuestionKey(c, p)
  }

  /** `isQuestionActivated(category, points)`: the first key format. */
  predicate IsQuestionActivated(activated: set<string>, category: string, points: int)
  {
    QuestionKey(category, points) in activated
  }

  /** `activated` of one cell: its question key, or the `"row,col"` key of its
      coordinates, is in the set. Computing the coordinates throws for a pair off the
      configured lists, so the view only asks about configured pairs. */
  predicate CellActivated(activated: set<string>, category: string, points: int)
    requires GetBoardCoordinates(category, points).Success?
  {
    var validation1 := IsQuestionActivated(activated, category, points);
    var coordinates := GetBoardCoordinates(category, points).value;
    var validation2 := CellKey(coordinates.row, coordinates.col) in activated;
    validation1 || validation2
  }

  /** One question button: its React key, its `$points` caption, the arguments its
      click passes to `onQuestionClick`, and whether it is disabled. */
  datatype Button = Button(key: string, caption: int, clickCategory: string, clickPoints: int, disabled: bool)

  /** The button of the cell (category, points). */
  function Cell(activated: set<string>, category: string, points: int): Button
    requires GetBoardCoordinates(category, points).Success?
  {
    var activatedCell := CellActivated(activated, category, points);
    Button(QuestionKey(category, points), points, category, points, activatedCell)
  }

  /** The question buttons: point tiers in the outer map, categories in the inner. */
  function RenderBoard(activated: set<string>): seq<seq<Button>>
  {
    seq(|PointValues|, i requires 0 <= i < |PointValues| =>
      seq(|Categories|, j requires 0 <= j < |Categories| => Cell(activated, Categories[j], PointValues[i])))
  }

  /** The view renders 5 x 5 buttons in the row-major order of the coordinate
      mapping: button j of row i is for category j and tier i, lies at coordinates
      (i, j), clicks with its own pair and is disabled exactly when either key of
      that cell is in the set. */
  lemma RenderOrder(activated: set<string>)
    ensures |RenderBoard(activated)| == Size
    ensures forall i :: 0 <= i < Size ==> |RenderBoard(activated)[i]| == Size
    ensures forall i, j :: 0 <= i < Size && 0 <= j < Size ==>
      var b := RenderBoard(activated)[i][j];
      && b.clickCategory == Categories[j] && b.clickPoints == PointValues[i]
      && b.caption == PointValues[i] && b.key == QuestionKey(Categories[j], PointValues[i])
      && GetBoardCoordinates(b.clickCategory, b.clickPoints) == Success(Coordinates(i, j))
      && (b.disabled <==> QuestionKey(Categories[j], PointValues[i]) in activated || CellKey(i, j) in activated)
  {
    forall i, j | 0 <= i < Size && 0 <= j < Size
      ensures GetBoardCoordinates(Categories[j], PointValues[i]) == Success(Coordinates(i, j))
    {
      CoordinatesOnto(i, j);
    }
  }

  /** The two key formats never collide: a question key holds a `-`, a cell key only
      digits and a comma. */
  lemma KeyFormatsDisjoint(category: string, points: int, row: nat, col: nat)
    ensures QuestionKey(category, points) != CellKey(row, col)
  {
    var key := QuestionKey(category, points);
    assert key[|category|] == '-';
    if key == CellKey(row, col) {
      CellKeyChars(row, col, '-');
    }
  }

  /** Two questions whose categories hold no `-` share a key only when they are the
      same question: the first `-` ends the category and the rest reads back as the
      points. */
  lemma QuestionKeyInjective(c1: string, p1: int, c2: string, p2: int)
    requires '-' !in c1 && '-' !in c2
    requires QuestionKey(c1, p1) == QuestionKey(c2, p2)
    ensures c1 == c2 && p1 == p2
  {
    var key := QuestionKey(c1, p1);
    assert key[|c1|] == '-' && key[|c2|] == '-';
    assert |c1| == |c2| by {
      if |c1| < |c2| {
        assert false;
      } else if |c2| < |c1| {
        assert false;
      }
    }
    assert c1 == key[..|c1|] == c2;
    assert IntToString(p1) == key[|c1| + 1..] == IntToString(p2);
    ParseIntOfIntToString(p1);
    ParseIntOfIntToString(p2);
  }

  /** Different configured questions have different keys. */
  lemma ConfiguredKeysDistinct(c1: string, p1: int, c2: string, p2: int)
    requires c1 in Categories && c2 in Categories
    requires QuestionKey(c1, p1) == QuestionKey(c2, p2)
    ensures c1 == c2 && p1 == p2
  {
    NoDashInCategory(c1);
    NoDashInCategory(c2);
    QuestionKeyInjective(c1, p1, c2, p2);
  }

  lemma NoDashInCategory(c: string)
    requires c in Categories
    ensures '-' !in c
  {
    assert c == Categories[0] || c == Categories[1] || c == Categories[2] || c == Categories[3] || c == Categories[4];
  }

  /** With only the game's own clicks in the set, a cell is disabled exactly when its
      question key was recorded. */
  lemma ActivatedByClicks(activated: set<string>, i: nat, j: nat)
    requires activated <= AllQuestionKeys()
    requires i < Size && j < Size
    ensures RenderBoard(activated)[i][j].disabled <==> IsQuestionActivated(activated, Categories[j], PointValues[i])
  {
    RenderOrder(activated);
    if CellKey(i, j) in activated {
      var c, p :| c in Categories && p in PointValues && CellKey(i, j) == QuestionKey(c, p);
      KeyFormatsDisjoint(c, p, i, j);
    }
  }

  /** With the set decoded from a stored board, a cell is disabled exactly when its
      token of the board reads as 1. */
  lemma ActivatedByBoard(board: string, i: nat, j: nat)
    requires WellShaped(board)
    requires i < Size && j < Size
    ensures DecodeBoard(Some(board)).Success?
    ensures RenderBoard(DecodeBoard(Some(board)).value)[i][j].disabled <==> ParsesToOne(Grid(board)[i][j])
  {
    DecodeUsedCells(board);
    var used := DecodeBoard(Some(board)).value;
    RenderOrder(used);
    var key := QuestionKey(Categories[j], PointValues[i]);
    if key in used {
      var r: nat, c: nat :| r < Size && c < Size && key == CellKey(r, c);
      KeyFormatsDisjoint(Categories[j], PointValues[i], r, c);
    }
  }
}
