/** The board of a game (src/lib/xaca/data/game.ts). The stored `board` is five rows
    joined by `;`, each row five tokens joined by `,`; a token that `parseInt` reads
    as 1 marks its cell as used. Reading a game's board yields the set of
    `"row,col"` keys of its used cells; updating a cell forces its token to `"1"`. */
module GameData {
  import opened Wrappers
  import opened Js
  import opened DocStore

  datatype BoardError =
    | NotFound        // no game record with that id
    | MissingBoard    // the record has no `board` field: `undefined.split` throws
    | InvalidFormat   // the board is not a 5x5 matrix
    | InvalidPosition // row or column outside 0..4

  const Size := 5

  // ---------------------------------------------------------------------------
  // the board text
  // ---------------------------------------------------------------------------

  function Rows(board: string): seq<string>
  {
    Split(board, ';')
  }

  function Tokens(row: string): seq<string>
  {
    Split(row, ',')
  }

  /** The board as a matrix of tokens: row `r` is the `,`-split of the `r`-th
      `;`-part. */
  function Grid(board: string): seq<seq<string>>
  {
    var rows := Rows(board);
    seq(|rows|, r requires 0 <= r < |rows| => Tokens(rows[r]))
  }

  /** Exactly 5 rows, each of exactly 5 tokens (empty tokens allowed). */
  predicate WellShaped(board: string)
  {
    |Rows(board)| == Size && forall r :: 0 <= r < Size ==> |Tokens(Rows(board)[r])| == Size
  }

  /** `` `${rowIndex},${colIndex}` ``. */
  function CellKey(row: nat, col: nat): string
  {
    NatToString(row) + "," + NatToString(col)
  }

  /** The keys of the used cells of a token matrix. */
  function UsedKeys(grid: seq<seq<string>>): set<string>
  {
    set r, c | 0 <= r < |grid| && 0 <= c < |grid[r]| && ParsesToOne(grid[r][c]) :: CellKey(r, c)
  }

  /** What reading a stored board yields: the shape is checked before any token is
      looked at. */
  function DecodeBoard(board: Option<string>): Result<set<string>, BoardError>
  {
    match board
    case None => Failure(MissingBoard)
    case Some(b) => if WellShaped(b) then Success(UsedKeys(Grid(b))) else Failure(InvalidFormat)
  }

  /** What `readPartidaBoard(partidaId)` yields against the game records `partidas`. */
  function ReadBoard(partidas: map<string, Partida>, partidaId: string): Result<set<string>, BoardError>
  {
    if partidaId !in partidas then Failure(NotFound) else DecodeBoard(partidas[partidaId].board)
  }

  /** The board text after forcing token (row, col) to `"1"`: the row is re-joined
      with `,`, then the rows with `;`. */
  function PatchBoard(board: string, row: nat, col: nat): string
    requires WellShaped(board) && row < Size && col < Size
  {
    var rows := Rows(board);
    Join(rows[row := Join(Tokens(rows[row])[col := "1"], ',')], ';')
  }

  /** The outcome of `updatePartidaBoard(partidaId, row, col)`: the new board text, or
      the first error in the order the code checks them. */
  function UpdateBoard(partidas: map<string, Partida>, partidaId: string, row: int, col: int)
    : Result<string, BoardError>
  {
    if row < 0 || row > 4 || col < 0 || col > 4 then Failure(InvalidPosition)
    else if partidaId !in partidas then Failure(NotFound)
    else match partidas[partidaId].board
      case None => Failure(MissingBoard)
      case Some(b) => if WellShaped(b) then Success(PatchBoard(b, row, col)) else Failure(InvalidFormat)
  }

  /** The game records after `updatePartidaBoard`: only the `board` field of the one
      game changes, and only on success. */
  function AfterUpdate(partidas: map<string, Partida>, partidaId: string, row: int, col: int)
    : map<string, Partida>
  {
    match UpdateBoard(partidas, partidaId, row, col)
    case Success(b) => partidas[partidaId := partidas[partidaId].(board := Some(b))]
    case Failure(_) => partidas
  }

  // ---------------------------------------------------------------------------
  // properties of the codec
  // ---------------------------------------------------------------------------

  /** `"r,c"` keys identify their cell: splitting a key on `,` gives back the two
      numbers' texts. */
  lemma CellKeyInjective(r1: nat, c1: nat, r2: nat, c2: nat)
    requires CellKey(r1, c1) == CellKey(r2, c2)
    ensures r1 == r2 && c1 == c2
  {
    CellKeySplits(r1, c1);
    CellKeySplits(r2, c2);
    NatToStringInjective(r1, r2);
    NatToStringInjective(c1, c2);
  }

  lemma CellKeySplits(row: nat, col: nat)
    ensures Split(CellKey(row, col), ',') == [NatToString(row), NatToString(col)]
  {
    var parts := [NatToString(row), NatToString(col)];
    forall i | 0 <= i < 2 ensures ',' !in parts[i] {
      assert forall k :: 0 <= k < |parts[i]| ==> IsDigit(parts[i][k]) && parts[i][k] != ',';
    }
    SplitJoin(parts, ',');
    assert Join(parts, ',') == CellKey(row, col) by {
      assert parts[1..] == [NatToString(col)];
    }
  }

  /** A key of a cell is made of digits and one comma only. */
  lemma CellKeyChars(row: nat, col: nat, ch: char)
    requires ch in CellKey(row, col)
    ensures IsDigit(ch) || ch == ','
  {
    var a, b := NatToString(row), NatToString(col);
    assert CellKey(row, col) == a + [','] + b;
    if ch in a {
      var i :| 0 <= i < |a| && a[i] == ch;
    } else if ch in b {
      var i :| 0 <= i < |b| && b[i] == ch;
    }
  }

  /** On a well-shaped board the decoded set holds the key of cell (r, c) exactly when
      token c of row r reads as 1, and it holds nothing but keys of cells in
      0..4 x 0..4. */
  lemma DecodeUsedCells(board: string)
    requires WellShaped(board)
    ensures DecodeBoard(Some(board)).Success?
    ensures forall r: nat, c: nat :: r < Size && c < Size ==>
      (CellKey(r, c) in DecodeBoard(Some(board)).value <==> ParsesToOne(Grid(board)[r][c]))
    ensures forall k :: k in DecodeBoard(Some(board)).value ==>
      exists r: nat, c: nat :: r < Size && c < Size && k == CellKey(r, c)
  {
    var g := Grid(board);
    var used := UsedKeys(g);
    forall r: nat, c: nat | r < Size && c < Size && CellKey(r, c) in used
      ensures ParsesToOne(g[r][c])
    {
      var r', c' :| 0 <= r' < |g| && 0 <= c' < |g[r']| && ParsesToOne(g[r'][c']) && CellKey(r, c) == CellKey(r', c');
      CellKeyInjective(r, c, r', c');
    }
  }

  /** A board without the 5x5 shape never decodes, whatever its tokens. */
  lemma DecodeRejectsMisshapen(board: string)
    requires |Rows(board)| != Size || exists r :: 0 <= r < |Rows(board)| && |Tokens(Rows(board)[r])| != Size
    ensures DecodeBoard(Some(board)) == Failure(InvalidFormat)
  {
  }

  /** The failures of the two operations, in the order the code meets them: a bad
      position before any lookup, a missing record, a record without a board, a
      board without the 5x5 shape. A failed update writes nothing. */
  lemma BoardErrors(partidas: map<string, Partida>, partidaId: string, row: int, col: int)
    ensures !(0 <= row < Size && 0 <= col < Size) ==> UpdateBoard(partidas, partidaId, row, col) == Failure(InvalidPosition)
    ensures partidaId !in partidas ==> ReadBoard(partidas, partidaId) == Failure(NotFound)
    ensures partidaId !in partidas && 0 <= row < Size && 0 <= col < Size ==>
      UpdateBoard(partidas, partidaId, row, col) == Failure(NotFound)
    ensures partidaId in partidas && 0 <= row < Size && 0 <= col < Size ==>
      (UpdateBoard(partidas, partidaId, row, col).Failure? <==> ReadBoard(partidas, partidaId).Failure?)
    ensures UpdateBoard(partidas, partidaId, row, col).Failure? ==> AfterUpdate(partidas, partidaId, row, col) == partidas
  {
  }

  lemma TokensAvoidRowSeparator(board: string, r: int, c: int)
    requires 0 <= r < |Rows(board)| && 0 <= c < |Tokens(Rows(board)[r])|
    ensures ';' !in Tokens(Rows(board)[r])[c]
  {
    var row := Rows(board)[r];
    assert ';' !in row;
  }

  /** Patching keeps the 5x5 shape, sets token (row, col) to `"1"` and leaves every
      other token as it was. */
  lemma PatchGrid(board: string, row: nat, col: nat)
    requires WellShaped(board) && row < Size && col < Size
    ensures WellShaped(PatchBoard(board, row, col))
    ensures Grid(PatchBoard(board, row, col)) == Grid(board)[row := Grid(board)[row][col := "1"]]
  {
    var rows := Rows(board);
    var tokens := Tokens(rows[row])[col := "1"];
    forall c | 0 <= c < |tokens| ensures ',' !in tokens[c] && ';' !in tokens[c] {
      if c != col {
        TokensAvoidRowSeparator(board, row, c);
      }
    }
    var newRow := Join(tokens, ',');
    SplitJoin(tokens, ',');
    JoinAvoids(tokens, ',', ';');
    var newRows := rows[row := newRow];
    SplitJoin(newRows, ';');
    var patched := PatchBoard(board, row, col);
    assert Rows(patched) == newRows;
    assert Grid(patched) == Grid(board)[row := Grid(board)[row][col := "1"]];
  }

  /** A board is determined by its token matrix. */
  lemma GridDeterminesBoard(b1: string, b2: string)
    requires Grid(b1) == Grid(b2)
    ensures b1 == b2
  {
    var rows1, rows2 := Rows(b1), Rows(b2);
    assert |rows1| == |rows2|;
    forall r | 0 <= r < |rows1| ensures rows1[r] == rows2[r] {
      JoinSplit(rows1[r], ',');
      JoinSplit(rows2[r], ',');
      assert Tokens(rows1[r]) == Grid(b1)[r] == Grid(b2)[r] == Tokens(rows2[r]);
    }
    assert rows1 == rows2;
    JoinSplit(b1, ';');
    JoinSplit(b2, ';');
  }

  /** Marking one token of a matrix with a token that reads as 1 adds exactly that
      cell's key to the used keys. */
  lemma UsedKeysMark(g: seq<seq<string>>, row: nat, col: nat, one: string)
    requires row < |g| && col < |g[row]| && ParsesToOne(one)
    ensures UsedKeys(g[row := g[row][col := one]]) == UsedKeys(g) + {CellKey(row, col)}
  {
    var g' := g[row := g[row][col := one]];
    forall k | k in UsedKeys(g') ensures k in UsedKeys(g) + {CellKey(row, col)} {
      var r, c :| 0 <= r < |g'| && 0 <= c < |g'[r]| && ParsesToOne(g'[r][c]) && k == CellKey(r, c);
      if r != row || c != col {
        assert g[r][c] == g'[r][c];
      }
    }
    forall k | k in UsedKeys(g) + {CellKey(row, col)} ensures k in UsedKeys(g') {
      if k == CellKey(row, col) {
        assert g'[row][col] == one;
      } else {
        var r, c :| 0 <= r < |g| && 0 <= c < |g[r]| && ParsesToOne(g[r][c]) && k == CellKey(r, c);
        assert r != row || c != col;
        assert g'[r][c] == g[r][c];
      }
    }
  }

  /** Round trip: decoding a patched board gives the old used cells plus the patched
      one. So a patch never removes a used cell. */
  lemma PatchDecode(board: string, row: nat, col: nat)
    requires WellShaped(board) && row < Size && col < Size
    ensures DecodeBoard(Some(PatchBoard(board, row, col)))
         == Success(DecodeBoard(Some(board)).value + {CellKey(row, col)})
  {
    PatchGrid(board, row, col);
    OneAndZero();
    UsedKeysMark(Grid(board), row, col, "1");
  }

  /** Patching the same cell twice is patching it once. */
  lemma PatchIdempotent(board: string, row: nat, col: nat)
    requires WellShaped(board) && row < Size && col < Size
    ensures WellShaped(PatchBoard(board, row, col))
    ensures PatchBoard(PatchBoard(board, row, col), row, col) == PatchBoard(board, row, col)
  {
    var once := PatchBoard(board, row, col);
    PatchGrid(board, row, col);
    PatchGrid(once, row, col);
    var g := Grid(once);
    assert g[row][col := "1"] == g[row];
    assert Grid(PatchBoard(once, row, col)) == g;
    GridDeterminesBoard(PatchBoard(once, row, col), once);
  }

  /** Patches of two cells give the same board in either order. */
  lemma PatchCommutes(board: string, r1: nat, c1: nat, r2: nat, c2: nat)
    requires WellShaped(board) && r1 < Size && c1 < Size && r2 < Size && c2 < Size
    ensures WellShaped(PatchBoard(board, r1, c1)) && WellShaped(PatchBoard(board, r2, c2))
    ensures PatchBoard(PatchBoard(board, r1, c1), r2, c2) == PatchBoard(PatchBoard(board, r2, c2), r1, c1)
  {
    var b1, b2 := PatchBoard(board, r1, c1), PatchBoard(board, r2, c2);
    PatchGrid(board, r1, c1);
    PatchGrid(board, r2, c2);
    PatchGrid(b1, r2, c2);
    PatchGrid(b2, r1, c1);
    var left, right := PatchBoard(b1, r2, c2), PatchBoard(b2, r1, c1);
    forall r | 0 <= r < Size ensures Grid(left)[r] == Grid(right)[r] {
      forall c | 0 <= c < Size ensures Grid(left)[r][c] == Grid(right)[r][c] {
      }
    }
    assert Grid(left) == Grid(right);
    GridDeterminesBoard(left, right);
  }

  /** The keys the decode loop has collected after `rows` full rows. */
  ghost function UsedInRows(grid: seq<seq<string>>, rows: nat): set<string>
    requires rows <= |grid|
  {
    set r, c | 0 <= r < rows && 0 <= c < |grid[r]| && ParsesToOne(grid[r][c]) :: CellKey(r, c)
  }

  /** The keys the decode loop collects in row `r` from its first `cols` tokens. */
  ghost function UsedInRow(tokens: seq<string>, r: nat, cols: nat): set<string>
    requires cols <= |tokens|
  {
    set c | 0 <= c < cols && ParsesToOne(tokens[c]) :: CellKey(r, c)
  }

  lemma UsedInRowStep(tokens: seq<string>, r: nat, cols: nat)
    requires cols < |tokens|
    ensures UsedInRow(tokens, r, cols + 1)
         == UsedInRow(tokens, r, cols) + (if ParsesToOne(tokens[cols]) then {CellKey(r, cols)} else {})
  {
  }

  lemma UsedInRowsStep(grid: seq<seq<string>>, rows: nat)
    requires rows < |grid|
    ensures UsedInRows(grid, rows + 1) == UsedInRows(grid, rows) + UsedInRow(grid[rows], rows, |grid[rows]|)
  {
    var lhs, rhs := UsedInRows(grid, rows + 1), UsedInRows(grid, rows) + UsedInRow(grid[rows], rows, |grid[rows]|);
    forall k | k in lhs ensures k in rhs {
      var r, c :| 0 <= r < rows + 1 && 0 <= c < |grid[r]| && ParsesToOne(grid[r][c]) && k == CellKey(r, c);
      if r == rows {
        assert k in UsedInRow(grid[rows], rows, |grid[rows]|);
      }
    }
  }

  // ---------------------------------------------------------------------------
  // the two store operations
  // ---------------------------------------------------------------------------

  /** `readPartidaBoard(partidaId)`: fetch the record, split the board, check the
      5x5 shape, then collect the keys of the used cells row by row. */
  method ReadPartidaBoard(store: Store, partidaId: string) returns (res: Result<set<string>, BoardError>)
    ensures res == ReadBoard(store.partidas, partidaId)
  {
    if partidaId !in store.partidas {
      return Failure(NotFound);
    }
    var record := store.partidas[partidaId];
    if record.board.None? {
      return Failure(MissingBoard);
    }
    var board := record.board.value;
    var rows := Split(board, ';');
    if |rows| != Size || exists r :: 0 <= r < |rows| && |Split(rows[r], ',')| != Size {
      return Failure(InvalidFormat);
    }
    ghost var grid := Grid(board);
    var usedPositions: set<string> := {};
    var rowIndex := 0;
    while rowIndex < |rows|
      invariant 0 <= rowIndex <= |rows|
      invariant usedPositions == UsedInRows(grid, rowIndex)
    {
      var cells := Split(rows[rowIndex], ',');
      var colIndex := 0;
      while colIndex < |cells|
        invariant 0 <= colIndex <= |cells|
        invariant usedPositions == UsedInRows(grid, rowIndex) + UsedInRow(cells, rowIndex, colIndex)
      {
        UsedInRowStep(cells, rowIndex, colIndex);
        if ParseInt(cells[colIndex]) == Some(1) {
          usedPositions := usedPositions + {CellKey(rowIndex, colIndex)};
        }
        colIndex := colIndex + 1;
      }
      UsedInRowsStep(grid, rowIndex);
      rowIndex := rowIndex + 1;
    }
    assert UsedInRows(grid, |rows|) == UsedKeys(grid);
    return Success(usedPositions);
  }

  /** `updatePartidaBoard(partidaId, row, col)`: check the position, fetch the
      record, split and check the board, overwrite one token in the row's token
      array, re-join the row into the rows array, re-join the rows and write the
      `board` field. */
  method UpdatePartidaBoard(store: Store, partidaId: string, row: int, col: int) returns (res: Outcome<BoardError>)
    requires store.Valid()
    modifies store
    ensures store.Valid()
    ensures res == match UpdateBoard(old(store.partidas), partidaId, row, col)
                   case Success(_) => Pass
                   case Failure(e) => Fail(e)
    ensures store.partidas == AfterUpdate(old(store.partidas), partidaId, row, col)
    ensures store.partidaOrder == old(store.partidaOrder)
    ensures store.teams == old(store.teams) && store.nextId == old(store.nextId)
  {
    if row < 0 || row > 4 || col < 0 || col > 4 {
      return Fail(InvalidPosition);
    }
    if partidaId !in store.partidas {
      return Fail(NotFound);
    }
    var record := store.partidas[partidaId];
    if record.board.None? {
      return Fail(MissingBoard);
    }
    var board := record.board.value;
    var rows := Split(board, ';');
    if |rows| != Size || exists r :: 0 <= r < |rows| && |Split(rows[r], ',')| != Size {
      return Fail(InvalidFormat);
    }
    assert WellShaped(board);
    var updatedBoard := MarkCell(rows, row, col);
    assert UpdateBoard(store.partidas, partidaId, row, col) == Success(updatedBoard);
    var found := store.UpdatePartidaBoard(partidaId, updatedBoard);
    return Pass;
  }

  /** The in-place part of `updatePartidaBoard`: copy the rows into an array, copy
      the row's tokens into another, set the cell to `"1"` and join both back. */
  method MarkCell(rows: seq<string>, row: nat, col: nat) returns (updatedBoard: string)
    requires |rows| == Size && row < Size && col < Size
    requires |Split(rows[row], ',')| == Size
    ensures updatedBoard == Join(rows[row := Join(Split(rows[row], ',')[col := "1"], ',')], ';')
  {
    var rowsArray := new string[|rows|](i requires 0 <= i < |rows| => rows[i]);
    var cells := Split(rows[row], ',');
    var rowArray := new string[|cells|](i requires 0 <= i < |cells| => cells[i]);
    rowArray[col] := "1";
    rowsArray[row] := Join(rowArray[..], ',');
    updatedBoard := Join(rowsArray[..], ';');
    assert rowArray[..] == cells[col := "1"];
    assert rowsArray[..] == rows[row := Join(cells[col := "1"], ',')];
  }
}
