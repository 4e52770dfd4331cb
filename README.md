# Jeopardy board and team registry, in Dafny

This project models the logic core of xaca/jeopardy, a browser Jeopardy game whose
state lives in a document store. Three parts are modelled:

- **The game board.** The stored `board` text is five rows joined by `;`, each row
  five tokens joined by `,`. A token that `parseInt(token, 10)` reads as 1 marks its
  cell as used. `readPartidaBoard` turns the text into the set of `"row,col"` keys of
  the used cells. `updatePartidaBoard` forces one token to `"1"` and writes the text
  back.
- **The coordinate mapping.** `getBoardCoordinates` finds a (category, points) pair
  in the fixed `categories` and `pointValues` lists. The `questionsData` table is
  indexed by the same lists.
- **Teams and the game screen.** This part covers:
  - unique team names;
  - the tolerant reading of team documents;
  - team creation and absolute score writes;
  - the team subscription;
  - game creation;
  - the game screen's state machine over `activatedQuestions`, `selectedQuestion`
    and `teamScores`;
  - the board view's activation test.

The document store is the class `DocStore.Store`. It holds:

- the game records;
- the game ids in creation order (see "Left out" on listing order);
- one sequence of team documents per game;
- an id counter.

Each store call is one atomic step that updates these fields. The board operations
(`GameData`), the team operations (`Teams`, `ReadTeams`) and the game screen
(`GameComponent.Game`, a class whose fields are the screen's state) are methods over
that store. Each method is proved against a specification function: `ReadBoard`,
`UpdateBoard`, `AfterUpdate`, `ValidTeams`, `TeamNames`, `CreatedDocs` and
`CreatedTeams`. The properties of those functions are proved as lemmas.

The JavaScript built-ins that the core relies on are written out in module `Js` with
their ECMAScript behaviour:

- `String.prototype.split` on one character, so `"".split(";")` is `[""]`;
- `Array.prototype.join`;
- `parseInt(s, 10)`, which skips leading white space, takes an optional sign and then
  the longest digit prefix, so `"01"` and `"1x"` read as 1;
- `indexOf`;
- the decimal text of an integer in template literals.

A game record's `board` is an `Option<string>`, because `createPartida` writes no
board. Reading such a field in JavaScript throws a TypeError (`undefined.split`).
The model reports this as its own error, `MissingBoard`. It is not reported as a
malformed board, because the code never reaches the shape check.

The name generator is a parameter: `candidates` is the sequence of names the random
generator would produce.

## Model

| member | source | states |
|---|---|---|
| Js.Split | src/lib/xaca/data/game.ts:34-37 | `split` yields at least one part; no part holds the separator; every character of a part comes from the text |
| Js.Join | src/lib/xaca/data/game.ts:94-99 | every character of a join is the separator or a character of one of the parts |
| Js.JoinSplit | src/lib/xaca/data/game.ts:94-99 | joining the parts of a split gives back the original text |
| Js.SplitJoin | src/lib/xaca/data/game.ts:94-99 | splitting a join of separator-free parts (at least one) gives back the parts |
| Js.IntToString | src/components/Game.tsx:78 | the template-literal text of an integer is non-empty, starts with `-` exactly when the integer is negative, and is digits after its first character |
| Js.NatToString | src/lib/xaca/data/game.ts:45 | the decimal text of a number is a non-empty run of digits, one digit below 10 |
| Js.NatToStringValue | src/lib/xaca/data/game.ts:45 | reading the printed digits gives back the number |
| Js.NatToStringInjective | src/lib/xaca/data/game.ts:45 | distinct numbers print differently |
| Js.ParseInt | src/lib/xaca/data/game.ts:44 | `parseInt(s, 10)`: leading white space skipped, an optional sign, then the longest digit run, `None` (NaN) without digits; its properties are the `ParseInt*` and `ParsesTo*` lemmas below |
| Js.ParseIntUnsigned | src/lib/xaca/data/game.ts:44 | `parseInt` of a text starting with a digit is the value of its leading digit run |
| Js.ParseIntNegative | src/lib/xaca/data/game.ts:44 | `parseInt` of `-` and a digit is the negated value of the digit run |
| Js.ParseIntOfIntToString | src/lib/xaca/data/game.ts:44 | `parseInt` reads back the decimal text of every integer |
| Js.ParsesToOneShapes | src/lib/xaca/data/game.ts:44 | white space, an optional `+`, any zeros, `1` and a non-digit rest all read as 1 |
| Js.OneAndZero | src/lib/xaca/data/game.ts:44 | the written token `"1"` reads as 1 and `"0"` does not |
| Js.ParsesToOne | src/lib/xaca/data/game.ts:44 | `parseInt(token, 10) === 1`; characterised by `ParsesToOneShapes` (tokens that pass) and `ParsesToOneHasOne` (a necessary condition) |
| Js.ParsesToOneHasOne | src/lib/xaca/data/game.ts:44 | a token that reads as 1 holds the digit `1`, so the empty token and a token without `1` never mark a cell |
| Js.IndexOf | src/utils/boardUtils.ts:11-12 | `indexOf` is -1 exactly when the element is absent, else the first position holding it |
| Questions.CategoriesDistinct | src/data/mockQuestions.ts:14 | exactly five categories, pairwise distinct |
| Questions.PointValuesIncreasing | src/data/mockQuestions.ts:15 | the tiers are 100, 200, 300, 400, 500, strictly increasing |
| Questions.QuestionsDataComplete | src/data/mockQuestions.ts:17-53 | every configured (category, points) pair has an entry, and that entry names that category and those points |
| Questions.QuestionsDataNoExtra | src/data/mockQuestions.ts:17-53 | the table has no category outside `categories` and no tier outside `pointValues` |
| Questions.CategoryInTable | src/data/mockQuestions.ts:17-53 | a category has a row exactly when it is configured |
| Questions.Question | src/data/mockQuestions.ts:17-53 | `questionsData[c][p]` for a configured pair is the entry for category c and points p |
| BoardUtils.GetBoardCoordinates | src/utils/boardUtils.ts:10-25 | an unknown category fails with the category error, even when the points are unknown too; a known category with unknown points fails with the points error; success exactly for a configured pair, with `col` the category's index and `row` the points' index |
| BoardUtils.CoordinatesOnto | src/utils/boardUtils.ts:10-25 | every cell (row, col) of the 5x5 grid is the image of (`categories[col]`, `pointValues[row]`) |
| BoardUtils.CoordinatesInjective | src/utils/boardUtils.ts:10-25 | two valid pairs with the same coordinates are the same pair |
| BoardUtils.CoordinatesBijective | src/utils/boardUtils.ts:10-25 | on the configured pairs the mapping lands in the 5x5 grid, reaches every cell, and is one-to-one |
| DocStore.UpdateDocs | src/lib/xaca/data/teams.ts:92-94 | a document patch keeps the number of documents and every document id |
| DocStore.UpdateAppended | src/lib/xaca/data/teams.ts:169-171 | patching the one document with a new id, appended last, changes only that document |
| DocStore.Store.constructor | src/lib/xaca/data/teams.ts:134-137 | a new store is empty and consistent |
| DocStore.Store.NewId | src/lib/xaca/data/teams.ts:134 | a new id is held by no game record and by no team document |
| DocStore.Store.AddPartida | src/lib/xaca/data/teams.ts:134-137 | `addDoc` on the games adds the record under a new id, appended to the store order; the teams are unchanged |
| DocStore.Store.UpdatePartidaBoard | src/lib/xaca/data/game.ts:102-104 | `updateDoc` writes only the `board` field of an existing record, and fails on a missing one |
| DocStore.Store.AddTeamDoc | src/lib/xaca/data/teams.ts:162-166 | `addDoc` on a game's teams appends a document with a new id; other games are unchanged |
| DocStore.Store.UpdateTeamDoc | src/lib/xaca/data/teams.ts:169-171 | `updateDoc` on a team patches exactly the documents with that id, and fails when there is none |
| GameData.CellKey | src/lib/xaca/data/game.ts:45 | the key `"row,col"` of a used cell; proved injective, digit-and-comma only, and splitting back into its coordinates by the three lemmas below |
| GameData.DecodeBoard | src/lib/xaca/data/game.ts:34-48 | a missing board is `MissingBoard`, a board without 5 rows of 5 tokens is the format error, else the keys of the tokens that read as 1; its properties are `DecodeUsedCells` and `DecodeRejectsMisshapen` |
| GameData.ReadBoard | src/lib/xaca/data/game.ts:18-55 | the result `readPartidaBoard` specifies: not found for a missing record, else the decoded board of the record; see `BoardErrors` and `ReadPartidaBoard` |
| GameData.PatchBoard | src/lib/xaca/data/game.ts:94-99 | the board text with token (row, col) set to `"1"`; its properties are `PatchGrid`, `PatchDecode`, `PatchIdempotent` and `PatchCommutes` |
| GameData.UpdateBoard | src/lib/xaca/data/game.ts:65-99 | the outcome `updatePartidaBoard` specifies: the position check, then not found, then the board checks, else the patched board; see `BoardErrors` |
| GameData.AfterUpdate | src/lib/xaca/data/game.ts:65-104 | the records after the update: only that record's board, set to the patched text, and only on success; see `BoardErrors` and `UpdatePartidaBoard` |
| GameData.CellKeyInjective | src/lib/xaca/data/game.ts:45 | distinct cells have distinct `"row,col"` keys |
| GameData.CellKeySplits | src/lib/xaca/data/game.ts:45 | splitting a key on `,` gives back the decimal texts of its row and column |
| GameData.CellKeyChars | src/lib/xaca/data/game.ts:45 | a key holds only digits and commas |
| GameData.DecodeUsedCells | src/lib/xaca/data/game.ts:42-48 | a well-shaped board decodes, and the result holds `"r,c"` exactly when token c of row r reads as 1; every key names a cell in 0..4 x 0..4 |
| GameData.DecodeRejectsMisshapen | src/lib/xaca/data/game.ts:34-39 | a board without exactly 5 parts of exactly 5 tokens fails with the format error, whatever its tokens |
| GameData.BoardErrors | src/lib/xaca/data/game.ts:68-91 | a bad position fails first; a missing record fails both operations; on a valid position the update fails exactly when the read fails; a failed update writes nothing |
| GameData.TokensAvoidRowSeparator | src/lib/xaca/data/game.ts:34-37 | no token of a board holds `;` |
| GameData.PatchGrid | src/lib/xaca/data/game.ts:94-99 | the patched board keeps the 5x5 shape; token (row, col) becomes `"1"` and every other token is unchanged |
| GameData.GridDeterminesBoard | src/lib/xaca/data/game.ts:94-99 | two boards with the same token matrix are the same text |
| GameData.UsedKeysMark | src/lib/xaca/data/game.ts:42-48 | marking a token with one that reads as 1 adds exactly that cell's key |
| GameData.PatchDecode | src/lib/xaca/data/game.ts:42-99 | round trip: decoding a patched board gives the old used cells plus the patched cell |
| GameData.PatchIdempotent | src/lib/xaca/data/game.ts:94-99 | patching the same cell twice is patching it once |
| GameData.PatchCommutes | src/lib/xaca/data/game.ts:94-99 | patches of two cells give the same board in either order |
| GameData.ReadPartidaBoard | src/lib/xaca/data/game.ts:18-55 | the decode loop returns what `ReadBoard` specifies: not found, missing board, wrong shape, or the used keys |
| GameData.UpdatePartidaBoard | src/lib/xaca/data/game.ts:65-109 | the update returns the first failure `UpdateBoard` specifies, and the records become `AfterUpdate`: only that game's board changes, and only on success; teams, order and counter are unchanged |
| GameData.MarkCell | src/lib/xaca/data/game.ts:94-99 | the arrays updated in place re-join to the board with token (row, col) set to `"1"` |
| Teams.Dedup | src/lib/xaca/data/teams.ts:23-27 | the names a `Set` ends up holding are pairwise distinct and are exactly the candidates fed in |
| Teams.DedupPrefix | src/lib/xaca/data/teams.ts:24-26 | feeding more candidates only extends the set's contents |
| Teams.GenerateUniqueTeamNames | src/lib/xaca/data/teams.ts:22-28 | the loop returns exactly `count` (at least 0) pairwise-distinct names: the first distinct candidates, in order |
| Teams.IsTeamRecord | src/lib/xaca/data/teams.ts:58-72 | a document is kept exactly when its `name` field is a string and its `score` field a number |
| Teams.ToTeam | src/lib/xaca/data/teams.ts:58-72 | a kept document becomes a team with the document's id, its name and score, and the game read |
| Teams.ValidTeams | src/lib/xaca/data/teams.ts:58-72 | the kept documents of a snapshot, in snapshot order; characterised by `ValidTeamsSound`, `ValidTeamsComplete` and `ValidTeamsAppend` |
| Teams.ValidTeamsAppend | src/lib/xaca/data/teams.ts:58-72 | filtering two snapshots one after the other is filtering their concatenation, so order is kept |
| Teams.ValidTeamsSound | src/lib/xaca/data/teams.ts:58-72 | every team read comes from a document with a string `name` and a numeric `score`, takes the document's id, name and score, and the `partidaId` argument |
| Teams.ValidTeamsComplete | src/lib/xaca/data/teams.ts:58-72 | every document with a string `name` and a numeric `score` is read |
| Teams.CollectTeams | src/lib/xaca/data/teams.ts:58-72 | the `forEach`/`push` loop returns `ValidTeams` of the snapshot |
| Teams.ReadTeams | src/lib/xaca/data/teams.ts:42-81 | `readTeams` returns the filtered teams of the game's sub-collection |
| Teams.ReadPartidasId | src/lib/xaca/data/teams.ts:30-35 | the listing holds each game id once, and exactly the ids of the records |
| Teams.SubscriptionDeliveries | src/lib/xaca/data/teams.ts:103-124 | subscribing to a non-empty game id delivers exactly the valid teams of that game; subscribing to the empty id, or calling the returned handle, delivers nothing |
| Teams.DeliverTeams | src/lib/xaca/data/teams.ts:110-124 | the callback's walk over the snapshot hands over what `Delivery` specifies: the filtered team list of the listened game, or nothing without a listener |
| Teams.UpdateTeamScore | src/lib/xaca/data/teams.ts:83-101 | the absolute score write patches only the `score` field of the addressed team, fails for a team the store lacks, and changes nothing else |
| Teams.ScoreWriteSeen | src/lib/xaca/data/teams.ts:89-94 | after the write, readers see the same teams in the same order, with only that team's score replaced |
| Teams.CreatePartida | src/lib/xaca/data/teams.ts:127-145 | a new record under a new id, with status `"active"`, the creation time and no board; the teams are unchanged |
| Teams.AddTeam | src/lib/xaca/data/teams.ts:161-172 | one team is appended with a new id, its name and score 0, and its `id` field is patched to that id; other games are unchanged |
| Teams.CreatedDocsStep | src/lib/xaca/data/teams.ts:161-174 | appending the next team keeps the relation between the documents, the names and the teams read |
| Teams.CreateTeams | src/lib/xaca/data/teams.ts:147-180 | one finished document per generated name, in name order: score 0, own id, new ids; readers then see the old teams followed by the created ones, in the model's store order |
| Teams.AddTeams | src/lib/xaca/data/teams.ts:161-174 | the creation loop adds one finished document per name, in order, and touches no other game |
| Teams.FreshGameHasNoBoard | src/lib/xaca/data/teams.ts:134-137 | a game just created by `createPartida` fails both the board read and every board update |
| Teams.UniformBoardDecode | src/lib/xaca/data/game.ts:34-48 | a board whose 25 tokens are one separator-free token has the 5x5 shape, and no used cell if that token does not read as 1 |
| Teams.EmptyBoardUnused | src/lib/xaca/data/game.ts:34-48 | the all-`"0"` board has the 5x5 shape and no used cell |
| Teams.CreatePartidaSeeded | src/lib/xaca/data/teams.ts:127-145 | corrected creation: the record also carries the all-`"0"` board |
| Teams.UnusedBoardScenario | src/lib/xaca/data/game.ts:65-104 | a well-shaped board without used cells reads as empty, and after one update reads as exactly the updated cell |
| Teams.SeededGameScenario | src/lib/xaca/data/teams.ts:134-137 | a game from the corrected creation reads as empty, and after an update at (row, col) reads as exactly `{"row,col"}` |
| ReadTeams.ReadTeams | src/lib/xaca/data/read_teams.ts:14-53 | the second copy of `readTeams` returns the same filtered teams as the first |
| ReadTeams.ReadPartidasId | src/lib/xaca/data/read_teams.ts:7-12 | the second copy of the listing equals the first, with one id per game record |
| ReadTeams.DistinctCardinality | src/lib/xaca/data/read_teams.ts:7-12 | a listing without repetitions has as many entries as its set of ids |
| GameBoard.QuestionKey | src/components/Game.tsx:78 | the key `category-points` of a clicked question; `QuestionKeyInjective` and `KeyFormatsDisjoint` are its properties |
| GameBoard.QuestionKeyInjective | src/components/Game.tsx:78 | two questions whose categories hold no `-` share a key only when they are the same question |
| GameBoard.ConfiguredKeysDistinct | src/components/GameBoard.tsx:26-28 | different configured questions have different keys, so one click never disables another question |
| GameBoard.IsQuestionActivated | src/components/GameBoard.tsx:26-28 | the first key format: the question key is in the set; see `ActivatedByClicks` |
| GameBoard.CellActivated | src/components/GameBoard.tsx:46-49 | a cell is activated when its question key or its `"row,col"` key is in the set; see `RenderOrder` |
| GameBoard.Cell | src/components/GameBoard.tsx:43-59 | the button of one cell: key, caption, click arguments and disabled flag; see `RenderOrder` |
| GameBoard.RenderBoard | src/components/GameBoard.tsx:43-66 | the grid of buttons, tiers outer and categories inner; its shape and contents are `RenderOrder` |
| GameBoard.RenderOrder | src/components/GameBoard.tsx:43-59 | 5 x 5 buttons, tiers outer and categories inner: button j of row i is for category j and tier i, sits at coordinates (i, j), shows its points, clicks with its own pair, and is disabled exactly when either key of its cell is in the set |
| GameBoard.KeyFormatsDisjoint | src/components/GameBoard.tsx:46-49 | a question key never equals a cell key |
| GameBoard.ActivatedByClicks | src/components/GameBoard.tsx:26-49 | with only the game's own question keys in the set, a button is disabled exactly when its question key is there |
| GameBoard.ActivatedByBoard | src/components/GameBoard.tsx:46-59 | with the set decoded from a stored board, a button is disabled exactly when its cell's token reads as 1 |
| GameComponent.FindTeam | src/components/Game.tsx:95 | `find` gives none exactly when no team has the id, else the first team with it |
| GameComponent.NewScore | src/components/Game.tsx:98-100 | the score `handleScoreUpdate` writes: the old score plus or minus the question's points; see `NewScoreUnclamped` |
| GameComponent.NewScoreUnclamped | src/components/Game.tsx:98-100 | the written score moves by exactly the question's points either way, and can go below zero |
| GameComponent.ConfiguredKey | src/components/Game.tsx:78 | the key of a configured question is one of the configured keys |
| GameComponent.Game.constructor | src/components/Game.tsx:18-23 | the first render: nothing selected or activated, no teams, loading, no error |
| GameComponent.Game.InitializeTeams | src/components/Game.tsx:26-58 | existing teams are taken as they are, with no write; only a game without teams gets `totalTeams` new teams, which are then read back; loading ends; the question state is unchanged |
| GameComponent.Game.LoadTeams | src/components/Game.tsx:29-52 | the store side of initialisation: the teams found, or else the teams created and read back |
| GameComponent.Game.CreateInitialTeams | src/components/Game.tsx:43-51 | creating and re-reading yields exactly the created teams, named by the generator, in order, with score 0 |
| GameComponent.Game.Subscribe | src/components/Game.tsx:64-71 | mounting subscribes to the game's teams, so the next delivery hands over that game's valid teams (nothing for an empty id), and changes nothing else |
| GameComponent.Game.OnTeamsSnapshot | src/components/Game.tsx:64-71 | a delivery replaces `teamScores` with the filtered teams of the game |
| GameComponent.Game.Unmount | src/components/Game.tsx:74 | unmounting leaves no subscription, so no delivery reaches the screen |
| GameComponent.Game.HandleQuestionClick | src/components/Game.tsx:77-87 | a recorded key, or an unconfigured pair, changes nothing and writes no board; a fresh configured pair opens `questionsData[c][p]`, adds its key and updates the board at its coordinates; the activated set only grows |
| GameComponent.Game.OpenQuestion | src/components/Game.tsx:81-85 | opening sets the question, adds its key and applies the board update at the given cell |
| GameComponent.Game.HandleQuestionClose | src/components/Game.tsx:89-91 | closing clears the selected question and keeps the activated set and the teams |
| GameComponent.Game.HandleScoreUpdate | src/components/Game.tsx:93-110 | no change without the team in `teamScores` or without a selected question; otherwise the store gets score ± points for that team, or, when the write fails, the score error message; `teamScores` is never modified here |

## Left out

- Store set-up and network calls (`initializeApp`, `getFirestore`, `getDoc`, `getDocs`, `addDoc`, `updateDoc`, `onSnapshot`) become the atomic methods of `DocStore.Store`. Network failures are not modelled, so the `catch` branches that only log and rethrow have no counterpart.
- DocStore.Store.NewId: the store draws random document ids; the model hands out the decimal text of a counter, which gives the same freshness guarantee and nothing more.
- Async timing: every call runs to completion before the next. The `Promise.all` in `createTeams` becomes a sequential loop in name order. The un-awaited `updatePartidaBoard` in `handleQuestionClick` runs inside the click. Lost-update races on the board and on scores are not modelled.
- Listing order: the model's store lists game ids and team documents in creation order. The real store lists a collection read without `orderBy` by ascending document id, and the ids are random. So the orders stated by Teams.CreateTeams, GameComponent.Game.CreateInitialTeams, GameComponent.Game.LoadTeams (the order of `teamScores`), Teams.ReadPartidasId and Teams.ValidTeamsAppend hold for the model's store only; the sets of teams and ids they state do not depend on it.
- The order of snapshot deliveries by `onSnapshot`: one delivery is one call of `OnTeamsSnapshot`.
- JavaScript numbers are doubles; scores, points and board positions are unbounded integers here, so overflow, `NaN` and fractional values are not modelled. A fractional `row` or `col` passes the range check of game.ts:68 and then throws in the array indexing of game.ts:94; the only caller passes `indexOf` results, which are whole numbers. `typeof data.score === 'number'` is true exactly for a `Num` field.
- The `unique-names-generator` library and its randomness are replaced by the `candidates` sequence. Teams.GenerateUniqueTeamNames requires that the candidates hold enough distinct names; the source loop would not terminate otherwise.
- `readTeam` (src/lib/xaca/data/teams.ts:36-41) is an unchecked cast of a single read and is not part of this model.
- Logging (`console.log`, `console.warn`, `console.error`) and the React render output: the loading and error screens, the team cards, the tabs (`activeTab`) and the question dialog.
- The unused `isQuestionActivated` of Game.tsx (lines 112-114) is not modelled separately; it is the same test as `GameBoard.IsQuestionActivated`.
- GameComponent.Game.InitializeTeams: the `.map` copies of the team lists are the identity on teams that already carry this `partidaId`, so they are not modelled. The error branch (`Failed to initialize teams`) is reached only through a network failure and is not modelled.
- GameComponent.Game.HandleQuestionClick: an unconfigured pair makes the source throw, either from `questionsData[category][points]` or from `getBoardCoordinates`. The exception escapes the handler before any state changes, so the model returns with nothing changed. The model looks the question up after the coordinates; for every input this gives the same result.
- GameBoard.RenderBoard: the view is modelled with the configured `categories` and `pointValues`, which are the props Game passes. A render with a pair outside the configuration, where `getBoardCoordinates` would throw, is not modelled. The `questionsData` prop is unused by the view.
- CircularTimer, Question, TeamCard and the pages (Home, Host, Player, App) are presentation or wall-clock code and are not part of this model.

## Findings

| source | as written | input that shows it | evidently intended | confidence | as-written member | corrected member |
|---|---|---|---|---|---|---|
| src/lib/xaca/data/teams.ts:134-137 | `createPartida` writes only `createdAt` and `status`; no code writes a game's first board, and `updatePartidaBoard` (game.ts:102-104) only overwrites an existing one | any game created by `createPartida`, then a question click: `updatePartidaBoard` throws on `undefined.split`, so no board write ever succeeds, and `readPartidaBoard` throws too | a new game starts with the empty 5x5 board (`"0,0,0,0,0"` five times, joined by `;`), so reading gives no used cell and each click records its cell | not executed | Teams.FreshGameHasNoBoard | Teams.SeededGameScenario |
