/** The team registry of a game (src/lib/xaca/data/teams.ts): unique team names,
    the tolerant reading of team documents, team creation, score writes, the team
    subscription, and game creation. */
module Teams {
  import opened Wrappers
  import opened Js
  import opened DocStore
  import opened GameData

  /** A team as the readers hand it out. */
  datatype Team = Team(id: string, name: string, score: int, partidaId: string)

  // ---------------------------------------------------------------------------
  // unique team names
  // ---------------------------------------------------------------------------

  /** The distinct elements of `s` in order of first appearance: what a `Set` fed
      with `s` holds, and the order `Array.from` lists them in. */
  function Dedup(s: seq<string>): (r: seq<string>)
    ensures Distinct(r)
    ensures forall x :: x in r <==> x in s
    decreases |s|
  {
    if |s| == 0 then []
    else
      var d := Dedup(s[..|s| - 1]);
      assert forall x :: x in s <==> x in s[..|s| - 1] || x == s[|s| - 1];
      if s[|s| - 1] in d then d else d + [s[|s| - 1]]
  }

  /** Feeding more candidates only extends the set's contents. */
  lemma {:induction false} DedupPrefix(s: seq<string>, i: nat)
    requires i <= |s|
    ensures Dedup(s[..i]) <= Dedup(s)
    decreases |s|
  {
    if i < |s| {
      var init := s[..|s| - 1];
      DedupPrefix(init, i);
      assert init[..i] == s[..i];
    } else {
      assert s[..i] == s;
    }
  }

  /** The names `createTeams` gives its teams: the first `count` distinct
      candidates. */
  function TeamNames(count: int, candidates: seq<string>): seq<string>
    requires count <= |Dedup(candidates)|
  {
    Dedup(candidates)[..Max0(count)]
  }

  /** `generateUniqueTeamNames(count)`: add candidates to a set until it holds
      `count` names. The random generator is the sequence `candidates`; the loop
      ends only if the generator eventually produces `count` distinct names. */
  method GenerateUniqueTeamNames(count: int, candidates: seq<string>) returns (names: seq<string>)
    requires count <= |Dedup(candidates)|
    ensures |names| == Max0(count)
    ensures Distinct(names)
    ensures names == Dedup(candidates)[..|names|]
    ensures names == TeamNames(count, candidates)
  {
    names := [];
    var i := 0;
    while |names| < count
      invariant 0 <= i <= |candidates|
      invariant names == Dedup(candidates[..i])
      invariant i == |candidates| ==> names == Dedup(candidates)
      invariant |names| <= Max0(count)
      decreases |candidates| - i
    {
      var candidate := candidates[i];
      assert candidates[..i + 1][..i] == candidates[..i];
      if candidate !in names {
        names := names + [candidate];
      }
      i := i + 1;
      assert i == |candidates| ==> candidates[..i] == candidates;
    }
    DedupPrefix(candidates, i);
  }

  // ---------------------------------------------------------------------------
  // reading team documents
  // ---------------------------------------------------------------------------

  /** `typeof data.name === 'string' && typeof data.score === 'number'`. */
  predicate IsTeamRecord(data: Fields)
  {
    "name" in data && data["name"].Str? && "score" in data && data["score"].Num?
  }

  /** The team read from a valid document: the id is the document's id (not its
      stored `id` field) and `partidaId` is the game being read. */
  function ToTeam(d: Doc, partidaId: string): Team
    requires IsTeamRecord(d.data)
  {
    Team(d.id, d.data["name"].s, d.data["score"].n, partidaId)
  }

  /** The teams read from a snapshot: the valid documents, in snapshot order. */
  function ValidTeams(docs: seq<Doc>, partidaId: string): seq<Team>
    decreases |docs|
  {
    if |docs| == 0 then []
    else
      var last := docs[|docs| - 1];
      ValidTeams(docs[..|docs| - 1], partidaId) + (if IsTeamRecord(last.data) then [ToTeam(last, partidaId)] else [])
  }

  /** Reading two snapshots one after the other reads their concatenation: the
      kept documents stay in snapshot order. */
  lemma {:induction false} ValidTeamsAppend(a: seq<Doc>, b: seq<Doc>, partidaId: string)
    ensures ValidTeams(a + b, partidaId) == ValidTeams(a, partidaId) + ValidTeams(b, partidaId)
    decreases |b|
  {
    if |b| == 0 {
      assert a + b == a;
    } else {
      var b' := b[..|b| - 1];
      ValidTeamsAppend(a, b', partidaId);
      assert (a + b)[..|a + b| - 1] == a + b';
      assert (a + b)[|a + b| - 1] == b[|b| - 1];
    }
  }

  /** Every team read comes from a valid document of the snapshot. */
  lemma {:induction false} ValidTeamsSound(docs: seq<Doc>, partidaId: string, k: int)
    requires 0 <= k < |ValidTeams(docs, partidaId)|
    ensures exists i :: 0 <= i < |docs| && IsTeamRecord(docs[i].data)
                        && ValidTeams(docs, partidaId)[k] == ToTeam(docs[i], partidaId)
    decreases |docs|
  {
    var init := docs[..|docs| - 1];
    if k < |ValidTeams(init, partidaId)| {
      ValidTeamsSound(init, partidaId, k);
      var i :| 0 <= i < |init| && IsTeamRecord(init[i].data) && ValidTeams(init, partidaId)[k] == ToTeam(init[i], partidaId);
      assert docs[i] == init[i];
    } else {
      assert ValidTeams(docs, partidaId)[k] == ToTeam(docs[|docs| - 1], partidaId);
    }
  }

  /** Every valid document of the snapshot is read. */
  lemma {:induction false} ValidTeamsComplete(docs: seq<Doc>, partidaId: string, i: int)
    requires 0 <= i < |docs| && IsTeamRecord(docs[i].data)
    ensures ToTeam(docs[i], partidaId) in ValidTeams(docs, partidaId)
    decreases |docs|
  {
    if i < |docs| - 1 {
      var init := docs[..|docs| - 1];
      ValidTeamsComplete(init, partidaId, i);
      assert init[i] == docs[i];
    }
  }

  /** The loop of `readTeams` and of the `subscribeToTeams` callback: push the team
      of every valid document, skip the others. */
  method CollectTeams(docs: seq<Doc>, partidaId: string) returns (teams: seq<Team>)
    ensures teams == ValidTeams(docs, partidaId)
  {
    teams := [];
    var i := 0;
    while i < |docs|
      invariant 0 <= i <= |docs|
      invariant teams == ValidTeams(docs[..i], partidaId)
    {
      var data := docs[i].data;
      assert docs[..i + 1][..i] == docs[..i];
      if "name" in data && data["name"].Str? && "score" in data && data["score"].Num? {
        teams := teams + [Team(docs[i].id, data["name"].s, data["score"].n, partidaId)];
      }
      i := i + 1;
    }
    assert docs[..i] == docs;
  }

  /** `readTeams(partidaId)`: the teams of the game's sub-collection. */
  method ReadTeams(store: Store, partidaId: string) returns (teams: seq<Team>)
    ensures teams == ValidTeams(store.TeamDocs(partidaId), partidaId)
  {
    teams := CollectTeams(store.TeamDocs(partidaId), partidaId);
  }

  /** `readPartidasId()`: the id of every game record, in store order. */
  function ReadPartidasId(store: Store): (ids: seq<string>)
    reads store
    requires store.Valid()
    ensures Distinct(ids)
    ensures forall id :: id in ids <==> id in store.partidas
  {
    store.partidaOrder
  }

  // ---------------------------------------------------------------------------
  // subscription
  // ---------------------------------------------------------------------------

  /** A live listener on a game's team sub-collection, or none. */
  datatype Subscription = NoSubscription | Listening(partidaId: string)

  /** `subscribeToTeams(partidaId, callback)`: an empty id subscribes to nothing. */
  function SubscribeToTeams(partidaId: string): Subscription
  {
    if partidaId == "" then NoSubscription else Listening(partidaId)
  }

  /** Calling the handle `subscribeToTeams` returned: no further callbacks. */
  function Unsubscribe(sub: Subscription): Subscription
  {
    NoSubscription
  }

  /** What one snapshot hands the callback: the whole filtered team list of the
      listened game, or nothing without a listener. */
  function Delivery(store: Store, sub: Subscription): Option<seq<Team>>
    reads store
  {
    match sub
    case NoSubscription => None
    case Listening(partidaId) => Some(ValidTeams(store.TeamDocs(partidaId), partidaId))
  }

  /** Subscribing to a game delivers exactly the valid teams of that game; the empty
      id and a cancelled handle deliver nothing. */
  lemma SubscriptionDeliveries(store: Store, partidaId: string, sub: Subscription)
    ensures partidaId != "" ==>
      Delivery(store, SubscribeToTeams(partidaId)) == Some(ValidTeams(store.TeamDocs(partidaId), partidaId))
    ensures Delivery(store, SubscribeToTeams("")) == None
    ensures Delivery(store, Unsubscribe(sub)) == None
  {
  }

  /** One delivery of the subscription, computed by walking the snapshot. */
  method DeliverTeams(store: Store, sub: Subscription) returns (update: Option<seq<Team>>)
    ensures update == Delivery(store, sub)
  {
    match sub
    case NoSubscription =>
      update := None;
    case Listening(partidaId) =>
      var teams := CollectTeams(store.TeamDocs(partidaId), partidaId);
      update := Some(teams);
  }

  // ---------------------------------------------------------------------------
  // writes
  // ---------------------------------------------------------------------------

  datatype TeamError = TeamNotFound

  /** The fields of a finished team document. */
  function NewTeamFields(name: string, id: string): Fields
  {
    map["name" := Str(name), "score" := Num(0), "id" := Str(id)]
  }

  /** The score patch `updateTeamScore` writes. */
  function ScorePatch(newScore: int): Fields
  {
    map["score" := Num(newScore)]
  }

  /** The team list with the score of team `id` replaced. */
  function SetScore(teams: seq<Team>, id: string, score: int): seq<Team>
  {
    seq(|teams|, k requires 0 <= k < |teams| => if teams[k].id == id then teams[k].(score := score) else teams[k])
  }

  /** `updateTeamScore(partidaId, teamId, newScore)`: an absolute write of the
      `score` field of one team document; fails when the document does not exist. */
  method UpdateTeamScore(store: Store, partidaId: string, teamId: string, newScore: int)
    returns (res: Outcome<TeamError>)
    requires store.Valid()
    modifies store
    ensures store.Valid()
    ensures res == if HasDoc(old(store.TeamDocs(partidaId)), teamId) then Pass else Fail(TeamNotFound)
    ensures store.teams == if res.Pass?
      then old(store.teams)[partidaId := UpdateDocs(old(store.TeamDocs(partidaId)), teamId, ScorePatch(newScore))]
      else old(store.teams)
    ensures store.partidas == old(store.partidas) && store.partidaOrder == old(store.partidaOrder)
    ensures store.nextId == old(store.nextId)
  {
    var found := store.UpdateTeamDoc(partidaId, teamId, ScorePatch(newScore));
    res := if found then Pass else Fail(TeamNotFound);
  }

  /** After a score write, readers see the same teams with that team's score
      replaced, provided the addressed document was a valid team. */
  lemma {:induction false} ScoreWriteSeen(docs: seq<Doc>, teamId: string, newScore: int, partidaId: string)
    requires forall i :: 0 <= i < |docs| && docs[i].id == teamId ==> IsTeamRecord(docs[i].data)
    ensures ValidTeams(UpdateDocs(docs, teamId, ScorePatch(newScore)), partidaId)
         == SetScore(ValidTeams(docs, partidaId), teamId, newScore)
    decreases |docs|
  {
    if |docs| > 0 {
      var init, last := docs[..|docs| - 1], docs[|docs| - 1];
      var patch := ScorePatch(newScore);
      ScoreWriteSeen(init, teamId, newScore, partidaId);
      UpdateDocsSnoc(init, last, teamId, patch);
      assert init + [last] == docs;
      var last' := if last.id == teamId then Doc(teamId, last.data + patch) else last;
      ValidTeamsAppend(UpdateDocs(init, teamId, patch), [last'], partidaId);
      ScoreWriteOne(last, teamId, newScore, partidaId);
      ValidTeamsAppend(init, [last], partidaId);
      SetScoreAppend(ValidTeams(init, partidaId), ValidTeams([last], partidaId), teamId, newScore);
    }
  }

  /** Updating a sequence with one more document updates that document last. */
  lemma UpdateDocsSnoc(docs: seq<Doc>, d: Doc, id: string, patch: Fields)
    ensures UpdateDocs(docs + [d], id, patch)
         == UpdateDocs(docs, id, patch) + [if d.id == id then Doc(id, d.data + patch) else d]
  {
    var lhs := UpdateDocs(docs + [d], id, patch);
    var rhs := UpdateDocs(docs, id, patch) + [if d.id == id then Doc(id, d.data + patch) else d];
    forall k | 0 <= k < |lhs| ensures lhs[k] == rhs[k] {
      if k < |docs| {
        assert (docs + [d])[k] == docs[k];
      }
    }
  }

  /** The score write seen on a single document. */
  lemma ScoreWriteOne(d: Doc, teamId: string, newScore: int, partidaId: string)
    requires d.id == teamId ==> IsTeamRecord(d.data)
    ensures var d' := if d.id == teamId then Doc(teamId, d.data + ScorePatch(newScore)) else d;
      ValidTeams([d'], partidaId) == SetScore(ValidTeams([d], partidaId), teamId, newScore)
  {
    var d' := if d.id == teamId then Doc(teamId, d.data + ScorePatch(newScore)) else d;
    assert [d'][..0] == [] && [d][..0] == [];
  }

  /** Replacing a score distributes over concatenation. */
  lemma SetScoreAppend(a: seq<Team>, b: seq<Team>, id: string, score: int)
    ensures SetScore(a + b, id, score) == SetScore(a, id, score) + SetScore(b, id, score)
  {
  }

  /** `createPartida()`: a new game record with status `"active"` and the creation
      time; no `board` field is written. The clock is the parameter `createdAt`. */
  method CreatePartida(store: Store, createdAt: string) returns (id: string)
    requires store.Valid()
    modifies store
    ensures store.Valid()
    ensures id !in old(store.partidas)
    ensures store.partidas == old(store.partidas)[id := Partida(None, createdAt, "active")]
    ensures store.partidaOrder == old(store.partidaOrder) + [id]
    ensures store.teams == old(store.teams)
  {
    id := store.AddPartida(Partida(None, createdAt, "active"));
  }

  /** The teams read from the documents `created` that `createTeams` added, named
      in order by `names`, with score 0. */
  function CreatedTeams(created: seq<Doc>, names: seq<string>, partidaId: string): seq<Team>
    requires |names| <= |created|
  {
    seq(|names|, k requires 0 <= k < |names| => Team(created[k].id, names[k], 0, partidaId))
  }

  /** Two team maps agree on every game other than `partidaId`. */
  ghost predicate AgreeExcept(a: map<string, seq<Doc>>, b: map<string, seq<Doc>>, partidaId: string)
  {
    forall p :: p != partidaId ==> (p in a <==> p in b) && (p in a ==> a[p] == b[p])
  }

  lemma AgreeExceptTrans(a: map<string, seq<Doc>>, b: map<string, seq<Doc>>, c: map<string, seq<Doc>>, partidaId: string)
    requires AgreeExcept(a, b, partidaId) && AgreeExcept(b, c, partidaId)
    ensures AgreeExcept(a, c, partidaId)
  {
  }

  /** The body `createTeams` runs for each name: add the document with score 0 and
      an empty `id` field, then write its own document id into that field. */
  method AddTeam(store: Store, partidaId: string, name: string) returns (id: string)
    requires store.Valid()
    modifies store
    ensures store.Valid()
    ensures store.partidas == old(store.partidas) && store.partidaOrder == old(store.partidaOrder)
    ensures AgreeExcept(store.teams, old(store.teams), partidaId)
    ensures !HasDoc(old(store.TeamDocs(partidaId)), id)
    ensures store.TeamDocs(partidaId) == old(store.TeamDocs(partidaId)) + [Doc(id, NewTeamFields(name, id))]
  {
    ghost var docs := store.TeamDocs(partidaId);
    var initial := map["name" := Str(name), "score" := Num(0), "id" := Str("")];
    id := store.AddTeamDoc(partidaId, initial);
    var found := store.UpdateTeamDoc(partidaId, id, map["id" := Str(id)]);
    UpdateAppended(docs, Doc(id, initial), map["id" := Str(id)]);
    assert initial + map["id" := Str(id)] == NewTeamFields(name, id);
  }

  /** `docs` is `before` followed by one finished team document, with an id new to
      `before`, per name of `names`, and the teams read from it are those of
      `before` followed by the created teams. */
  predicate CreatedDocs(docs: seq<Doc>, before: seq<Doc>, names: seq<string>, partidaId: string)
  {
    && |docs| == |before| + |names|
    && docs[..|before|] == before
    && var created := docs[|before|..];
      && (forall k :: 0 <= k < |names| ==>
            created[k].data == NewTeamFields(names[k], created[k].id) && !HasDoc(before, created[k].id))
      && ValidTeams(docs, partidaId) == ValidTeams(before, partidaId) + CreatedTeams(created, names, partidaId)
  }

  /** Adding the next team document keeps `CreatedDocs`. */
  lemma CreatedDocsStep(before: seq<Doc>, docs: seq<Doc>, names: seq<string>, i: nat, id: string, partidaId: string)
    requires i < |names| && CreatedDocs(docs, before, names[..i], partidaId)
    requires !HasDoc(docs, id)
    ensures CreatedDocs(docs + [Doc(id, NewTeamFields(names[i], id))], before, names[..i + 1], partidaId)
  {
    var finished := Doc(id, NewTeamFields(names[i], id));
    var docs' := docs + [finished];
    assert docs'[..|docs'| - 1] == docs;
    assert docs'[..|before|] == before by {
      assert docs'[..|before|] == docs[..|before|];
    }
    var created, created' := docs[|before|..], docs'[|before|..];
    assert created' == created + [finished];
    var names' := names[..i + 1];
    assert names' == names[..i] + [names[i]];
    var teams := CreatedTeams(created, names[..i], partidaId);
    var teams' := CreatedTeams(created', names', partidaId);
    assert teams' == teams + [Team(id, names[i], 0, partidaId)];
    assert ValidTeams(docs', partidaId) == ValidTeams(docs, partidaId) + [ToTeam(finished, partidaId)];
  }

  /** `createTeams(partidaId, numberOfTeams)`: one team document per generated name.
      The writes of the source run concurrently; here they run one after another. */
  method CreateTeams(store: Store, partidaId: string, numberOfTeams: int, candidates: seq<string>)
    requires store.Valid()
    requires numberOfTeams <= |Dedup(candidates)|
    modifies store
    ensures store.Valid()
    ensures store.partidas == old(store.partidas) && store.partidaOrder == old(store.partidaOrder)
    ensures AgreeExcept(store.teams, old(store.teams), partidaId)
    ensures CreatedDocs(store.TeamDocs(partidaId), old(store.TeamDocs(partidaId)), TeamNames(numberOfTeams, candidates), partidaId)
  {
    var teamNames := GenerateUniqueTeamNames(numberOfTeams, candidates);
    AddTeams(store, partidaId, teamNames);
  }

  /** The loop of `createTeams`: one `AddTeam` per name, in order. */
  method AddTeams(store: Store, partidaId: string, teamNames: seq<string>)
    requires store.Valid()
    modifies store
    ensures store.Valid()
    ensures store.partidas == old(store.partidas) && store.partidaOrder == old(store.partidaOrder)
    ensures AgreeExcept(store.teams, old(store.teams), partidaId)
    ensures CreatedDocs(store.TeamDocs(partidaId), old(store.TeamDocs(partidaId)), teamNames, partidaId)
  {
    ghost var before := store.TeamDocs(partidaId);
    ghost var teams0 := store.teams;
    var i := 0;
    assert before[..|before|] == before;
    while i < |teamNames|
      invariant 0 <= i <= |teamNames|
      invariant store.Valid()
      invariant store.partidas == old(store.partidas) && store.partidaOrder == old(store.partidaOrder)
      invariant AgreeExcept(store.teams, teams0, partidaId)
      invariant CreatedDocs(store.TeamDocs(partidaId), before, teamNames[..i], partidaId)
    {
      ghost var docs, teams1 := store.TeamDocs(partidaId), store.teams;
      var newId := AddTeam(store, partidaId, teamNames[i]);
      AgreeExceptTrans(store.teams, teams1, teams0, partidaId);
      CreatedDocsStep(before, docs, teamNames, i, newId, partidaId);
      i := i + 1;
    }
    assert teamNames[..i] == teamNames;
  }

  // ---------------------------------------------------------------------------
  // a new game has no board
  // ---------------------------------------------------------------------------

  /** As written, a game fresh from `createPartida` has no `board` field, so reading
      its board and marking any cell of it both fail. */
  lemma FreshGameHasNoBoard(partidas: map<string, Partida>, id: string, createdAt: string, row: int, col: int)
    requires 0 <= row < Size && 0 <= col < Size
    ensures var created := partidas[id := Partida(None, createdAt, "active")];
      && ReadBoard(created, id) == Failure(MissingBoard)
      && UpdateBoard(created, id, row, col) == Failure(MissingBoard)
      && AfterUpdate(created, id, row, col) == created
  {
  }

  /** The board whose 25 tokens are all `token`. */
  function UniformBoard(token: string): string
  {
    Join(UniformRow(token), ';')
  }

  /** Five copies of the row `token,token,token,token,token`. */
  function UniformRow(token: string): seq<string>
  {
    var row := Join([token, token, token, token, token], ',');
    [row, row, row, row, row]
  }

  /** Splitting a uniform board gives back its five rows, each of five `token`s. */
  lemma UniformBoardRows(token: string)
    requires ',' !in token && ';' !in token
    ensures Rows(UniformBoard(token)) == UniformRow(token)
    ensures forall r :: 0 <= r < Size ==> Tokens(UniformRow(token)[r]) == [token, token, token, token, token]
  {
    var tokens := [token, token, token, token, token];
    SplitJoin(tokens, ',');
    JoinAvoids(tokens, ',', ';');
    SplitJoin(UniformRow(token), ';');
  }

  /** A matrix all of whose cells are a token that does not read as 1 has no used cell. */
  lemma UniformUnused(g: seq<seq<string>>, token: string)
    requires forall r, c :: 0 <= r < |g| && 0 <= c < |g[r]| ==> g[r][c] == token
    requires !ParsesToOne(token)
    ensures UsedKeys(g) == {}
  {
  }

  /** A uniform board of a separator-free token has the 5x5 shape, and it has no
      used cell when the token does not read as 1. */
  lemma {:induction false} UniformBoardDecode(token: string)
    requires ',' !in token && ';' !in token
    ensures WellShaped(UniformBoard(token))
    ensures Grid(UniformBoard(token)) == seq(Size, r => [token, token, token, token, token])
    ensures !ParsesToOne(token) ==> DecodeBoard(Some(UniformBoard(token))) == Success({})
  {
    UniformBoardRows(token);
    var g := Grid(UniformBoard(token));
    assert g == seq(Size, r => [token, token, token, token, token]);
    if !ParsesToOne(token) {
      UniformUnused(g, token);
    }
  }

  /** The board of a new game: `"0,0,0,0,0"` five times, joined with `;`. */
  function EmptyBoard(): string
  {
    UniformBoard("0")
  }

  /** The empty board has the 5x5 shape and no used cell. */
  lemma EmptyBoardUnused()
    ensures WellShaped(EmptyBoard())
    ensures DecodeBoard(Some(EmptyBoard())) == Success({})
  {
    OneAndZero();
    UniformBoardDecode("0");
  }

  /** `createPartida` as the board operations need it: the new record also carries
      an empty 5x5 board. */
  method CreatePartidaSeeded(store: Store, createdAt: string) returns (id: string)
    requires store.Valid()
    modifies store
    ensures store.Valid()
    ensures id !in old(store.partidas)
    ensures store.partidas == old(store.partidas)[id := Partida(Some(EmptyBoard()), createdAt, "active")]
    ensures store.partidaOrder == old(store.partidaOrder) + [id]
    ensures store.teams == old(store.teams)
  {
    id := store.AddPartida(Partida(Some(EmptyBoard()), createdAt, "active"));
  }

  /** A game whose board has the 5x5 shape and no used cell reads as having no used
      cell, and after marking cell (row, col) it reads as having exactly that one. */
  lemma UnusedBoardScenario(partidas: map<string, Partida>, id: string, record: Partida, row: nat, col: nat)
    requires record.board.Some? && WellShaped(record.board.value)
    requires DecodeBoard(record.board) == Success({})
    requires row < Size && col < Size
    ensures var seeded := partidas[id := record];
      && ReadBoard(seeded, id) == Success({})
      && ReadBoard(AfterUpdate(seeded, id, row, col), id) == Success({CellKey(row, col)})
  {
    var seeded := partidas[id := record];
    var board := record.board.value;
    PatchDecode(board, row, col);
    assert UpdateBoard(seeded, id, row, col) == Success(PatchBoard(board, row, col));
    var after := AfterUpdate(seeded, id, row, col);
    assert after[id].board == Some(PatchBoard(board, row, col));
    assert ReadBoard(seeded, id) == Success({});
    var used: set<string> := DecodeBoard(Some(board)).value;
    assert used == {};
    assert used + {CellKey(row, col)} == {CellKey(row, col)};
  }

  /** A game from `CreatePartidaSeeded` reads as having no used cell, and after
      marking cell (row, col) it reads as having exactly that one. */
  lemma SeededGameScenario(partidas: map<string, Partida>, id: string, createdAt: string, row: nat, col: nat)
    requires row < Size && col < Size
    ensures var seeded := partidas[id := Partida(Some(EmptyBoard()), createdAt, "active")];
      && ReadBoard(seeded, id) == Success({})
      && ReadBoard(AfterUpdate(seeded, id, row, col), id) == Success({CellKey(row, col)})
  {
    EmptyBoardUnused();
    UnusedBoardScenario(partidas, id, Partida(Some(EmptyBoard()), createdAt, "active"), row, col);
  }
}
