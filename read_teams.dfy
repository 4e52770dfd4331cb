/** The second copy of the team reader and of the game-id listing
    (src/lib/xaca/data/read_teams.ts). Both behave like their counterparts in
    `Teams`; the team loop is written out again, as it is in the code. */
module ReadTeams {
  import opened Wrappers
  import opened DocStore
  import Teams

  /** `readTeams(partidaId)`: push the team of every document with a string `name`
      and a numeric `score`, in snapshot order. */
  method ReadTeams(store: Store, partidaId: string) returns (teams: seq<Teams.Team>)
    ensures teams == Teams.ValidTeams(store.TeamDocs(partidaId), partidaId)
  {
    var snapshot := store.TeamDocs(partidaId);
    teams := [];
    var i := 0;
    while i < |snapshot|
      invariant 0 <= i <= |snapshot|
      invariant teams == Teams.ValidTeams(snapshot[..i], partidaId)
    {
      var equipo := snapshot[i];
      assert snapshot[..i + 1][..i] == snapshot[..i];
      if "name" in equipo.data && equipo.data["name"].Str? && "score" in equipo.data && equipo.data["score"].Num? {
        teams := teams + [Teams.Team(equipo.id, equipo.data["name"].s, equipo.data["score"].n, partidaId)];
      }
      i := i + 1;
    }
    assert snapshot[..i] == snapshot;
  }

  /** `readPartidasId()`: the ids of the game records in store order. */
  function ReadPartidasId(store: Store): (ids: seq<string>)
    reads store
    requires store.Valid()
    ensures ids == Teams.ReadPartidasId(store)
    ensures |ids| == |store.partidas|
  {
    var snapshot := store.partidaOrder;
    DistinctCardinality(snapshot);
    assert store.partidas.Keys == set id | id in snapshot;
    seq(|snapshot|, i requires 0 <= i < |snapshot| => snapshot[i])
  }

  /** A sequence without repetitions has as many elements as its set. */
  lemma {:induction false} DistinctCardinality(s: seq<string>)
    requires Distinct(s)
    ensures |set x | x in s| == |s|
    decreases |s|
  {
    if |s| > 0 {
      var init := s[..|s| - 1];
      DistinctCardinality(init);
      assert (set x | x in s) == (set x | x in init) + {s[|s| - 1]};
      assert s[|s| - 1] !in init;
    }
  }
}
