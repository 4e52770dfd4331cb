/** The game screen's state and handlers (src/components/Game.tsx): the questions
    activated in this session, the open question, the team list the subscription
    keeps, and the score and board writes the handlers issue. */
module GameComponent {
  import opened Wrappers
  import opened Questions
  import opened BoardUtils
  import opened DocStore
  import opened GameData
  import opened Teams
  import opened GameBoard

  /** `teamScores.find(t => t.id === teamId)`: the first team with that id. */
  function FindTeam(teams: seq<Team>, teamId: string): (found: Option<Team>)
    ensures found.None? <==> forall k :: 0 <= k < |teams| ==> teams[k].id != teamId
    ensures found.Some? ==> exists k :: 0 <= k < |teams| && teams[k] == found.value && found.value.id == teamId
                                        && forall m :: 0 <= m < k ==> teams[m].id != teamId
    decreases |teams|
  {
    if |teams| == 0 then None
    else if teams[0].id == teamId then Some(teams[0])
    else
      var rest := FindTeam(teams[1..], teamId);
      assert forall k :: 1 <= k < |teams| ==> teams[k] == teams[1..][k - 1];
      rest
  }

  /** The score `handleScoreUpdate` writes: the question's points added on an
      increment, subtracted otherwise. */
  function NewScore(score: int, points: int, increment: bool): int
  {
    if increment then score + points else score - points
  }

  /** The written score moves by exactly the question's points in either direction,
      with no clamping: it goes below zero when it starts below the points. */
  lemma NewScoreUnclamped(score: int, points: int, increment: bool)
    ensures increment ==> NewScore(score, points, increment) - score == points
    ensures !increment ==> score - NewScore(score, points, increment) == points
    ensures !increment && score < points ==> NewScore(score, points, increment) < 0
  {
  }

  /** The key of a configured question is one of the configured keys. */
  lemma ConfiguredKey(category: string, points: int)
    requires category in Categories && points in PointValues
    ensures QuestionKey(category, points) in AllQuestionKeys()
  {
  }

  const ScoreUpdateError := "Failed to update team score. Please try again."

  class Game {
    const store: Store
    const partidaId: string
    const totalTeams: int
    var selectedQuestion: Option<QuestionData>
    var activatedQuestions: set<string>
    var teamScores: seq<Team>
    var isLoading: bool
    var error: Option<string>
    var subscription: Subscription

    /** The store is consistent, only configured questions were ever activated, and
        an open question is a configured one whose key was recorded when it opened. */
    ghost predicate Valid()
      reads this, store
    {
      && store.Valid()
      && activatedQuestions <= AllQuestionKeys()
      && (selectedQuestion.Some? ==>
            var q := selectedQuestion.value;
            && q.category in Categories && q.points in PointValues
            && QuestionKey(q.category, q.points) in activatedQuestions)
      && (subscription.Listening? ==> subscription.partidaId == partidaId)
    }

    /** The first render: nothing selected or activated, no teams yet, loading. */
    constructor (store: Store, partidaId: string, totalTeams: int)
      requires store.Valid()
      ensures Valid()
      ensures this.store == store && this.partidaId == partidaId && this.totalTeams == totalTeams
      ensures selectedQuestion == None && activatedQuestions == {} && teamScores == []
      ensures isLoading && error == None && subscription == NoSubscription
    {
      this.store := store;
      this.partidaId := partidaId;
      this.totalTeams := totalTeams;
      selectedQuestion := None;
      activatedQuestions := {};
      teamScores := [];
      isLoading := true;
      error := None;
      subscription := NoSubscription;
    }

    /** `initializeTeams`: read the game's teams; only when there are none, create
        `totalTeams` teams and read again. The name generator is `candidates`. */
    method InitializeTeams(candidates: seq<string>)
      requires Valid()
      requires totalTeams <= |Dedup(candidates)|
      modifies this, store
      ensures Valid()
      ensures !isLoading
      ensures LoadedTeams(old(store.TeamDocs(partidaId)), old(store.teams), old(store.nextId), candidates, teamScores)
      ensures store.partidas == old(store.partidas) && store.partidaOrder == old(store.partidaOrder)
      ensures selectedQuestion == old(selectedQuestion) && activatedQuestions == old(activatedQuestions)
      ensures error == old(error) && subscription == old(subscription)
    {
      var teams := LoadTeams(candidates);
      teamScores := teams;
      isLoading := false;
    }

    /** What `initializeTeams` leaves behind, given the game's documents `before`, the
        team collections `teams0` and the id counter `next0` before it ran: the teams
        it found, or else the `totalTeams` teams it created and read back. */
    ghost predicate LoadedTeams(before: seq<Doc>, teams0: map<string, seq<Doc>>, next0: nat,
                                candidates: seq<string>, loaded: seq<Team>)
      requires totalTeams <= |Dedup(candidates)|
      reads this, store
    {
      if ValidTeams(before, partidaId) != [] then
        && loaded == ValidTeams(before, partidaId)
        && store.teams == teams0 && store.nextId == next0
      else
        && AgreeExcept(store.teams, teams0, partidaId)
        && CreatedDocs(store.TeamDocs(partidaId), before, TeamNames(totalTeams, candidates), partidaId)
        && loaded == CreatedTeams(store.TeamDocs(partidaId)[|before|..], TeamNames(totalTeams, candidates), partidaId)
    }

    /** The store side of `initializeTeams`. */
    method LoadTeams(candidates: seq<string>) returns (teams: seq<Team>)
      requires store.Valid()
      requires totalTeams <= |Dedup(candidates)|
      modifies store
      ensures store.Valid()
      ensures LoadedTeams(old(store.TeamDocs(partidaId)), old(store.teams), old(store.nextId), candidates, teams)
      ensures store.partidas == old(store.partidas) && store.partidaOrder == old(store.partidaOrder)
    {
      var existingTeams := Teams.ReadTeams(store, partidaId);
      if |existingTeams| > 0 {
        teams := existingTeams;
      } else {
        teams := CreateInitialTeams(candidates);
      }
    }

    /** The branch of `initializeTeams` for a game without teams: create them, then
        read them back. */
    method CreateInitialTeams(candidates: seq<string>) returns (teams: seq<Team>)
      requires store.Valid()
      requires totalTeams <= |Dedup(candidates)|
      requires ValidTeams(store.TeamDocs(partidaId), partidaId) == []
      modifies store
      ensures store.Valid()
      ensures var before := old(store.TeamDocs(partidaId));
        && AgreeExcept(store.teams, old(store.teams), partidaId)
        && CreatedDocs(store.TeamDocs(partidaId), before, TeamNames(totalTeams, candidates), partidaId)
        && teams == CreatedTeams(store.TeamDocs(partidaId)[|before|..], TeamNames(totalTeams, candidates), partidaId)
      ensures store.partidas == old(store.partidas) && store.partidaOrder == old(store.partidaOrder)
    {
      CreateTeams(store, partidaId, totalTeams, candidates);
      teams := Teams.ReadTeams(store, partidaId);
    }

    /** Mounting subscribes to the game's teams. */
    method Subscribe()
      requires Valid()
      modifies this
      ensures Valid()
      ensures subscription == SubscribeToTeams(partidaId)
      ensures Delivery(store, subscription)
        == if partidaId == "" then None else Some(ValidTeams(store.TeamDocs(partidaId), partidaId))
      ensures selectedQuestion == old(selectedQuestion) && activatedQuestions == old(activatedQuestions)
      ensures teamScores == old(teamScores) && isLoading == old(isLoading) && error == old(error)
    {
      subscription := SubscribeToTeams(partidaId);
    }

    /** A snapshot delivery: the callback replaces `teamScores` by the filtered team
        list; without a subscription nothing happens. */
    method OnTeamsSnapshot()
      requires Valid()
      modifies this
      ensures Valid()
      ensures subscription.Listening? ==> teamScores == ValidTeams(store.TeamDocs(partidaId), partidaId)
      ensures subscription.NoSubscription? ==> teamScores == old(teamScores)
      ensures subscription == old(subscription)
      ensures selectedQuestion == old(selectedQuestion) && activatedQuestions == old(activatedQuestions)
      ensures isLoading == old(isLoading) && error == old(error)
    {
      var update := DeliverTeams(store, subscription);
      if update.Some? {
        teamScores := update.value;
      }
    }

    /** Unmounting cancels the subscription. */
    method Unmount()
      requires Valid()
      modifies this
      ensures Valid()
      ensures subscription == NoSubscription && Delivery(store, subscription) == None
      ensures selectedQuestion == old(selectedQuestion) && activatedQuestions == old(activatedQuestions)
      ensures teamScores == old(teamScores) && isLoading == old(isLoading) && error == old(error)
    {
      subscription := Unsubscribe(subscription);
    }

    /** `handleQuestionClick(category, points)`. An already recorded key changes
        nothing. Otherwise the question is looked up (a category missing from the
        table throws there) and its coordinates computed (an unknown tier throws
        there); then the question opens, its key is recorded and the board write is
        issued, its outcome ignored. */
    method HandleQuestionClick(category: string, points: int)
      requires Valid()
      modifies this, store
      ensures Valid()
      ensures old(activatedQuestions) <= activatedQuestions
      ensures category in Categories && points in PointValues ==> IsQuestionActivated(activatedQuestions, category, points)
      ensures QuestionKey(category, points) in old(activatedQuestions) || GetBoardCoordinates(category, points).Failure? ==>
        && activatedQuestions == old(activatedQuestions) && selectedQuestion == old(selectedQuestion)
        && store.partidas == old(store.partidas)
      ensures QuestionKey(category, points) !in old(activatedQuestions) && GetBoardCoordinates(category, points).Success? ==>
        && selectedQuestion == Some(Question(category, points))
        && activatedQuestions == old(activatedQuestions) + {QuestionKey(category, points)}
        && var cell := GetBoardCoordinates(category, points).value;
          store.partidas == AfterUpdate(old(store.partidas), partidaId, cell.row, cell.col)
      ensures store.partidaOrder == old(store.partidaOrder) && store.teams == old(store.teams)
      ensures store.nextId == old(store.nextId)
      ensures teamScores == old(teamScores) && isLoading == old(isLoading)
      ensures error == old(error) && subscription == old(subscription)
    {
      CategoryInTable(category);
      var questionKey := QuestionKey(category, points);
      if questionKey !in activatedQuestions {
        if category !in QuestionsData {
          return;
        }
        var coordinates := GetBoardCoordinates(category, points);
        if coordinates.Failure? {
          return;
        }
        var questionData := Question(category, points);
        OpenQuestion(questionData, coordinates.value.row, coordinates.value.col);
      }
    }

    /** The effects of a click on a configured question not yet recorded: open it,
        record its key, and write its cell on the stored board. */
    method OpenQuestion(questionData: QuestionData, row: int, col: int)
      requires Valid()
      requires questionData.category in Categories && questionData.points in PointValues
      modifies this, store
      ensures Valid()
      ensures selectedQuestion == Some(questionData)
      ensures activatedQuestions == old(activatedQuestions) + {QuestionKey(questionData.category, questionData.points)}
      ensures store.partidas == AfterUpdate(old(store.partidas), partidaId, row, col)
      ensures store.partidaOrder == old(store.partidaOrder) && store.teams == old(store.teams)
      ensures store.nextId == old(store.nextId)
      ensures teamScores == old(teamScores) && isLoading == old(isLoading)
      ensures error == old(error) && subscription == old(subscription)
    {
      ConfiguredKey(questionData.category, questionData.points);
      selectedQuestion := Some(questionData);
      activatedQuestions := activatedQuestions + {QuestionKey(questionData.category, questionData.points)};
      var boardWrite := GameData.UpdatePartidaBoard(store, partidaId, row, col);
    }

    /** `handleQuestionClose`: the open question closes; the activated set stays. */
    method HandleQuestionClose()
      requires Valid()
      modifies this
      ensures Valid()
      ensures selectedQuestion == None
      ensures activatedQuestions == old(activatedQuestions) && teamScores == old(teamScores)
      ensures isLoading == old(isLoading) && error == old(error) && subscription == old(subscription)
    {
      selectedQuestion := None;
    }

    /** `handleScoreUpdate(teamId, increment)`: nothing happens without an open
        question or without a team of that id in `teamScores`. Otherwise the new
        absolute score is written; a write to a team the store does not hold fails
        and sets the error message. `teamScores` itself is left to the
        subscription. */
    method HandleScoreUpdate(teamId: string, increment: bool)
      requires Valid()
      modifies this, store
      ensures Valid()
      ensures var team := FindTeam(old(teamScores), teamId);
        if team.None? || old(selectedQuestion).None? then
          store.teams == old(store.teams) && error == old(error)
        else
          var newScore := NewScore(team.value.score, old(selectedQuestion).value.points, increment);
          var docs := old(store.TeamDocs(partidaId));
          if HasDoc(docs, teamId) then
            store.teams == old(store.teams)[partidaId := UpdateDocs(docs, teamId, ScorePatch(newScore))]
            && error == old(error)
          else
            store.teams == old(store.teams) && error == Some(ScoreUpdateError)
      ensures store.partidas == old(store.partidas) && store.partidaOrder == old(store.partidaOrder)
      ensures store.nextId == old(store.nextId)
      ensures teamScores == old(teamScores) && selectedQuestion == old(selectedQuestion)
      ensures activatedQuestions == old(activatedQuestions)
      ensures isLoading == old(isLoading) && subscription == old(subscription)
    {
      var team := FindTeam(teamScores, teamId);
      if team.None? || selectedQuestion.None? {
        return;
      }
      var newScore := NewScore(team.value.score, selectedQuestion.value.points, increment);
      var written := UpdateTeamScore(store, partidaId, teamId, newScore);
      if written.Fail? {
        error := Some(ScoreUpdateError);
      }
    }
  }
}
