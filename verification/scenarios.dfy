/** Concrete runs of the two workflows on a small ledger. */
module Scenarios {
  import opened Model
  import opened Invariants
  import opened TournamentEntry
  import opened Predictions

  /** Game 1 owns tournament 7: published, fee 10, starting at time 100. Game 2
      exists too but owns nothing. */
  function Start(): (l: Ledger)
    ensures Pristine(l)
  {
    Ledger({1, 2}, map[7 := Tournament(1, Published, 100, 10, 0, 0)], [], [], [], [])
  }

  const EvenOdds := Odds(2.0)

  /** A first entry registers the gamer, records the fee 10, creates one option
      and brings the prize pool to 10; a second entry by the same gamer is
      rejected and the prize pool stays 10. */
  lemma EntryThenDuplicate()
    ensures var r1 := EnterTournament(Start(), 1, 7, "neo", 50, EvenOdds);
            && r1.outcome.Ok?
            && r1.ledger.gamers == [Gamer(1, "neo")]
            && r1.ledger.entries == [Entry(7, 0, 10)]
            && r1.ledger.options == [PredictionOption(7, 0, EvenOdds, 0)]
            && r1.ledger.tournaments[7].prizePool == 10
            && var r2 := EnterTournament(r1.ledger, 1, 7, "neo", 60, EvenOdds);
               && r2.outcome == Err(AlreadyEntered)
               && r2.ledger == r1.ledger
  {
    var r1 := EnterTournament(Start(), 1, 7, "neo", 50, EvenOdds);
    assert HasEntry(r1.ledger.entries, 7, 0) by {
      assert r1.ledger.entries[0] == Entry(7, 0, 10);
    }
  }

  /** Placing 5 on that option at odds 2.0 snapshots the odds and raises both
      totals to 5. */
  lemma PredictionAfterEntry()
    ensures var l := EnterTournament(Start(), 1, 7, "neo", 50, EvenOdds).ledger;
            var r := CreatePrediction(l, 42, 0, 5);
            && r.outcome == Ok(Prediction(42, 0, 5, EvenOdds))
            && r.ledger.options[0].totalPredictionAmount == 5
            && r.ledger.tournaments[7].totalPredictionAmount == 5
            && r.ledger.tournaments[7].prizePool == 10
  {
  }

  /** Entry closes at the start time itself, not only after it. */
  lemma EntryAtStartTimeRejected()
    ensures EnterTournament(Start(), 1, 7, "neo", 100, EvenOdds) == Response(Start(), Err(AlreadyStarted))
    ensures EnterTournament(Start(), 1, 7, "neo", 99, EvenOdds).outcome.Ok?
  {
  }

  /** The game id argument is only checked for existence: game 2 can enter a
      gamer into game 1's tournament, and the gamer is registered under game 1. */
  lemma EntryThroughAnotherGame()
    ensures var r := EnterTournament(Start(), 2, 7, "neo", 50, EvenOdds);
            && r.outcome.Ok?
            && r.ledger.gamers == [Gamer(1, "neo")]
  {
  }
}
