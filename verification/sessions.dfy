/** Any sequence of workflow requests, served one after another, each commit
    taken as one atomic step. */
module Sessions {
  import opened Model
  import opened Invariants
  import opened TournamentEntry
  import opened Predictions

  datatype Request =
    | Enter(gameId: GameId, tournament: TournamentId, gamerId: string, now: int, initialOdds: Odds)
    | Place(bettor: UserId, option: OptionId, amount: Money)

  function Apply(l: Ledger, req: Request): Ledger
  {
    match req
    case Enter(gameId, tid, gamerId, now, odds) => EnterTournament(l, gameId, tid, gamerId, now, odds).ledger
    case Place(bettor, oid, amount) => CreatePrediction(l, bettor, oid, amount).ledger
  }

  function Run(l: Ledger, reqs: seq<Request>): Ledger
    decreases |reqs|
  {
    if |reqs| == 0 then l else Run(Apply(l, reqs[0]), reqs[1..])
  }

  /** Records are append-only and counters only ever see their own rows added:
      one request never removes or rewrites an existing gamer, entry or
      prediction, nor changes an existing option's tournament, gamer or odds. */
  ghost predicate Extends(l: Ledger, l': Ledger)
  {
    && l'.games == l.games
    && l'.tournaments.Keys == l.tournaments.Keys
    && l.gamers <= l'.gamers
    && l.entries <= l'.entries
    && l.predictions <= l'.predictions
    && |l.options| <= |l'.options|
    && forall o :: 0 <= o < |l.options| ==>
         && l'.options[o].tournament == l.options[o].tournament
         && l'.options[o].gamer == l.options[o].gamer
         && l'.options[o].odds == l.options[o].odds
  }

  lemma ApplyExtends(l: Ledger, req: Request)
    ensures Extends(l, Apply(l, req))
  {
  }

  lemma ApplyPreservesValid(l: Ledger, req: Request)
    requires Valid(l)
    ensures Valid(Apply(l, req))
  {
    match req
    case Enter(gameId, tid, gamerId, now, odds) => EnterPreservesValid(l, gameId, tid, gamerId, now, odds);
    case Place(bettor, oid, amount) => PredictionPreservesValid(l, bettor, oid, amount);
  }

  /** Starting from a consistent ledger, every point of a session is
      consistent: each prize pool equals the sum of its entry fees, each
      prediction total the sum of its predictions, and no (tournament, gamer)
      pair or (game, gamer id) pair occurs twice. */
  lemma {:induction false} RunPreservesValid(l: Ledger, reqs: seq<Request>)
    requires Valid(l)
    ensures Valid(Run(l, reqs))
    decreases |reqs|
  {
    if |reqs| > 0 {
      ApplyPreservesValid(l, reqs[0]);
      RunPreservesValid(Apply(l, reqs[0]), reqs[1..]);
    }
  }

  /** Over a whole session, what was recorded stays recorded: in particular a
      prediction's odds snapshot is never altered by later requests. */
  lemma {:induction false} RunExtends(l: Ledger, reqs: seq<Request>)
    ensures Extends(l, Run(l, reqs))
    decreases |reqs|
  {
    if |reqs| > 0 {
      var l1 := Apply(l, reqs[0]);
      ApplyExtends(l, reqs[0]);
      RunExtends(l1, reqs[1..]);
    }
  }

  predicate StakesNonNegative(reqs: seq<Request>)
  {
    forall i :: 0 <= i < |reqs| ==> (reqs[i].Place? ==> reqs[i].amount >= 0)
  }

  lemma StakesNonNegativeTail(reqs: seq<Request>)
    requires |reqs| > 0 && StakesNonNegative(reqs)
    ensures StakesNonNegative(reqs[1..])
  {
  }

  /** Whatever is staked, no request removes a tournament or lowers a prize pool;
      when every stake is non-negative, no option total or tournament prediction
      total decreases either. */
  lemma {:induction false} RunCountersNonDecreasing(l: Ledger, reqs: seq<Request>)
    ensures var l' := Run(l, reqs);
            && l'.tournaments.Keys == l.tournaments.Keys
            && |l.options| <= |l'.options|
            && (forall u :: u in l.tournaments ==> l.tournaments[u].prizePool <= l'.tournaments[u].prizePool)
    ensures StakesNonNegative(reqs) ==>
              var l' := Run(l, reqs);
              && (forall u :: u in l.tournaments ==>
                    l.tournaments[u].totalPredictionAmount <= l'.tournaments[u].totalPredictionAmount)
              && (forall o :: 0 <= o < |l.options| ==>
                    l.options[o].totalPredictionAmount <= l'.options[o].totalPredictionAmount)
    decreases |reqs|
  {
    if |reqs| > 0 {
      var l1 := Apply(l, reqs[0]);
      if StakesNonNegative(reqs) {
        StakesNonNegativeTail(reqs);
        if reqs[0].Place? {
          assert reqs[0].amount >= 0;
          PredictionTotalsNonDecreasing(l, reqs[0].bettor, reqs[0].option, reqs[0].amount);
        }
      }
      RunCountersNonDecreasing(l1, reqs[1..]);
    }
  }
}
