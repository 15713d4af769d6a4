/** The prediction workflow: a bettor stakes an amount on a prediction option
    of a published tournament, at the odds the option shows at that moment. */
module Predictions {
  import opened Model
  import opened Totals
  import opened Invariants

  /** The three effects of a placed prediction, taken as one atomic step: the
      prediction row with the odds snapshot, and the same amount added to the
      option's total and to its tournament's total. */
  function CommitPrediction(l: Ledger, bettor: UserId, oid: OptionId, amount: Money): (l': Ledger)
    requires oid < |l.options| && l.options[oid].tournament in l.tournaments
    // the prediction row, with the option's odds copied at this instant
    ensures l'.predictions == l.predictions + [Prediction(bettor, oid, amount, l.options[oid].odds)]
    // only the option's total moves, by exactly the amount
    ensures |l'.options| == |l.options|
    ensures l'.options[oid] == l.options[oid].(totalPredictionAmount := l.options[oid].totalPredictionAmount + amount)
    ensures forall p :: 0 <= p < |l.options| && p != oid ==> l'.options[p] == l.options[p]
    // only the option's tournament's prediction total moves, by exactly the amount
    ensures l'.tournaments.Keys == l.tournaments.Keys
    ensures var tid := l.options[oid].tournament;
            l'.tournaments[tid]
            == l.tournaments[tid].(totalPredictionAmount := l.tournaments[tid].totalPredictionAmount + amount)
    ensures forall u :: u in l.tournaments && u != l.options[oid].tournament ==> l'.tournaments[u] == l.tournaments[u]
    ensures l'.entries == l.entries && l'.gamers == l.gamers && l'.games == l.games
  {
    var o := l.options[oid];
    var t := l.tournaments[o.tournament];
    l.(predictions := l.predictions + [Prediction(bettor, oid, amount, o.odds)],
       options := l.options[oid := o.(totalPredictionAmount := o.totalPredictionAmount + amount)],
       tournaments := l.tournaments[o.tournament := t.(totalPredictionAmount := t.totalPredictionAmount + amount)])
  }

  /** `createPrediction(userId, {predictionOption, amount})`. The amount is
      not validated by the service, so any integer is accepted. */
  function CreatePrediction(l: Ledger, bettor: UserId, oid: OptionId, amount: Money): (r: Response<Prediction>)
    ensures r.outcome == Err(OptionNotFound) <==> oid >= |l.options|
    ensures r.outcome == Err(TournamentMissing) <==>
              oid < |l.options| && l.options[oid].tournament !in l.tournaments
    ensures r.outcome == Err(NotOpenForPrediction) <==>
              oid < |l.options| && l.options[oid].tournament in l.tournaments
              && l.tournaments[l.options[oid].tournament].status != Published
    // every rejection happens before any write
    ensures r.outcome.Err? ==> r.ledger == l
    // success needs only a published tournament: its start time is not consulted
    ensures r.outcome.Ok? <==>
              oid < |l.options| && l.options[oid].tournament in l.tournaments
              && l.tournaments[l.options[oid].tournament].status == Published
    // the returned record is the one appended, with the odds shown at placement
    ensures r.outcome.Ok? ==>
              && r.ledger.predictions == l.predictions + [r.outcome.value]
              && r.outcome.value == Prediction(bettor, oid, amount, l.options[oid].odds)
    // on success both totals rise by exactly the amount; no other option or
    // tournament changes, no option's odds change, and entries, gamers and
    // games are untouched
    ensures r.outcome.Ok? ==>
              var o := l.options[oid];
              var t := l.tournaments[o.tournament];
              && r.ledger.options == l.options[oid := o.(totalPredictionAmount := o.totalPredictionAmount + amount)]
              && r.ledger.tournaments
                 == l.tournaments[o.tournament := t.(totalPredictionAmount := t.totalPredictionAmount + amount)]
              && r.ledger.entries == l.entries && r.ledger.gamers == l.gamers && r.ledger.games == l.games
  {
    if oid >= |l.options| then Response(l, Err(OptionNotFound))
    else if l.options[oid].tournament !in l.tournaments then Response(l, Err(TournamentMissing))
    else if l.tournaments[l.options[oid].tournament].status != Published then Response(l, Err(NotOpenForPrediction))
    else
      var l' := CommitPrediction(l, bettor, oid, amount);
      Response(l', Ok(l'.predictions[|l'.predictions| - 1]))
  }

  /** In a consistent ledger every option's tournament exists, so the
      dangling-tournament failure never arises. */
  lemma NoDanglingTournament(l: Ledger, bettor: UserId, oid: OptionId, amount: Money)
    requires Valid(l)
    ensures CreatePrediction(l, bettor, oid, amount).outcome != Err(TournamentMissing)
  {
  }

  /** A prediction keeps the ledger consistent: each option total still equals
      the sum of the amounts placed on it, and each tournament total the sum of
      the amounts placed on its options. */
  lemma {:induction false} PredictionPreservesValid(l: Ledger, bettor: UserId, oid: OptionId, amount: Money)
    requires Valid(l)
    ensures Valid(CreatePrediction(l, bettor, oid, amount).ledger)
  {
    var r := CreatePrediction(l, bettor, oid, amount);
    if r.outcome.Err? {
      return;
    }
    var l' := r.ledger;
    var p := r.outcome.value;
    assert PredictionsResolve(l');
    assert OptionTotalsBalanced(l') by {
      forall o | 0 <= o < |l'.options|
        ensures l'.options[o].totalPredictionAmount == StakeOnOption(l'.predictions, o)
      {
        StakeOnOptionAppend(l.predictions, p, o);
      }
    }
    assert TournamentTotalsBalanced(l') by {
      forall u | u in l'.tournaments
        ensures l'.tournaments[u].totalPredictionAmount == StakeOnTournament(l'.predictions, l'.options, u)
      {
        StakeOnTournamentAppend(l.predictions, l'.options, p, u);
        StakeOnTournamentFrame(l.predictions, l.options, l'.options, u);
      }
    }
  }

  /** With a non-negative amount (a condition the service itself does not
      enforce) no option total and no tournament total decreases. */
  lemma PredictionTotalsNonDecreasing(l: Ledger, bettor: UserId, oid: OptionId, amount: Money)
    requires amount >= 0
    ensures var l' := CreatePrediction(l, bettor, oid, amount).ledger;
            && |l'.options| == |l.options|
            && (forall p :: 0 <= p < |l.options| ==>
                  l.options[p].totalPredictionAmount <= l'.options[p].totalPredictionAmount)
            && l'.tournaments.Keys == l.tournaments.Keys
            && (forall u :: u in l.tournaments ==>
                  l.tournaments[u].totalPredictionAmount <= l'.tournaments[u].totalPredictionAmount)
  {
  }
}
