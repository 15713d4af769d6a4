/** The entry workflow: a gamer of a game enters a published tournament that
    has not started yet, paying the tournament's entry fee into its prize pool
    and becoming a prediction option of that tournament. */
module TournamentEntry {
  import opened Model
  import opened Totals
  import opened Invariants
  import opened Gamers

  /** The validation chain passes: the game and the tournament exist, the
      tournament is published and starts strictly after `now`. */
  predicate Eligible(l: Ledger, gameId: GameId, tid: TournamentId, now: int)
  {
    && gameId in l.games
    && tid in l.tournaments
    && l.tournaments[tid].status == Published
    && now < l.tournaments[tid].startTime
  }

  /** The three effects of a successful entry, taken as one atomic step: the
      entry row with the fee snapshot, the matching prediction option, and the
      prize-pool increment by that same fee. */
  function CommitEntry(l: Ledger, tid: TournamentId, g: GamerRef, initialOdds: Odds): (l': Ledger)
    requires tid in l.tournaments
    // the entry row with the fee the tournament charges at this instant
    ensures l'.entries == l.entries + [Entry(tid, g, l.tournaments[tid].entryFee)]
    // the matching option, with the odds it starts from and nothing staked yet
    ensures l'.options == l.options + [PredictionOption(tid, g, initialOdds, 0)]
    // the prize pool of this tournament, and nothing else of any tournament, grows by that fee
    ensures tid in l'.tournaments && l'.tournaments.Keys == l.tournaments.Keys
    ensures l'.tournaments[tid] == l.tournaments[tid].(prizePool := l.tournaments[tid].prizePool + l.tournaments[tid].entryFee)
    ensures forall u :: u in l.tournaments && u != tid ==> l'.tournaments[u] == l.tournaments[u]
    ensures l'.predictions == l.predictions && l'.gamers == l.gamers && l'.games == l.games
  {
    var t := l.tournaments[tid];
    l.(entries := l.entries + [Entry(tid, g, t.entryFee)],
       options := l.options + [PredictionOption(tid, g, initialOdds, 0)],
       tournaments := l.tournaments[tid := t.(prizePool := t.prizePool + t.entryFee)])
  }

  /** The gamer an eligible request enters is the one registered under the
      TOURNAMENT's game with the given external id, whatever `gameId` was. */
  function EnteringGamer(l: Ledger, tid: TournamentId, gamerId: string): (r: Resolved)
    requires tid in l.tournaments
  {
    FindOrRegister(l, l.tournaments[tid].game, gamerId)
  }

  /** `enterTournament(gameId, tournament, {gamer})` at wall-clock time `now`.
      On success it returns the tournament as updated by the entry. The odds
      a new option starts with are decided by the option store and are passed
      in as `initialOdds`. */
  function EnterTournament(l: Ledger, gameId: GameId, tid: TournamentId, gamerId: string, now: int, initialOdds: Odds)
    : (r: Response<Tournament>)
    // each check of the chain, in order, with its own error
    ensures r.outcome == Err(GameNotFound) <==> gameId !in l.games
    ensures r.outcome == Err(TournamentNotFound) <==> gameId in l.games && tid !in l.tournaments
    ensures r.outcome == Err(NotOpenForEntry) <==>
              gameId in l.games && tid in l.tournaments && l.tournaments[tid].status != Published
    ensures r.outcome == Err(AlreadyStarted) <==>
              gameId in l.games && tid in l.tournaments && l.tournaments[tid].status == Published
              && l.tournaments[tid].startTime <= now
    ensures r.outcome.Err? ==> r.outcome.error in {GameNotFound, TournamentNotFound, NotOpenForEntry, AlreadyStarted, AlreadyEntered}
    // the validation errors are raised before anything is written
    ensures r.outcome.Err? && r.outcome.error != AlreadyEntered ==> r.ledger == l
    // success, or a duplicate, is only possible once the chain has passed
    ensures (r.outcome.Ok? || r.outcome == Err(AlreadyEntered)) <==> Eligible(l, gameId, tid, now)
    // once the chain has passed, a duplicate is decided by the existing entries alone
    ensures Eligible(l, gameId, tid, now) ==>
              (r.outcome == Err(AlreadyEntered) <==> HasEntry(l.entries, tid, EnteringGamer(l, tid, gamerId).gamer))
    // on success: one entry carrying the current fee, one option for the same
    // (tournament, gamer) with a zero total, the prize pool raised by that fee,
    // and nothing else touched
    ensures r.outcome.Ok? ==>
              var t := l.tournaments[tid];
              var g := EnteringGamer(l, tid, gamerId).gamer;
              && g < |r.ledger.gamers| && r.ledger.gamers[g] == Gamer(t.game, gamerId)
              && r.ledger.gamers == EnteringGamer(l, tid, gamerId).ledger.gamers
              && !HasEntry(l.entries, tid, g)
              && r.ledger.entries == l.entries + [Entry(tid, g, t.entryFee)]
              && r.ledger.options == l.options + [PredictionOption(tid, g, initialOdds, 0)]
              && r.ledger.tournaments == l.tournaments[tid := t.(prizePool := t.prizePool + t.entryFee)]
              && r.ledger.predictions == l.predictions
              && r.ledger.games == l.games
              && r.outcome.value == r.ledger.tournaments[tid]
    // a duplicate leaves exactly what the find-or-register step wrote, and nothing more
    ensures r.outcome == Err(AlreadyEntered) ==>
              tid in l.tournaments && r.ledger == EnteringGamer(l, tid, gamerId).ledger
    // whatever the outcome, no prize pool shrinks and no tournament appears or vanishes
    ensures r.ledger.tournaments.Keys == l.tournaments.Keys
    ensures forall u :: u in l.tournaments ==> l.tournaments[u].prizePool <= r.ledger.tournaments[u].prizePool
  {
    if gameId !in l.games then Response(l, Err(GameNotFound))
    else if tid !in l.tournaments then Response(l, Err(TournamentNotFound))
    else if l.tournaments[tid].status != Published then Response(l, Err(NotOpenForEntry))
    else if l.tournaments[tid].startTime <= now then Response(l, Err(AlreadyStarted))
    else
      var resolved := FindOrRegister(l, l.tournaments[tid].game, gamerId);
      var l1 := resolved.ledger;
      if HasEntry(l1.entries, tid, resolved.gamer) then Response(l1, Err(AlreadyEntered))
      else
        var l2 := CommitEntry(l1, tid, resolved.gamer, initialOdds);
        Response(l2, Ok(l2.tournaments[tid]))
  }

  /** In a consistent ledger a duplicate entry writes nothing, not even a
      gamer: a gamer with an entry is necessarily already registered, so the
      find-or-register step before the duplicate check only finds. */
  lemma DuplicateEntryWritesNothing(
    l: Ledger, gameId: GameId, tid: TournamentId, gamerId: string, now: int, initialOdds: Odds)
    requires Valid(l)
    ensures var r := EnterTournament(l, gameId, tid, gamerId, now, initialOdds);
            r.outcome == Err(AlreadyEntered) ==> r.ledger == l
  {
  }

  /** A successful entry keeps the whole ledger consistent: gamers and entries
      stay unique, every entry keeps its option, and every prize pool still
      equals the sum of its entries' fees (likewise the prediction totals). */
  lemma {:induction false} EnterPreservesValid(
    l: Ledger, gameId: GameId, tid: TournamentId, gamerId: string, now: int, initialOdds: Odds)
    requires Valid(l)
    ensures Valid(EnterTournament(l, gameId, tid, gamerId, now, initialOdds).ledger)
  {
    var r := EnterTournament(l, gameId, tid, gamerId, now, initialOdds);
    if r.outcome.Err? {
      if r.outcome.error == AlreadyEntered {
        DuplicateEntryWritesNothing(l, gameId, tid, gamerId, now, initialOdds);
      }
      return;
    }
    var l' := r.ledger;
    var t := l.tournaments[tid];
    var g := EnteringGamer(l, tid, gamerId).gamer;
    var e := Entry(tid, g, t.entryFee);
    assert EntriesUnique(l'.entries) by {
      forall i, j | 0 <= i < j < |l'.entries|
        ensures !(l'.entries[i].tournament == l'.entries[j].tournament && l'.entries[i].gamer == l'.entries[j].gamer)
      {
        if j == |l.entries| {
          assert l'.entries[i] == l.entries[i];
          assert !(l.entries[i].tournament == tid && l.entries[i].gamer == g);
        }
      }
    }
    assert PrizePoolsBalanced(l') by {
      forall u | u in l'.tournaments
        ensures l'.tournaments[u].prizePool == FeesOf(l'.entries, u)
      {
        FeesOfAppend(l.entries, e, u);
      }
    }
    assert OptionTotalsBalanced(l') by {
      forall o | 0 <= o < |l'.options|
        ensures l'.options[o].totalPredictionAmount == StakeOnOption(l'.predictions, o)
      {
        if o == |l.options| {
          StakeOnUnnamedOptionIsZero(l.predictions, o);
        }
      }
    }
    assert TournamentTotalsBalanced(l') by {
      forall u | u in l'.tournaments
        ensures l'.tournaments[u].totalPredictionAmount == StakeOnTournament(l'.predictions, l'.options, u)
      {
        StakeOnTournamentFrame(l.predictions, l.options, l'.options, u);
      }
    }
  }
}
