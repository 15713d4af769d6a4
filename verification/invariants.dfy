/** The consistency invariant of the ledger: every entry names a stored
    tournament and a registered gamer, every option follows its entry, every
    prediction names a stored option, identities are unique, and every
    aggregate counter equals the sum of the records it aggregates. */
module Invariants {
  import opened Model
  import opened Totals

  /** At most one gamer per (game, external gamer id). */
  ghost predicate GamersUnique(gamers: seq<Gamer>)
  {
    forall i, j :: 0 <= i < j < |gamers| ==> gamers[i] != gamers[j]
  }

  /** Every entry names a stored tournament and a registered gamer. */
  ghost predicate EntriesResolve(l: Ledger)
  {
    forall i :: 0 <= i < |l.entries| ==>
      l.entries[i].tournament in l.tournaments && l.entries[i].gamer < |l.gamers|
  }

  /** Some entry links gamer `g` to tournament `tid`. */
  predicate HasEntry(entries: seq<Entry>, tid: TournamentId, g: GamerRef)
  {
    exists i | 0 <= i < |entries| :: entries[i].tournament == tid && entries[i].gamer == g
  }

  /** At most one entry per (tournament, gamer). */
  ghost predicate EntriesUnique(entries: seq<Entry>)
  {
    forall i, j :: 0 <= i < j < |entries| ==>
      !(entries[i].tournament == entries[j].tournament && entries[i].gamer == entries[j].gamer)
  }

  /** Options are created in lock-step with entries: the option at position i
      belongs to the same (tournament, gamer) as the entry at position i. */
  ghost predicate OptionsFollowEntries(l: Ledger)
  {
    && |l.options| == |l.entries|
    && forall i :: 0 <= i < |l.options| ==>
         l.options[i].tournament == l.entries[i].tournament && l.options[i].gamer == l.entries[i].gamer
  }

  /** Every prediction names a stored option. */
  ghost predicate PredictionsResolve(l: Ledger)
  {
    forall i :: 0 <= i < |l.predictions| ==> l.predictions[i].option < |l.options|
  }

  /** prizePool = Σ entryFee over the tournament's entries. */
  ghost predicate PrizePoolsBalanced(l: Ledger)
  {
    forall t :: t in l.tournaments ==> l.tournaments[t].prizePool == FeesOf(l.entries, t)
  }

  /** Option totalPredictionAmount = Σ amount over its predictions. */
  ghost predicate OptionTotalsBalanced(l: Ledger)
  {
    forall o :: 0 <= o < |l.options| ==>
      l.options[o].totalPredictionAmount == StakeOnOption(l.predictions, o)
  }

  /** Tournament totalPredictionAmount = Σ amount over predictions on its options. */
  ghost predicate TournamentTotalsBalanced(l: Ledger)
  {
    forall t :: t in l.tournaments ==>
      l.tournaments[t].totalPredictionAmount == StakeOnTournament(l.predictions, l.options, t)
  }

  ghost predicate Valid(l: Ledger)
  {
    && GamersUnique(l.gamers)
    && EntriesResolve(l)
    && EntriesUnique(l.entries)
    && OptionsFollowEntries(l)
    && PredictionsResolve(l)
    && PrizePoolsBalanced(l)
    && OptionTotalsBalanced(l)
    && TournamentTotalsBalanced(l)
  }

  /** A ledger as the workflows first meet it: games and tournaments exist,
      no gamer, entry, option or prediction has been recorded yet. */
  ghost predicate Pristine(l: Ledger)
  {
    && l.gamers == [] && l.entries == [] && l.options == [] && l.predictions == []
    && forall t :: t in l.tournaments ==>
         l.tournaments[t].prizePool == 0 && l.tournaments[t].totalPredictionAmount == 0
  }

  lemma PristineIsValid(l: Ledger)
    requires Pristine(l)
    ensures Valid(l)
  {
  }

  /** An entry exists for a (tournament, gamer) pair exactly when a prediction
      option exists for that pair. */
  lemma EntryIffOption(l: Ledger, t: TournamentId, g: GamerRef)
    requires Valid(l)
    ensures HasEntry(l.entries, t, g)
        <==> (exists o :: 0 <= o < |l.options| && l.options[o].tournament == t && l.options[o].gamer == g)
  {
  }
}
